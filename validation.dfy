/** The registration form schemas of frontend/utils/validation.ts, as
    acceptance predicates: a field value is accepted when every check zod
    runs on it passes. Lengths are JavaScript lengths (UTF-16 code units).
    The date-of-birth refinement reads the clock, so the step-2 schema
    takes its verdict as a parameter. */
module Validation {
  import opened Text

  const PseudoMinLength := 3
  const PseudoMaxLength := 20
  const NameMinLength := 2
  const NameMaxLength := 50
  const HeightMin := 50
  const HeightMax := 250

  /** One character of `/^[a-zA-Z0-9_]+$/`. */
  predicate IsPseudoChar(c: char) { IsAsciiLetter(c) || IsDigit(c) || c == '_' }

  predicate MatchesPseudoPattern(s: string)
  {
    1 <= |s| && forall i :: 0 <= i < |s| ==> IsPseudoChar(s[i])
  }

  /** `step1Schema.pseudo`: `.min(3)`, `.max(20)` and the pattern. */
  predicate PseudoAccepted(pseudo: string)
  {
    PseudoMinLength <= Utf16Length(pseudo) <= PseudoMaxLength && MatchesPseudoPattern(pseudo)
  }

  /** `firstName` and `lastName`: `.min(2)` and `.max(50)`. */
  predicate NameAccepted(name: string)
  {
    NameMinLength <= Utf16Length(name) <= NameMaxLength
  }

  /** `/^\d{2,3}$/`: two or three ASCII digits and nothing else. */
  predicate MatchesHeightPattern(s: string)
  {
    2 <= |s| <= 3 && AllDigits(s)
  }

  /** `height`: `.min(1)`, the pattern, and `parseInt` in [50, 250]. The
      refinement is read only where the pattern holds; elsewhere the
      pattern has already rejected the value. */
  predicate HeightAccepted(height: string)
  {
    1 <= Utf16Length(height)
    && MatchesHeightPattern(height)
    && HeightMin <= DecimalValue(height) <= HeightMax
  }

  const Genders: seq<string> := ["homme", "femme", "autre"]
  const BodyTypes: seq<string> := ["athlétique", "moyenne", "mince", "ronde", "musclée"]

  /** `gender`: the enum, then the `val !== ''` refinement. */
  predicate GenderAccepted(gender: string)
  {
    gender in Genders && gender != ""
  }

  /** `bodyType`: the enum, then the `val !== ''` refinement. */
  predicate BodyTypeAccepted(bodyType: string)
  {
    bodyType in BodyTypes && bodyType != ""
  }

  /** `city`: `.min(2)` and `.max(50)`. */
  predicate CityAccepted(city: string)
  {
    NameMinLength <= Utf16Length(city) <= NameMaxLength
  }

  predicate Step1Accepted(pseudo: string) { PseudoAccepted(pseudo) }

  predicate Step2Accepted(firstName: string, lastName: string, height: string, dateOfBirthAccepted: bool)
  {
    NameAccepted(firstName) && NameAccepted(lastName) && HeightAccepted(height) && dateOfBirthAccepted
  }

  predicate Step3Accepted(gender: string, bodyType: string, city: string)
  {
    GenderAccepted(gender) && BodyTypeAccepted(bodyType) && CityAccepted(city)
  }

  /** A pseudo is accepted exactly when it has 3 to 20 characters, each an
      ASCII letter, an ASCII digit or an underscore. */
  lemma PseudoAcceptedIff(pseudo: string)
    ensures PseudoAccepted(pseudo) <==>
      3 <= |pseudo| <= 20 && forall i :: 0 <= i < |pseudo| ==> IsPseudoChar(pseudo[i])
  {
    if forall i :: 0 <= i < |pseudo| ==> IsPseudoChar(pseudo[i]) {
      Utf16LengthInBmp(pseudo);
    }
  }

  /** A space or a hyphen anywhere makes a pseudo invalid, whatever its length. */
  lemma PseudoRejectsSpaceAndHyphen(pseudo: string, i: nat)
    requires i < |pseudo| && (pseudo[i] == ' ' || pseudo[i] == '-')
    ensures !PseudoAccepted(pseudo)
  {
    assert !IsPseudoChar(pseudo[i]);
  }

  /** A name is accepted exactly when its JavaScript length is in [2, 50];
      for text without astral characters that is the character count. */
  lemma NameAcceptedInBmp(name: string)
    requires InBmp(name)
    ensures NameAccepted(name) <==> 2 <= |name| <= 50
  {
    Utf16LengthInBmp(name);
  }

  /** The city follows the same rule as the names. */
  lemma CityAcceptedInBmp(city: string)
    requires InBmp(city)
    ensures CityAccepted(city) <==> 2 <= |city| <= 50
  {
    Utf16LengthInBmp(city);
  }

  /** The height rule stated without the redundant `.min(1)`: two or three
      digits whose value lies in [50, 250]. */
  lemma HeightAcceptedIff(height: string)
    ensures HeightAccepted(height) <==>
      2 <= |height| <= 3 && AllDigits(height) && 50 <= DecimalValue(height) <= 250
  {
    if 2 <= |height| <= 3 && AllDigits(height) {
      Utf16LengthInBmp(height);
    }
  }

  /** The values named in the schema's own messages and their neighbours. */
  lemma HeightEdgeCases()
    ensures !HeightAccepted("49") && HeightAccepted("50")
    ensures HeightAccepted("250") && !HeightAccepted("251")
    ensures !HeightAccepted("1000") && HeightAccepted("050")
    ensures !HeightAccepted("") && !HeightAccepted("5")
  {
    assert DecimalValue("49") == 49 by { assert "49"[..1] == "4"; }
    assert DecimalValue("50") == 50 by { assert "50"[..1] == "5"; }
    assert DecimalValue("250") == 250 by { assert "250"[..2] == "25"; assert "25"[..1] == "2"; }
    assert DecimalValue("251") == 251 by { assert "251"[..2] == "25"; assert "25"[..1] == "2"; }
    assert DecimalValue("050") == 50 by { assert "050"[..2] == "05"; assert "05"[..1] == "0"; }
    Utf16LengthInBmp("50");
    Utf16LengthInBmp("250");
    Utf16LengthInBmp("050");
  }

  /** The `!== ''` refinements never change a verdict: no enum value is empty. */
  lemma EnumRefinementsRedundant(gender: string, bodyType: string)
    ensures GenderAccepted(gender) <==> gender == "homme" || gender == "femme" || gender == "autre"
    ensures BodyTypeAccepted(bodyType) <==>
      bodyType in {"athlétique", "moyenne", "mince", "ronde", "musclée"}
  {
  }

  /** The second step accepts two names of 2 to 50 characters, a height of
      two or three digits in [50, 250], and a date the clock accepts. */
  lemma Step2AcceptedIff(firstName: string, lastName: string, height: string, dateOfBirthAccepted: bool)
    requires InBmp(firstName) && InBmp(lastName)
    ensures Step2Accepted(firstName, lastName, height, dateOfBirthAccepted) <==>
      2 <= |firstName| <= 50 && 2 <= |lastName| <= 50 && dateOfBirthAccepted
      && 2 <= |height| <= 3 && AllDigits(height) && 50 <= DecimalValue(height) <= 250
  {
    NameAcceptedInBmp(firstName);
    NameAcceptedInBmp(lastName);
    HeightAcceptedIff(height);
  }

  /** The third step accepts one of the listed genders and body types and
      a city of 2 to 50 characters. */
  lemma Step3AcceptedIff(gender: string, bodyType: string, city: string)
    requires InBmp(city)
    ensures Step3Accepted(gender, bodyType, city) <==>
      gender in Genders && bodyType in BodyTypes && 2 <= |city| <= 50
  {
    CityAcceptedInBmp(city);
  }
}
