/** Character classes and string conversions that the screens rely on:
    ASCII digits and letters, the decimal rendering of a non-negative
    number (JavaScript's `toString()`), `padStart(2, '0')`, `trim()` and
    JavaScript's `length`, which counts UTF-16 code units. */
module Text {

  predicate IsDigit(c: char) { '0' <= c <= '9' }

  predicate IsAsciiLetter(c: char) { 'a' <= c <= 'z' || 'A' <= c <= 'Z' }

  predicate AllDigits(s: string) { forall i :: 0 <= i < |s| ==> IsDigit(s[i]) }

  function DigitValue(c: char): (d: nat)
    requires IsDigit(c)
    ensures d < 10
  {
    c as int - '0' as int
  }

  function DigitChar(d: nat): (c: char)
    requires d < 10
    ensures IsDigit(c) && DigitValue(c) == d
  {
    ('0' as int + d) as char
  }

  /** The value of a string of decimal digits (what `parseInt` yields on one). */
  function DecimalValue(s: string): nat
    requires AllDigits(s)
  {
    if s == [] then 0 else DecimalValue(s[..|s| - 1]) * 10 + DigitValue(s[|s| - 1])
  }

  /** `n.toString()` for a non-negative integer: the shortest decimal rendering. */
  function NatToString(n: nat): (r: string)
    ensures 1 <= |r| && AllDigits(r)
    ensures DecimalValue(r) == n
    ensures r[0] == '0' ==> r == "0"
  {
    if n < 10 then [DigitChar(n)]
    else
      var r := NatToString(n / 10) + [DigitChar(n % 10)];
      assert r[..|r| - 1] == NatToString(n / 10);
      r
  }

  /** One digit below ten, two below a hundred. */
  lemma NatToStringBelowHundred(n: nat)
    requires n < 100
    ensures |NatToString(n)| == if n < 10 then 1 else 2
  {
    if n >= 10 {
      assert NatToString(n / 10) == [DigitChar(n / 10)];
    }
  }

  /** A digit string without a superfluous leading zero renders back to itself. */
  lemma {:induction false} NatToStringOfDecimal(s: string)
    requires 1 <= |s| && AllDigits(s)
    requires s[0] == '0' ==> s == "0"
    ensures NatToString(DecimalValue(s)) == s
  {
    if |s| > 1 {
      var init := s[..|s| - 1];
      NatToStringOfDecimal(init);
      DecimalPositive(init);
      var n := DecimalValue(s);
      assert n / 10 == DecimalValue(init) && n % 10 == DigitValue(s[|s| - 1]);
      assert s == init + [s[|s| - 1]];
    }
  }

  lemma {:induction false} DecimalPositive(s: string)
    requires 1 <= |s| && AllDigits(s) && s[0] != '0'
    ensures DecimalValue(s) > 0
  {
    if |s| > 1 {
      DecimalPositive(s[..|s| - 1]);
    }
  }

  /** `s.padStart(2, '0')` */
  function PadStart2(s: string): (r: string)
    ensures |r| == if |s| < 2 then 2 else |s|
    ensures r[|r| - |s|..] == s
    ensures forall i :: 0 <= i < |r| - |s| ==> r[i] == '0'
  {
    if |s| == 0 then "00" else if |s| == 1 then "0" + s else s
  }

  /** The characters JavaScript's `trim()` removes: WhiteSpace and LineTerminator. */
  predicate IsJsWhitespace(c: char)
  {
    c == '\t' || c == '\n' || c == '\U{B}' || c == '\U{C}' || c == '\r' || c == ' '
    || c == '\U{A0}' || c == '\U{1680}' || ('\U{2000}' <= c <= '\U{200A}')
    || c == '\U{2028}' || c == '\U{2029}' || c == '\U{202F}' || c == '\U{205F}'
    || c == '\U{3000}' || c == '\U{FEFF}'
  }

  function TrimStart(s: string): (r: string)
    ensures |r| <= |s| && r == s[|s| - |r|..]
    ensures r == [] || !IsJsWhitespace(r[0])
  {
    if s != [] && IsJsWhitespace(s[0]) then TrimStart(s[1..]) else s
  }

  function TrimEnd(s: string): (r: string)
    ensures |r| <= |s| && r == s[..|r|]
    ensures r == [] || !IsJsWhitespace(r[|r| - 1])
  {
    if s != [] && IsJsWhitespace(s[|s| - 1]) then TrimEnd(s[..|s| - 1]) else s
  }

  /** `s.trim()` */
  function Trim(s: string): string
  {
    TrimEnd(TrimStart(s))
  }

  /** A string trims to nothing exactly when every character of it is whitespace. */
  lemma TrimEmptyIff(s: string)
    ensures Trim(s) == [] <==> forall i :: 0 <= i < |s| ==> IsJsWhitespace(s[i])
  {
    if forall i :: 0 <= i < |s| ==> IsJsWhitespace(s[i]) {
      AllWhitespaceTrimStart(s);
    } else {
      var i :| 0 <= i < |s| && !IsJsWhitespace(s[i]);
      TrimStartKeeps(s, i);
      var t := TrimStart(s);
      if TrimEnd(t) == [] {
        AllWhitespaceOfEmptyTrimEnd(t);
        assert false;
      }
    }
  }

  lemma {:induction false} AllWhitespaceTrimStart(s: string)
    requires forall i :: 0 <= i < |s| ==> IsJsWhitespace(s[i])
    ensures TrimStart(s) == []
  {
    if s != [] {
      AllWhitespaceTrimStart(s[1..]);
    }
  }

  lemma {:induction false} TrimStartKeeps(s: string, i: nat)
    requires i < |s| && !IsJsWhitespace(s[i])
    ensures |s| - |TrimStart(s)| <= i
  {
    if s != [] && IsJsWhitespace(s[0]) {
      TrimStartKeeps(s[1..], i - 1);
    }
  }

  lemma {:induction false} AllWhitespaceOfEmptyTrimEnd(s: string)
    requires TrimEnd(s) == []
    ensures forall i :: 0 <= i < |s| ==> IsJsWhitespace(s[i])
  {
    if s != [] {
      AllWhitespaceOfEmptyTrimEnd(s[..|s| - 1]);
      assert forall i :: 0 <= i < |s| - 1 ==> s[i] == s[..|s| - 1][i];
    }
  }

  /** JavaScript's `s.length`: characters outside the Basic Multilingual
      Plane take two UTF-16 code units. */
  function Utf16Length(s: string): (n: nat)
    ensures |s| <= n <= 2 * |s|
  {
    if s == [] then 0
    else Utf16Length(s[..|s| - 1]) + (if s[|s| - 1] as int >= 0x1_0000 then 2 else 1)
  }

  predicate InBmp(s: string) { forall i :: 0 <= i < |s| ==> s[i] as int < 0x1_0000 }

  /** On text without astral characters JavaScript's length is the character count. */
  lemma {:induction false} Utf16LengthInBmp(s: string)
    requires InBmp(s)
    ensures Utf16Length(s) == |s|
  {
    if s != [] {
      Utf16LengthInBmp(s[..|s| - 1]);
    }
  }

  /** `text.replace(/\D/g, '')`, also written `replace(/[^0-9]/g, '')`. */
  function KeepDigits(text: string): (r: string)
    ensures AllDigits(r) && |r| <= |text|
  {
    if text == [] then []
    else if IsDigit(text[0]) then [text[0]] + KeepDigits(text[1..])
    else KeepDigits(text[1..])
  }

  /** Keeping the digits of a digit string changes nothing. */
  lemma {:induction false} KeepDigitsOfDigits(s: string)
    requires AllDigits(s)
    ensures KeepDigits(s) == s
  {
    if s != [] {
      KeepDigitsOfDigits(s[1..]);
    }
  }

  lemma {:induction false} NoDigitsKeepsNothing(text: string)
    requires forall i :: 0 <= i < |text| ==> !IsDigit(text[i])
    ensures KeepDigits(text) == ""
  {
    if text != [] {
      NoDigitsKeepsNothing(text[1..]);
    }
  }
}
