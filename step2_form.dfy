/** The date-of-birth mask of the second registration step: every
    keystroke is reformatted into `DD/MM/YYYY` from the digits typed so far. */
module Step2Form {
  import opened Text

  function Min(a: int, b: int): int { if a <= b then a else b }

  /** `formatDate` */
  function FormatDate(text: string): (r: string)
  {
    var numbers := KeepDigits(text);
    if |numbers| <= 2 then numbers
    else if |numbers| <= 4 then numbers[..2] + "/" + numbers[2..]
    else numbers[..2] + "/" + numbers[2..4] + "/" + numbers[4..Min(8, |numbers|)]
  }

  /** `s` with its slashes taken out. */
  function WithoutSlashes(s: string): string
  {
    if s == [] then []
    else if s[0] == '/' then WithoutSlashes(s[1..])
    else [s[0]] + WithoutSlashes(s[1..])
  }

  lemma {:induction false} WithoutSlashesAppend(a: string, b: string)
    ensures WithoutSlashes(a + b) == WithoutSlashes(a) + WithoutSlashes(b)
  {
    if a == [] {
      assert a + b == b;
    } else {
      assert (a + b)[1..] == a[1..] + b;
      WithoutSlashesAppend(a[1..], b);
    }
  }

  lemma {:induction false} WithoutSlashesOfDigits(s: string)
    requires AllDigits(s)
    ensures WithoutSlashes(s) == s
  {
    if s != [] {
      WithoutSlashesOfDigits(s[1..]);
    }
  }

  /** The mask is made of digits and slashes, at most ten characters, with
      the slashes exactly at indices 2 and 5 as far as the digits reach. */
  lemma {:induction false} FormatDateShape(text: string)
    ensures var r := FormatDate(text);
      var d := |KeepDigits(text)|;
      && |r| <= 10
      && (forall i :: 0 <= i < |r| ==> IsDigit(r[i]) || r[i] == '/')
      && (d <= 2 ==> forall i :: 0 <= i < |r| ==> r[i] != '/')
      && (3 <= d <= 4 ==> forall i :: 0 <= i < |r| ==> (r[i] == '/' <==> i == 2))
      && (5 <= d ==> forall i :: 0 <= i < |r| ==> (r[i] == '/' <==> i == 2 || i == 5))
  {
  }

  /** Joining two digit strings with a slash and taking the slash out again
      gives their concatenation. */
  lemma {:induction false} WithoutSlashesJoin(a: string, b: string)
    requires AllDigits(a) && AllDigits(b)
    ensures WithoutSlashes(a + "/" + b) == a + b
  {
    WithoutSlashesAppend(a + "/", b);
    WithoutSlashesAppend(a, "/");
    WithoutSlashesOfDigits(a);
    WithoutSlashesOfDigits(b);
  }

  lemma {:induction false} WithoutSlashesJoin3(a: string, b: string, c: string)
    requires AllDigits(a) && AllDigits(b) && AllDigits(c)
    ensures WithoutSlashes(a + "/" + b + "/" + c) == a + b + c
  {
    WithoutSlashesJoin(a, b);
    assert a + "/" + b + "/" + c == (a + "/" + b) + ("/" + c);
    WithoutSlashesAppend(a + "/" + b, "/" + c);
    WithoutSlashesAppend("/", c);
    assert WithoutSlashes("/") == WithoutSlashes("/"[1..]) == [];
    WithoutSlashesOfDigits(c);
  }

  /** Taking the slashes back out yields the first min(8, d) digits typed. */
  lemma {:induction false} FormatDateDigits(text: string)
    ensures var n := KeepDigits(text);
      WithoutSlashes(FormatDate(text)) == n[..Min(8, |n|)]
  {
    var n := KeepDigits(text);
    if |n| <= 2 {
      WithoutSlashesOfDigits(n);
      assert n[..Min(8, |n|)] == n;
    } else if |n| <= 4 {
      WithoutSlashesJoin(n[..2], n[2..]);
      assert n[..2] + n[2..] == n;
    } else {
      var k := Min(8, |n|);
      var a, b, c := n[..2], n[2..4], n[4..k];
      WithoutSlashesJoin3(a, b, c);
      assert a + b + c == n[..k];
    }
  }

  /** The digits of a mask are the first min(8, d) digits of the input. */
  lemma {:induction false} KeepDigitsOfFormatDate(text: string)
    ensures var n := KeepDigits(text);
      KeepDigits(FormatDate(text)) == n[..Min(8, |n|)]
  {
    var n := KeepDigits(text);
    var r := FormatDate(text);
    FormatDateDigits(text);
    FilterSlashAndDigits(r);
  }

  /** On text made of digits and slashes, dropping the slashes is keeping the digits. */
  lemma {:induction false} FilterSlashAndDigits(s: string)
    requires forall i :: 0 <= i < |s| ==> IsDigit(s[i]) || s[i] == '/'
    ensures KeepDigits(s) == WithoutSlashes(s)
  {
    if s != [] {
      FilterSlashAndDigits(s[1..]);
    }
  }

  /** Formatting an already formatted date changes nothing. */
  lemma {:induction false} FormatDateIdempotent(text: string)
    ensures FormatDate(FormatDate(text)) == FormatDate(text)
  {
    var n := KeepDigits(text);
    FormatDateShape(text);
    KeepDigitsOfFormatDate(text);
    var m := n[..Min(8, |n|)];
    assert KeepDigits(FormatDate(text)) == m;
    if |n| > 4 {
      assert m[..2] == n[..2] && m[2..4] == n[2..4] && m[4..Min(8, |m|)] == n[4..Min(8, |n|)];
    } else if |n| > 2 {
      assert m == n;
    }
  }

  /** Input without a digit leaves the field empty. */
  lemma FormatDateWithoutDigits(text: string)
    requires forall i :: 0 <= i < |text| ==> !IsDigit(text[i])
    ensures FormatDate(text) == ""
  {
    NoDigitsKeepsNothing(text);
  }

  lemma FormatDateExamples()
    ensures FormatDate("123") == "12/3"
    ensures FormatDate("12345678") == "12/34/5678"
  {
    KeepDigitsOfDigits("123");
    KeepDigitsOfDigits("12345678");
  }
}
