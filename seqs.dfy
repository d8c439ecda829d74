/** The array operations the screens build their state updates from:
    `Array.prototype.filter`, removing every occurrence of a value, and the
    "remove it if present, otherwise append it" toggle that both the
    multi-select and the FAQ use. */
module Seqs {

  /** `s.filter(keep)`: the elements satisfying `keep`, in their original order. */
  function Filter<T>(keep: T -> bool, s: seq<T>): (r: seq<T>)
    ensures |r| <= |s|
    ensures forall i :: 0 <= i < |r| ==> r[i] in s && keep(r[i])
    ensures forall i :: 0 <= i < |s| && keep(s[i]) ==> s[i] in r
    ensures (forall i :: 0 <= i < |s| ==> keep(s[i])) ==> r == s
    ensures (forall i :: 0 <= i < |s| ==> !keep(s[i])) ==> r == []
  {
    if s == [] then []
    else if keep(s[0]) then [s[0]] + Filter(keep, s[1..])
    else Filter(keep, s[1..])
  }

  /** Filtering distributes over concatenation, which is what "keeps the
      other elements in their order" amounts to. */
  lemma {:induction false} FilterAppend<T>(keep: T -> bool, a: seq<T>, b: seq<T>)
    ensures Filter(keep, a + b) == Filter(keep, a) + Filter(keep, b)
  {
    if a == [] {
      assert a + b == b;
    } else {
      assert (a + b)[1..] == a[1..] + b;
      FilterAppend(keep, a[1..], b);
    }
  }

  /** `s.filter(p).length`: how many elements satisfy `p`. */
  function Count<T>(p: T -> bool, s: seq<T>): (n: nat)
    ensures n <= |s|
    ensures n == 0 <==> forall i :: 0 <= i < |s| ==> !p(s[i])
    ensures n == |s| <==> forall i :: 0 <= i < |s| ==> p(s[i])
  {
    if s == [] then 0
    else (if p(s[0]) then 1 else 0) + Count(p, s[1..])
  }

  /** Counting a filter's result counts the kept elements. */
  lemma {:induction false} CountIsFilterLength<T>(p: T -> bool, s: seq<T>)
    ensures Count(p, s) == |Filter(p, s)|
  {
    if s != [] {
      CountIsFilterLength(p, s[1..]);
    }
  }

  predicate NoDuplicates<T(==)>(s: seq<T>)
  {
    forall i, j :: 0 <= i < j < |s| ==> s[i] != s[j]
  }

  /** `s.filter(v => v !== x)` */
  function RemoveAll<T(==)>(s: seq<T>, x: T): (r: seq<T>)
    ensures x !in r
    ensures forall i :: 0 <= i < |r| ==> r[i] in s
    ensures forall i :: 0 <= i < |s| && s[i] != x ==> s[i] in r
    ensures x !in s ==> r == s
    ensures NoDuplicates(s) ==> NoDuplicates(r)
  {
    if s == [] then []
    else if s[0] == x then RemoveAll(s[1..], x)
    else
      var r := [s[0]] + RemoveAll(s[1..], x);
      assert NoDuplicates(s) ==> s[0] !in s[1..];
      r
  }

  /** The order-keeping reading of RemoveAll: it is the filter that drops `x`. */
  lemma {:induction false} RemoveAllIsFilter<T>(s: seq<T>, x: T)
    ensures RemoveAll(s, x) == Filter(y => y != x, s)
  {
    if s != [] {
      RemoveAllIsFilter(s[1..], x);
    }
  }

  /** Removal distributes over concatenation: what remains keeps its order. */
  lemma {:induction false} RemoveAllAppend<T>(a: seq<T>, b: seq<T>, x: T)
    ensures RemoveAll(a + b, x) == RemoveAll(a, x) + RemoveAll(b, x)
  {
    if a == [] {
      assert a + b == b;
    } else {
      assert (a + b)[1..] == a[1..] + b;
      RemoveAllAppend(a[1..], b, x);
    }
  }

  /** `s.includes(x) ? s.filter(v => v !== x) : [...s, x]` */
  function Toggle<T(==)>(s: seq<T>, x: T): (r: seq<T>)
    ensures x in s ==> r == RemoveAll(s, x)
    ensures x !in s ==> r == s + [x]
    ensures x in r <==> x !in s
    ensures forall i :: 0 <= i < |r| && r[i] != x ==> r[i] in s
    ensures forall i :: 0 <= i < |s| && s[i] != x ==> s[i] in r
  {
    if x in s then RemoveAll(s, x) else s + [x]
  }

  /** Toggling keeps a list free of duplicates. */
  lemma ToggleKeepsNoDuplicates<T>(s: seq<T>, x: T)
    requires NoDuplicates(s)
    ensures NoDuplicates(Toggle(s, x))
  {
    if x !in s {
      var r := s + [x];
      forall i, j | 0 <= i < j < |r| ensures r[i] != r[j] {
        if j == |s| {
          assert r[i] == s[i];
        }
      }
    }
  }

  /** Toggling a value that was absent twice gives back the original list. */
  lemma {:induction false} ToggleTwiceFromAbsent<T>(s: seq<T>, x: T)
    requires x !in s
    ensures Toggle(Toggle(s, x), x) == s
  {
    RemoveAllAppended(s, x);
  }

  lemma {:induction false} RemoveAllAppended<T>(s: seq<T>, x: T)
    requires x !in s
    ensures RemoveAll(s + [x], x) == s
  {
    if s == [] {
      assert [x][1..] == [];
    } else {
      assert (s + [x])[1..] == s[1..] + [x];
      RemoveAllAppended(s[1..], x);
    }
  }

  /** Toggling a present value twice does not give the list back: it
      moves the value (once) to the end. */
  lemma ToggleTwiceFromPresent<T>(s: seq<T>, x: T)
    requires x in s
    ensures Toggle(Toggle(s, x), x) == RemoveAll(s, x) + [x]
  {
  }

  /** Toggling the same value twice gives back the same members, whether or
      not the value was there (only its position may change). */
  lemma ToggleTwiceSameMembers<T>(s: seq<T>, x: T)
    ensures forall y :: y in Toggle(Toggle(s, x), x) <==> y in s
  {
    if x !in s {
      ToggleTwiceFromAbsent(s, x);
    } else {
      var t := Toggle(Toggle(s, x), x);
      ToggleTwiceFromPresent(s, x);
      forall y ensures y in t <==> y in s {
        if y != x && y in s {
          var i :| 0 <= i < |s| && s[i] == y;
          assert s[i] in RemoveAll(s, x);
        }
        if y != x && y in t {
          var i :| 0 <= i < |t| && t[i] == y;
          assert i < |RemoveAll(s, x)|;
        }
      }
    }
  }
}
