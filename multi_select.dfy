/** The multi-select field (used for spoken languages): pressing an option
    toggles its value in the selection handed back to the parent, and the
    closed field shows a summary of the selection. */
module MultiSelect {
  import opened Wrappers
  import opened Text
  import Seqs

  /** A `MultiSelectOption`; its `label` is called `caption` here. */
  datatype Choice = Choice(value: string, caption: string)

  const SelectedSuffix := " langues sélectionnées"

  /** `toggleOption`: the new selection handed to `onSelectionChange`. */
  function ToggleOption(selected: seq<string>, value: string): (r: seq<string>)
    ensures value in selected ==> r == Seqs.RemoveAll(selected, value)
    ensures value !in selected ==> r == selected + [value]
    ensures value in r <==> value !in selected
    ensures forall v :: v != value ==> (v in r <==> v in selected)
  {
    var r := Seqs.Toggle(selected, value);
    assert forall v :: v != value && v in r ==> v in selected by {
      forall v | v != value && v in r ensures v in selected {
        var i :| 0 <= i < |r| && r[i] == v;
      }
    }
    assert forall v :: v != value && v in selected ==> v in r by {
      forall v | v != value && v in selected ensures v in r {
        var i :| 0 <= i < |selected| && selected[i] == v;
      }
    }
    r
  }

  /** Index `i` holds the first option with this value. */
  predicate FirstWithValue(options: seq<Choice>, value: string, i: int)
  {
    0 <= i < |options| && options[i].value == value && forall k :: 0 <= k < i ==> options[k].value != value
  }

  /** `options.find(opt => opt.value === value)` */
  function FindOption(options: seq<Choice>, value: string): (r: Option<Choice>)
    ensures r.None? <==> forall i :: 0 <= i < |options| ==> options[i].value != value
    ensures r.Some? ==> exists i :: FirstWithValue(options, value, i) && options[i] == r.value
  {
    if options == [] then None
    else if options[0].value == value then Some(options[0])
    else
      var r := FindOption(options[1..], value);
      if r.Some? then
        var i :| FirstWithValue(options[1..], value, i) && options[1..][i] == r.value;
        assert FirstWithValue(options, value, i + 1) && options[i + 1] == r.value;
        r
      else r
  }

  /** `getDisplayText`: the placeholder for no selection; for one value the
      label of the first option carrying it, falling back to the value
      itself when there is no such option or its label is empty; otherwise
      the count followed by " langues sélectionnées". */
  function DisplayText(options: seq<Choice>, selected: seq<string>, placeholder: string): (r: string)
    ensures |selected| == 0 ==> r == placeholder
    ensures |selected| == 1 && (forall i :: 0 <= i < |options| ==> options[i].value != selected[0]) ==>
      r == selected[0]
    ensures |selected| == 1 ==> forall i :: FirstWithValue(options, selected[0], i) ==>
      r == if options[i].caption != "" then options[i].caption else selected[0]
    ensures |selected| >= 2 ==> r == NatToString(|selected|) + SelectedSuffix
  {
    if |selected| == 0 then placeholder
    else if |selected| == 1 then
      var found := FindOption(options, selected[0]);
      assert forall i, j :: FirstWithValue(options, selected[0], i) && FirstWithValue(options, selected[0], j) ==> i == j;
      if found.Some? && found.value.caption != "" then found.value.caption else selected[0]
    else NatToString(|selected|) + SelectedSuffix
  }

  /** With two or more values the summary starts with the decimal count,
      which can be read back, and ends with the fixed suffix. */
  lemma DisplayTextCount(options: seq<Choice>, selected: seq<string>, placeholder: string)
    requires |selected| >= 2
    ensures var r := DisplayText(options, selected, placeholder);
      var k := |r| - |SelectedSuffix|;
      && 1 <= k && AllDigits(r[..k]) && DecimalValue(r[..k]) == |selected|
      && r[k..] == SelectedSuffix
  {
    var r := DisplayText(options, selected, placeholder);
    var digits := NatToString(|selected|);
    assert r[..|digits|] == digits;
    assert r[|digits|..] == SelectedSuffix;
  }

  /** Toggling a value that was absent twice restores the selection, and a
      selection without duplicates stays without duplicates. */
  lemma ToggleOptionRoundTrip(selected: seq<string>, value: string)
    ensures value !in selected ==> ToggleOption(ToggleOption(selected, value), value) == selected
    ensures Seqs.NoDuplicates(selected) ==> Seqs.NoDuplicates(ToggleOption(selected, value))
  {
    if value !in selected {
      Seqs.ToggleTwiceFromAbsent(selected, value);
    }
    if Seqs.NoDuplicates(selected) {
      Seqs.ToggleKeepsNoDuplicates(selected, value);
    }
  }

  /** Removing a present value keeps the other values in their order: the
      removal distributes over any split of the selection. */
  lemma ToggleOptionKeepsOrder(a: seq<string>, b: seq<string>, value: string)
    requires value in a + b
    ensures ToggleOption(a + b, value) == Seqs.RemoveAll(a, value) + Seqs.RemoveAll(b, value)
  {
    Seqs.RemoveAllAppend(a, b, value);
  }
}
