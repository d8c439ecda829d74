/** The FAQ screen: a list of expanded question ids, opened and closed by
    pressing a question. */
module Faq {
  import Seqs

  const InitiallyExpanded: seq<string> := ["1"]

  class FaqScreen {
    var expandedItems: seq<string>

    /** No id is listed twice. */
    ghost predicate Valid()
      reads this
    {
      Seqs.NoDuplicates(expandedItems)
    }

    constructor ()
      ensures Valid() && expandedItems == InitiallyExpanded
    {
      expandedItems := InitiallyExpanded;
    }

    /** `isExpanded` */
    method IsExpanded(id: string) returns (expanded: bool)
      ensures expanded <==> id in expandedItems
    {
      expanded := id in expandedItems;
    }

    /** `toggleExpanded`: drop the id if it is expanded, append it otherwise.
        Only that id changes state. */
    method ToggleExpanded(id: string)
      requires Valid()
      modifies this
      ensures Valid()
      ensures expandedItems == Seqs.Toggle(old(expandedItems), id)
      ensures id in expandedItems <==> id !in old(expandedItems)
      ensures forall other :: other != id ==> (other in expandedItems <==> other in old(expandedItems))
    {
      Seqs.ToggleKeepsNoDuplicates(expandedItems, id);
      ToggleLeavesOthers(expandedItems, id);
      if id in expandedItems {
        expandedItems := Seqs.RemoveAll(expandedItems, id);
      } else {
        expandedItems := expandedItems + [id];
      }
    }
  }

  /** Every id other than the toggled one keeps its expanded state. */
  lemma ToggleLeavesOthers(items: seq<string>, id: string)
    ensures forall other :: other != id ==> (other in Seqs.Toggle(items, id) <==> other in items)
  {
    var r := Seqs.Toggle(items, id);
    forall other | other != id ensures other in r <==> other in items {
      if other in r {
        var i :| 0 <= i < |r| && r[i] == other;
      }
      if other in items {
        var i :| 0 <= i < |items| && items[i] == other;
      }
    }
  }

  /** Pressing the same question twice restores the set of expanded ids. */
  lemma ToggleTwiceRestoresExpanded(items: seq<string>, id: string)
    ensures forall other :: other in Seqs.Toggle(Seqs.Toggle(items, id), id) <==> other in items
  {
    Seqs.ToggleTwiceSameMembers(items, id);
  }
}
