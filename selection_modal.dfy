/**
 * The export dialog (components/SelectionModal.tsx): its own selection over the items it is
 * given, a quadkey-only search, the confirm action and the progress percentage.
 */
module SelectionModal {
  import opened Types
  import opened Seqs
  import opened Strings
  import opened TableSelection

  /** The dialog's search: identifiers containing the term as typed; the region is not searched. */
  function FilteredItems(items: seq<LinkItem>, term: string): seq<LinkItem>
  {
    Filter((item: LinkItem) => Contains(item.quadkey, term), items)
  }

  /** The dialog lists, in order, exactly the items whose identifier contains the term. */
  lemma FilteredItemsSpec(items: seq<LinkItem>, term: string)
    ensures IsSubsequence(FilteredItems(items, term), items)
    ensures forall x :: x in FilteredItems(items, term) <==> x in items && Contains(x.quadkey, term)
  {
    FilterIsSubsequence((item: LinkItem) => Contains(item.quadkey, term), items);
    FilterMembers((item: LinkItem) => Contains(item.quadkey, term), items);
  }

  /** `items.filter(item => selectedIds.has(item.quadkey))`: what confirming hands to the export. */
  function SelectedItems(items: seq<LinkItem>, selectedIds: set<string>): seq<LinkItem>
  {
    Filter((item: LinkItem) => item.quadkey in selectedIds, items)
  }

  /**
   * Confirming passes the items whose identifier is selected, in item order, each no more
   * often than it occurs among the items.
   */
  lemma SelectedItemsSpec(items: seq<LinkItem>, selectedIds: set<string>)
    ensures IsSubsequence(SelectedItems(items, selectedIds), items)
    ensures forall x :: x in SelectedItems(items, selectedIds) <==> x in items && x.quadkey in selectedIds
    ensures multiset(SelectedItems(items, selectedIds)) <= multiset(items)
  {
    var p := (item: LinkItem) => item.quadkey in selectedIds;
    FilterIsSubsequence(p, items);
    FilterMembers(p, items);
    FilterSubMultiset(p, items);
  }

  /**
   * The dialog's select-all button: it clears the selection when the selection has as many
   * identifiers as there are items, and otherwise selects exactly all items' identifiers.
   */
  function ToggleAllItems(selectedIds: set<string>, items: seq<LinkItem>): set<string>
  {
    if |selectedIds| == |items| then {} else Ids(items)
  }

  /**
   * The size test stands for "everything is selected" only while the selection holds item
   * identifiers and the identifiers are unique.
   */
  lemma SizeTestMeansAllSelected(selectedIds: set<string>, items: seq<LinkItem>)
    requires UniqueIds(items) && selectedIds <= Ids(items)
    ensures |selectedIds| == |items| <==> selectedIds == Ids(items)
  {
    UniqueIdsCardinality(items);
    if |selectedIds| == |items| {
      var missing := Ids(items) - selectedIds;
      assert |Ids(items)| == |selectedIds| + |missing|;
      assert missing == {};
    }
  }

  /**
   * Under that invariant the button alternates between everything and nothing, and the
   * invariant is kept.
   */
  lemma ToggleAllItemsSpec(selectedIds: set<string>, items: seq<LinkItem>)
    requires UniqueIds(items) && selectedIds <= Ids(items)
    ensures ToggleAllItems(selectedIds, items) == (if selectedIds == Ids(items) then {} else Ids(items))
    ensures ToggleAllItems(selectedIds, items) <= Ids(items)
  {
    SizeTestMeansAllSelected(selectedIds, items);
  }

  /** `Math.round`: the nearest integer, halves rounded up. */
  function Round(x: real): (r: int)
    ensures r as real - 0.5 <= x < r as real + 0.5
  {
    (x + 0.5).Floor
  }

  lemma RoundMonotone(x: real, y: real)
    requires x <= y
    ensures Round(x) <= Round(y)
  {
  }

  lemma RatioBounds(current: real, total: real)
    requires total > 0.0
    ensures 0.0 <= current <= total ==> 0.0 <= current / total <= 1.0
    ensures current == total ==> current / total == 1.0
  {
    assert current / total * total == current;
  }

  /** The percentage shown on the progress ring and bar. */
  function ProgressPercentage(p: Progress): (r: int)
    ensures p.total <= 0 ==> r == 0
    ensures p.total > 0 && p.current == p.total ==> r == 100
    ensures 0 <= p.current <= p.total ==> 0 <= r <= 100
  {
    if p.total > 0 then
      RatioBounds(p.current as real, p.total as real);
      Round(p.current as real / p.total as real * 100.0)
    else 0
  }

  /** More items processed never shows a smaller percentage. */
  lemma ProgressPercentageMonotone(current1: int, current2: int, total: int)
    requires current1 <= current2
    ensures ProgressPercentage(Progress(current1, total, 0)) <= ProgressPercentage(Progress(current2, total, 0))
  {
    if total > 0 {
      var t := total as real;
      var r1, r2 := current1 as real / t, current2 as real / t;
      assert r1 * t == current1 as real && r2 * t == current2 as real;
      assert r1 <= r2;
      RoundMonotone(r1 * 100.0, r2 * 100.0);
    }
  }

  /** The dialog's state: the items it is given, its selection and its search term. */
  class SelectionDialog {
    var items: seq<LinkItem>
    var selectedIds: set<string>
    var searchTerm: string

    /** First render: every item starts selected and the search is empty. */
    constructor (items: seq<LinkItem>)
      ensures this.items == items && selectedIds == Ids(items) && searchTerm == ""
    {
      this.items := items;
      selectedIds := Ids(items);
      searchTerm := "";
    }

    /** A later render with new items: the state hooks keep the selection made so far. */
    method Rerender(newItems: seq<LinkItem>)
      modifies this`items
      ensures items == newItems
    {
      items := newItems;
    }

    method SetSearchTerm(term: string)
      modifies this`searchTerm
      ensures searchTerm == term
    {
      searchTerm := term;
    }

    /** A click on an item: ignored during a download, otherwise flips that identifier only. */
    method ToggleItem(id: string, isDownloading: bool)
      modifies this`selectedIds
      ensures isDownloading ==> selectedIds == old(selectedIds)
      ensures !isDownloading ==> selectedIds == Toggle(old(selectedIds), id)
    {
      if isDownloading { return; }
      var newSelected := selectedIds;
      if id in newSelected {
        newSelected := newSelected - {id};
      } else {
        newSelected := newSelected + {id};
      }
      selectedIds := newSelected;
    }

    /** The select-all button: ignored during a download. */
    method ToggleAll(isDownloading: bool)
      modifies this`selectedIds
      ensures isDownloading ==> selectedIds == old(selectedIds)
      ensures !isDownloading ==> selectedIds == ToggleAllItems(old(selectedIds), items)
    {
      if isDownloading { return; }
      if |selectedIds| == |items| {
        selectedIds := {};
      } else {
        selectedIds := AddAll({}, items);
      }
    }

    /** The confirm button: the selected items, in item order. */
    method HandleConfirm() returns (chosen: seq<LinkItem>)
      ensures chosen == SelectedItems(items, selectedIds)
      ensures IsSubsequence(chosen, items)
      ensures forall x :: x in chosen <==> x in items && x.quadkey in selectedIds
    {
      chosen := SelectedItems(items, selectedIds);
      SelectedItemsSpec(items, selectedIds);
    }
  }
}
