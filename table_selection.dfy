/** The table's selection tracker in App.tsx: `toggleTableSelection` and `toggleAllTableSelection`. */
module TableSelection {
  import opened Types

  /** Flipping the membership of one identifier (`delete` if present, else `add`). */
  function Toggle(sel: set<string>, id: string): (r: set<string>)
    ensures id in r <==> id !in sel
    ensures forall other :: other != id ==> (other in r <==> other in sel)
  {
    if id in sel then sel - {id} else sel + {id}
  }

  /** Toggling the same identifier twice restores the selection. */
  lemma ToggleTwice(sel: set<string>, id: string)
    ensures Toggle(Toggle(sel, id), id) == sel
  {
    var once := Toggle(sel, id);
    var twice := Toggle(once, id);
    assert forall q :: q in twice <==> q in sel;
  }

  /** `visible.every(link => sel.has(link.quadkey))`; true when nothing is visible. */
  predicate AllSelected(sel: set<string>, visible: seq<LinkItem>)
  {
    forall i :: 0 <= i < |visible| ==> visible[i].quadkey in sel
  }

  /**
   * The header checkbox: when every visible row is selected the selection becomes empty
   * (identifiers outside the visible rows included); otherwise every visible identifier
   * is added to it.
   */
  function ToggleAll(sel: set<string>, visible: seq<LinkItem>): set<string>
  {
    if AllSelected(sel, visible) then {} else sel + Ids(visible)
  }

  /** The `forEach` loop that adds every visible identifier to a copy of the selection. */
  method AddAll(sel: set<string>, visible: seq<LinkItem>) returns (next: set<string>)
    ensures next == sel + Ids(visible)
  {
    next := sel;
    var i := 0;
    while i < |visible|
      invariant 0 <= i <= |visible|
      invariant next == sel + Ids(visible[..i])
    {
      IdsSnoc(visible[..i], visible[i]);
      assert visible[..i + 1] == visible[..i] + [visible[i]];
      next := next + {visible[i].quadkey};
      i := i + 1;
    }
    assert visible[..i] == visible;
  }

  /**
   * After the header checkbox, either nothing at all is selected (exactly when every
   * visible row was selected before), or every visible row is selected, nothing
   * previously selected was dropped and nothing outside the visible rows was added.
   */
  lemma ToggleAllSpec(sel: set<string>, visible: seq<LinkItem>)
    ensures AllSelected(sel, visible) ==> ToggleAll(sel, visible) == {}
    ensures !AllSelected(sel, visible) ==>
      && AllSelected(ToggleAll(sel, visible), visible)
      && sel <= ToggleAll(sel, visible)
      && (forall q :: q in ToggleAll(sel, visible) && q !in sel ==>
            exists i :: 0 <= i < |visible| && visible[i].quadkey == q)
  {
    if !AllSelected(sel, visible) {
      forall i | 0 <= i < |visible| ensures visible[i].quadkey in ToggleAll(sel, visible) {
        assert visible[i].quadkey in Ids(visible);
      }
    }
  }

  /** With no visible rows the header checkbox clears the whole selection. */
  lemma ToggleAllNothingVisible(sel: set<string>)
    ensures ToggleAll(sel, []) == {}
  {
  }

  /**
   * The header checkbox is not its own inverse: clicked twice from a partial selection
   * it clears everything, and from a full one it leaves exactly the visible rows.
   */
  lemma ToggleAllTwice(sel: set<string>, visible: seq<LinkItem>)
    ensures !AllSelected(sel, visible) ==> ToggleAll(ToggleAll(sel, visible), visible) == {}
    ensures AllSelected(sel, visible) && visible != [] ==>
      ToggleAll(ToggleAll(sel, visible), visible) == Ids(visible)
  {
    ToggleAllSpec(sel, visible);
    if AllSelected(sel, visible) && visible != [] {
      assert !AllSelected({}, visible) by { assert visible[0].quadkey !in {}; }
    }
  }
}
