/** The table component (components/LinkTable.tsx): header checkbox, sort indicators, sortable columns. */
module LinkTable {
  import opened Wrappers
  import opened Types
  import opened SortState
  import opened TableSelection

  /** The header checkbox is checked when there are rows and every one of them is selected. */
  predicate IsAllSelected(links: seq<LinkItem>, selectedIds: set<string>)
    ensures IsAllSelected(links, selectedIds) ==> links != [] && Ids(links) <= selectedIds
    ensures links != [] && Ids(links) <= selectedIds ==> IsAllSelected(links, selectedIds)
  {
    |links| > 0 && AllSelected(selectedIds, links)
  }

  /** The three indicators a column header can show. */
  datatype SortIcon = Neutral | Up | Down

  function GetSortIcon(cfg: SortConfig, key: SortKey): SortIcon
  {
    if cfg.key != key then Neutral
    else if cfg.direction == Asc then Up
    else if cfg.direction == Desc then Down
    else Neutral
  }

  /** The header cells, left to right in source order. */
  datatype Column = SelectColumn | RegionColumn | QuadkeyColumn | SizeColumn | DownloadColumn | DateColumn

  const Columns: seq<Column> := [SelectColumn, RegionColumn, QuadkeyColumn, SizeColumn, DownloadColumn, DateColumn]

  /** The key a header cell passes to `onSort`; the checkbox and download cells have none. */
  function ColumnSortKey(c: Column): Option<SortKey>
  {
    match c
    case SelectColumn => None
    case RegionColumn => Some(Region)
    case QuadkeyColumn => Some(Quadkey)
    case SizeColumn => Some(SizeBytes)
    case DownloadColumn => None
    case DateColumn => Some(Date)
  }

  /** The sortable headers request region, quadkey, sizeBytes and date, each a different key. */
  lemma ColumnKeys()
    ensures seq(|Columns|, i requires 0 <= i < |Columns| => ColumnSortKey(Columns[i]))
         == [None, Some(Region), Some(Quadkey), Some(SizeBytes), None, Some(Date)]
    ensures forall c, d :: ColumnSortKey(c).Some? && ColumnSortKey(c) == ColumnSortKey(d) ==> c == d
  {
  }

  /** Whatever the sort state, at most one sortable column shows a direction. */
  lemma AtMostOneDirectionShown(cfg: SortConfig, c: Column, d: Column)
    requires ColumnSortKey(c).Some? && ColumnSortKey(d).Some?
    requires GetSortIcon(cfg, ColumnSortKey(c).value) != Neutral
    requires GetSortIcon(cfg, ColumnSortKey(d).value) != Neutral
    ensures c == d
  {
  }

  /**
   * Clicking a header: that column shows up (a new column, or after none), down (after up)
   * or neutral (after down); every other column shows neutral.
   */
  lemma ClickedColumnIcon(cfg: SortConfig, key: SortKey)
    ensures GetSortIcon(RequestSort(cfg, key), key)
         == (if cfg.key == key && cfg.direction == Asc then Down
             else if cfg.key == key && cfg.direction == Desc then Neutral
             else Up)
    ensures forall other :: other != key ==> GetSortIcon(RequestSort(cfg, key), other) == Neutral
  {
  }

  /** With rows on screen, the header checkbox flips its own checked state. */
  lemma HeaderCheckboxFlips(links: seq<LinkItem>, selectedIds: set<string>)
    requires links != []
    ensures IsAllSelected(links, ToggleAll(selectedIds, links)) == !IsAllSelected(links, selectedIds)
  {
    ToggleAllSpec(selectedIds, links);
    if AllSelected(selectedIds, links) {
      assert links[0].quadkey !in ToggleAll(selectedIds, links);
    }
  }
}
