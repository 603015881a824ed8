/**
 * The view controller of App.tsx: the search term, sort configuration, table selection and
 * export state it owns, and the handlers that change them. React's state hooks become the
 * fields of `AppState`; `filteredLinks` is recomputed from them on demand.
 */
module App {
  import opened Wrappers
  import opened Types
  import opened Seqs
  import SortState
  import opened TableView
  import opened TableSelection
  import opened ZipService
  import opened SelectionModal

  /** What an export request ended in. */
  datatype ExportOutcome =
    | Refused                  // nothing selected: the user is told to select a row, nothing is built
    | Ignored                  // "download all" with no rows: returns silently
    | Saved(archive: Archive)  // the archive was built and handed to the browser for saving
    | Failed(error: ZipError)  // building the archive threw; the user is alerted

  /** What `processExport` reports for a build of `items`. */
  function ExportResult(items: seq<LinkItem>, folderCreated: bool, generated: bool): ExportOutcome
  {
    if !folderCreated then Failed(FolderNotCreated)
    else if !generated then Failed(GenerationFailed)
    else Saved(Archive(FolderName, ArchiveEntries(items)))
  }

  /**
   * The progress record left behind by an export of `count` items: the reset value
   * `(0, count, 0)` unless the folder was created and at least one item reported.
   */
  function FinalProgress(count: nat, folderCreated: bool): Progress
  {
    if folderCreated && count > 0 then Progress(count, count, 0) else Progress(0, count, 0)
  }

  /** The rows whose identifier is selected, in table order: what the table export builds. */
  function SelectedRows(visible: seq<LinkItem>, selectedIds: set<string>): seq<LinkItem>
  {
    Filter((link: LinkItem) => link.quadkey in selectedIds, visible)
  }

  /** The table export takes, in table order, exactly the visible rows whose identifier is selected. */
  lemma SelectedRowsSpec(visible: seq<LinkItem>, selectedIds: set<string>)
    ensures IsSubsequence(SelectedRows(visible, selectedIds), visible)
    ensures forall x :: x in SelectedRows(visible, selectedIds) <==> x in visible && x.quadkey in selectedIds
    ensures SelectedRows(visible, selectedIds) == [] <==> forall i :: 0 <= i < |visible| ==> visible[i].quadkey !in selectedIds
  {
    FilterIsSubsequence((link: LinkItem) => link.quadkey in selectedIds, visible);
    FilterMembers((link: LinkItem) => link.quadkey in selectedIds, visible);
    var selected := SelectedRows(visible, selectedIds);
    if selected == [] {
      forall i | 0 <= i < |visible| ensures visible[i].quadkey !in selectedIds {
        assert visible[i] in visible;
      }
    } else {
      assert selected[0] in selected;
    }
  }

  /**
   * A completed export leaves the progress at 100 percent when there was something to build,
   * and at 0 otherwise; a failed folder creation leaves it at 0.
   */
  lemma FinalProgressPercentage(count: nat, folderCreated: bool)
    ensures ProgressPercentage(FinalProgress(count, folderCreated)) == (if folderCreated && count > 0 then 100 else 0)
  {
    if !(folderCreated && count > 0) && count > 0 {
      var p := FinalProgress(count, folderCreated);
      assert p.current as real / p.total as real * 100.0 == 0.0;
    }
  }

  class AppState {
    const allLinks: seq<LinkItem>
    /** `parseFloat` on size labels, which the model takes as given. */
    const parseFloat: string -> Option<real>
    var searchTerm: string
    var isGenerating: bool
    var progress: Progress
    var isModalOpen: bool
    var sortConfig: SortConfig
    var tableSelectedIds: set<string>

    /** The initial state: no search, unsorted by size, nothing selected, no export running. */
    constructor (allLinks: seq<LinkItem>, parseFloat: string -> Option<real>)
      ensures this.allLinks == allLinks && this.parseFloat == parseFloat
      ensures searchTerm == "" && !isGenerating && progress == Progress(0, 0, 0) && !isModalOpen
      ensures sortConfig == SortState.InitialSortConfig && tableSelectedIds == {}
    {
      this.allLinks := allLinks;
      this.parseFloat := parseFloat;
      searchTerm := "";
      isGenerating := false;
      progress := Progress(0, 0, 0);
      isModalOpen := false;
      sortConfig := SortState.InitialSortConfig;
      tableSelectedIds := {};
    }

    /** The rows on screen. */
    function FilteredLinks(): seq<LinkItem>
      reads this
    {
      FilteredView(allLinks, searchTerm, sortConfig, parseFloat)
    }

    method SetSearchTerm(term: string)
      modifies this`searchTerm
      ensures searchTerm == term
    {
      searchTerm := term;
    }

    method RequestSort(key: SortKey)
      modifies this`sortConfig
      ensures sortConfig == SortState.RequestSort(old(sortConfig), key)
    {
      var direction := Asc;
      if sortConfig.key == key && sortConfig.direction == Asc {
        direction := Desc;
      } else if sortConfig.key == key && sortConfig.direction == Desc {
        direction := Unsorted;
      }
      sortConfig := SortConfig(key, direction);
    }

    /** A row's checkbox: flips that identifier and no other. */
    method ToggleTableSelection(id: string)
      modifies this`tableSelectedIds
      ensures tableSelectedIds == Toggle(old(tableSelectedIds), id)
    {
      var next := tableSelectedIds;
      if id in next {
        next := next - {id};
      } else {
        next := next + {id};
      }
      tableSelectedIds := next;
    }

    /** The header checkbox over the rows on screen. */
    method ToggleAllTableSelection()
      modifies this`tableSelectedIds
      ensures tableSelectedIds == ToggleAll(old(tableSelectedIds), FilteredLinks())
    {
      var visible := ComputeFilteredLinks(allLinks, searchTerm, sortConfig, parseFloat);
      if AllSelected(tableSelectedIds, visible) {
        tableSelectedIds := {};
      } else {
        var next := AddAll(tableSelectedIds, visible);
        tableSelectedIds := next;
      }
    }

    /**
     * `processExport(items)`: marks the application busy, resets the progress, builds the
     * archive while each item's report overwrites the progress, closes the dialog on success,
     * and is no longer busy afterwards whatever happened.
     */
    method ProcessExport(items: seq<LinkItem>, folderCreated: bool, generated: bool) returns (outcome: ExportOutcome)
      modifies this`isGenerating, this`progress, this`isModalOpen
      ensures outcome == ExportResult(items, folderCreated, generated)
      ensures !isGenerating
      ensures progress == FinalProgress(|items|, folderCreated)
      ensures isModalOpen == (if outcome.Saved? then false else old(isModalOpen))
    {
      isGenerating := true;
      progress := Progress(0, |items|, 0);
      var result, reports := GenerateZipBlob(items, true, folderCreated, generated);
      var k := 0;
      while k < |reports|
        invariant 0 <= k <= |reports|
        invariant progress == if k == 0 then Progress(0, |items|, 0) else reports[k - 1]
        invariant isModalOpen == old(isModalOpen)
      {
        progress := Progress(reports[k].current, reports[k].total, 0);
        k := k + 1;
      }
      match result {
        case Success(archive) =>
          outcome := Saved(archive);
          isModalOpen := false;
        case Failure(error) =>
          outcome := Failed(error);
      }
      isGenerating := false;
    }

    /** "Download selected": refused when no visible row is selected, otherwise exports those rows. */
    method HandleDownloadTableSelection(folderCreated: bool, generated: bool) returns (outcome: ExportOutcome)
      modifies this`isGenerating, this`progress, this`isModalOpen
      ensures var selected := SelectedRows(FilteredLinks(), tableSelectedIds);
        && (selected == [] ==> outcome == Refused && unchanged(this))
        && (selected != [] ==>
              && outcome == ExportResult(selected, folderCreated, generated)
              && !isGenerating
              && progress == FinalProgress(|selected|, folderCreated)
              && isModalOpen == (if outcome.Saved? then false else old(isModalOpen)))
    {
      var visible := ComputeFilteredLinks(allLinks, searchTerm, sortConfig, parseFloat);
      var selectedItems := SelectedRows(visible, tableSelectedIds);
      if |selectedItems| == 0 {
        return Refused;
      }
      outcome := ProcessExport(selectedItems, folderCreated, generated);
    }

    /** "Download all": does nothing when no row is on screen, otherwise exports every row on screen. */
    method HandleDownloadAll(folderCreated: bool, generated: bool) returns (outcome: ExportOutcome)
      modifies this`isGenerating, this`progress, this`isModalOpen
      ensures var visible := FilteredLinks();
        && (visible == [] ==> outcome == Ignored && unchanged(this))
        && (visible != [] ==>
              && outcome == ExportResult(visible, folderCreated, generated)
              && !isGenerating
              && progress == FinalProgress(|visible|, folderCreated)
              && isModalOpen == (if outcome.Saved? then false else old(isModalOpen)))
    {
      var visible := ComputeFilteredLinks(allLinks, searchTerm, sortConfig, parseFloat);
      if |visible| == 0 {
        return Ignored;
      }
      outcome := ProcessExport(visible, folderCreated, generated);
    }
  }
}
