/** `requestSort` (App.tsx): the tri-state direction cycle of a column header click. */
module SortState {
  import opened Types

  /** The sort configuration the application starts with: by size, unsorted. */
  const InitialSortConfig: SortConfig := SortConfig(SizeBytes, Unsorted)

  function RequestSort(cfg: SortConfig, key: SortKey): (r: SortConfig)
    ensures r.key == key
    ensures cfg.key != key ==> r.direction == Asc
  {
    var direction :=
      if cfg.key == key && cfg.direction == Asc then Desc
      else if cfg.key == key && cfg.direction == Desc then Unsorted
      else Asc;
    SortConfig(key, direction)
  }

  /**
   * Clicking the current sort column walks asc -> desc -> none -> asc; three clicks
   * bring any configuration back to itself.
   */
  lemma RequestSortCycles(cfg: SortConfig)
    ensures RequestSort(SortConfig(cfg.key, Asc), cfg.key) == SortConfig(cfg.key, Desc)
    ensures RequestSort(SortConfig(cfg.key, Desc), cfg.key) == SortConfig(cfg.key, Unsorted)
    ensures RequestSort(SortConfig(cfg.key, Unsorted), cfg.key) == SortConfig(cfg.key, Asc)
    ensures RequestSort(RequestSort(RequestSort(cfg, cfg.key), cfg.key), cfg.key) == cfg
  {
  }
}
