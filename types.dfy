/** The records of the catalog and the small state records around them (types.ts, App.tsx). */
module Types {

  /** One catalog entry: a downloadable data file described by five display strings. */
  datatype LinkItem = LinkItem(region: string, quadkey: string, url: string, size: string, date: string)

  /** `keyof LinkItem | 'sizeBytes'`: a record field, or the byte count derived from `size`. */
  datatype SortKey = Region | Quadkey | Url | Size | Date | SizeBytes

  /** `'asc' | 'desc' | null`; `Unsorted` stands for `null`. */
  datatype Direction = Asc | Desc | Unsorted

  datatype SortConfig = SortConfig(key: SortKey, direction: Direction)

  /** The `{ current, total, errors }` record shown while an archive is being built. */
  datatype Progress = Progress(current: int, total: int, errors: int)

  /** The raw string value `item[key]` of a record field. */
  function Field(item: LinkItem, key: SortKey): string
    requires key != SizeBytes
  {
    match key
    case Region => item.region
    case Quadkey => item.quadkey
    case Url => item.url
    case Size => item.size
    case Date => item.date
  }

  /** The set of identifiers of `items`, `new Set(items.map(i => i.quadkey))`. */
  function Ids(items: seq<LinkItem>): set<string>
  {
    set i | 0 <= i < |items| :: items[i].quadkey
  }

  /** No identifier occurs twice: the catalog's uniqueness invariant on `quadkey`. */
  predicate UniqueIds(items: seq<LinkItem>)
  {
    forall i, j :: 0 <= i < j < |items| ==> items[i].quadkey != items[j].quadkey
  }

  /** The identifiers of a sequence with one more element. */
  lemma IdsSnoc(items: seq<LinkItem>, x: LinkItem)
    ensures Ids(items + [x]) == Ids(items) + {x.quadkey}
  {
    var s := items + [x];
    forall q | q in Ids(s) ensures q in Ids(items) + {x.quadkey} {
      var i :| 0 <= i < |s| && s[i].quadkey == q;
      if i < |items| { assert items[i] == s[i]; }
    }
    forall q | q in Ids(items) ensures q in Ids(s) {
      var i :| 0 <= i < |items| && items[i].quadkey == q;
      assert s[i] == items[i];
    }
    assert s[|items|] == x;
  }

  /** With unique identifiers, a sequence has exactly as many identifiers as elements. */
  lemma {:induction false} UniqueIdsCardinality(items: seq<LinkItem>)
    requires UniqueIds(items)
    ensures |Ids(items)| == |items|
  {
    if items != [] {
      var init, last := items[..|items| - 1], items[|items| - 1];
      assert items == init + [last];
      assert UniqueIds(init);
      UniqueIdsCardinality(init);
      IdsSnoc(init, last);
    }
  }
}
