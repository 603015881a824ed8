/**
 * `generateZipBlob` (services/zipService.ts): one text entry per record inside a single
 * archive folder, with a progress report after each entry. The archive is modelled as the
 * folder name and a map from entry name to text; compression and the blob are not.
 */
module ZipService {
  import opened Wrappers
  import opened Types
  import opened Strings

  const FolderName: string := "Morocco_Buildings_Links_Archive"

  const Title: string := "تفاصيل ملف بيانات المباني - المغرب"
  const Rule: string := "----------------------------------"
  const RegionLabel: string := "المنطقة: "
  const QuadkeyLabel: string := "رمز المربع (Quadkey): "
  const UrlLabel: string := "رابط التحميل المباشر: "
  const SizeLabel: string := "الحجم التقريبي: "
  const DateLabel: string := "تاريخ التحديث: "
  // The closing note. It is split in two only so that the verifier checks each half
  // separately; the archive text uses `Note` whole.
  const NoteHead: string := "ملاحظة: يمكنك نسخ الرابط أعلاه ولصقه في "
  const NoteTail: string := "المتصفح للتحميل المباشر في حال واجهت قيوداً."
  const Note: string := NoteHead + NoteTail

  /** The lines of the template literal, with the record's fields filled in. */
  function EntryLines(item: LinkItem): seq<string>
  {
    [ Title, Rule,
      RegionLabel + item.region,
      QuadkeyLabel + item.quadkey,
      UrlLabel + item.url,
      SizeLabel + item.size,
      DateLabel + item.date,
      "",
      Note ]
  }

  /** The template literal before `.trim()`: it opens with a line feed and closes with a line feed and four spaces. */
  function RawTemplate(item: LinkItem): string
  {
    "\n" + Join(EntryLines(item)) + "\n    "
  }

  /** The text of a record's entry: the trimmed template. */
  function EntryText(item: LinkItem): string
  {
    Trim(RawTemplate(item))
  }

  /** `${item.quadkey}.txt` */
  function EntryName(item: LinkItem): string
  {
    item.quadkey + ".txt"
  }

  /** `trim` removes exactly the padding around the template's lines. */
  lemma EntryTextIsLines(item: LinkItem)
    ensures EntryText(item) == Join(EntryLines(item))
  {
    var body := Join(EntryLines(item));
    var rest := Join(EntryLines(item)[1..]);
    assert body == Title + "\n" + rest;
    assert body[0] == Title[0];
    assert body[|body| - 1] == Note[|Note| - 1] by { JoinEndsWithLast(EntryLines(item)); }
    TrimPadded("\n", body, "\n    ");
  }

  lemma {:induction false} JoinEndsWithLast(lines: seq<string>)
    requires lines != [] && lines[|lines| - 1] != []
    ensures Join(lines) != []
    ensures Join(lines)[|Join(lines)| - 1] == lines[|lines| - 1][|lines[|lines| - 1]| - 1]
  {
    if |lines| > 1 {
      JoinEndsWithLast(lines[1..]);
    }
  }

  /** Reads an entry's text back into a record: the inverse of `EntryText`. */
  function ParseEntry(text: string): Option<LinkItem>
  {
    var ls := Lines(text);
    if |ls| == 9 && ls[0] == Title && ls[1] == Rule
       && RegionLabel <= ls[2] && QuadkeyLabel <= ls[3] && UrlLabel <= ls[4]
       && SizeLabel <= ls[5] && DateLabel <= ls[6] && ls[7] == "" && ls[8] == Note
    then Some(LinkItem(ls[2][|RegionLabel|..], ls[3][|QuadkeyLabel|..], ls[4][|UrlLabel|..],
                       ls[5][|SizeLabel|..], ls[6][|DateLabel|..]))
    else None
  }

  /** The fields of a record hold no line feed, so each sits on a line of its own. */
  predicate SingleLine(item: LinkItem)
  {
    '\n' !in item.region && '\n' !in item.quadkey && '\n' !in item.url
    && '\n' !in item.size && '\n' !in item.date
  }

  /**
   * No fixed line of the template holds a line feed. The lemmas below split this fact one
   * literal at a time only to keep each proof small enough for the verifier; together they
   * state nothing beyond this lemma.
   */
  lemma TemplateLinesSingle()
    ensures '\n' !in Title && '\n' !in Rule && '\n' !in Note
    ensures '\n' !in RegionLabel && '\n' !in QuadkeyLabel && '\n' !in UrlLabel
    ensures '\n' !in SizeLabel && '\n' !in DateLabel
  {
    NoteSingleLine();
    LabelsSingleLine();
  }

  lemma NoteSingleLine()
    ensures '\n' !in Note
  {
    NoteHeadSingleLine();
    NoteTailSingleLine();
  }

  lemma NoteHeadSingleLine()
    ensures '\n' !in NoteHead
  {
  }

  lemma NoteTailSingleLine()
    ensures '\n' !in NoteTail
  {
  }

  lemma LabelsSingleLine()
    ensures '\n' !in Title && '\n' !in Rule
    ensures '\n' !in RegionLabel && '\n' !in QuadkeyLabel && '\n' !in UrlLabel
    ensures '\n' !in SizeLabel && '\n' !in DateLabel
  {
    TitleSingleLine();
    RuleSingleLine();
    FieldLabelsSingleLine();
  }

  lemma TitleSingleLine()
    ensures '\n' !in Title
  {
  }

  lemma RuleSingleLine()
    ensures '\n' !in Rule
  {
  }

  lemma FieldLabelsSingleLine()
    ensures '\n' !in RegionLabel && '\n' !in QuadkeyLabel && '\n' !in UrlLabel
    ensures '\n' !in SizeLabel && '\n' !in DateLabel
  {
  }

  /**
   * An entry's text holds the record's region, quadkey, url, size and date verbatim, each
   * on its own labelled line in that order: reading the text back gives the record.
   */
  lemma EntryRoundTrip(item: LinkItem)
    requires SingleLine(item)
    ensures ParseEntry(EntryText(item)) == Some(item)
  {
    EntryTextIsLines(item);
    TemplateLinesSingle();
    var ls := EntryLines(item);
    LinesJoin(ls);
    assert (RegionLabel + item.region)[|RegionLabel|..] == item.region;
    assert (QuadkeyLabel + item.quadkey)[|QuadkeyLabel|..] == item.quadkey;
    assert (UrlLabel + item.url)[|UrlLabel|..] == item.url;
    assert (SizeLabel + item.size)[|SizeLabel|..] == item.size;
    assert (DateLabel + item.date)[|DateLabel|..] == item.date;
  }

  /** Different identifiers give different entry names. */
  lemma EntryNameInjective(a: LinkItem, b: LinkItem)
    requires EntryName(a) == EntryName(b)
    ensures a.quadkey == b.quadkey
  {
    assert a.quadkey == EntryName(a)[..|a.quadkey|];
  }

  /** The archive produced: its folder and the entries inside it. */
  datatype Archive = Archive(folder: string, entries: map<string, string>)

  datatype ZipError =
    | FolderNotCreated      // `zip.folder(...)` gave nothing: "could not create the archive folder"
    | GenerationFailed      // `generateAsync` rejected

  /** The entries after `folder.file` for every record in order; a later record with the same name overwrites. */
  function ArchiveEntries(items: seq<LinkItem>): map<string, string>
  {
    if items == [] then map[]
    else ArchiveEntries(items[..|items| - 1])[EntryName(items[|items| - 1]) := EntryText(items[|items| - 1])]
  }

  /** The names of the entries for `items`. */
  function EntryNames(items: seq<LinkItem>): set<string>
  {
    set i | 0 <= i < |items| :: EntryName(items[i])
  }

  lemma EntryNamesSnoc(items: seq<LinkItem>, x: LinkItem)
    ensures EntryNames(items + [x]) == EntryNames(items) + {EntryName(x)}
  {
    var s := items + [x];
    forall n | n in EntryNames(s) ensures n in EntryNames(items) + {EntryName(x)} {
      var i :| 0 <= i < |s| && EntryName(s[i]) == n;
      if i < |items| { assert items[i] == s[i]; }
    }
    forall n | n in EntryNames(items) ensures n in EntryNames(s) {
      var i :| 0 <= i < |items| && EntryName(items[i]) == n;
      assert s[i] == items[i];
    }
    assert s[|items|] == x;
  }

  /** The archive's entry names are exactly the records' `<quadkey>.txt`, never more entries than records. */
  lemma {:induction false} ArchiveEntryNames(items: seq<LinkItem>)
    ensures ArchiveEntries(items).Keys == EntryNames(items)
    ensures |ArchiveEntries(items)| <= |items|
  {
    if items != [] {
      var init, last := items[..|items| - 1], items[|items| - 1];
      ArchiveEntryNames(init);
      assert items == init + [last];
      EntryNamesSnoc(init, last);
    }
  }

  /** With unique identifiers, the last record's entry name is new. */
  lemma FreshLastName(items: seq<LinkItem>)
    requires items != [] && UniqueIds(items)
    ensures EntryName(items[|items| - 1]) !in EntryNames(items[..|items| - 1])
  {
    var init, last := items[..|items| - 1], items[|items| - 1];
    if EntryName(last) in EntryNames(init) {
      var i :| 0 <= i < |init| && EntryName(init[i]) == EntryName(last);
      EntryNameInjective(init[i], last);
    }
  }

  /** With unique identifiers there is one entry per record, holding that record's text. */
  lemma {:induction false} ArchiveEntriesUnique(items: seq<LinkItem>)
    requires UniqueIds(items)
    ensures |ArchiveEntries(items)| == |items|
    ensures forall i :: 0 <= i < |items| ==>
      EntryName(items[i]) in ArchiveEntries(items) && ArchiveEntries(items)[EntryName(items[i])] == EntryText(items[i])
  {
    ArchiveEntriesCount(items);
    if items != [] {
      var init, last := items[..|items| - 1], items[|items| - 1];
      assert UniqueIds(init);
      ArchiveEntriesUnique(init);
      FreshLastName(items);
      forall i | 0 <= i < |items|
        ensures EntryName(items[i]) in ArchiveEntries(items)
        ensures ArchiveEntries(items)[EntryName(items[i])] == EntryText(items[i])
      {
        if i < |init| {
          EarlierEntryKept(init, last, i);
          assert items[i] == init[i];
        }
      }
    }
  }

  /** With unique identifiers no record's entry overwrites another's. */
  lemma {:induction false} ArchiveEntriesCount(items: seq<LinkItem>)
    requires UniqueIds(items)
    ensures |ArchiveEntries(items)| == |items|
  {
    if items != [] {
      var init := items[..|items| - 1];
      assert UniqueIds(init);
      ArchiveEntriesCount(init);
      ArchiveEntryNames(init);
      FreshLastName(items);
    }
  }

  /** Adding a record whose name is new leaves every earlier record's entry in place. */
  lemma EarlierEntryKept(init: seq<LinkItem>, last: LinkItem, i: nat)
    requires i < |init|
    requires EntryName(last) !in EntryNames(init)
    requires EntryName(init[i]) in ArchiveEntries(init)
    requires ArchiveEntries(init)[EntryName(init[i])] == EntryText(init[i])
    ensures EntryName(init[i]) in ArchiveEntries(init + [last])
    ensures ArchiveEntries(init + [last])[EntryName(init[i])] == EntryText(init[i])
  {
    var name := EntryName(init[i]);
    assert name in EntryNames(init);
    var items := init + [last];
    assert items[..|items| - 1] == init;
  }

  /** The progress reports `(1, n, 0), (2, n, 0), ..., (n, n, 0)`. */
  function ProgressReports(n: nat): (r: seq<Progress>)
    ensures |r| == n
    ensures forall i :: 0 <= i < n ==> r[i] == Progress(i + 1, n, 0)
    ensures n > 0 ==> r[n - 1] == Progress(n, n, 0)
  {
    seq(n, i requires 0 <= i < n => Progress(i + 1, n, 0))
  }

  /** The folder object of the archive library, which `file` updates in place. */
  class ArchiveFolder {
    const name: string
    var entries: map<string, string>

    constructor (name: string)
      ensures this.name == name && entries == map[]
    {
      this.name := name;
      entries := map[];
    }

    /** `folder.file(fileName, content)`: adds the entry, replacing one of the same name. */
    method File(fileName: string, content: string)
      modifies this
      ensures entries == old(entries)[fileName := content]
    {
      entries := entries[fileName := content];
    }
  }

  /**
   * `generateZipBlob(items, onProgress)`. The environment decides whether the folder can be
   * created (`folderCreated`) and whether the final generation succeeds (`generated`);
   * `reportProgress` says whether a callback was supplied, and `reports` lists its calls.
   */
  method GenerateZipBlob(items: seq<LinkItem>, reportProgress: bool, folderCreated: bool, generated: bool)
    returns (result: Result<Archive, ZipError>, reports: seq<Progress>)
    ensures !folderCreated ==> result == Failure(FolderNotCreated) && reports == []
    ensures folderCreated ==> reports == (if reportProgress then ProgressReports(|items|) else [])
    ensures folderCreated && generated ==> result == Success(Archive(FolderName, ArchiveEntries(items)))
    ensures folderCreated && !generated ==> result == Failure(GenerationFailed)
  {
    reports := [];
    if !folderCreated {
      return Failure(FolderNotCreated), reports;
    }
    var folder := new ArchiveFolder(FolderName);
    var total := |items|;
    var index := 0;
    while index < |items|
      invariant 0 <= index <= |items|
      invariant folder.name == FolderName
      invariant folder.entries == ArchiveEntries(items[..index])
      invariant reports == if reportProgress then ProgressReports(total)[..index] else []
    {
      var item := items[index];
      assert items[..index + 1][..index] == items[..index];
      folder.File(EntryName(item), EntryText(item));
      if reportProgress {
        assert ProgressReports(total)[..index + 1] == ProgressReports(total)[..index] + [Progress(index + 1, total, 0)];
        reports := reports + [Progress(index + 1, total, 0)];
      }
      index := index + 1;
    }
    assert items[..index] == items;
    assert ProgressReports(total)[..index] == ProgressReports(total);
    if !generated {
      return Failure(GenerationFailed), reports;
    }
    result := Success(Archive(folder.name, folder.entries));
  }
}
