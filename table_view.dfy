/**
 * The `filteredLinks` view of App.tsx: the records matching the search term, then,
 * unless the direction is `null`, reordered in place by `result.sort` with the
 * column comparator. `Array.prototype.sort` is stable; it is modelled by an in-place
 * insertion sort, specified by the functional `SortLinks`.
 */
module TableView {
  import opened Wrappers
  import opened Types
  import opened Seqs
  import opened Strings
  import opened SizeParser
  import SortState

  /**
   * The search predicate: the identifier contains the term as typed, or the lower-cased
   * region contains the lower-cased term.
   */
  predicate Matches(link: LinkItem, term: string)
  {
    Contains(link.quadkey, term) || Contains(Lower(link.region), Lower(term))
  }

  function FilterLinks(all: seq<LinkItem>, term: string): seq<LinkItem>
  {
    Filter((link: LinkItem) => Matches(link, term), all)
  }

  /** The search keeps, in order, exactly the records that match the term. */
  lemma FilterLinksSpec(all: seq<LinkItem>, term: string)
    ensures IsSubsequence(FilterLinks(all, term), all)
    ensures forall x :: x in FilterLinks(all, term) <==> x in all && Matches(x, term)
    ensures multiset(FilterLinks(all, term)) <= multiset(all)
    ensures FilterLinks(FilterLinks(all, term), term) == FilterLinks(all, term)
  {
    var p := (link: LinkItem) => Matches(link, term);
    FilterIsSubsequence(p, all);
    FilterMembers(p, all);
    FilterSubMultiset(p, all);
    FilterIdempotent(p, all);
  }

  /** An empty search term keeps every record, in the original order. */
  lemma EmptyTermKeepsAll(all: seq<LinkItem>)
    ensures FilterLinks(all, "") == all
  {
    forall i | 0 <= i < |all| ensures Matches(all[i], "") {
      assert [] <= all[i].quadkey;
    }
    FilterAllPass((link: LinkItem) => Matches(link, ""), all);
  }

  /** The byte count of a record's size label, as the size column sorts by it. */
  function Bytes(parseFloat: string -> Option<real>, item: LinkItem): real
  {
    ParseSizeToBytes(parseFloat(item.size), item.size)
  }

  /**
   * The comparator given to `result.sort`: negative when `a` goes first, positive when
   * `b` goes first, zero for a tie.
   */
  function Compare(cfg: SortConfig, parseFloat: string -> Option<real>, a: LinkItem, b: LinkItem): real
  {
    if cfg.key == SizeBytes then
      var sizeA, sizeB := Bytes(parseFloat, a), Bytes(parseFloat, b);
      if cfg.direction == Asc then sizeA - sizeB else sizeB - sizeA
    else
      var valA, valB := Field(a, cfg.key), Field(b, cfg.key);
      if StrLess(valA, valB) then (if cfg.direction == Asc then -1.0 else 1.0)
      else if StrLess(valB, valA) then (if cfg.direction == Asc then 1.0 else -1.0)
      else 0.0
  }

  /** Swapping the arguments flips the sign of the comparator. */
  lemma CompareFlip(cfg: SortConfig, parseFloat: string -> Option<real>, a: LinkItem, b: LinkItem)
    ensures Compare(cfg, parseFloat, a, b) > 0.0 <==> Compare(cfg, parseFloat, b, a) < 0.0
    ensures Compare(cfg, parseFloat, a, b) == 0.0 <==> Compare(cfg, parseFloat, b, a) == 0.0
  {
    if cfg.key != SizeBytes {
      var valA, valB := Field(a, cfg.key), Field(b, cfg.key);
      if StrLess(valA, valB) { StrLessAsymmetric(valA, valB); }
      if StrLess(valB, valA) { StrLessAsymmetric(valB, valA); }
    }
  }

  /** "Goes no later than" is transitive. */
  lemma CompareTransitive(cfg: SortConfig, parseFloat: string -> Option<real>, a: LinkItem, b: LinkItem, c: LinkItem)
    requires Compare(cfg, parseFloat, a, b) <= 0.0 && Compare(cfg, parseFloat, b, c) <= 0.0
    ensures Compare(cfg, parseFloat, a, c) <= 0.0
  {
    if cfg.key != SizeBytes {
      var va, vb, vc := Field(a, cfg.key), Field(b, cfg.key), Field(c, cfg.key);
      if va != vb { StrLessTotal(va, vb); }
      if vb != vc { StrLessTotal(vb, vc); }
      if va != vc { StrLessTotal(va, vc); }
      StrLessIrreflexive(va);
      StrLessIrreflexive(vb);
      if StrLess(va, vb) && StrLess(vb, vc) { StrLessTransitive(va, vb, vc); }
      if StrLess(vb, va) && StrLess(vc, vb) { StrLessTransitive(vc, vb, va); }
      if StrLess(va, vb) { StrLessAsymmetric(va, vb); }
      if StrLess(vb, va) { StrLessAsymmetric(vb, va); }
      if StrLess(vb, vc) { StrLessAsymmetric(vb, vc); }
      if StrLess(vc, vb) { StrLessAsymmetric(vc, vb); }
      if StrLess(va, vc) { StrLessAsymmetric(va, vc); }
      if StrLess(vc, va) { StrLessAsymmetric(vc, va); }
    }
  }

  /** No record is placed after one that, by the comparator, should follow it. */
  ghost predicate Sorted(cfg: SortConfig, parseFloat: string -> Option<real>, s: seq<LinkItem>)
  {
    forall i, j :: 0 <= i < j < |s| ==> Compare(cfg, parseFloat, s[i], s[j]) <= 0.0
  }

  /** The records that compare equal to `y`: one class of ties. */
  function TiedWith(cfg: SortConfig, parseFloat: string -> Option<real>, y: LinkItem): LinkItem -> bool
  {
    (e: LinkItem) => Compare(cfg, parseFloat, e, y) == 0.0
  }

  /** Insertion of `x` into a sorted prefix, moving past every record that should follow `x`. */
  function Insert(cfg: SortConfig, parseFloat: string -> Option<real>, t: seq<LinkItem>, x: LinkItem): (r: seq<LinkItem>)
    ensures |r| == |t| + 1
  {
    if t == [] || Compare(cfg, parseFloat, t[|t| - 1], x) <= 0.0 then t + [x]
    else Insert(cfg, parseFloat, t[..|t| - 1], x) + [t[|t| - 1]]
  }

  /** The stable sort of `s` by the comparator. */
  function SortLinks(cfg: SortConfig, parseFloat: string -> Option<real>, s: seq<LinkItem>): (r: seq<LinkItem>)
    ensures |r| == |s|
  {
    if s == [] then [] else Insert(cfg, parseFloat, SortLinks(cfg, parseFloat, s[..|s| - 1]), s[|s| - 1])
  }

  lemma {:induction false} InsertPermutes(cfg: SortConfig, parseFloat: string -> Option<real>, t: seq<LinkItem>, x: LinkItem)
    ensures multiset(Insert(cfg, parseFloat, t, x)) == multiset(t) + multiset{x}
  {
    if t != [] && Compare(cfg, parseFloat, t[|t| - 1], x) > 0.0 {
      var init := t[..|t| - 1];
      InsertPermutes(cfg, parseFloat, init, x);
      assert t == init + [t[|t| - 1]];
    }
  }

  lemma {:induction false} InsertSorted(cfg: SortConfig, parseFloat: string -> Option<real>, t: seq<LinkItem>, x: LinkItem)
    requires Sorted(cfg, parseFloat, t)
    ensures Sorted(cfg, parseFloat, Insert(cfg, parseFloat, t, x))
  {
    var r := Insert(cfg, parseFloat, t, x);
    if t == [] {
    } else if Compare(cfg, parseFloat, t[|t| - 1], x) <= 0.0 {
      forall i, j | 0 <= i < j < |r| ensures Compare(cfg, parseFloat, r[i], r[j]) <= 0.0 {
        if j == |t| && i < |t| - 1 {
          CompareTransitive(cfg, parseFloat, t[i], t[|t| - 1], x);
        }
      }
    } else {
      var init, last := t[..|t| - 1], t[|t| - 1];
      assert Sorted(cfg, parseFloat, init);
      InsertSorted(cfg, parseFloat, init, x);
      var front := Insert(cfg, parseFloat, init, x);
      InsertPermutes(cfg, parseFloat, init, x);
      CompareFlip(cfg, parseFloat, last, x);
      forall i | 0 <= i < |front| ensures Compare(cfg, parseFloat, front[i], last) <= 0.0 {
        assert front[i] in multiset(front);
        if front[i] != x {
          assert front[i] in multiset(init);
          var k :| 0 <= k < |init| && init[k] == front[i];
          assert t[k] == init[k];
        }
      }
      assert r == front + [last];
    }
  }

  /** Inserting `x` appends it to its class of ties and leaves the other classes' order alone. */
  lemma {:induction false} InsertKeepsTies(cfg: SortConfig, parseFloat: string -> Option<real>, t: seq<LinkItem>, x: LinkItem, y: LinkItem)
    ensures Filter(TiedWith(cfg, parseFloat, y), Insert(cfg, parseFloat, t, x))
         == Filter(TiedWith(cfg, parseFloat, y), t + [x])
  {
    var p := TiedWith(cfg, parseFloat, y);
    if t != [] && Compare(cfg, parseFloat, t[|t| - 1], x) > 0.0 {
      var init, last := t[..|t| - 1], t[|t| - 1];
      InsertKeepsTies(cfg, parseFloat, init, x, y);
      NotBothTied(cfg, parseFloat, last, x, y);
      FilterSwapLast(p, Insert(cfg, parseFloat, init, x), init, x, last);
      assert t == init + [last];
    }
  }

  /** A record that should follow `x` is not tied with anything `x` is tied with. */
  lemma NotBothTied(cfg: SortConfig, parseFloat: string -> Option<real>, last: LinkItem, x: LinkItem, y: LinkItem)
    requires Compare(cfg, parseFloat, last, x) > 0.0
    ensures !(TiedWith(cfg, parseFloat, y)(x) && TiedWith(cfg, parseFloat, y)(last))
  {
    if Compare(cfg, parseFloat, x, y) == 0.0 && Compare(cfg, parseFloat, last, y) == 0.0 {
      CompareFlip(cfg, parseFloat, x, y);
      CompareTransitive(cfg, parseFloat, last, y, x);
    }
  }

  lemma {:induction false} SortLinksPermutes(cfg: SortConfig, parseFloat: string -> Option<real>, s: seq<LinkItem>)
    ensures multiset(SortLinks(cfg, parseFloat, s)) == multiset(s)
  {
    if s != [] {
      var init := s[..|s| - 1];
      SortLinksPermutes(cfg, parseFloat, init);
      InsertPermutes(cfg, parseFloat, SortLinks(cfg, parseFloat, init), s[|s| - 1]);
      assert s == init + [s[|s| - 1]];
    }
  }

  lemma {:induction false} SortLinksSorted(cfg: SortConfig, parseFloat: string -> Option<real>, s: seq<LinkItem>)
    ensures Sorted(cfg, parseFloat, SortLinks(cfg, parseFloat, s))
  {
    if s != [] {
      SortLinksSorted(cfg, parseFloat, s[..|s| - 1]);
      InsertSorted(cfg, parseFloat, SortLinks(cfg, parseFloat, s[..|s| - 1]), s[|s| - 1]);
    }
  }

  /** Stability: within each class of ties the sorted order is the input order. */
  lemma {:induction false} SortLinksStable(cfg: SortConfig, parseFloat: string -> Option<real>, s: seq<LinkItem>, y: LinkItem)
    ensures Filter(TiedWith(cfg, parseFloat, y), SortLinks(cfg, parseFloat, s))
         == Filter(TiedWith(cfg, parseFloat, y), s)
  {
    if s != [] {
      var p := TiedWith(cfg, parseFloat, y);
      var init, last := s[..|s| - 1], s[|s| - 1];
      var sortedInit := SortLinks(cfg, parseFloat, init);
      SortLinksStable(cfg, parseFloat, init, y);
      InsertKeepsTies(cfg, parseFloat, sortedInit, last, y);
      FilterSnoc(p, sortedInit, init, last, Insert(cfg, parseFloat, sortedInit, last));
      assert SortLinks(cfg, parseFloat, s) == Insert(cfg, parseFloat, sortedInit, last);
      assert s == init + [last];
    }
  }

  /** Inserting past the last record of `t`, when that record should follow `x`. */
  lemma InsertPast(cfg: SortConfig, parseFloat: string -> Option<real>, sorted: seq<LinkItem>, j: nat, x: LinkItem)
    requires 0 < j <= |sorted|
    requires Compare(cfg, parseFloat, sorted[j - 1], x) > 0.0
    ensures Insert(cfg, parseFloat, sorted[..j], x) + sorted[j..]
         == Insert(cfg, parseFloat, sorted[..j - 1], x) + sorted[j - 1..]
  {
    var t := sorted[..j];
    assert t[..|t| - 1] == sorted[..j - 1];
    assert sorted[j - 1..] == [sorted[j - 1]] + sorted[j..];
  }

  /** Insertion stops in front of a record that need not follow `x`. */
  lemma InsertStops(cfg: SortConfig, parseFloat: string -> Option<real>, sorted: seq<LinkItem>, j: nat, x: LinkItem)
    requires j <= |sorted|
    requires j == 0 || Compare(cfg, parseFloat, sorted[j - 1], x) <= 0.0
    ensures Insert(cfg, parseFloat, sorted[..j], x) == sorted[..j] + [x]
  {
  }

  /** A sequence that agrees with `s` before `j`, holds `x` at `j` and `s` shifted by one after it. */
  lemma Spliced<T>(b: seq<T>, s: seq<T>, j: nat, x: T)
    requires j <= |s| && |b| == |s| + 1
    requires forall k :: 0 <= k < j ==> b[k] == s[k]
    requires b[j] == x
    requires forall k :: j < k < |b| ==> b[k] == s[k - 1]
    ensures b == s[..j] + [x] + s[j..]
  {
    var expected := s[..j] + [x] + s[j..];
    forall k | j < k < |b| ensures b[k] == expected[k] {
      assert expected[k] == s[j..][k - j - 1];
    }
  }

  /** Insertion moves past a suffix of records that all should follow `x`. */
  lemma {:induction false} InsertPastAll(cfg: SortConfig, parseFloat: string -> Option<real>, sorted: seq<LinkItem>, j: nat, x: LinkItem)
    requires j <= |sorted|
    requires forall k :: j <= k < |sorted| ==> Compare(cfg, parseFloat, sorted[k], x) > 0.0
    ensures Insert(cfg, parseFloat, sorted, x) == Insert(cfg, parseFloat, sorted[..j], x) + sorted[j..]
    decreases |sorted| - j
  {
    if j == |sorted| {
      assert sorted[..j] == sorted && sorted[j..] == [];
    } else {
      InsertPastAll(cfg, parseFloat, sorted, j + 1, x);
      InsertPast(cfg, parseFloat, sorted, j + 1, x);
    }
  }

  /**
   * The shifting loop of one insertion pass: moves every record of the sorted prefix
   * `a[..i]` that should follow `x` (`cmp` positive) one place right, and stops at the
   * slot for `x`.
   */
  method ShiftPast<T>(a: array<T>, i: nat, x: T, cmp: (T, T) -> real, ghost sorted: seq<T>) returns (j: nat)
    requires i < a.Length && a[..i] == sorted
    modifies a
    ensures j <= i
    ensures forall k :: 0 <= k < j ==> a[k] == sorted[k]
    ensures forall k :: j < k <= i ==> a[k] == sorted[k - 1]
    ensures forall k :: i < k < a.Length ==> a[k] == old(a[k])
    ensures j == 0 || cmp(sorted[j - 1], x) <= 0.0
    ensures forall k :: j <= k < i ==> cmp(sorted[k], x) > 0.0
  {
    j := i;
    while j > 0 && cmp(a[j - 1], x) > 0.0
      invariant 0 <= j <= i
      invariant forall k :: 0 <= k < j ==> a[k] == sorted[k]
      invariant forall k :: j < k <= i ==> a[k] == sorted[k - 1]
      invariant forall k :: i < k < a.Length ==> a[k] == old(a[k])
      invariant forall k :: j <= k < i ==> cmp(sorted[k], x) > 0.0
    {
      assert a[j - 1] == sorted[j - 1];
      a[j] := a[j - 1];
      j := j - 1;
    }
    assert j > 0 ==> a[j - 1] == sorted[j - 1];
  }

  /** One pass of the insertion sort: moves `a[i]` left into the sorted prefix `a[..i]`. */
  method InsertInPlace(a: array<LinkItem>, i: nat, cfg: SortConfig, parseFloat: string -> Option<real>)
    requires i < a.Length
    modifies a
    ensures a[..i + 1] == Insert(cfg, parseFloat, old(a[..i]), old(a[i]))
    ensures a[i + 1..] == old(a[i + 1..])
  {
    var x := a[i];
    ghost var sorted := a[..i];
    ghost var before := a[..];
    var cmp := (p: LinkItem, q: LinkItem) => Compare(cfg, parseFloat, p, q);
    var j := ShiftPast(a, i, x, cmp, sorted);
    assert forall k :: j <= k < i ==> cmp(sorted[k], x) == Compare(cfg, parseFloat, sorted[k], x);
    InsertPastAll(cfg, parseFloat, sorted, j, x);
    InsertStops(cfg, parseFloat, sorted, j, x);
    a[j] := x;
    Spliced(a[..i + 1], sorted, j, x);
    assert a[..i + 1] == Insert(cfg, parseFloat, sorted, x);
    SameSuffix(a[..], before, i);
  }

  /** Two sequences of one length that agree after position `i` have the same suffix there. */
  lemma SameSuffix<T>(b: seq<T>, c: seq<T>, i: nat)
    requires i < |b| == |c|
    requires forall k :: i < k < |b| ==> b[k] == c[k]
    ensures b[i + 1..] == c[i + 1..]
  {
  }

  /** In-place stable insertion sort: `result.sort(comparator)`. */
  method SortInPlace(a: array<LinkItem>, cfg: SortConfig, parseFloat: string -> Option<real>)
    modifies a
    ensures a[..] == SortLinks(cfg, parseFloat, old(a[..]))
  {
    ghost var input := a[..];
    var i := 0;
    while i < a.Length
      invariant 0 <= i <= a.Length
      invariant a[..i] == SortLinks(cfg, parseFloat, input[..i])
      invariant a[i..] == input[i..]
    {
      InsertInPlace(a, i, cfg, parseFloat);
      assert input[..i + 1][..i] == input[..i];
      i := i + 1;
    }
    assert a[..] == a[..a.Length];
    assert input[..a.Length] == input;
  }

  /** The rows of the table: filtered, then sorted unless the direction is `null`. */
  function FilteredView(all: seq<LinkItem>, term: string, cfg: SortConfig, parseFloat: string -> Option<real>): seq<LinkItem>
  {
    var result := FilterLinks(all, term);
    if cfg.direction == Unsorted then result else SortLinks(cfg, parseFloat, result)
  }

  /** The `useMemo` body computing `filteredLinks`. */
  method ComputeFilteredLinks(all: seq<LinkItem>, term: string, cfg: SortConfig, parseFloat: string -> Option<real>)
    returns (result: seq<LinkItem>)
    ensures result == FilteredView(all, term, cfg, parseFloat)
  {
    result := FilterLinks(all, term);
    if cfg.direction != Unsorted {
      var filtered := result;
      var a := new LinkItem[|filtered|](i requires 0 <= i < |filtered| => filtered[i]);
      assert a[..] == filtered;
      SortInPlace(a, cfg, parseFloat);
      result := a[..];
    }
  }

  /**
   * The rows are the matching records. With direction `null` they keep the catalog's
   * order; otherwise they are a permutation of it, ordered by the comparator, with ties
   * in catalog order.
   */
  lemma FilteredViewSpec(all: seq<LinkItem>, term: string, cfg: SortConfig, parseFloat: string -> Option<real>)
    ensures cfg.direction == Unsorted ==> FilteredView(all, term, cfg, parseFloat) == FilterLinks(all, term)
    ensures multiset(FilteredView(all, term, cfg, parseFloat)) == multiset(FilterLinks(all, term))
    ensures cfg.direction != Unsorted ==> Sorted(cfg, parseFloat, FilteredView(all, term, cfg, parseFloat))
    ensures forall y :: Filter(TiedWith(cfg, parseFloat, y), FilteredView(all, term, cfg, parseFloat))
                     == Filter(TiedWith(cfg, parseFloat, y), FilterLinks(all, term))
  {
    var filtered := FilterLinks(all, term);
    if cfg.direction != Unsorted {
      SortLinksPermutes(cfg, parseFloat, filtered);
      SortLinksSorted(cfg, parseFloat, filtered);
      forall y ensures Filter(TiedWith(cfg, parseFloat, y), SortLinks(cfg, parseFloat, filtered))
                    == Filter(TiedWith(cfg, parseFloat, y), filtered) {
        SortLinksStable(cfg, parseFloat, filtered, y);
      }
    }
  }

  /**
   * What the comparator's order means per column: byte counts non-decreasing (asc) or
   * non-increasing (desc) for the size column, and the field's string order for the others.
   */
  lemma SortedMeaning(cfg: SortConfig, parseFloat: string -> Option<real>, s: seq<LinkItem>)
    requires Sorted(cfg, parseFloat, s)
    ensures cfg.key == SizeBytes && cfg.direction == Asc ==>
      forall i, j :: 0 <= i < j < |s| ==> Bytes(parseFloat, s[i]) <= Bytes(parseFloat, s[j])
    ensures cfg.key == SizeBytes && cfg.direction == Desc ==>
      forall i, j :: 0 <= i < j < |s| ==> Bytes(parseFloat, s[i]) >= Bytes(parseFloat, s[j])
    ensures cfg.key != SizeBytes && cfg.direction == Asc ==>
      forall i, j :: 0 <= i < j < |s| ==> !StrLess(Field(s[j], cfg.key), Field(s[i], cfg.key))
    ensures cfg.key != SizeBytes && cfg.direction == Desc ==>
      forall i, j :: 0 <= i < j < |s| ==> !StrLess(Field(s[i], cfg.key), Field(s[j], cfg.key))
  {
    if cfg.key != SizeBytes {
      forall i, j | 0 <= i < j < |s|
        ensures cfg.direction == Asc ==> !StrLess(Field(s[j], cfg.key), Field(s[i], cfg.key))
        ensures cfg.direction == Desc ==> !StrLess(Field(s[i], cfg.key), Field(s[j], cfg.key))
      {
        assert Compare(cfg, parseFloat, s[i], s[j]) <= 0.0;
        var vi, vj := Field(s[i], cfg.key), Field(s[j], cfg.key);
        if StrLess(vi, vj) { StrLessAsymmetric(vi, vj); }
      }
    }
  }

  /** Every record ties with itself. */
  lemma CompareReflexive(cfg: SortConfig, parseFloat: string -> Option<real>, a: LinkItem)
    ensures Compare(cfg, parseFloat, a, a) == 0.0
  {
    if cfg.key != SizeBytes {
      StrLessIrreflexive(Field(a, cfg.key));
    }
  }

  /** The descending comparator is the ascending one with its arguments swapped. */
  lemma DescendingSwapsArguments(key: SortKey, parseFloat: string -> Option<real>, a: LinkItem, b: LinkItem)
    ensures Compare(SortConfig(key, Desc), parseFloat, a, b) == Compare(SortConfig(key, Asc), parseFloat, b, a)
  {
    if key != SizeBytes {
      var va, vb := Field(a, key), Field(b, key);
      if StrLess(va, vb) { StrLessAsymmetric(va, vb); }
      if StrLess(vb, va) { StrLessAsymmetric(vb, va); }
    }
  }

  /** No two different records of `s` compare equal. */
  ghost predicate NoTies(cfg: SortConfig, parseFloat: string -> Option<real>, s: seq<LinkItem>)
  {
    forall x, y :: x in s && y in s && x != y ==> Compare(cfg, parseFloat, x, y) != 0.0
  }

  /** Read ascending, a sequence sorted by one column is that column sorted descending. */
  lemma ReversedSorted(key: SortKey, parseFloat: string -> Option<real>, t: seq<LinkItem>)
    requires Sorted(SortConfig(key, Asc), parseFloat, t)
    ensures Sorted(SortConfig(key, Desc), parseFloat, Reversed(t))
  {
    var r := Reversed(t);
    forall i, j | 0 <= i < j < |r|
      ensures Compare(SortConfig(key, Desc), parseFloat, r[i], r[j]) <= 0.0
    {
      DescendingSwapsArguments(key, parseFloat, r[i], r[j]);
      assert r[i] == t[|t| - 1 - i] && r[j] == t[|t| - 1 - j];
    }
  }

  /** Without ties, a sorted order of a multiset of records is the only one. */
  lemma SortedUnique(cfg: SortConfig, parseFloat: string -> Option<real>, a: seq<LinkItem>, b: seq<LinkItem>)
    requires Sorted(cfg, parseFloat, a) && Sorted(cfg, parseFloat, b)
    requires multiset(a) == multiset(b)
    requires NoTies(cfg, parseFloat, a)
    ensures a == b
  {
    var cmp := (p: LinkItem, q: LinkItem) => Compare(cfg, parseFloat, p, q);
    forall x, y | x in a && y in a && x != y
      ensures cmp(x, y) > 0.0 || cmp(y, x) > 0.0
    {
      CompareFlip(cfg, parseFloat, x, y);
    }
    SortedByUnique(cmp, a, b);
  }

  /**
   * Any sorted sequence that keeps each class of ties of `s` in input order, which is what
   * every stable sort with this comparator returns, is `SortLinks` of `s`.
   */
  lemma StableSortUnique(cfg: SortConfig, parseFloat: string -> Option<real>, s: seq<LinkItem>, c: seq<LinkItem>)
    requires Sorted(cfg, parseFloat, c)
    requires forall y :: Filter(TiedWith(cfg, parseFloat, y), c) == Filter(TiedWith(cfg, parseFloat, y), s)
    ensures c == SortLinks(cfg, parseFloat, s)
  {
    var cmp := (p: LinkItem, q: LinkItem) => Compare(cfg, parseFloat, p, q);
    var tie := (y: LinkItem) => TiedWith(cfg, parseFloat, y);
    var sorted := SortLinks(cfg, parseFloat, s);
    SortLinksSorted(cfg, parseFloat, s);
    forall x ensures tie(x)(x) {
      CompareReflexive(cfg, parseFloat, x);
    }
    forall x, y ensures cmp(x, y) <= 0.0 && cmp(y, x) <= 0.0 ==> tie(x)(y) {
      CompareFlip(cfg, parseFloat, x, y);
    }
    forall y ensures Filter(tie(y), c) == Filter(tie(y), sorted) {
      SortLinksStable(cfg, parseFloat, s, y);
      assert tie(y) == TiedWith(cfg, parseFloat, y);
    }
    StableSortedUnique(cmp, tie, c, sorted);
  }

  /** Without ties in a column, the descending sort is the ascending sort read backwards. */
  lemma SortReversal(key: SortKey, parseFloat: string -> Option<real>, s: seq<LinkItem>)
    requires NoTies(SortConfig(key, Asc), parseFloat, s)
    ensures SortLinks(SortConfig(key, Desc), parseFloat, s) == Reversed(SortLinks(SortConfig(key, Asc), parseFloat, s))
  {
    var asc, desc := SortConfig(key, Asc), SortConfig(key, Desc);
    var up, down := SortLinks(asc, parseFloat, s), SortLinks(desc, parseFloat, s);
    SortLinksSorted(asc, parseFloat, s);
    SortLinksSorted(desc, parseFloat, s);
    SortLinksPermutes(asc, parseFloat, s);
    SortLinksPermutes(desc, parseFloat, s);
    ReversedMultiset(up);
    ReversedSorted(key, parseFloat, up);
    forall x, y | x in down && y in down && x != y
      ensures Compare(desc, parseFloat, x, y) != 0.0
    {
      assert x in multiset(down) && y in multiset(down);
      DescendingSwapsArguments(key, parseFloat, x, y);
      CompareFlip(asc, parseFloat, x, y);
    }
    SortedUnique(desc, parseFloat, down, Reversed(up));
  }

  /**
   * A second click on the header of a column sorted ascending shows the same rows in
   * reverse order, when no two rows tie in that column.
   */
  lemma FilteredViewReversal(all: seq<LinkItem>, term: string, key: SortKey, parseFloat: string -> Option<real>)
    requires NoTies(SortConfig(key, Asc), parseFloat, FilterLinks(all, term))
    ensures FilteredView(all, term, SortState.RequestSort(SortConfig(key, Asc), key), parseFloat)
         == Reversed(FilteredView(all, term, SortConfig(key, Asc), parseFloat))
  {
    assert SortState.RequestSort(SortConfig(key, Asc), key) == SortConfig(key, Desc);
    SortReversal(key, parseFloat, FilterLinks(all, term));
  }
}
