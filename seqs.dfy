/** `Array.prototype.filter`, reversal and sorted orders: the sequence facts the views rely on. */
module Seqs {

  /** The elements of `s` that satisfy `p`, in their original order. */
  function Filter<T(!new)>(p: T -> bool, s: seq<T>): (r: seq<T>)
    ensures |r| <= |s|
  {
    if s == [] then []
    else if p(s[0]) then [s[0]] + Filter(p, s[1..])
    else Filter(p, s[1..])
  }

  /** The filtered sequence holds exactly the elements of `s` that pass, and only passing ones. */
  lemma {:induction false} FilterMembers<T(!new)>(p: T -> bool, s: seq<T>)
    ensures forall x :: x in Filter(p, s) <==> x in s && p(x)
    ensures forall i :: 0 <= i < |Filter(p, s)| ==> p(Filter(p, s)[i])
  {
    if s != [] {
      FilterMembers(p, s[1..]);
      assert forall x :: x in s <==> x == s[0] || x in s[1..];
    }
  }

  /** `pos` lists, in strictly increasing order, positions of `b` that spell out `a`. */
  ghost predicate IsEmbedding<T>(pos: seq<nat>, a: seq<T>, b: seq<T>)
  {
    && |pos| == |a|
    && (forall i :: 0 <= i < |pos| ==> pos[i] < |b| && a[i] == b[pos[i]])
    && (forall i, j :: 0 <= i < j < |pos| ==> pos[i] < pos[j])
  }

  /** `a` is `b` with some elements left out and the others kept in their relative order. */
  ghost predicate IsSubsequence<T>(a: seq<T>, b: seq<T>)
  {
    exists pos :: IsEmbedding(pos, a, b)
  }

  /** Every position moved one place to the right. */
  function Shifted(pos: seq<nat>): (r: seq<nat>)
    ensures |r| == |pos|
    ensures forall i :: 0 <= i < |pos| ==> r[i] == pos[i] + 1
  {
    seq(|pos|, i requires 0 <= i < |pos| => pos[i] + 1)
  }

  lemma EmbeddingSkip<T>(pos: seq<nat>, a: seq<T>, b: seq<T>, x: T)
    requires IsEmbedding(pos, a, b)
    ensures IsEmbedding(Shifted(pos), a, [x] + b)
  {
  }

  lemma EmbeddingTake<T>(pos: seq<nat>, a: seq<T>, b: seq<T>, x: T)
    requires IsEmbedding(pos, a, b)
    ensures IsEmbedding([0] + Shifted(pos), [x] + a, [x] + b)
  {
    var pos' := [0] + Shifted(pos);
    forall i | 0 <= i < |pos'| ensures pos'[i] < |[x] + b| && ([x] + a)[i] == ([x] + b)[pos'[i]] {
      if i > 0 { assert pos'[i] == pos[i - 1] + 1; }
    }
  }

  /** Filtering keeps an order-preserving subsequence. */
  lemma {:induction false} FilterIsSubsequence<T(!new)>(p: T -> bool, s: seq<T>)
    ensures IsSubsequence(Filter(p, s), s)
  {
    if s == [] {
      assert IsEmbedding([], Filter(p, s), s);
    } else {
      FilterIsSubsequence(p, s[1..]);
      var tail := Filter(p, s[1..]);
      var pos :| IsEmbedding(pos, tail, s[1..]);
      assert [s[0]] + s[1..] == s;
      if p(s[0]) {
        EmbeddingTake(pos, tail, s[1..], s[0]);
      } else {
        EmbeddingSkip(pos, tail, s[1..], s[0]);
      }
    }
  }

  /** Filtering a sequence whose every element passes changes nothing. */
  lemma {:induction false} FilterAllPass<T(!new)>(p: T -> bool, s: seq<T>)
    requires forall i :: 0 <= i < |s| ==> p(s[i])
    ensures Filter(p, s) == s
  {
    if s != [] {
      FilterAllPass(p, s[1..]);
      assert [s[0]] + s[1..] == s;
    }
  }

  /** Filtering twice with the same predicate is filtering once. */
  lemma FilterIdempotent<T(!new)>(p: T -> bool, s: seq<T>)
    ensures Filter(p, Filter(p, s)) == Filter(p, s)
  {
    FilterMembers(p, s);
    FilterAllPass(p, Filter(p, s));
  }

  /** Filtering distributes over concatenation. */
  lemma {:induction false} FilterAppend<T(!new)>(p: T -> bool, a: seq<T>, b: seq<T>)
    ensures Filter(p, a + b) == Filter(p, a) + Filter(p, b)
  {
    if a == [] {
      assert a + b == b;
    } else {
      assert (a + b)[1..] == a[1..] + b;
      assert (a + b)[0] == a[0];
      FilterAppend(p, a[1..], b);
      if p(a[0]) {
        calc {
          Filter(p, a + b);
          [a[0]] + Filter(p, a[1..] + b);
          [a[0]] + (Filter(p, a[1..]) + Filter(p, b));
          ([a[0]] + Filter(p, a[1..])) + Filter(p, b);
        }
      }
    }
  }

  /** Filtering never adds occurrences: every element occurs at most as often as before. */
  lemma {:induction false} FilterSubMultiset<T(!new)>(p: T -> bool, s: seq<T>)
    ensures multiset(Filter(p, s)) <= multiset(s)
  {
    if s != [] {
      FilterSubMultiset(p, s[1..]);
      assert s == [s[0]] + s[1..];
      assert multiset(s) == multiset{s[0]} + multiset(s[1..]);
      if p(s[0]) {
        assert multiset(Filter(p, s)) == multiset{s[0]} + multiset(Filter(p, s[1..]));
      }
    }
  }

  /**
   * Two elements that do not both pass can trade places at the end without changing the
   * filtered sequence.
   */
  lemma FilterSwapLast<T(!new)>(p: T -> bool, a: seq<T>, b: seq<T>, x: T, last: T)
    requires Filter(p, a) == Filter(p, b + [x])
    requires !(p(x) && p(last))
    ensures Filter(p, a + [last]) == Filter(p, b + [last] + [x])
  {
    FilterAppend(p, a, [last]);
    FilterAppend(p, b, [x]);
    FilterAppend(p, b + [x], [last]);
    FilterAppend(p, b, [last]);
    FilterAppend(p, b + [last], [x]);
  }

  /**
   * Sequences with the same filtered image keep it when the same element is appended,
   * and so does any sequence that filters like the extended one.
   */
  lemma FilterSnoc<T(!new)>(p: T -> bool, a: seq<T>, b: seq<T>, x: T, c: seq<T>)
    requires Filter(p, a) == Filter(p, b)
    requires Filter(p, c) == Filter(p, a + [x])
    ensures Filter(p, c) == Filter(p, b + [x])
  {
    FilterAppend(p, a, [x]);
    FilterAppend(p, b, [x]);
  }

  /** The elements of `s` in the opposite order. */
  function Reversed<T>(s: seq<T>): (r: seq<T>)
    ensures |r| == |s|
    ensures forall i :: 0 <= i < |s| ==> r[i] == s[|s| - 1 - i]
  {
    if s == [] then [] else Reversed(s[1..]) + [s[0]]
  }

  /** Reversing keeps every element with its multiplicity. */
  lemma {:induction false} ReversedMultiset<T>(s: seq<T>)
    ensures multiset(Reversed(s)) == multiset(s)
  {
    if s != [] {
      ReversedMultiset(s[1..]);
      assert s == [s[0]] + s[1..];
    }
  }

  /** No element of `s` is placed after one that `cmp` says should follow it. */
  ghost predicate SortedBy<T>(cmp: (T, T) -> real, s: seq<T>)
  {
    forall i, j :: 0 <= i < j < |s| ==> cmp(s[i], s[j]) <= 0.0
  }

  /** Any two different elements of `s` are strictly ordered one way or the other. */
  ghost predicate Strict<T>(cmp: (T, T) -> real, s: seq<T>)
  {
    forall x, y :: x in s && y in s && x != y ==> cmp(x, y) > 0.0 || cmp(y, x) > 0.0
  }

  /** Two sorted sequences that hold each other's first element start with the same element. */
  lemma SortedBySameHead<T>(cmp: (T, T) -> real, a: seq<T>, b: seq<T>)
    requires a != [] && b != [] && SortedBy(cmp, a) && SortedBy(cmp, b)
    requires b[0] in a && a[0] in b && Strict(cmp, a)
    ensures a[0] == b[0]
  {
    if a[0] != b[0] {
      assert false;
    }
  }

  /** Dropping a shared first element keeps two equal multisets equal. */
  lemma SameTails<T>(a: seq<T>, b: seq<T>)
    requires a != [] && b != [] && a[0] == b[0] && multiset(a) == multiset(b)
    ensures multiset(a[1..]) == multiset(b[1..])
  {
    assert a == [a[0]] + a[1..];
    assert b == [b[0]] + b[1..];
    assert multiset(a) == multiset{a[0]} + multiset(a[1..]);
    assert multiset(b) == multiset{b[0]} + multiset(b[1..]);
    forall x ensures multiset(a[1..])[x] == multiset(b[1..])[x] {
      assert multiset(a)[x] == multiset{a[0]}[x] + multiset(a[1..])[x];
      assert multiset(b)[x] == multiset{b[0]}[x] + multiset(b[1..])[x];
    }
  }

  /** Sequences are equal when their first elements and their tails are. */
  lemma SameHeadSameTail<T>(a: seq<T>, b: seq<T>)
    requires a != [] && b != [] && a[0] == b[0] && a[1..] == b[1..]
    ensures a == b
  {
    assert a == [a[0]] + a[1..] && b == [b[0]] + b[1..];
  }

  /** A sorted sequence stays sorted, and strictly ordered, without its first element. */
  lemma SortedByTail<T>(cmp: (T, T) -> real, s: seq<T>)
    requires s != [] && SortedBy(cmp, s)
    ensures SortedBy(cmp, s[1..])
    ensures Strict(cmp, s) ==> Strict(cmp, s[1..])
  {
    assert forall x :: x in s[1..] ==> x in s;
  }

  /** Under a strict order, two sorted sequences with the same elements are equal. */
  lemma {:induction false} SortedByUnique<T>(cmp: (T, T) -> real, a: seq<T>, b: seq<T>)
    requires SortedBy(cmp, a) && SortedBy(cmp, b)
    requires multiset(a) == multiset(b)
    requires Strict(cmp, a)
    ensures a == b
    decreases |a|
  {
    if a == [] {
      assert |b| == |multiset(b)|;
    } else {
      assert a[0] in multiset(b);
      assert b[0] in multiset(a);
      SortedBySameHead(cmp, a, b);
      SameTails(a, b);
      SortedByTail(cmp, a);
      SortedByTail(cmp, b);
      SortedByUnique(cmp, a[1..], b[1..]);
      SameHeadSameTail(a, b);
    }
  }

  /** Sequences that filter alike and start alike still filter alike without their first element. */
  lemma FilterDropHead<T(!new)>(p: T -> bool, a: seq<T>, b: seq<T>)
    requires a != [] && b != [] && a[0] == b[0] && Filter(p, a) == Filter(p, b)
    ensures Filter(p, a[1..]) == Filter(p, b[1..])
  {
    if p(a[0]) {
      assert Filter(p, a)[1..] == Filter(p, a[1..]);
      assert Filter(p, b)[1..] == Filter(p, b[1..]);
    }
  }

  /** The first element of `b` passes `p`, so it leads `b`'s filtered image and lies in `a`. */
  lemma FirstPassing<T(!new)>(p: T -> bool, a: seq<T>, b: seq<T>)
    requires b != [] && p(b[0]) && Filter(p, a) == Filter(p, b)
    ensures Filter(p, b) == [b[0]] + Filter(p, b[1..])
    ensures b[0] in a
  {
    FilterMembers(p, a);
  }

  /** In a sorted sequence the first element goes no later than any other. */
  lemma SortedByHeadFirst<T>(cmp: (T, T) -> real, s: seq<T>, y: T)
    requires s != [] && SortedBy(cmp, s) && y in s && y != s[0]
    ensures cmp(s[0], y) <= 0.0
  {
    var i :| 0 <= i < |s| && s[i] == y;
  }

  /** Sequences whose every class of ties filters alike are both empty or both not. */
  lemma EmptyTogether<T(!new)>(tie: T -> (T -> bool), a: seq<T>, b: seq<T>)
    requires forall x :: tie(x)(x)
    requires forall y :: Filter(tie(y), a) == Filter(tie(y), b)
    ensures a == [] <==> b == []
  {
    if a != [] {
      FirstPassing(tie(a[0]), b, a);
    }
    if b != [] {
      FirstPassing(tie(b[0]), a, b);
    }
  }

  /** The first elements of two sorted sequences that hold each other's first element tie. */
  lemma HeadsTie<T>(cmp: (T, T) -> real, tie: T -> (T -> bool), a: seq<T>, b: seq<T>)
    requires a != [] && b != [] && SortedBy(cmp, a) && SortedBy(cmp, b)
    requires b[0] in a && a[0] in b
    requires tie(a[0])(a[0])
    requires cmp(a[0], b[0]) <= 0.0 && cmp(b[0], a[0]) <= 0.0 ==> tie(a[0])(b[0])
    ensures tie(a[0])(b[0])
  {
    if a[0] != b[0] {
      SortedByHeadFirst(cmp, a, b[0]);
      SortedByHeadFirst(cmp, b, a[0]);
    }
  }

  /** Sequences that filter alike and both start with a passing element start alike. */
  lemma PassingHeads<T(!new)>(p: T -> bool, a: seq<T>, b: seq<T>)
    requires a != [] && b != [] && p(a[0]) && p(b[0]) && Filter(p, a) == Filter(p, b)
    ensures a[0] == b[0]
  {
    assert Filter(p, a)[0] == a[0];
    assert Filter(p, b)[0] == b[0];
  }

  /**
   * Two sorted sequences that list the ties of each one's first element (`tie(y)`: the
   * elements comparing equal to `y`) in the same order start with the same element.
   */
  lemma StableSameHead<T(!new)>(cmp: (T, T) -> real, tie: T -> (T -> bool), a: seq<T>, b: seq<T>)
    requires a != [] && b != [] && SortedBy(cmp, a) && SortedBy(cmp, b)
    requires tie(a[0])(a[0]) && tie(b[0])(b[0])
    requires cmp(a[0], b[0]) <= 0.0 && cmp(b[0], a[0]) <= 0.0 ==> tie(a[0])(b[0])
    requires Filter(tie(a[0]), a) == Filter(tie(a[0]), b)
    requires Filter(tie(b[0]), a) == Filter(tie(b[0]), b)
    ensures a[0] == b[0]
  {
    FirstPassing(tie(b[0]), a, b);
    FirstPassing(tie(a[0]), b, a);
    HeadsTie(cmp, tie, a, b);
    PassingHeads(tie(a[0]), a, b);
  }

  /** `FilterDropHead` for every class of ties at once. */
  lemma TiesFilterAlikeTail<T(!new)>(tie: T -> (T -> bool), a: seq<T>, b: seq<T>)
    requires a != [] && b != [] && a[0] == b[0]
    requires forall y :: Filter(tie(y), a) == Filter(tie(y), b)
    ensures forall y :: Filter(tie(y), a[1..]) == Filter(tie(y), b[1..])
  {
    forall y ensures Filter(tie(y), a[1..]) == Filter(tie(y), b[1..]) {
      FilterDropHead(tie(y), a, b);
    }
  }

  /**
   * A sorted sequence is fixed by the order of each class of ties: two sorted sequences
   * that agree on it are equal. So every stable sort with the same comparator gives the
   * same result.
   */
  lemma {:induction false} StableSortedUnique<T(!new)>(cmp: (T, T) -> real, tie: T -> (T -> bool), a: seq<T>, b: seq<T>)
    requires SortedBy(cmp, a) && SortedBy(cmp, b)
    requires forall x :: tie(x)(x)
    requires forall x, y :: cmp(x, y) <= 0.0 && cmp(y, x) <= 0.0 ==> tie(x)(y)
    requires forall y :: Filter(tie(y), a) == Filter(tie(y), b)
    ensures a == b
    decreases |a|
  {
    EmptyTogether(tie, a, b);
    if a != [] {
      StableSameHead(cmp, tie, a, b);
      TiesFilterAlikeTail(tie, a, b);
      SortedByTail(cmp, a);
      SortedByTail(cmp, b);
      StableSortedUnique(cmp, tie, a[1..], b[1..]);
      SameHeadSameTail(a, b);
    }
  }
}
