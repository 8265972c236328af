/** Ruby's Array#uniq, which Violation#messages relies on: every distinct
    element once, in the order of its first occurrence. */
module Uniq {

  /** No element occurs twice in `s`. */
  predicate NoDuplicates<T(==)>(s: seq<T>) {
    forall i, j :: 0 <= i < j < |s| ==> s[i] != s[j]
  }

  /** `a` and `b` hold the same elements, regardless of order and multiplicity. */
  predicate SameElements<T(==)>(a: seq<T>, b: seq<T>) {
    (forall i :: 0 <= i < |a| ==> a[i] in b) && (forall j :: 0 <= j < |b| ==> b[j] in a)
  }

  /** The position of the first occurrence of `x` in `s`. */
  function FirstIndex<T(==)>(s: seq<T>, x: T): (i: nat)
    requires x in s
    ensures i < |s| && s[i] == x && x !in s[..i]
  {
    if s[0] == x then 0
    else
      var i := 1 + FirstIndex(s[1..], x);
      assert s[..i] == [s[0]] + s[1..][..i - 1];
      i
  }

  /** Array#uniq. It is defined by looking at the last element, the way an
      append-only buffer grows: a new last element is kept only if it has
      not been seen before. */
  function Dedup<T(==)>(s: seq<T>): (r: seq<T>)
    ensures NoDuplicates(r)
    ensures SameElements(r, s)
    ensures |r| <= |s|
  {
    if s == [] then []
    else
      var d := Dedup(s[..|s| - 1]);
      assert s == s[..|s| - 1] + [s[|s| - 1]];
      if s[|s| - 1] in d then d else d + [s[|s| - 1]]
  }

  /** `r` is what uniq promises for `s`: no duplicates, exactly the elements
      of `s`, listed in the order of their first occurrence in `s`. */
  predicate IsUniqOf<T(==)>(s: seq<T>, r: seq<T>) {
    && NoDuplicates(r)
    && SameElements(r, s)
    && (forall i, j :: 0 <= i < j < |r| ==> FirstIndex(s, r[i]) < FirstIndex(s, r[j]))
  }

  /** The first element of `a` is one of `b`'s. */
  lemma SameElementsHead<T>(a: seq<T>, b: seq<T>)
    requires SameElements(a, b) && |a| != 0
    ensures a[0] in b
  {
  }

  /** The first index is the only index that holds `x` with no earlier `x`. */
  lemma FirstIndexUnique<T>(s: seq<T>, x: T, i: nat)
    requires i < |s| && s[i] == x && x !in s[..i]
    ensures FirstIndex(s, x) == i
  {
  }

  /** Appending to a sequence does not move the first occurrence of an
      element that was already there. */
  lemma FirstIndexAppend<T>(s: seq<T>, m: T, x: T)
    requires x in s
    ensures FirstIndex(s + [m], x) == FirstIndex(s, x)
  {
    var k := FirstIndex(s, x);
    assert (s + [m])[..k] == s[..k];
    FirstIndexUnique(s + [m], x, k);
  }

  /** The effect of appending one element on the deduplicated view: an
      element already present changes nothing, a new one goes to the end. */
  lemma DedupAppend<T>(s: seq<T>, m: T)
    ensures Dedup(s + [m]) == if m in s then Dedup(s) else Dedup(s) + [m]
  {
    assert (s + [m])[..|s|] == s;
  }

  /** Dedup meets the uniq specification, including first-occurrence order. */
  lemma {:induction false} DedupIsUniq<T>(s: seq<T>)
    ensures IsUniqOf(s, Dedup(s))
  {
    if s != [] {
      var p, m := s[..|s| - 1], s[|s| - 1];
      assert s == p + [m];
      DedupIsUniq(p);
      var r := Dedup(s);
      forall i, j | 0 <= i < j < |r| ensures FirstIndex(s, r[i]) < FirstIndex(s, r[j]) {
        DedupOrderStep(p, m, i, j);
      }
    }
  }

  /** One step of DedupIsUniq: appending `m` keeps first-occurrence order. */
  lemma DedupOrderStep<T>(p: seq<T>, m: T, i: nat, j: nat)
    requires IsUniqOf(p, Dedup(p))
    requires i < j < |Dedup(p + [m])|
    ensures var r := Dedup(p + [m]); FirstIndex(p + [m], r[i]) < FirstIndex(p + [m], r[j])
  {
    var d, s, r := Dedup(p), p + [m], Dedup(p + [m]);
    DedupAppend(p, m);
    if m !in p && j == |d| {
      assert r == d + [m];
      assert s[..|p|] == p;
      FirstIndexUnique(s, m, |p|);
      FirstIndexAppend(p, m, d[i]);
    } else {
      assert r[i] == d[i] && r[j] == d[j];
      FirstIndexAppend(p, m, d[i]);
      FirstIndexAppend(p, m, d[j]);
    }
  }

  /** Both uniq specifications agree on the elements of `p` when one more
      element is appended to `p`. */
  lemma UniqAppendOld<T>(p: seq<T>, m: T, r: seq<T>)
    requires m in p && IsUniqOf(p + [m], r)
    ensures IsUniqOf(p, r)
  {
    forall x | x in p ensures FirstIndex(p + [m], x) == FirstIndex(p, x) {
      FirstIndexAppend(p, m, x);
    }
    forall j | 0 <= j < |p| ensures p[j] in r {
      assert (p + [m])[j] == p[j];
    }
  }

  /** When the appended element is new, it is the last element of any
      sequence meeting the uniq specification: nothing in that sequence
      occurs first later in `p + [m]` than `m` does. */
  lemma UniqLastIsNew<T>(p: seq<T>, m: T, r: seq<T>)
    requires m !in p && IsUniqOf(p + [m], r)
    ensures r != [] && r[|r| - 1] == m
  {
    var s := p + [m];
    assert s[..|p|] == p;
    FirstIndexUnique(s, m, |p|);
    assert s[|p|] in r;
    var k :| 0 <= k < |r| && r[k] == m;
    var y := r[|r| - 1];
    assert FirstIndex(s, r[k]) <= FirstIndex(s, y);
    assert FirstIndex(s, y) == |p|;
  }

  /** When the appended element is new and last, what precedes it holds
      exactly the elements of `p`. */
  lemma UniqPrefixElements<T>(p: seq<T>, m: T, r: seq<T>)
    requires m !in p && IsUniqOf(p + [m], r)
    requires r != [] && r[|r| - 1] == m
    ensures SameElements(r[..|r| - 1], p)
  {
    var s := p + [m];
    var r' := r[..|r| - 1];
    forall j | 0 <= j < |p| ensures p[j] in r' {
      assert s[j] in r;
      var t :| 0 <= t < |r| && r[t] == p[j];
      assert r'[t] == p[j];
    }
    forall i | 0 <= i < |r'| ensures r'[i] in p {
      assert r[i] in s && r[i] != m;
    }
  }

  /** When the appended element is new, what precedes it in any sequence
      meeting the uniq specification meets the specification for `p`. */
  lemma UniqAppendNew<T>(p: seq<T>, m: T, r: seq<T>)
    requires m !in p && IsUniqOf(p + [m], r)
    ensures r != [] && r[|r| - 1] == m && IsUniqOf(p, r[..|r| - 1])
  {
    var s := p + [m];
    UniqLastIsNew(p, m, r);
    UniqPrefixElements(p, m, r);
    var r' := r[..|r| - 1];
    forall i, j | 0 <= i < j < |r'| ensures FirstIndex(p, r'[i]) < FirstIndex(p, r'[j]) {
      FirstIndexAppend(p, m, r'[i]);
      FirstIndexAppend(p, m, r'[j]);
      assert FirstIndex(s, r[i]) < FirstIndex(s, r[j]);
    }
  }

  /** The uniq specification determines its result: any `r` meeting it is
      Dedup(s). Together with DedupIsUniq, Dedup is exactly Array#uniq. */
  lemma {:induction false} UniqIsUnique<T>(s: seq<T>, r: seq<T>)
    requires IsUniqOf(s, r)
    ensures r == Dedup(s)
    decreases |s|, 1
  {
    if s != [] {
      var p, m := s[..|s| - 1], s[|s| - 1];
      assert s == p + [m];
      if m in p {
        UniqIsUniqueOld(p, m, r);
      } else {
        UniqIsUniqueNew(p, m, r);
      }
    } else {
      if |r| != 0 {
        SameElementsHead(r, s);
        assert false;
      }
    }
  }

  /** The step of UniqIsUnique for an element seen before. */
  lemma {:induction false} UniqIsUniqueOld<T>(p: seq<T>, m: T, r: seq<T>)
    requires m in p && IsUniqOf(p + [m], r)
    ensures r == Dedup(p + [m])
    decreases |p| + 1, 0
  {
    DedupAppend(p, m);
    UniqAppendOld(p, m, r);
    UniqIsUnique(p, r);
  }

  /** The step of UniqIsUnique for a new element. */
  lemma {:induction false} UniqIsUniqueNew<T>(p: seq<T>, m: T, r: seq<T>)
    requires m !in p && IsUniqOf(p + [m], r)
    ensures r == Dedup(p + [m])
    decreases |p| + 1, 0
  {
    DedupAppend(p, m);
    UniqAppendNew(p, m, r);
    var r' := r[..|r| - 1];
    UniqIsUnique(p, r');
    assert r == r' + [m];
  }

  /** A sequence without duplicates is its own uniq. */
  lemma {:induction false} DedupOfDistinct<T>(s: seq<T>)
    requires NoDuplicates(s)
    ensures Dedup(s) == s
  {
    if s != [] {
      var p := s[..|s| - 1];
      assert NoDuplicates(p);
      DedupOfDistinct(p);
      assert s == p + [s[|s| - 1]];
    }
  }

  /** uniq is idempotent. */
  lemma DedupIdempotent<T>(s: seq<T>)
    ensures Dedup(Dedup(s)) == Dedup(s)
  {
    DedupOfDistinct(Dedup(s));
  }
}
