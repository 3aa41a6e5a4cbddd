/** Sequence helpers: first-seen de-duplication and first-match search. */
module Sequences {
  import opened Options

  predicate NoDuplicates<T(==)>(s: seq<T>) {
    forall i, j :: 0 <= i < j < |s| ==> s[i] != s[j]
  }

  /** A prefix one longer is the prefix followed by the next element. */
  lemma PrefixStep<T>(s: seq<T>, i: nat)
    requires i < |s|
    ensures s[..i + 1] == s[..i] + [s[i]]
  {
  }

  /** The distinct elements of `s`, each kept where it first occurs. */
  function Distinct<T(==)>(s: seq<T>): (r: seq<T>)
    ensures |r| <= |s|
    decreases |s|
  {
    if s == [] then []
    else
      var d := Distinct(s[..|s| - 1]);
      if s[|s| - 1] in d then d else d + [s[|s| - 1]]
  }

  /** Distinct keeps every element and adds none. */
  lemma {:induction false} DistinctMembers<T>(s: seq<T>, x: T)
    ensures x in Distinct(s) <==> x in s
    decreases |s|
  {
    if s != [] {
      var t := s[..|s| - 1];
      assert s == t + [s[|s| - 1]];
      DistinctMembers(t, x);
    }
  }

  /** Distinct never repeats an element. */
  lemma {:induction false} DistinctNoDuplicates<T>(s: seq<T>)
    ensures NoDuplicates(Distinct(s))
    decreases |s|
  {
    if s != [] {
      var t := s[..|s| - 1];
      DistinctNoDuplicates(t);
      DistinctMembers(t, s[|s| - 1]);
    }
  }

  /** Appending one element extends the distinct elements exactly when it is new. */
  lemma DistinctSnoc<T>(s: seq<T>, x: T)
    ensures Distinct(s + [x]) == if x in s then Distinct(s) else Distinct(s) + [x]
  {
    assert (s + [x])[..|s + [x]| - 1] == s;
    DistinctMembers(s, x);
  }

  /** Extending a prefix by one element extends its distinct elements when that element is new. */
  lemma DistinctPrefixStep<T>(s: seq<T>, i: nat)
    requires i < |s|
    ensures Distinct(s[..i + 1]) ==
      if s[i] in Distinct(s[..i]) then Distinct(s[..i]) else Distinct(s[..i]) + [s[i]]
  {
    assert s[..i + 1] == s[..i] + [s[i]];
    DistinctSnoc(s[..i], s[i]);
    DistinctMembers(s[..i], s[i]);
  }

  /** The same step for a sequence `a` followed by a growing prefix of `b`. */
  lemma DistinctAppendStep<T>(a: seq<T>, b: seq<T>, j: nat)
    requires j < |b|
    ensures Distinct(a + b[..j + 1]) ==
      if b[j] in Distinct(a + b[..j]) then Distinct(a + b[..j]) else Distinct(a + b[..j]) + [b[j]]
  {
    assert a + b[..j + 1] == (a + b[..j]) + [b[j]];
    DistinctSnoc(a + b[..j], b[j]);
    DistinctMembers(a + b[..j], b[j]);
  }

  /** A sequence without repeats is its own distinct elements. */
  lemma {:induction false} NoDuplicatesDistinct<T>(s: seq<T>)
    requires NoDuplicates(s)
    ensures Distinct(s) == s
    decreases |s|
  {
    if s != [] {
      var t, x := s[..|s| - 1], s[|s| - 1];
      assert s == t + [x];
      NoDuplicatesDistinct(t);
      DistinctSnoc(t, x);
    }
  }

  /** The index of the first occurrence of `x` in `s`. */
  function FirstIndex<T(==)>(s: seq<T>, x: T): (i: nat)
    requires x in s
    ensures i < |s| && s[i] == x
    ensures forall j :: 0 <= j < i ==> s[j] != x
  {
    if s[0] == x then 0 else 1 + FirstIndex(s[1..], x)
  }

  lemma {:induction false} FirstIndexPrefix<T>(t: seq<T>, extra: seq<T>, y: T)
    requires y in t
    ensures y in t + extra && FirstIndex(t + extra, y) == FirstIndex(t, y)
  {
    if t[0] != y {
      assert (t + extra)[1..] == t[1..] + extra;
      FirstIndexPrefix(t[1..], extra, y);
    }
  }

  /** The set of elements occurring in `s`. */
  function Elements<T>(s: seq<T>): set<T> {
    set x | x in s
  }

  /** There are as many distinct elements as elements in the set of `s`. */
  lemma {:induction false} DistinctCardinality<T>(s: seq<T>)
    ensures |Distinct(s)| == |Elements(s)|
    decreases |s|
  {
    if s != [] {
      var t, x := s[..|s| - 1], s[|s| - 1];
      assert s == t + [x];
      DistinctCardinality(t);
      DistinctSnoc(t, x);
      assert Elements(s) == Elements(t) + {x};
    }
  }

  /** Distinct keeps the order of first occurrences. */
  lemma {:induction false} DistinctFirstSeenOrder<T>(s: seq<T>, i: nat, j: nat)
    requires i < j < |Distinct(s)|
    ensures Distinct(s)[i] in s && Distinct(s)[j] in s
    ensures FirstIndex(s, Distinct(s)[i]) < FirstIndex(s, Distinct(s)[j])
    decreases |s|
  {
    var t, x := s[..|s| - 1], s[|s| - 1];
    assert s == t + [x];
    DistinctSnoc(t, x);
    var d := Distinct(t);
    DistinctMembers(t, d[i]);
    FirstIndexPrefix(t, [x], d[i]);
    if j < |d| {
      DistinctFirstSeenOrder(t, i, j);
      DistinctMembers(t, d[j]);
      FirstIndexPrefix(t, [x], d[j]);
    } else {
      assert Distinct(s)[j] == x && x !in t;
      assert FirstIndex(s, x) == |t|;
    }
  }

  /** The index of the first element of `s` that satisfies `p`, if any. */
  function FindFirst<T>(s: seq<T>, p: T -> bool): (r: Option<nat>)
    ensures r.Some? ==> r.value < |s| && p(s[r.value])
    ensures r.Some? ==> forall j :: 0 <= j < r.value ==> !p(s[j])
    ensures r.None? <==> forall j :: 0 <= j < |s| ==> !p(s[j])
  {
    if s == [] then None
    else if p(s[0]) then Some(0)
    else match FindFirst(s[1..], p)
      case None => None
      case Some(k) => Some(k + 1)
  }
}
