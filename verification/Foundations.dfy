/** The optional value the runtime writes as `null` or leaves undefined, and a checked outcome. */
module Outcomes {
  datatype Option<+T> = None | Some(value: T)

  datatype Result<+T, +E> = Ok(value: T) | Err(error: E)
}

/** JavaScript strings: sequences of UTF-16 code units, lone surrogates included; and bytes. */
module JsText {
  type CodeUnit = n: int | 0 <= n < 0x1_0000
  type Text = seq<CodeUnit>

  type Byte = n: int | 0 <= n < 256

  /** An ASCII literal as code units. */
  function Ascii(s: string): (t: Text)
    ensures |t| == |s|
  {
    seq(|s|, i requires 0 <= i < |s| => if s[i] as int < 128 then s[i] as int else 63)
  }

  /** The order of JavaScript's `<=` on strings: code unit by code unit. */
  predicate AtMost(a: Text, b: Text) {
    a == [] || (b != [] && (a[0] < b[0] || (a[0] == b[0] && AtMost(a[1..], b[1..]))))
  }

  lemma {:induction false} AtMostTotal(a: Text, b: Text)
    ensures AtMost(a, b) || AtMost(b, a)
  {
    if a != [] && b != [] && a[0] == b[0] {
      AtMostTotal(a[1..], b[1..]);
    }
  }

  lemma {:induction false} AtMostTransitive(a: Text, b: Text, c: Text)
    requires AtMost(a, b) && AtMost(b, c)
    ensures AtMost(a, c)
  {
    if a != [] && a[0] == b[0] && b[0] == c[0] {
      AtMostTransitive(a[1..], b[1..], c[1..]);
    }
  }

  lemma {:induction false} AtMostAntisymmetric(a: Text, b: Text)
    requires AtMost(a, b) && AtMost(b, a)
    ensures a == b
  {
    if a != [] {
      AtMostAntisymmetric(a[1..], b[1..]);
      assert a == [a[0]] + a[1..] && b == [b[0]] + b[1..];
    }
  }
}

/** `Array.prototype.sort`: the stable sort that every collection below relies on. */
module Sorting {
  ghost predicate TotalPreorder<T(!new)>(atMost: (T, T) -> bool) {
    && (forall a, b :: atMost(a, b) || atMost(b, a))
    && (forall a, b, c :: atMost(a, b) && atMost(b, c) ==> atMost(a, c))
  }

  ghost predicate Sorted<T>(s: seq<T>, atMost: (T, T) -> bool) {
    forall i, j :: 0 <= i < j < |s| ==> atMost(s[i], s[j])
  }

  ghost predicate Distinct<T>(s: seq<T>) {
    forall i, j :: 0 <= i < j < |s| ==> s[i] != s[j]
  }

  /** Inserts before the first element that is not strictly smaller, which keeps ties in order. */
  function Insert<T>(x: T, s: seq<T>, atMost: (T, T) -> bool): seq<T> {
    if s == [] then [x]
    else if atMost(x, s[0]) then [x] + s
    else [s[0]] + Insert(x, s[1..], atMost)
  }

  function Sort<T>(s: seq<T>, atMost: (T, T) -> bool): seq<T> {
    if s == [] then [] else Insert(s[0], Sort(s[1..], atMost), atMost)
  }

  lemma {:induction false} InsertKeeps<T>(x: T, s: seq<T>, atMost: (T, T) -> bool)
    ensures multiset(Insert(x, s, atMost)) == multiset{x} + multiset(s)
    ensures |Insert(x, s, atMost)| == |s| + 1
  {
    if s == [] {
    } else if atMost(x, s[0]) {
    } else {
      InsertKeeps(x, s[1..], atMost);
      assert s == [s[0]] + s[1..];
    }
  }

  lemma {:induction false} InsertSorted<T(!new)>(x: T, s: seq<T>, atMost: (T, T) -> bool)
    requires TotalPreorder(atMost) && Sorted(s, atMost)
    ensures Sorted(Insert(x, s, atMost), atMost)
  {
    if s == [] {
    } else if atMost(x, s[0]) {
      assert forall j :: 0 <= j < |s| ==> atMost(s[0], s[j]);
    } else {
      InsertSorted(x, s[1..], atMost);
      InsertKeeps(x, s[1..], atMost);
      var rest := Insert(x, s[1..], atMost);
      forall k | 0 <= k < |rest|
        ensures atMost(s[0], rest[k])
      {
        assert rest[k] in multiset(rest);
      }
    }
  }

  /** Sorting is a permutation. */
  lemma {:induction false} SortKeeps<T>(s: seq<T>, atMost: (T, T) -> bool)
    ensures multiset(Sort(s, atMost)) == multiset(s)
    ensures |Sort(s, atMost)| == |s|
    ensures forall x :: x in Sort(s, atMost) <==> x in s
  {
    if s != [] {
      SortKeeps(s[1..], atMost);
      InsertKeeps(s[0], Sort(s[1..], atMost), atMost);
      assert s == [s[0]] + s[1..];
    }
    assert forall x :: x in Sort(s, atMost) <==> x in multiset(Sort(s, atMost));
    assert forall x :: x in s <==> x in multiset(s);
  }

  lemma {:induction false} SortSorted<T(!new)>(s: seq<T>, atMost: (T, T) -> bool)
    requires TotalPreorder(atMost)
    ensures Sorted(Sort(s, atMost), atMost)
  {
    if s != [] {
      SortSorted(s[1..], atMost);
      InsertSorted(s[0], Sort(s[1..], atMost), atMost);
    }
  }

  lemma {:induction false} InsertDistinct<T>(x: T, s: seq<T>, atMost: (T, T) -> bool)
    requires x !in s && Distinct(s)
    ensures Distinct(Insert(x, s, atMost))
  {
    if s != [] && !atMost(x, s[0]) {
      InsertDistinct(x, s[1..], atMost);
      InsertKeeps(x, s[1..], atMost);
      var rest := Insert(x, s[1..], atMost);
      forall k | 0 <= k < |rest|
        ensures rest[k] != s[0]
      {
        assert rest[k] in multiset(rest);
      }
    }
  }

  lemma {:induction false} SortDistinct<T>(s: seq<T>, atMost: (T, T) -> bool)
    requires Distinct(s)
    ensures Distinct(Sort(s, atMost))
  {
    if s != [] {
      SortDistinct(s[1..], atMost);
      SortKeeps(s[1..], atMost);
      InsertDistinct(s[0], Sort(s[1..], atMost), atMost);
    }
  }

  /** A sorted array is left as it is. */
  lemma {:induction false} SortOfSorted<T(!new)>(s: seq<T>, atMost: (T, T) -> bool)
    requires Sorted(s, atMost)
    ensures Sort(s, atMost) == s
  {
    if s != [] {
      SortOfSorted(s[1..], atMost);
      assert s == [s[0]] + s[1..];
      if |s| > 1 {
        assert atMost(s[0], s[1]);
      }
    }
  }

  /** All but the `keep` largest elements, in order. */
  function Surplus<T>(s: seq<T>, atMost: (T, T) -> bool, keep: nat): seq<T> {
    var sorted := Sort(s, atMost);
    if |sorted| <= keep then [] else sorted[..|sorted| - keep]
  }

  function Largest<T>(s: seq<T>, atMost: (T, T) -> bool, keep: nat): (r: seq<T>)
    ensures |r| <= keep
  {
    Sort(s, atMost)[|Surplus(s, atMost, keep)|..]
  }

  lemma SurplusSplits<T>(s: seq<T>, atMost: (T, T) -> bool, keep: nat)
    ensures forall x :: x in s <==> x in Surplus(s, atMost, keep) || x in Largest(s, atMost, keep)
  {
    SortKeeps(s, atMost);
    var sorted := Sort(s, atMost);
    var n := |Surplus(s, atMost, keep)|;
    assert sorted == sorted[..n] + sorted[n..];
  }

  lemma SurplusIsSmallest<T(!new)>(s: seq<T>, atMost: (T, T) -> bool, keep: nat, gone: T, kept: T)
    requires TotalPreorder(atMost)
    requires gone in Surplus(s, atMost, keep) && kept in s && kept !in Surplus(s, atMost, keep)
    ensures atMost(gone, kept)
  {
    SurplusSplits(s, atMost, keep);
    SortSorted(s, atMost);
    var sorted := Sort(s, atMost);
    var n := |Surplus(s, atMost, keep)|;
    var i :| 0 <= i < n && sorted[i] == gone;
    var j :| 0 <= j < |sorted| - n && sorted[n..][j] == kept;
    assert sorted[n + j] == kept;
  }
}
