/** UTF-8 (section 3 of RFC 3629) of UTF-16 strings, and the offsets a code-point walk can reach. */
module Utf8 {
  import opened JsText

  predicate IsHigh(u: CodeUnit) {
    0xD800 <= u <= 0xDBFF
  }

  predicate IsLow(u: CodeUnit) {
    0xDC00 <= u <= 0xDFFF
  }

  predicate PairAt(t: Text, i: nat) {
    i + 1 < |t| && IsHigh(t[i]) && IsLow(t[i + 1])
  }

  /** A lone surrogate is its own code point. */
  function CodePointAt(t: Text, i: nat): nat
    requires i < |t|
  {
    if PairAt(t, i) then 0x10000 + ((t[i] as int) - 0xD800) * 0x400 + ((t[i + 1] as int) - 0xDC00) else t[i]
  }

  function Width(codePoint: nat): nat {
    if codePoint > 0xFFFF then 2 else 1
  }

  lemma WidthCountsUnits(t: Text, i: nat)
    requires i < |t|
    ensures Width(CodePointAt(t, i)) == if PairAt(t, i) then 2 else 1
    ensures CodePointAt(t, i) <= 0x10FFFF
  {
  }

  function ByteCount(codePoint: nat): nat {
    if codePoint <= 0x7F then 1 else if codePoint <= 0x7FF then 2 else if codePoint <= 0xFFFF then 3 else 4
  }

  /** Lone surrogates encode as U+FFFD, which is as long. */
  function EncodePoint(c: nat): (b: seq<Byte>)
    requires c <= 0x10FFFF
    ensures |b| == ByteCount(c)
  {
    if 0xD800 <= c <= 0xDFFF then [0xEF, 0xBF, 0xBD]
    else if c <= 0x7F then [c]
    else if c <= 0x7FF then [0xC0 + c / 64, 0x80 + c % 64]
    else if c <= 0xFFFF then [0xE0 + c / 4096, 0x80 + c / 64 % 64, 0x80 + c % 64]
    else [0xF0 + c / 262144, 0x80 + c / 4096 % 64, 0x80 + c / 64 % 64, 0x80 + c % 64]
  }

  function EncodeFrom(t: Text, i: nat): seq<Byte>
    requires i <= |t|
    decreases |t| - i
  {
    if i == |t| then []
    else
      WidthCountsUnits(t, i);
      EncodePoint(CodePointAt(t, i)) + EncodeFrom(t, i + Width(CodePointAt(t, i)))
  }

  function Encode(t: Text): seq<Byte> {
    EncodeFrom(t, 0)
  }

  // ---------- Offsets ----------

  /** The walk by code points from `a` visits `b`. */
  predicate Reaches(t: Text, a: nat, b: nat)
    decreases b - a
  {
    a == b || (a < b <= |t| && Reaches(t, a + Width(CodePointAt(t, a)), b))
  }

  /** The local test: not between the halves of a surrogate pair. */
  predicate IsBoundary(t: Text, offset: int) {
    offset <= 0 || offset >= |t| || !(IsHigh(t[offset - 1]) && IsLow(t[offset]))
  }

  /** From any boundary, the walk visits exactly the later boundaries. */
  lemma {:induction false} BoundariesAreReached(t: Text, a: nat, b: nat)
    requires a <= b <= |t| && IsBoundary(t, a)
    ensures Reaches(t, a, b) <==> IsBoundary(t, b)
    decreases b - a
  {
    if a < b {
      WidthCountsUnits(t, a);
      var next := a + Width(CodePointAt(t, a));
      if next <= b {
        BoundariesAreReached(t, next, b);
      }
    }
  }

  lemma {:induction false} ReachesComposes(t: Text, a: nat, b: nat, c: nat)
    requires Reaches(t, a, b) && Reaches(t, b, c)
    ensures Reaches(t, a, c) && a <= b <= c
    decreases b - a
  {
    if a != b {
      ReachesComposes(t, a + Width(CodePointAt(t, a)), b, c);
    }
  }

  // ---------- Slices ----------

  lemma SamePoint(t: Text, u: Text, i: nat, k: nat)
    requires i < |t| && k < |u| && t[i] == u[k] && (PairAt(t, i) <==> PairAt(u, k))
    requires PairAt(t, i) ==> t[i + 1] == u[k + 1]
    ensures CodePointAt(t, i) == CodePointAt(u, k)
  {
  }

  lemma EncodeStep(t: Text, i: nat, point: nat, next: nat)
    requires i < |t| && point == CodePointAt(t, i) && next == i + (if PairAt(t, i) then 2 else 1)
    ensures point <= 0x10FFFF && next <= |t| && EncodeFrom(t, i) == EncodePoint(point) + EncodeFrom(t, next)
  {
    WidthCountsUnits(t, i);
  }

  /** Encoding depends only on what follows the offset. */
  lemma {:induction false} EncodeSuffix(t: Text, a: nat, i: nat)
    requires a <= i <= |t|
    ensures EncodeFrom(t, i) == EncodeFrom(t[a..], i - a)
    decreases |t| - i
  {
    if i < |t| {
      var next := i + (if PairAt(t, i) then 2 else 1);
      SamePoint(t, t[a..], i, i - a);
      EncodeStep(t, i, CodePointAt(t, i), next);
      EncodeStep(t[a..], i - a, CodePointAt(t, i), next - a);
      EncodeSuffix(t, a, next);
    }
  }

  lemma Reassociate(p: seq<Byte>, x: seq<Byte>, y: seq<Byte>)
    ensures p + x + y == p + (x + y)
  {
  }

  /** Cutting at a reached offset cuts the bytes at the same place. */
  lemma {:induction false} EncodeSplits(t: Text, a: nat, b: nat)
    requires b <= |t| && Reaches(t, a, b)
    ensures a <= b && EncodeFrom(t[..b], a) + EncodeFrom(t, b) == EncodeFrom(t, a)
    decreases b - a
  {
    if a == b {
      assert EncodeFrom(t[..b], a) == [];
    } else {
      WidthCountsUnits(t, a);
      var point, next := CodePointAt(t, a), a + (if PairAt(t, a) then 2 else 1);
      EncodeSplits(t, next, b);
      SamePoint(t, t[..b], a, a);
      EncodeStep(t, a, point, next);
      EncodeStep(t[..b], a, point, next);
      Reassociate(EncodePoint(point), EncodeFrom(t[..b], next), EncodeFrom(t, b));
    }
  }

  /** The bytes of a slice between reached offsets. */
  lemma EncodeSlice(t: Text, a: nat, b: nat)
    requires b <= |t| && Reaches(t, a, b)
    ensures a <= b && Encode(t[a..b]) + EncodeFrom(t, b) == EncodeFrom(t, a)
  {
    EncodeSplits(t, a, b);
    EncodeSuffix(t[..b], a, a);
    assert t[..b][a..] == t[a..b];
  }
}
