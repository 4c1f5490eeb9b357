/** Base64 with the URL alphabet (section 5 of RFC 4648) as `btoa`, `atob` and two replacements build it. */
module Base64Url {
  import opened Outcomes
  import opened JsText

  type Sextet = n: int | 0 <= n < 64

  const PAD: CodeUnit := 61

  // ---------- Groups of bits ----------

  function Top(x: Byte): Sextet {
    x / 4
  }

  function UpperMiddle(x: Byte, y: Byte): Sextet {
    (x % 4) * 16 + y / 16
  }

  function LowerMiddle(y: Byte, z: Byte): Sextet {
    (y % 16) * 4 + z / 64
  }

  function Bottom(z: Byte): Sextet {
    z % 64
  }

  function Sextets(b: seq<Byte>): seq<Sextet> {
    if b == [] then []
    else if |b| == 1 then [Top(b[0]), UpperMiddle(b[0], 0)]
    else if |b| == 2 then [Top(b[0]), UpperMiddle(b[0], b[1]), LowerMiddle(b[1], 0)]
    else [Top(b[0]), UpperMiddle(b[0], b[1]), LowerMiddle(b[1], b[2]), Bottom(b[2])] + Sextets(b[3..])
  }

  function FirstByte(a: Sextet, b: Sextet): Byte {
    (a as int) * 4 + (b as int) / 16
  }

  function SecondByte(b: Sextet, c: Sextet): Byte {
    ((b as int) % 16) * 16 + (c as int) / 4
  }

  function ThirdByte(c: Sextet, d: Sextet): Byte {
    ((c as int) % 4) * 64 + (d as int)
  }

  /** The inverse; bits left over in a final partial group are dropped. */
  function Bytes(d: seq<Sextet>): seq<Byte> {
    if |d| < 2 then []
    else if |d| == 2 then [FirstByte(d[0], d[1])]
    else if |d| == 3 then [FirstByte(d[0], d[1]), SecondByte(d[1], d[2])]
    else [FirstByte(d[0], d[1]), SecondByte(d[1], d[2]), ThirdByte(d[2], d[3])] + Bytes(d[4..])
  }

  lemma FirstReadsBack(x: Byte, y: Byte)
    ensures FirstByte(Top(x), UpperMiddle(x, y)) == x
  {
    assert ((x % 4) * 16 + y / 16) / 16 == x % 4;
  }

  lemma GroupReadsBack(x: Byte, y: Byte, z: Byte)
    ensures FirstByte(Top(x), UpperMiddle(x, y)) == x
    ensures SecondByte(UpperMiddle(x, y), LowerMiddle(y, z)) == y
    ensures ThirdByte(LowerMiddle(y, z), Bottom(z)) == z
  {
    assert ((x % 4) * 16 + y / 16) / 16 == x % 4 && ((x % 4) * 16 + y / 16) % 16 == y / 16;
    assert ((y % 16) * 4 + z / 64) / 4 == y % 16 && ((y % 16) * 4 + z / 64) % 4 == z / 64;
  }

  lemma BytesOfFour(a: Sextet, b: Sextet, c: Sextet, d: Sextet, rest: seq<Sextet>)
    ensures Bytes([a, b, c, d] + rest) == [FirstByte(a, b), SecondByte(b, c), ThirdByte(c, d)] + Bytes(rest)
  {
    assert ([a, b, c, d] + rest)[4..] == rest;
  }

  lemma {:induction false} SextetsRoundTrip(b: seq<Byte>)
    ensures Bytes(Sextets(b)) == b
  {
    if |b| >= 3 {
      SextetsRoundTrip(b[3..]);
      GroupReadsBack(b[0], b[1], b[2]);
      BytesOfFour(Top(b[0]), UpperMiddle(b[0], b[1]), LowerMiddle(b[1], b[2]), Bottom(b[2]), Sextets(b[3..]));
      assert b == [b[0], b[1], b[2]] + b[3..];
    } else if |b| == 2 {
      assert b == [b[0], b[1]];
      TwoRoundTrip(b[0], b[1]);
    } else if |b| == 1 {
      assert b == [b[0]];
      OneRoundTrips(b[0]);
    }
  }

  lemma OneRoundTrips(x: Byte)
    ensures Bytes(Sextets([x])) == [x]
  {
    FirstReadsBack(x, 0);
    var top, middle := Top(x), UpperMiddle(x, 0);
    assert Sextets([x]) == [top, middle];
    assert Bytes([top, middle]) == [FirstByte(top, middle)];
  }

  lemma TwoRoundTrip(x: Byte, y: Byte)
    ensures Bytes(Sextets([x, y])) == [x, y]
  {
    GroupReadsBack(x, y, 0);
    assert Sextets([x, y]) == [Top(x), UpperMiddle(x, y), LowerMiddle(y, 0)];
  }

  lemma {:induction false} SextetCount(b: seq<Byte>)
    ensures |Sextets(b)| % 4 == (if |b| % 3 == 0 then 0 else |b| % 3 + 1)
    ensures b != [] ==> |Sextets(b)| > 0
  {
    if |b| >= 3 {
      SextetCount(b[3..]);
      assert |Sextets(b)| == 4 + |Sextets(b[3..])|;
      assert (4 + |Sextets(b[3..])|) % 4 == |Sextets(b[3..])| % 4;
    }
  }

  // ---------- Alphabets ----------

  function Letter(d: Sextet): CodeUnit {
    if d < 26 then 65 + d else if d < 52 then 71 + d else if d < 62 then d - 4 else if d == 62 then 43 else 47
  }

  function Value(c: CodeUnit): Option<Sextet> {
    if 65 <= c <= 90 then Some(c - 65)
    else if 97 <= c <= 122 then Some(c - 71)
    else if 48 <= c <= 57 then Some(c + 4)
    else if c == 43 then Some(62)
    else if c == 47 then Some(63)
    else None
  }

  function ToUrl(c: CodeUnit): CodeUnit {
    if c == 43 then 45 else if c == 47 then 95 else c
  }

  function FromUrl(c: CodeUnit): CodeUnit {
    if c == 45 then 43 else if c == 95 then 47 else c
  }

  predicate IsUrlLetter(c: CodeUnit) {
    65 <= c <= 90 || 97 <= c <= 122 || 48 <= c <= 57 || c == 45 || c == 95
  }

  function Letters(d: seq<Sextet>): Text {
    seq(|d|, i requires 0 <= i < |d| => Letter(d[i]))
  }

  function Values(t: Text): seq<Sextet>
    requires forall i :: 0 <= i < |t| ==> Value(t[i]).Some?
  {
    seq(|t|, i requires 0 <= i < |t| => Value(t[i]).value)
  }

  function Replace(t: Text, f: CodeUnit -> CodeUnit): Text {
    seq(|t|, i requires 0 <= i < |t| => f(t[i]))
  }

  function Repeat(n: nat): (t: Text)
    ensures |t| == n && forall i :: 0 <= i < n ==> t[i] == PAD
  {
    seq(n, i => PAD)
  }

  // ---------- The built-in codecs ----------

  function PadCount(n: nat): nat {
    if n % 4 == 0 then 0 else 4 - n % 4
  }

  function Btoa(b: seq<Byte>): Text {
    Letters(Sextets(b)) + Repeat(PadCount(|Sextets(b)|))
  }

  function WithoutTrailingPad(t: Text, most: nat): Text {
    if most > 0 && t != [] && t[|t| - 1] == PAD then WithoutTrailingPad(t[..|t| - 1], most - 1) else t
  }

  function Atob(t: Text): Option<seq<Byte>> {
    var u := if |t| % 4 == 0 then WithoutTrailingPad(t, 2) else t;
    if |u| % 4 == 1 || exists i :: 0 <= i < |u| && Value(u[i]).None? then None
    else Some(Bytes(Values(u)))
  }

  function Encode(b: seq<Byte>, pad: bool): Text {
    var encoded := Replace(Btoa(b), ToUrl);
    if pad then encoded else WithoutTrailingPad(encoded, |encoded|)
  }

  function Decode(t: Text, pad: bool): Option<seq<Byte>> {
    if t == [] || exists i :: 0 <= i < |t| && !IsUrlLetter(t[i]) then None
    else
      var normalized := Replace(t, FromUrl);
      Atob(if pad then normalized + Repeat(PadCount(|normalized|)) else normalized)
  }

  // ---------- Round trip ----------

  lemma {:induction false} TrailingPadGoes(t: Text, n: nat, most: nat)
    requires n <= most && (t == [] || t[|t| - 1] != PAD)
    ensures WithoutTrailingPad(t + Repeat(n), most) == t
  {
    if n > 0 {
      assert (t + Repeat(n))[..|t| + n - 1] == t + Repeat(n - 1);
      TrailingPadGoes(t, n - 1, most - 1);
    } else {
      assert t + Repeat(n) == t;
    }
  }

  lemma LetterReadsBack(d: Sextet)
    ensures Value(Letter(d)) == Some(d)
    ensures FromUrl(ToUrl(Letter(d))) == Letter(d)
    ensures IsUrlLetter(ToUrl(Letter(d))) && ToUrl(Letter(d)) != PAD && Letter(d) != PAD
  {
  }

  lemma LettersAre(d: seq<Sextet>)
    ensures var t := Replace(Letters(d), ToUrl);
            && |t| == |d| && (forall i :: 0 <= i < |t| ==> IsUrlLetter(t[i]) && t[i] != PAD)
            && Replace(t, FromUrl) == Letters(d)
    ensures forall i :: 0 <= i < |d| ==> Value(Letters(d)[i]) == Some(d[i]) && Letters(d)[i] != PAD
    ensures Values(Letters(d)) == d
  {
    forall i | 0 <= i < |d|
      ensures Value(Letters(d)[i]) == Some(d[i]) && Letters(d)[i] != PAD
      ensures var t := Replace(Letters(d), ToUrl);
              IsUrlLetter(t[i]) && t[i] != PAD && FromUrl(t[i]) == Letters(d)[i]
    {
      LetterReadsBack(d[i]);
    }
  }

  lemma UnpaddedIsLetters(b: seq<Byte>)
    ensures Encode(b, false) == Replace(Letters(Sextets(b)), ToUrl)
    ensures Encode(b, true) == Encode(b, false) + Repeat(PadCount(|Sextets(b)|))
  {
    var letters := Replace(Letters(Sextets(b)), ToUrl);
    var n := PadCount(|Sextets(b)|);
    LettersAre(Sextets(b));
    assert Replace(Btoa(b), ToUrl) == letters + Repeat(n);
    TrailingPadGoes(letters, n, |letters| + n);
  }

  lemma PadCompletes(n: nat)
    ensures (n + PadCount(n)) % 4 == 0
  {
  }

  lemma AtobReads(d: seq<Sextet>)
    requires d != [] && |d| % 4 != 1
    ensures Atob(Letters(d)) == Some(Bytes(d))
  {
    LettersAre(d);
    AtobOf(Letters(d), Letters(d));
  }

  lemma AtobReadsPadded(d: seq<Sextet>)
    requires d != [] && |d| % 4 != 1
    ensures Atob(Letters(d) + Repeat(PadCount(|d|))) == Some(Bytes(d))
  {
    LettersAre(d);
    PadCompletes(|d|);
    var n := PadCount(|d|);
    TrailingPadGoes(Letters(d), n, 2);
    assert |Letters(d) + Repeat(n)| == |d| + n;
    AtobOf(Letters(d) + Repeat(n), Letters(d));
  }

  lemma AtobOf(t: Text, u: Text)
    requires u == if |t| % 4 == 0 then WithoutTrailingPad(t, 2) else t
    requires |u| % 4 != 1 && forall i :: 0 <= i < |u| ==> Value(u[i]).Some?
    ensures Atob(t) == Some(Bytes(Values(u)))
  {
  }

  lemma LettersReadBack(b: seq<Byte>, pad: bool)
    requires b != []
    ensures Decode(Encode(b, false), pad) == Some(b)
  {
    var d := Sextets(b);
    SextetsRoundTrip(b);
    SextetCount(b);
    UnpaddedIsLetters(b);
    LettersAre(d);
    AtobReadsPadded(d);
    AtobReads(d);
  }

  /**
   * Encoded bytes decode back, with either way of decoding, exactly when there are bytes to encode
   * and the encoding carries no padding.
   */
  lemma RoundTrip(b: seq<Byte>, padEncoded: bool, padDecoded: bool)
    ensures Decode(Encode(b, padEncoded), padDecoded) == Some(b) <==> b != [] && (!padEncoded || |b| % 3 == 0)
    ensures Decode(Encode(b, padEncoded), padDecoded).Some? ==> Decode(Encode(b, padEncoded), padDecoded) == Some(b)
  {
    SextetsRoundTrip(b);
    SextetCount(b);
    UnpaddedIsLetters(b);
    var t, n := Encode(b, padEncoded), PadCount(|Sextets(b)|);
    if b == [] {
      assert t == [];
    } else if padEncoded && |b| % 3 != 0 {
      assert n > 0 && t[|t| - 1] == PAD && !IsUrlLetter(PAD);
    } else {
      assert padEncoded ==> n == 0 && t == Encode(b, false) + Repeat(0) == Encode(b, false);
      LettersReadBack(b, padDecoded);
    }
  }

  /** A single byte is not given back once its encoding is padded; no bytes are not given back at all. */
  lemma PaddingIsRefused(b: seq<Byte>, pad: bool)
    requires |b| <= 1
    ensures Decode(Encode(b, true), pad) == None
    ensures Decode(Encode(b, false), pad) == if b == [] then None else Some(b)
  {
    RoundTrip(b, true, pad);
    RoundTrip(b, false, pad);
  }
}
