/** The assignment that travels with every continuation of a managed child, within a byte budget. */
module Assignment {
  import opened Outcomes
  import opened JsText
  import opened Utf8

  // ---------- Code points and their sizes ----------

  /** A code point of a string, a surrogate without its partner included. */
  type Point = n: int | 0 <= n < 0x11_0000

  const REPLACEMENT: Point := 0xFFFD

  predicate Lone(p: Point) {
    0xD800 <= p < 0xE000
  }

  /** The size of the point inside a JSON string: short escapes, long escapes, or itself. */
  function JsonSize(p: Point): (n: nat)
    ensures 1 <= n <= 6
  {
    if p == 0x22 || p == 0x5C || p == 8 || p == 9 || p == 10 || p == 12 || p == 13 then 2
    else if p < 0x20 || Lone(p) then 6
    else ByteCount(p)
  }

  function Utf8Total(points: seq<Point>): nat {
    if points == [] then 0 else Utf8Total(points[..|points| - 1]) + ByteCount(points[|points| - 1])
  }

  function JsonTotal(points: seq<Point>): nat {
    if points == [] then 0 else JsonTotal(points[..|points| - 1]) + JsonSize(points[|points| - 1])
  }

  lemma {:induction false} TotalsGrow(points: seq<Point>, a: nat, b: nat)
    requires a <= b <= |points|
    ensures Utf8Total(points[..a]) + (b - a) <= Utf8Total(points[..b])
    ensures JsonTotal(points[..a]) + (b - a) <= JsonTotal(points[..b])
  {
    if a < b {
      TotalsGrow(points, a, b - 1);
      assert points[..b][..b - 1] == points[..b - 1];
    }
  }

  // ---------- The bounded prompt ----------

  datatype Prompt = Prompt(points: seq<Point>, truncated: bool)

  /** How many points fit whole into the first `maxBytes` bytes. */
  function WholePoints(points: seq<Point>, maxBytes: nat): (k: nat)
    ensures k <= |points| && Utf8Total(points[..k]) <= maxBytes
    ensures forall j :: k < j <= |points| ==> Utf8Total(points[..j]) > maxBytes
  {
    if Utf8Total(points) <= maxBytes then
      assert points[..|points|] == points;
      |points|
    else
      var n := |points| - 1;
      var k := WholePoints(points[..n], maxBytes);
      assert points[..n][..k] == points[..k];
      assert forall j :: 0 <= j <= n ==> points[..n][..j] == points[..j];
      assert points[..|points|] == points;
      k
  }

  /** Decoding turns every lone surrogate, and a point that was cut, into a replacement character. */
  function Decoded(points: seq<Point>): (r: seq<Point>)
    ensures |r| == |points|
    ensures forall i :: 0 <= i < |points| ==> r[i] == if Lone(points[i]) then REPLACEMENT else points[i]
  {
    seq(|points|, i requires 0 <= i < |points| => if Lone(points[i]) then REPLACEMENT else points[i])
  }

  /** Cuts the bytes, decodes them and drops one trailing replacement character. */
  function BoundedPrompt(points: seq<Point>, maxBytes: nat): Prompt {
    if Utf8Total(points) <= maxBytes then Prompt(points, false)
    else
      var k := WholePoints(points, maxBytes);
      var text := Decoded(points[..k]) + if Utf8Total(points[..k]) < maxBytes then [REPLACEMENT] else [];
      Prompt(if text != [] && text[|text| - 1] == REPLACEMENT then text[..|text| - 1] else text, true)
  }

  /**
   * The bounded prompt is all that fits whole, except that a cut right behind a replacement character,
   * or behind a lone surrogate, loses that one too.
   */
  lemma BoundedPromptIsLongest(points: seq<Point>, maxBytes: nat)
    ensures var k := WholePoints(points, maxBytes);
            var p := BoundedPrompt(points, maxBytes);
            && p.truncated == (k < |points|)
            && (!p.truncated ==> p.points == points)
            && (p.truncated ==> p.points <= Decoded(points[..k]) && |p.points| + 1 >= k)
            && (p.truncated ==> (|p.points| == k <==>
                  !(k > 0 && Utf8Total(points[..k]) == maxBytes
                    && (points[k - 1] == REPLACEMENT || Lone(points[k - 1])))))
  {
    assert points[..|points|] == points;
  }

  /** A prompt of five bytes cut at four: the replacement character fits, and is dropped. */
  lemma BoundedPromptCanLose() returns (points: seq<Point>)
    ensures WholePoints(points, 4) == 2 && Utf8Total(points[..2]) == 4
    ensures BoundedPrompt(points, 4) == Prompt(points[..1], true)
  {
    points := [97, REPLACEMENT, 97];
    assert points[..1] == [97] && points[..2] == [97, REPLACEMENT] && points[..3] == points && points[..0] == [];
    assert [97, REPLACEMENT][..1] == [97] && [97][..0] == [];
    assert Utf8Total([97]) == 1;
    assert Utf8Total([97, REPLACEMENT]) == 4;
    assert Utf8Total(points) == 5;
    BoundedPromptIsLongest(points, 4);
  }

  // ---------- The rendered context ----------

  /** The length of the member `,"promptTruncated":true`. */
  const FLAG_BYTES := 23
  const MAX_BYTES := 12 * 1024

  /** `base` is the size of everything but the prompt's own characters and the truncation flag. */
  datatype Draft = Draft(base: nat, prompt: Prompt)

  /** The context shows this many points of the prompt; the flag says that some are missing. */
  function Size(d: Draft, count: nat): nat
    requires count <= |d.prompt.points|
  {
    d.base + JsonTotal(d.prompt.points[..count]) + if Flagged(d, count) then FLAG_BYTES else 0
  }

  predicate Flagged(d: Draft, count: nat) {
    d.prompt.truncated || count < |d.prompt.points|
  }

  predicate Fits(d: Draft, count: nat, budget: nat)
    requires count <= |d.prompt.points|
  {
    Size(d, count) <= budget
  }

  /** Below the full length a longer prefix is a larger context. */
  lemma SizeGrows(d: Draft, a: nat, b: nat)
    requires a < b < |d.prompt.points|
    ensures Size(d, a) < Size(d, b)
  {
    TotalsGrow(d.prompt.points, a, b);
  }

  /** Once neither a prefix nor the full length fits, nothing between them does. */
  lemma NoneBeyond(d: Draft, budget: nat, a: nat)
    requires a <= |d.prompt.points| && !Fits(d, a, budget) && !Fits(d, |d.prompt.points|, budget)
    ensures forall k :: a <= k <= |d.prompt.points| ==> !Fits(d, k, budget)
  {
    forall k | a < k < |d.prompt.points|
      ensures !Fits(d, k, budget)
    {
      SizeGrows(d, a, k);
    }
  }

  /** The longest prefix that fits; `None` says that none does. */
  ghost predicate IsLongest(d: Draft, budget: nat, r: Option<nat>) {
    match r
    case Some(c) =>
      && c <= |d.prompt.points| && Fits(d, c, budget)
      && forall k :: c < k <= |d.prompt.points| ==> !Fits(d, k, budget)
    case None => forall k :: 0 <= k <= |d.prompt.points| ==> !Fits(d, k, budget)
  }

  function Middle(low: nat, high: nat): (middle: nat)
    requires low < high
    ensures low < middle <= high
  {
    (low + high + 1) / 2
  }

  function Search(d: Draft, budget: nat, low: nat, high: nat): (c: nat)
    requires low <= high <= |d.prompt.points|
    ensures low <= c <= high
    decreases high - low
  {
    if low == high then low
    else
      var middle := Middle(low, high);
      if Fits(d, middle, budget) then Search(d, budget, middle, high) else Search(d, budget, low, middle - 1)
  }

  /** Between a prefix that fits and a full length that does not, the search finds the longest that fits. */
  lemma {:induction false} SearchFinds(d: Draft, budget: nat, low: nat, high: nat)
    requires low <= high <= |d.prompt.points| && Fits(d, low, budget) && !Fits(d, |d.prompt.points|, budget)
    requires forall k :: high < k <= |d.prompt.points| ==> !Fits(d, k, budget)
    ensures IsLongest(d, budget, Some(Search(d, budget, low, high)))
    decreases high - low
  {
    if low < high {
      var middle := Middle(low, high);
      if Fits(d, middle, budget) {
        SearchFinds(d, budget, middle, high);
      } else {
        NoneBeyond(d, budget, middle);
        SearchFinds(d, budget, low, middle - 1);
      }
    }
  }

  method BinarySearch(d: Draft, budget: nat) returns (c: nat)
    ensures c == Search(d, budget, 0, |d.prompt.points|)
  {
    var low, high := 0, |d.prompt.points|;
    while low < high
      invariant 0 <= low <= high <= |d.prompt.points|
      invariant Search(d, budget, low, high) == Search(d, budget, 0, |d.prompt.points|)
      decreases high - low
    {
      var middle := Middle(low, high);
      if Fits(d, middle, budget) { low := middle; } else { high := middle - 1; }
    }
    c := low;
  }

  /** The full length is tried first, because only there the flag goes away; then the binary search is sound. */
  method LongestFitting(d: Draft, budget: nat) returns (r: Option<nat>)
    ensures IsLongest(d, budget, r)
    ensures r.Some? && r.value < |d.prompt.points| ==> r.value == Search(d, budget, 0, |d.prompt.points|)
  {
    if Fits(d, |d.prompt.points|, budget) { return Some(|d.prompt.points|); }
    if !Fits(d, 0, budget) {
      NoneBeyond(d, budget, 0);
      return None;
    }
    SearchFinds(d, budget, 0, |d.prompt.points|);
    var c := BinarySearch(d, budget);
    r := Some(c);
  }

  /** Without the check at full length the search can miss a prompt that fits whole. */
  lemma FullLengthComesFirst() returns (d: Draft, budget: nat)
    ensures Fits(d, |d.prompt.points|, budget) && Fits(d, 0, budget)
    ensures Search(d, budget, 0, |d.prompt.points|) < |d.prompt.points|
  {
    d, budget := Draft(0, Prompt([97, 97, 97], false)), FLAG_BYTES;
    var p := d.prompt.points;
    assert p[..3] == p && p[..2] == [97, 97] && p[..1] == [97] && p[..0] == [];
    assert [97, 97, 97][..2] == [97, 97] && [97, 97][..1] == [97] && [97][..0] == [];
    assert JsonTotal([97]) == 1;
    assert JsonTotal([97, 97]) == 2;
    assert !Fits(d, 2, budget) && !Fits(d, 1, budget);
  }

  // ---------- The whole operation ----------

  datatype Context = Context(points: seq<Point>, flagged: bool, bytes: nat)

  function Smaller(a: int, b: int): int {
    if a < b then a else b
  }

  /**
   * Refuses an invalid assignment or limit; otherwise the longest prefix of the bounded prompt that fits
   * the budget, marked when anything is missing.
   */
  method FormatContext(valid: bool, prompt: seq<Point>, base: nat, maxBytes: int, maxPromptBytes: Option<int>)
    returns (r: Option<Context>)
    ensures !valid || maxBytes <= 0 || (maxPromptBytes.Some? && maxPromptBytes.value < 0) ==> r == None
    ensures valid && maxBytes > 0 && (maxPromptBytes.Some? ==> maxPromptBytes.value >= 0) ==>
              var budget := Smaller(maxBytes, MAX_BYTES);
              var most := if maxPromptBytes.Some? then maxPromptBytes.value else budget;
              var bounded := BoundedPrompt(prompt, Smaller(most, budget));
              var d := Draft(base, bounded);
              match r
              case None => IsLongest(d, budget, None)
              case Some(c) =>
                && IsLongest(d, budget, Some(|c.points|)) && c.points == bounded.points[..|c.points|]
                && c.bytes == Size(d, |c.points|) <= budget <= MAX_BYTES
                && c.flagged == (bounded.truncated || c.points != bounded.points)
  {
    if !valid || maxBytes <= 0 || (maxPromptBytes.Some? && maxPromptBytes.value < 0) { return None; }
    var budget := Smaller(maxBytes, MAX_BYTES);
    var most := if maxPromptBytes.Some? then maxPromptBytes.value else budget;
    var bounded := BoundedPrompt(prompt, Smaller(most, budget));
    var d := Draft(base, bounded);
    var count := LongestFitting(d, budget);
    if count.None? { return None; }
    r := Some(Context(bounded.points[..count.value], Flagged(d, count.value), Size(d, count.value)));
  }

  // ---------- Appending and stripping ----------

  const MARKER := Ascii("\n\n[devryan-managed-assignment:v2]\n")
  const LEGACY_MARKER := Ascii("\n\n[devryan-managed-assignment:v1]\n")

  predicate OccursAt(text: Text, sought: Text, i: nat) {
    i + |sought| <= |text| && text[i..i + |sought|] == sought
  }

  /** `indexOf`: the first occurrence. */
  function IndexOf(text: Text, sought: Text, from: nat): (r: Option<nat>)
    requires from <= |text|
    ensures r.Some? ==> from <= r.value && OccursAt(text, sought, r.value)
    ensures r.Some? ==> forall j :: from <= j < r.value ==> !OccursAt(text, sought, j)
    ensures r.None? ==> forall j :: from <= j <= |text| ==> !OccursAt(text, sought, j)
    decreases |text| - from
  {
    if OccursAt(text, sought, from) then Some(from)
    else if from == |text| then None
    else IndexOf(text, sought, from + 1)
  }

  /** The two rules, and which JSON texts hold a valid assignment of either version. */
  datatype Forms = Forms(rule: Text, legacyRule: Text, valid: Text -> bool, legacyValid: Text -> bool)

  const NEWLINE: Text := [10]

  function Append(f: Forms, continuation: Text, json: Text): Text {
    continuation + (MARKER + f.rule + NEWLINE + json)
  }

  function StripOne(value: Text, index: nat, marker: Text, rule: Text, valid: Text -> bool): Text
    requires OccursAt(value, marker, index)
  {
    var context := value[index + |marker|..];
    if rule + NEWLINE <= context && valid(context[|rule| + 1..]) then value[..index] else value
  }

  function Strip(f: Forms, value: Text): Text {
    var current := IndexOf(value, MARKER, 0);
    if current.Some? then StripOne(value, current.value, MARKER, f.rule, f.valid)
    else
      var legacy := IndexOf(value, LEGACY_MARKER, 0);
      if legacy.Some? then StripOne(value, legacy.value, LEGACY_MARKER, f.legacyRule, f.legacyValid) else value
  }

  /** The marker's line breaks: two in front, one at the end, none between. */
  lemma MarkerShape()
    ensures |MARKER| == 34 && MARKER[0] == 10 && MARKER[1] == 10 && MARKER[33] == 10
    ensures forall i :: 2 <= i < 33 ==> MARKER[i] != 10
  {
  }

  /** Two occurrences of the marker share at most one line break. */
  lemma MarkersApart(text: Text, i: nat, j: nat)
    requires OccursAt(text, MARKER, i) && OccursAt(text, MARKER, j) && i < j
    ensures i + |MARKER| <= j + 1
  {
    MarkerAt(text, i);
    MarkerAt(text, j);
  }

  /** The line breaks of an occurrence. */
  lemma MarkerAt(text: Text, i: nat)
    requires OccursAt(text, MARKER, i)
    ensures i + |MARKER| <= |text| && |MARKER| == 34 && text[i] == 10 && text[i + 1] == 10
    ensures forall p :: i <= p < i + 34 ==> (text[p] == 10 <==> p == i || p == i + 1 || p == i + 33)
  {
    MarkerShape();
    forall p | i <= p < i + 34
      ensures text[p] == 10 <==> p == i || p == i + 1 || p == i + 33
    {
      assert text[p] == text[i..i + |MARKER|][p - i];
    }
  }

  /** Stripping gives the continuation back exactly if it, with a line break behind it, holds no marker. */
  lemma {:induction false} StripUndoesAppend(f: Forms, continuation: Text, json: Text)
    requires f.valid(json)
    ensures Strip(f, Append(f, continuation, json)) == continuation
            <==> forall i :: 0 <= i <= |continuation| + 1 ==> !OccursAt(continuation + NEWLINE, MARKER, i)
  {
    var value := Append(f, continuation, json);
    var n := |continuation|;
    MarkerShape();
    assert value[n..n + |MARKER|] == MARKER;
    assert OccursAt(value, MARKER, n);
    var index := IndexOf(value, MARKER, 0).value;
    if index == n {
      StripAtAppended(f, continuation, json);
      forall i | 0 <= i <= n + 1
        ensures !OccursAt(continuation + NEWLINE, MARKER, i)
      {
        OccursEarlier(f, continuation, json, i);
      }
    } else {
      MarkersApart(value, index, n);
      assert (continuation + NEWLINE)[index..index + |MARKER|] == value[index..index + |MARKER|];
      assert OccursAt(continuation + NEWLINE, MARKER, index);
      assert |Strip(f, value)| != n;
    }
  }

  lemma StripAtAppended(f: Forms, continuation: Text, json: Text)
    requires f.valid(json) && IndexOf(Append(f, continuation, json), MARKER, 0) == Some(|continuation|)
    ensures Strip(f, Append(f, continuation, json)) == continuation
  {
    var value, n := Append(f, continuation, json), |continuation|;
    assert value[n + |MARKER|..] == f.rule + NEWLINE + json;
    assert value[n + |MARKER|..][|f.rule| + 1..] == json;
    assert value[..n] == continuation;
  }

  lemma OccursEarlier(f: Forms, continuation: Text, json: Text, i: nat)
    ensures OccursAt(continuation + NEWLINE, MARKER, i) ==>
              i < |continuation| && OccursAt(Append(f, continuation, json), MARKER, i)
  {
    MarkerShape();
    if OccursAt(continuation + NEWLINE, MARKER, i) {
      var value := Append(f, continuation, json);
      assert value[|continuation|] == MARKER[0];
      assert value[i..i + |MARKER|] == (continuation + NEWLINE)[i..i + |MARKER|];
    }
  }

  /** A continuation that ends like the marker but for its last line break holds none, and is not given back. */
  lemma StripCanFail(f: Forms, json: Text)
    requires f.valid(json)
    ensures var continuation := MARKER[..33];
            && (forall i: nat :: !OccursAt(continuation, MARKER, i))
            && Strip(f, Append(f, continuation, json)) != continuation
  {
    MarkerShape();
    var continuation := MARKER[..33];
    assert continuation + NEWLINE == MARKER;
    assert OccursAt(continuation + NEWLINE, MARKER, 0);
    StripUndoesAppend(f, continuation, json);
  }
}
