/** Paging a retained result: slices by code point, and the cursors that carry a reader along. */
module ResultPaging {
  import opened Outcomes
  import opened JsText
  import opened Utf8
  import Ledger
  import Base64Url

  const V2_PAGE_MAX_BYTES: nat := 24 * 1024
  const MAX_CURSOR_CHARS: nat := 4 * 1024
  const MAX_SAFE_INTEGER: nat := 0x1F_FFFF_FFFF_FFFF
  const CURSOR_PREFIX: Text := Ascii("dvr_result_cursor_v1.")
  const TASK_PREFIX: Text := Ascii("dvr_task_")
  const RESULT_PREFIX: Text := Ascii("dvr_result_")

  datatype Failure = InvalidCursor | ReferenceMismatch

  // ---------- One page of text ----------

  datatype Slice = Slice(text: Text, nextOffset: nat, pageBytes: nat)

  predicate LegalPageSize(maxBytes: int) {
    4 <= maxBytes <= V2_PAGE_MAX_BYTES
  }

  /** The longest run of whole code points from the offset that fits. */
  ghost predicate IsPage(value: Text, offset: nat, maxBytes: int, s: Slice)
    requires offset <= |value|
  {
    && Reaches(value, offset, s.nextOffset) && offset <= s.nextOffset <= |value|
    && s.text == value[offset..s.nextOffset]
    && s.pageBytes == |Encode(s.text)| <= maxBytes
    && (s.nextOffset < |value| ==> s.pageBytes + ByteCount(CodePointAt(value, s.nextOffset)) > maxBytes)
  }

  method SliceText(value: Text, offset: nat, maxBytes: int) returns (r: Result<Slice, Failure>)
    ensures r.Ok? <==> LegalPageSize(maxBytes)
    ensures r.Ok? && offset <= |value| ==> IsPage(value, offset, maxBytes, r.value)
    ensures r.Ok? && offset < |value| ==> r.value.nextOffset > offset
    ensures r.Ok? && offset > |value| ==> r.value == Slice([], offset, 0)
  {
    if !LegalPageSize(maxBytes) { return Err(InvalidCursor); }
    var nextOffset := offset;
    var pageBytes := 0;
    while nextOffset < |value|
      invariant offset <= nextOffset && (nextOffset <= |value| || nextOffset == offset)
      invariant offset <= |value| ==> Reaches(value, offset, nextOffset)
      invariant offset <= |value| ==> pageBytes + |EncodeFrom(value, nextOffset)| == |EncodeFrom(value, offset)|
      invariant pageBytes <= maxBytes && (nextOffset == offset ==> pageBytes == 0)
      decreases |value| - nextOffset
    {
      var codePoint := CodePointAt(value, nextOffset);
      WidthCountsUnits(value, nextOffset);
      if pageBytes + ByteCount(codePoint) > maxBytes { break; }
      assert Reaches(value, nextOffset, nextOffset + Width(codePoint));
      ReachesComposes(value, offset, nextOffset, nextOffset + Width(codePoint));
      pageBytes := pageBytes + ByteCount(codePoint);
      nextOffset := nextOffset + Width(codePoint);
    }
    if nextOffset == offset && offset < |value| { return Err(InvalidCursor); }
    if offset <= |value| { EncodeSlice(value, offset, nextOffset); }
    r := Ok(Slice(if offset <= nextOffset <= |value| then value[offset..nextOffset] else [], nextOffset, pageBytes));
  }

  /** Pages are determined: there is one longest run. */
  lemma OnePage(value: Text, offset: nat, maxBytes: int, a: Slice, b: Slice)
    requires offset <= |value| && IsPage(value, offset, maxBytes, a) && IsPage(value, offset, maxBytes, b)
    ensures a == b
  {
    NoLonger(value, offset, maxBytes, a, b);
    NoLonger(value, offset, maxBytes, b, a);
  }

  lemma NoLonger(value: Text, offset: nat, maxBytes: int, a: Slice, b: Slice)
    requires offset <= |value| && IsPage(value, offset, maxBytes, a) && IsPage(value, offset, maxBytes, b)
    ensures b.nextOffset <= a.nextOffset
  {
    if a.nextOffset < b.nextOffset {
      LongerIsLarger(value, offset, a.nextOffset, b.nextOffset);
    }
  }

  /** Going on past a reached offset takes at least the bytes of the code point there. */
  lemma LongerIsLarger(value: Text, offset: nat, n: nat, m: nat)
    requires Reaches(value, offset, n) && Reaches(value, offset, m) && offset <= n < m <= |value|
    ensures |Encode(value[offset..n])| + ByteCount(CodePointAt(value, n)) <= |Encode(value[offset..m])|
  {
    ReachedInOrder(value, offset, n, m);
    WidthCountsUnits(value, n);
    EncodeSlice(value, offset, n);
    EncodeSlice(value, n + Width(CodePointAt(value, n)), m);
    EncodeSlice(value, offset, m);
  }

  lemma {:induction false} ReachedInOrder(t: Text, a: nat, b: nat, c: nat)
    requires b <= c && Reaches(t, a, b) && Reaches(t, a, c)
    ensures Reaches(t, b, c)
    decreases b - a
  {
    if a != b {
      ReachedInOrder(t, a + Width(CodePointAt(t, a)), b, c);
    }
  }

  // ---------- Cursors ----------

  datatype Cursor = Cursor(taskId: Text, envelopeId: Text, stringOffset: int, returnedBytes: int, totalBytes: int)

  /** What JSON parsing yields when all six fields have the right type. */
  datatype Fields = Fields(v: int, t: Text, e: Text, o: int, b: int, z: int)

  /** JSON as the runtime prints and parses it, as UTF-8 bytes. */
  datatype Json = Json(stringify: Fields -> seq<Byte>, parse: seq<Byte> -> Option<Fields>)

  ghost predicate Lawful(j: Json) {
    forall f :: j.stringify(f) != [] && j.parse(j.stringify(f)) == Some(f)
  }

  function EncodeCursor(j: Json, c: Cursor): Result<Text, Failure> {
    var fields := Fields(1, c.taskId, c.envelopeId, c.stringOffset, c.returnedBytes, c.totalBytes);
    var cursor := CURSOR_PREFIX + Base64Url.Encode(j.stringify(fields), false);
    if |cursor| > MAX_CURSOR_CHARS then Err(ReferenceMismatch) else Ok(cursor)
  }

  predicate IsCount(n: int) {
    0 <= n <= MAX_SAFE_INTEGER
  }

  function DecodeCursor(j: Json, text: Text): Result<Cursor, Failure> {
    if |text| <= |CURSOR_PREFIX| || |text| > MAX_CURSOR_CHARS || !(CURSOR_PREFIX <= text) then Err(InvalidCursor)
    else
      var bytes := Base64Url.Decode(text[|CURSOR_PREFIX|..], true);
      if bytes.None? then Err(InvalidCursor)
      else
        var fields := j.parse(bytes.value);
        if fields.None? then Err(InvalidCursor)
        else
          var f := fields.value;
          if f.v != 1 || !(TASK_PREFIX <= f.t) || !(RESULT_PREFIX <= f.e)
             || !IsCount(f.o) || !IsCount(f.b) || !IsCount(f.z) || f.b > f.z
          then Err(InvalidCursor)
          else Ok(Cursor(f.t, f.e, f.o, f.b, f.z))
  }

  ghost predicate WellFormed(c: Cursor) {
    && TASK_PREFIX <= c.taskId && RESULT_PREFIX <= c.envelopeId
    && IsCount(c.stringOffset) && IsCount(c.returnedBytes) && IsCount(c.totalBytes) && c.returnedBytes <= c.totalBytes
  }

  /** An emitted cursor decodes to its fields exactly when they pass the reader's checks. */
  lemma CursorRoundTrip(j: Json, c: Cursor)
    requires Lawful(j) && EncodeCursor(j, c).Ok?
    ensures DecodeCursor(j, EncodeCursor(j, c).value) == Ok(c) <==> WellFormed(c)
  {
    var fields := Fields(1, c.taskId, c.envelopeId, c.stringOffset, c.returnedBytes, c.totalBytes);
    var bytes := j.stringify(fields);
    var text := EncodeCursor(j, c).value;
    Base64Url.RoundTrip(bytes, false, true);
    assert text[|CURSOR_PREFIX|..] == Base64Url.Encode(bytes, false);
    assert Base64Url.Encode(bytes, false) != [] by {
      Base64Url.UnpaddedIsLetters(bytes);
      Base64Url.SextetCount(bytes);
    }
    assert j.parse(bytes) == Some(fields);
  }

  // ---------- Reading a result ----------

  datatype Page = Page(totalBytes: nat, text: Text, returnedBytes: nat, nextCursor: Option<Text>, complete: bool)

  method CreatePage(j: Json, taskId: Text, envelopeId: Text, preview: Text, offset: nat, returnedBytes: nat,
                    maxBytes: int)
    returns (r: Result<Page, Failure>)
    requires offset <= |preview|
    ensures r.Err? || exists s :: IsPage(preview, offset, maxBytes, s)
                                  && PageFor(j, taskId, envelopeId, preview, returnedBytes, s, r.value)
    ensures r.Err? ==> !LegalPageSize(maxBytes)
                       || exists s :: IsPage(preview, offset, maxBytes, s) && s.nextOffset < |preview|
                                      && EncodeCursor(j, CursorAfter(taskId, envelopeId, preview, returnedBytes,
                                                                     s)).Err?
    ensures r.Ok? ==> LegalPageSize(maxBytes) && (offset < |preview| ==> r.value.text != [])
  {
    var totalBytes := |Encode(preview)|;
    var sliced := SliceText(preview, offset, maxBytes);
    if sliced.Err? { return Err(sliced.error); }
    var page := sliced.value;
    var cumulativeBytes := returnedBytes + page.pageBytes;
    var complete := page.nextOffset == |preview|;
    var nextCursor := None;
    if !complete {
      var encoded := EncodeCursor(j, Cursor(taskId, envelopeId, page.nextOffset, cumulativeBytes, totalBytes));
      if encoded.Err? { return Err(encoded.error); }
      nextCursor := Some(encoded.value);
    }
    r := Ok(Page(totalBytes, page.text, cumulativeBytes, nextCursor, complete));
  }

  function CursorAfter(taskId: Text, envelopeId: Text, preview: Text, returnedBytes: nat, s: Slice): Cursor {
    Cursor(taskId, envelopeId, s.nextOffset, returnedBytes + s.pageBytes, |Encode(preview)|)
  }

  /** The page that carries slice `s`, and the cursor to the text after it. */
  ghost predicate PageFor(j: Json, taskId: Text, envelopeId: Text, preview: Text, returnedBytes: nat, s: Slice,
                          p: Page) {
    && p.totalBytes == |Encode(preview)| && p.text == s.text && p.returnedBytes == returnedBytes + s.pageBytes
    && (p.complete <==> s.nextOffset == |preview|)
    && (p.complete ==> p.nextCursor == None)
    && (!p.complete ==> var c := EncodeCursor(j, CursorAfter(taskId, envelopeId, preview, returnedBytes, s));
                        c.Ok? && p.nextCursor == Some(c.value))
  }

  /** The page a reader gets for cursor `c`. */
  ghost predicate Served(j: Json, task: Ledger.Task, envelope: Ledger.Envelope, c: Cursor, maxBytes: int, p: Page)
    requires Accepts(task, envelope, c)
  {
    exists s :: IsPage(envelope.recoverablePreview, c.stringOffset, maxBytes, s)
                && PageFor(j, task.taskId, envelope.envelopeId, envelope.recoverablePreview, c.returnedBytes, s, p)
  }

  /** The next cursor would exceed its size limit: the identity is too large to carry on. */
  ghost predicate TooLarge(j: Json, task: Ledger.Task, envelope: Ledger.Envelope, c: Cursor, maxBytes: int)
    requires Accepts(task, envelope, c)
  {
    exists s :: IsPage(envelope.recoverablePreview, c.stringOffset, maxBytes, s)
                && EncodeCursor(j, CursorAfter(task.taskId, envelope.envelopeId, envelope.recoverablePreview,
                                               c.returnedBytes, s)).Err?
  }

  method ReadReference(j: Json, task: Ledger.Task, envelope: Ledger.Envelope, cursorText: Text, maxBytes: int)
    returns (r: Result<Page, Failure>)
    ensures r.Ok? ==>
              && LegalPageSize(maxBytes) && Ledger.PayloadMatches(task, envelope) && DecodeCursor(j, cursorText).Ok?
              && Accepts(task, envelope, DecodeCursor(j, cursorText).value)
              && Served(j, task, envelope, DecodeCursor(j, cursorText).value, maxBytes, r.value)
    ensures r.Err? && Ledger.PayloadMatches(task, envelope) && DecodeCursor(j, cursorText).Ok?
            && Accepts(task, envelope, DecodeCursor(j, cursorText).value) && LegalPageSize(maxBytes)
            ==> TooLarge(j, task, envelope, DecodeCursor(j, cursorText).value, maxBytes)
  {
    if !Ledger.PayloadMatches(task, envelope) { return Err(ReferenceMismatch); }
    var preview := envelope.recoverablePreview;
    if |preview| == 0 { return Err(ReferenceMismatch); }
    var decoded := DecodeCursor(j, cursorText);
    if decoded.Err? { return Err(decoded.error); }
    var cursor := decoded.value;
    if cursor.taskId != task.taskId || cursor.taskId != envelope.taskId || cursor.envelopeId != envelope.envelopeId {
      return Err(ReferenceMismatch);
    }
    if cursor.totalBytes != |Encode(preview)| { return Err(ReferenceMismatch); }
    DecodedIsCount(j, cursorText);
    if cursor.stringOffset < |preview| { BoundariesAreReached(preview, 0, cursor.stringOffset); }
    if cursor.stringOffset >= |preview| || !IsBoundary(preview, cursor.stringOffset)
       || |Encode(preview[..cursor.stringOffset])| != cursor.returnedBytes {
      return Err(InvalidCursor);
    }
    r := CreatePage(j, task.taskId, envelope.envelopeId, preview, cursor.stringOffset, cursor.returnedBytes, maxBytes);
  }

  lemma DecodedIsCount(j: Json, text: Text)
    requires DecodeCursor(j, text).Ok?
    ensures WellFormed(DecodeCursor(j, text).value)
  {
  }

  /** The cursor belongs to this result and to a code-point offset of its text. */
  ghost predicate Accepts(task: Ledger.Task, envelope: Ledger.Envelope, c: Cursor) {
    var preview := envelope.recoverablePreview;
    && c.taskId == task.taskId == envelope.taskId && c.envelopeId == envelope.envelopeId
    && c.totalBytes == |Encode(preview)| && 0 <= c.stringOffset < |preview|
    && Reaches(preview, 0, c.stringOffset) && |Encode(preview[..c.stringOffset])| == c.returnedBytes
  }

  // ---------- Whole reads ----------

  /** The first page of a result, read with one page size. */
  ghost predicate IsFirst(j: Json, task: Ledger.Task, envelope: Ledger.Envelope, maxBytes: int, p: Page) {
    exists s :: IsPage(envelope.recoverablePreview, 0, maxBytes, s)
                && PageFor(j, task.taskId, envelope.envelopeId, envelope.recoverablePreview, 0, s, p)
  }

  /** The page served for the cursor that `previous` carried. */
  ghost predicate Follows(j: Json, task: Ledger.Task, envelope: Ledger.Envelope, previous: Page, maxBytes: int,
                          p: Page) {
    && previous.nextCursor.Some? && DecodeCursor(j, previous.nextCursor.value).Ok?
    && Accepts(task, envelope, DecodeCursor(j, previous.nextCursor.value).value)
    && Served(j, task, envelope, DecodeCursor(j, previous.nextCursor.value).value, maxBytes, p)
  }

  /** Pages read one after the other; each step may choose its own page size. */
  datatype Read = First(maxBytes: int, page: Page) | Next(before: Read, maxBytes: int, page: Page)

  ghost predicate IsRead(j: Json, task: Ledger.Task, envelope: Ledger.Envelope, r: Read) {
    && LegalPageSize(r.maxBytes)
    && match r
       case First(maxBytes, page) => IsFirst(j, task, envelope, maxBytes, page)
       case Next(before, maxBytes, page) =>
         IsRead(j, task, envelope, before) && Follows(j, task, envelope, before.page, maxBytes, page)
  }

  function AllText(r: Read): Text {
    match r
    case First(_, page) => page.text
    case Next(before, _, page) => AllText(before) + page.text
  }

  function PageCount(r: Read): nat {
    match r
    case First(_, _) => 1
    case Next(before, _, _) => PageCount(before) + 1
  }

  /** A result whose identity and size the cursor format can carry. */
  ghost predicate Readable(task: Ledger.Task, envelope: Ledger.Envelope) {
    && Ledger.PayloadMatches(task, envelope) && envelope.recoverablePreview != []
    && TASK_PREFIX <= task.taskId && RESULT_PREFIX <= envelope.envelopeId
    && |envelope.recoverablePreview| <= MAX_SAFE_INTEGER && |Encode(envelope.recoverablePreview)| <= MAX_SAFE_INTEGER
  }

  /** Where a reader stands: the text so far is a code-point prefix, counted exactly. */
  ghost predicate StandsAt(j: Json, task: Ledger.Task, envelope: Ledger.Envelope, text: Text, p: Page) {
    var preview := envelope.recoverablePreview;
    && text <= preview && Reaches(preview, 0, |text|)
    && p.returnedBytes == |Encode(text)| && p.totalBytes == |Encode(preview)|
    && (p.complete <==> text == preview)
    && (p.complete ==> p.nextCursor.None?)
    && (!p.complete ==>
          && p.nextCursor.Some?
          && DecodeCursor(j, p.nextCursor.value)
             == Ok(Cursor(task.taskId, envelope.envelopeId, |text|, |Encode(text)|, |Encode(preview)|)))
  }

  lemma PageAdvances(j: Json, task: Ledger.Task, envelope: Ledger.Envelope, text: Text, maxBytes: int, s: Slice,
                     p: Page)
    requires Lawful(j) && Readable(task, envelope)
    requires text <= envelope.recoverablePreview && Reaches(envelope.recoverablePreview, 0, |text|)
    requires IsPage(envelope.recoverablePreview, |text|, maxBytes, s)
    requires PageFor(j, task.taskId, envelope.envelopeId, envelope.recoverablePreview, |Encode(text)|, s, p)
    ensures p.text == s.text && StandsAt(j, task, envelope, text + s.text, p)
  {
    PrefixGrows(envelope.recoverablePreview, text, maxBytes, s);
    PageCarriesOn(j, task, envelope, |Encode(text)|, s, p);
    StandsAfter(j, task, envelope, text, s, p);
  }

  /** The page counts on from `returnedBytes`, and its cursor decodes to where the slice ends. */
  ghost predicate CarriesOn(j: Json, task: Ledger.Task, envelope: Ledger.Envelope, returnedBytes: nat, s: Slice,
                            p: Page) {
    var preview := envelope.recoverablePreview;
    && p.totalBytes == |Encode(preview)| && p.text == s.text && p.returnedBytes == returnedBytes + s.pageBytes
    && (p.complete <==> s.nextOffset == |preview|) && (p.complete ==> p.nextCursor.None?)
    && (!p.complete ==>
          && p.nextCursor.Some?
          && DecodeCursor(j, p.nextCursor.value)
             == Ok(Cursor(task.taskId, envelope.envelopeId, s.nextOffset, p.returnedBytes, |Encode(preview)|)))
  }

  lemma CursorAfterIsWellFormed(task: Ledger.Task, envelope: Ledger.Envelope, returnedBytes: nat, s: Slice)
    requires Readable(task, envelope) && s.nextOffset <= |envelope.recoverablePreview|
    requires returnedBytes + s.pageBytes <= |Encode(envelope.recoverablePreview)|
    ensures WellFormed(CursorAfter(task.taskId, envelope.envelopeId, envelope.recoverablePreview, returnedBytes, s))
  {
  }

  lemma CursorReadsBack(j: Json, c: Cursor, text: Text)
    requires Lawful(j) && WellFormed(c) && EncodeCursor(j, c) == Ok(text)
    ensures DecodeCursor(j, text) == Ok(c)
  {
    CursorRoundTrip(j, c);
  }

  lemma {:induction false} PageCarriesOn(j: Json, task: Ledger.Task, envelope: Ledger.Envelope, returnedBytes: nat,
                                         s: Slice, p: Page)
    requires Lawful(j) && Readable(task, envelope) && s.nextOffset <= |envelope.recoverablePreview|
    requires returnedBytes + s.pageBytes <= |Encode(envelope.recoverablePreview)|
    requires PageFor(j, task.taskId, envelope.envelopeId, envelope.recoverablePreview, returnedBytes, s, p)
    ensures CarriesOn(j, task, envelope, returnedBytes, s, p)
  {
    if !p.complete {
      var c := CursorAfter(task.taskId, envelope.envelopeId, envelope.recoverablePreview, returnedBytes, s);
      CursorAfterIsWellFormed(task, envelope, returnedBytes, s);
      CursorReadsBack(j, c, p.nextCursor.value);
    }
  }

  lemma StandsAfter(j: Json, task: Ledger.Task, envelope: Ledger.Envelope, text: Text, s: Slice, p: Page)
    requires CarriesOn(j, task, envelope, |Encode(text)|, s, p)
    requires text + s.text <= envelope.recoverablePreview && |text + s.text| == s.nextOffset
    requires Reaches(envelope.recoverablePreview, 0, s.nextOffset)
    requires |Encode(text + s.text)| == |Encode(text)| + s.pageBytes
    requires s.nextOffset == |envelope.recoverablePreview| <==> text + s.text == envelope.recoverablePreview
    ensures StandsAt(j, task, envelope, text + s.text, p)
  {
  }

  lemma PrefixGrows(preview: Text, text: Text, maxBytes: int, s: Slice)
    requires text <= preview && Reaches(preview, 0, |text|) && IsPage(preview, |text|, maxBytes, s)
    ensures text + s.text <= preview && |text + s.text| == s.nextOffset && Reaches(preview, 0, s.nextOffset)
    ensures |Encode(text + s.text)| == |Encode(text)| + s.pageBytes <= |Encode(preview)|
    ensures s.nextOffset == |preview| <==> text + s.text == preview
  {
    var n := s.nextOffset;
    assert text == preview[..|text|];
    assert text + s.text == preview[..n];
    assert n == |preview| ==> preview[..n] == preview;
    ReachesComposes(preview, 0, |text|, n);
    EncodeSlice(preview, 0, |text|);
    EncodeSlice(preview, |text|, n);
    EncodeSlice(preview, 0, n);
    assert preview[0..n] == preview[..n] && preview[0..|text|] == text;
  }

  /**
   * After any number of pages the text so far is the preview up to the last cursor, and the next
   * cursor is one that reading accepts.
   */
  lemma {:induction false} ReadCovers(j: Json, task: Ledger.Task, envelope: Ledger.Envelope, r: Read)
    requires Lawful(j) && Readable(task, envelope) && IsRead(j, task, envelope, r)
    ensures StandsAt(j, task, envelope, AllText(r), r.page)
    ensures |AllText(r)| >= PageCount(r)
  {
    match r
    case First(maxBytes, page) =>
      FirstStands(j, task, envelope, maxBytes, page);
    case Next(before, maxBytes, page) =>
      ReadCovers(j, task, envelope, before);
      NextStands(j, task, envelope, AllText(before), before.page, maxBytes, page);
  }

  lemma FirstStands(j: Json, task: Ledger.Task, envelope: Ledger.Envelope, maxBytes: int, p: Page)
    requires Lawful(j) && Readable(task, envelope) && LegalPageSize(maxBytes) && IsFirst(j, task, envelope, maxBytes, p)
    ensures StandsAt(j, task, envelope, p.text, p) && p.text != []
  {
    var preview := envelope.recoverablePreview;
    var s :| IsPage(preview, 0, maxBytes, s) && PageFor(j, task.taskId, envelope.envelopeId, preview, 0, s, p);
    PageAdvances(j, task, envelope, [], maxBytes, s, p);
    PageIsNotEmpty(preview, 0, maxBytes, s);
    assert [] + s.text == s.text;
  }

  lemma NextStands(j: Json, task: Ledger.Task, envelope: Ledger.Envelope, text: Text, previous: Page, maxBytes: int,
                   p: Page)
    requires Lawful(j) && Readable(task, envelope) && LegalPageSize(maxBytes)
    requires StandsAt(j, task, envelope, text, previous) && Follows(j, task, envelope, previous, maxBytes, p)
    ensures StandsAt(j, task, envelope, text + p.text, p) && p.text != []
  {
    var preview := envelope.recoverablePreview;
    var c := DecodeCursor(j, previous.nextCursor.value).value;
    var s :| IsPage(preview, c.stringOffset, maxBytes, s)
             && PageFor(j, task.taskId, envelope.envelopeId, preview, c.returnedBytes, s, p);
    PageAdvances(j, task, envelope, text, maxBytes, s, p);
    PageIsNotEmpty(preview, |text|, maxBytes, s);
  }

  lemma PageIsNotEmpty(value: Text, offset: nat, maxBytes: int, s: Slice)
    requires offset < |value| && LegalPageSize(maxBytes) && IsPage(value, offset, maxBytes, s)
    ensures s.text != []
  {
    WidthCountsUnits(value, offset);
    assert s.nextOffset == offset ==> s.text == [];
  }

  /** Reading ends: a read that is not complete has fewer pages than code units, and its cursor is accepted. */
  lemma ReadEnds(j: Json, task: Ledger.Task, envelope: Ledger.Envelope, r: Read)
    requires Lawful(j) && Readable(task, envelope) && IsRead(j, task, envelope, r)
    ensures r.page.complete ==> AllText(r) == envelope.recoverablePreview
    ensures !r.page.complete ==>
              && PageCount(r) < |envelope.recoverablePreview|
              && r.page.nextCursor.Some?
              && DecodeCursor(j, r.page.nextCursor.value).Ok?
              && Accepts(task, envelope, DecodeCursor(j, r.page.nextCursor.value).value)
  {
    ReadCovers(j, task, envelope, r);
    var preview, text := envelope.recoverablePreview, AllText(r);
    assert text == preview[..|text|];
    assert |text| == |preview| ==> text == preview;
  }
}
