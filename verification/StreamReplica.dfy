/**
 * The part events of a streaming message. A client that folds them holds the parts of the record: the
 * same ids, the same text, and for every part that does not stream the same whole value.
 */
module StreamReplica {
  import opened Outcomes
  import opened JsText

  datatype Kind = TextKind | ReasoningKind | OtherKind

  /** `rest` stands for every other field of the part. */
  datatype Part = Part(id: string, messageID: string, kind: Kind, text: Option<Text>, rest: nat)

  datatype Info = Info(id: string, rest: nat)

  datatype Record = Record(info: Info, parts: seq<Part>)

  datatype Event =
    | MessageUpdated(info: Info)
    | PartUpdated(part: Part)
    | PartDelta(messageID: string, partID: string, delta: Text)
    | PartRemoved(messageID: string, partID: string)

  function TextOf(p: Part): Text {
    match p.text case Some(t) => t case None => []
  }

  /** Text and reasoning parts stream: their growth may travel as a delta. */
  predicate Streams(p: Part) {
    (p.kind.TextKind? || p.kind.ReasoningKind?) && p.text.Some?
  }

  // ---------- What a delta says ----------

  /** Nothing new, an extension of the old text, or no delta can tell. */
  function ComputeIncrementalTextDelta(previous: Text, next: Text): (delta: Option<Text>)
    ensures delta.Some? && delta.value != [] ==> previous + delta.value == next && |next| > |previous|
    ensures delta == Some([]) <==> next == [] || next == previous
    ensures delta.None? ==> !(previous <= next)
  {
    if next == [] || next == previous then Some([])
    else if |next| > |previous| && next[..|previous|] == previous then Some(next[|previous|..])
    else None
  }

  // ---------- The client ----------

  datatype Client = Client(parts: map<string, Part>, infos: map<string, Info>)

  function Fold(c: Client, e: Event): Client {
    match e
    case MessageUpdated(info) => c.(infos := c.infos[info.id := info])
    case PartUpdated(p) => c.(parts := c.parts[p.id := p])
    case PartDelta(_, id, delta) =>
      if id in c.parts then c.(parts := c.parts[id := c.parts[id].(text := Some(TextOf(c.parts[id]) + delta))]) else c
    case PartRemoved(_, id) => c.(parts := c.parts - {id})
  }

  function FoldAll(events: seq<Event>): Client {
    if events == [] then Client(map[], map[]) else Fold(FoldAll(events[..|events| - 1]), events[|events| - 1])
  }

  lemma FoldOneMore(events: seq<Event>, e: Event)
    ensures FoldAll(events + [e]) == Fold(FoldAll(events), e)
  {
    assert (events + [e])[..|events|] == events;
  }

  /** The client's copy of a part agrees with the part last emitted. */
  predicate Matches(copy: Part, p: Part) {
    TextOf(copy) == TextOf(p) && (!Streams(p) ==> copy == p)
  }

  ghost predicate InSync(parts: map<string, Part>, infos: map<string, Info>, c: Client) {
    && c.infos == infos && c.parts.Keys == parts.Keys
    && (forall id :: id in parts ==> Matches(c.parts[id], parts[id]))
  }

  // ---------- The record as a map ----------

  /** The parts of the record over those emitted before; a part without an id is skipped. */
  function PutAll(before: map<string, Part>, parts: seq<Part>): map<string, Part> {
    if parts == [] then before
    else
      var last := parts[|parts| - 1];
      var rest := PutAll(before, parts[..|parts| - 1]);
      if last.id == "" then rest else rest[last.id := last]
  }

  function IdsOf(parts: seq<Part>): set<string> {
    set i | 0 <= i < |parts| && parts[i].id != "" :: parts[i].id
  }

  /** Parts of this message that the record no longer holds. */
  function Gone(parts: map<string, Part>, record: Record): set<string> {
    set id | id in parts && parts[id].messageID == record.info.id && id !in IdsOf(record.parts)
  }

  lemma IdsOneMore(parts: seq<Part>, i: nat)
    requires i < |parts|
    ensures IdsOf(parts[..i + 1]) == IdsOf(parts[..i]) + if parts[i].id == "" then {} else {parts[i].id}
    ensures IdsOf(parts[..|parts|]) == IdsOf(parts)
  {
    var a, b := IdsOf(parts[..i + 1]), IdsOf(parts[..i]) + if parts[i].id == "" then {} else {parts[i].id};
    forall id | id in a
      ensures id in b
    {
      var k :| 0 <= k < i + 1 && parts[..i + 1][k].id == id && id != "";
      if k < i { assert parts[..i][k].id == id; }
    }
    forall id | id in b
      ensures id in a
    {
      if id in IdsOf(parts[..i]) {
        var k :| 0 <= k < i && parts[..i][k].id == id && id != "";
        assert parts[..i + 1][k].id == id;
      } else {
        assert parts[..i + 1][i].id == id;
      }
    }
    assert parts[..|parts|] == parts;
  }

  /** The last part with the id is the one that counts. */
  predicate LastWithId(parts: seq<Part>, i: int) {
    0 <= i < |parts| && parts[i].id != "" && forall j :: i < j < |parts| ==> parts[j].id != parts[i].id
  }

  lemma {:induction false} PutAllHolds(before: map<string, Part>, parts: seq<Part>)
    ensures PutAll(before, parts).Keys == before.Keys + IdsOf(parts)
    ensures forall id :: id in before && id !in IdsOf(parts) ==> PutAll(before, parts)[id] == before[id]
  {
    if parts != [] {
      var n := |parts| - 1;
      PutAllHolds(before, parts[..n]);
      IdsOneMore(parts, n);
      assert parts[..n + 1] == parts;
    }
  }

  lemma {:induction false} LastIsPut(before: map<string, Part>, parts: seq<Part>, i: int)
    requires LastWithId(parts, i)
    ensures parts[i].id in IdsOf(parts)
    ensures parts[i].id in PutAll(before, parts) && PutAll(before, parts)[parts[i].id] == parts[i]
  {
    var n := |parts| - 1;
    if i < n {
      assert forall j :: i < j < n ==> parts[..n][j] == parts[j];
      LastIsPut(before, parts[..n], i);
      assert parts[n].id != parts[i].id;
    }
  }

  predicate IsGone(parts: map<string, Part>, record: Record, id: string) {
    id in parts && parts[id].messageID == record.info.id && id !in IdsOf(record.parts)
  }

  /** Looking at one more part takes it out if it is gone. */
  lemma GoneStep(parts: map<string, Part>, record: Record, left: set<string>, id: string)
    requires id in left
    ensures parts - (Gone(parts, record) - (left - {id}))
            == parts - (Gone(parts, record) - left) - if IsGone(parts, record, id) then {id} else {}
  {
    assert Gone(parts, record) - (left - {id})
           == (Gone(parts, record) - left) + if IsGone(parts, record, id) then {id} else {};
  }

  // ---------- The emitter ----------

  class Emitter {
    var emittedParts: map<string, Part>
    var emittedMessageInfo: map<string, Info>
    var events: seq<Event>

    ghost predicate Valid()
      reads this
    {
      && InSync(emittedParts, emittedMessageInfo, FoldAll(events))
      && forall id :: id in emittedParts ==> emittedParts[id].id == id && id != ""
    }

    constructor ()
      ensures Valid() && events == []
    {
      emittedParts, emittedMessageInfo, events := map[], map[], [];
    }

    method Emit(e: Event)
      modifies this`events
      ensures events == old(events) + [e] && FoldAll(events) == Fold(FoldAll(old(events)), e)
    {
      FoldOneMore(events, e);
      events := events + [e];
    }

    method EmitMessageInfo(info: Info)
      requires Valid()
      modifies this`events, this`emittedMessageInfo
      ensures Valid() && emittedMessageInfo == old(emittedMessageInfo)[info.id := info]
    {
      if info.id in emittedMessageInfo && emittedMessageInfo[info.id] == info {
        assert emittedMessageInfo == emittedMessageInfo[info.id := info];
        return;
      }
      emittedMessageInfo := emittedMessageInfo[info.id := info];
      Emit(MessageUpdated(info));
    }

    /** Growth of a text travels as a delta, anything else as the whole part. */
    method EmitStreamingTextPartUpdate(part: Part, recordId: string)
      requires Valid() && Streams(part) && part.id != ""
      modifies this`events, this`emittedParts
      ensures Valid() && emittedParts == old(emittedParts)[part.id := part]
      ensures FoldAll(events).infos == FoldAll(old(events)).infos
    {
      if part.id in emittedParts {
        var delta := ComputeIncrementalTextDelta(TextOf(emittedParts[part.id]), TextOf(part));
        if delta.Some? && delta.value != [] {
          emittedParts := emittedParts[part.id := part];
          Emit(PartDelta(if part.messageID != "" then part.messageID else recordId, part.id, delta.value));
          return;
        }
      }
      emittedParts := emittedParts[part.id := part];
      Emit(PartUpdated(part));
    }

    method EmitPart(part: Part, recordId: string, forcePartUpdated: bool)
      requires Valid() && part.id != ""
      modifies this`events, this`emittedParts
      ensures Valid() && emittedParts == old(emittedParts)[part.id := part]
    {
      if part.id in emittedParts && emittedParts[part.id] == part {
        assert emittedParts == emittedParts[part.id := part];
        return;
      }
      if !forcePartUpdated && Streams(part) {
        EmitStreamingTextPartUpdate(part, recordId);
        return;
      }
      emittedParts := emittedParts[part.id := part];
      Emit(PartUpdated(part));
    }

    method EmitParts(record: Record, forcePartUpdated: bool) returns (currentPartIds: set<string>)
      requires Valid()
      modifies this`events, this`emittedParts
      ensures Valid() && emittedParts == PutAll(old(emittedParts), record.parts)
          && currentPartIds == IdsOf(record.parts)
    {
      currentPartIds := {};
      for i := 0 to |record.parts|
        invariant Valid() && emittedParts == PutAll(old(emittedParts), record.parts[..i])
        invariant currentPartIds == IdsOf(record.parts[..i])
      {
        var part := record.parts[i];
        IdsOneMore(record.parts, i);
        assert record.parts[..i + 1][..i] == record.parts[..i];
        if part.id == "" { continue; }
        currentPartIds := currentPartIds + {part.id};
        EmitPart(part, record.info.id, forcePartUpdated);
      }
      assert record.parts[..|record.parts|] == record.parts;
    }

    method Remove(messageID: string, partID: string)
      requires Valid()
      modifies this`events, this`emittedParts
      ensures Valid() && emittedParts == old(emittedParts) - {partID}
    {
      emittedParts := emittedParts - {partID};
      Emit(PartRemoved(messageID, partID));
    }

    /** One part of the emitted ones: removed if it belongs to the message and the record no longer has it. */
    method RemoveIfGone(record: Record, currentPartIds: set<string>, partID: string, part: Part)
      requires Valid()
      modifies this`events, this`emittedParts
      ensures Valid()
      ensures var gone := part.messageID == record.info.id && partID !in currentPartIds;
              emittedParts == old(emittedParts) - if gone then {partID} else {}
    {
      if part.messageID != record.info.id || partID in currentPartIds {
        assert emittedParts == emittedParts - {};
        return;
      }
      Remove(record.info.id, partID);
    }

    method EmitRemoved(record: Record, currentPartIds: set<string>)
      requires Valid() && currentPartIds == IdsOf(record.parts)
      modifies this`events, this`emittedParts
      ensures Valid() && emittedParts == old(emittedParts) - Gone(old(emittedParts), record)
    {
      var snapshot := emittedParts;
      var left := snapshot.Keys;
      assert emittedParts == snapshot - (Gone(snapshot, record) - left);
      while left != {}
        invariant Valid() && left <= snapshot.Keys
        invariant emittedParts == snapshot - (Gone(snapshot, record) - left)
        decreases |left|
      {
        var partID :| partID in left;
        GoneStep(snapshot, record, left, partID);
        left := left - {partID};
        RemoveIfGone(record, currentPartIds, partID, snapshot[partID]);
      }
      assert Gone(snapshot, record) - left == Gone(snapshot, record);
    }

    /**
     * After every record the client holds, of this message, exactly the record's parts: the same text for
     * each, and the same whole value for each that does not stream. Parts of other messages, and parts
     * that name no message, stay as they were.
     */
    method EmitRecordDelta(record: Record, forcePartUpdated: bool, messageInfoAfterParts: bool)
      requires Valid()
      modifies this
      ensures Valid() && emittedMessageInfo == old(emittedMessageInfo)[record.info.id := record.info]
      ensures var put := PutAll(old(emittedParts), record.parts); emittedParts == put - Gone(put, record)
      ensures Shows(FoldAll(events), old(emittedParts), record)
    {
      if !messageInfoAfterParts { EmitMessageInfo(record.info); }
      var currentPartIds := EmitParts(record, forcePartUpdated);
      EmitRemoved(record, currentPartIds);
      if messageInfoAfterParts { EmitMessageInfo(record.info); }
      RecordIsShown(old(emittedParts), emittedParts, emittedMessageInfo, FoldAll(events), record);
    }
  }

  /** What the client shows of the record, given what had been emitted before. */
  ghost predicate Shows(c: Client, emitted: map<string, Part>, record: Record) {
    && record.info.id in c.infos && c.infos[record.info.id] == record.info
    && (forall i :: LastWithId(record.parts, i) ==>
          record.parts[i].id in c.parts && Matches(c.parts[record.parts[i].id], record.parts[i]))
    && (forall id :: id in c.parts <==>
          id in IdsOf(record.parts) || (id in emitted && emitted[id].messageID != record.info.id))
  }

  lemma RecordIsShown(before: map<string, Part>, after: map<string, Part>, infos: map<string, Info>,
                      c: Client, record: Record)
    requires InSync(after, infos, c) && record.info.id in infos && infos[record.info.id] == record.info
    requires after == PutAll(before, record.parts) - Gone(PutAll(before, record.parts), record)
    ensures Shows(c, before, record)
  {
    var put := PutAll(before, record.parts);
    PutAllHolds(before, record.parts);
    forall i | LastWithId(record.parts, i)
      ensures record.parts[i].id in c.parts && Matches(c.parts[record.parts[i].id], record.parts[i])
    {
      var id := record.parts[i].id;
      LastIsPut(before, record.parts, i);
      assert id in after && after[id] == record.parts[i];
    }
    forall id
      ensures id in c.parts <==> id in IdsOf(record.parts) || (id in before && before[id].messageID != record.info.id)
    {
      assert id in c.parts <==> id in after;
    }
  }
}
