/**
 * The write queue of one session. Streaming snapshots of the message at the tail are coalesced while they
 * wait; the stored records are those of writing every snapshot on its own, in order.
 */
module PersistQueue {
  import opened Outcomes
  import opened Sorting

  /** A message id with its place in the collation order, which several ids may share. */
  datatype Id = Id(name: string, rank: int)

  /** A message record; `rest` stands for its remaining fields. */
  datatype Record = Record(id: Id, assistant: bool, completed: bool, error: bool, rest: nat)

  datatype Entry = Entry(record: Record, streaming: bool)

  /** Only an unfinished assistant message without an error may be overtaken by a later snapshot. */
  predicate Replaceable(record: Record, asked: bool) {
    asked && record.assistant && !record.completed && !record.error
  }

  // ---------- The stored records ----------

  /** The collation order of the ids. */
  function ByRank(): (atMost: (Record, Record) -> bool)
    ensures forall a, b :: atMost(a, b) <==> a.id.rank <= b.id.rank
  {
    (a: Record, b: Record) => a.id.rank <= b.id.rank
  }

  predicate Has(s: seq<Record>, id: Id) {
    exists i :: 0 <= i < |s| && s[i].id == id
  }

  /** Replaces the first record with the id, and leaves a list without one alone. */
  function ReplaceFirst(s: seq<Record>, r: Record): seq<Record> {
    if s == [] then []
    else if s[0].id == r.id then [r] + s[1..]
    else [s[0]] + ReplaceFirst(s[1..], r)
  }

  function Put(s: seq<Record>, r: Record): seq<Record> {
    if Has(s, r.id) then ReplaceFirst(s, r) else s + [r]
  }

  function Upsert(s: seq<Record>, r: Record): seq<Record> {
    Sort(Put(s, r), ByRank())
  }

  lemma {:induction false} InsertThenReplace(x: Record, s: seq<Record>, r: Record)
    ensures x.id == r.id ==> ReplaceFirst(Insert(x, s, ByRank()), r) == Insert(r, s, ByRank())
    ensures x.id != r.id ==>
              ReplaceFirst(Insert(x, s, ByRank()), r) == Insert(x, ReplaceFirst(s, r), ByRank())
  {
    if s != [] && !ByRank()(x, s[0]) {
      InsertThenReplace(x, s[1..], r);
      assert Insert(x, s, ByRank())[1..] == Insert(x, s[1..], ByRank());
      assert ReplaceFirst(s, r) == (if s[0].id == r.id then [r] + s[1..] else [s[0]] + ReplaceFirst(s[1..], r));
    } else {
      assert ([x] + s)[1..] == s;
    }
  }

  /** A replacement has the id, and so the rank, of what it replaces: it commutes with the stable sort. */
  lemma {:induction false} SortThenReplace(s: seq<Record>, r: Record)
    ensures ReplaceFirst(Sort(s, ByRank()), r) == Sort(ReplaceFirst(s, r), ByRank())
  {
    if s != [] {
      SortThenReplace(s[1..], r);
      InsertThenReplace(s[0], Sort(s[1..], ByRank()), r);
      assert ReplaceFirst(s, r)[1..] == if s[0].id == r.id then s[1..] else ReplaceFirst(s[1..], r);
    }
  }

  lemma {:induction false} ReplaceTwice(s: seq<Record>, a: Record, b: Record)
    requires a.id == b.id
    ensures ReplaceFirst(ReplaceFirst(s, a), b) == ReplaceFirst(s, b)
    ensures Has(ReplaceFirst(s, a), a.id) == Has(s, a.id)
  {
    if s != [] {
      ReplaceTwice(s[1..], a, b);
      HasCons(s, a.id);
      HasCons(ReplaceFirst(s, a), a.id);
      assert ReplaceFirst(s, a)[1..] == if s[0].id == a.id then s[1..] else ReplaceFirst(s[1..], a);
    }
  }

  lemma HasCons(s: seq<Record>, id: Id)
    requires s != []
    ensures Has(s, id) <==> s[0].id == id || Has(s[1..], id)
  {
    if Has(s[1..], id) {
      var i :| 0 <= i < |s| - 1 && s[1..][i].id == id;
      assert s[i + 1].id == id;
    }
    if Has(s, id) && s[0].id != id {
      var i :| 0 <= i < |s| && s[i].id == id;
      assert s[1..][i - 1].id == id;
    }
  }

  lemma {:induction false} ReplaceAppended(s: seq<Record>, a: Record, b: Record)
    requires a.id == b.id && !Has(s, a.id)
    ensures ReplaceFirst(s + [a], b) == s + [b]
  {
    if s == [] {
      assert s + [a] == [a] && [a][1..] == [];
    } else {
      HasCons(s, a.id);
      ReplaceAppended(s[1..], a, b);
      assert (s + [a])[1..] == s[1..] + [a];
    }
  }

  lemma PutTwice(s: seq<Record>, a: Record, b: Record)
    requires a.id == b.id
    ensures Has(Put(s, a), a.id) && ReplaceFirst(Put(s, a), b) == Put(s, b)
  {
    if Has(s, a.id) {
      ReplaceTwice(s, a, b);
    } else {
      ReplaceAppended(s, a, b);
      assert (s + [a])[|s|].id == a.id;
    }
  }

  lemma SortHas(s: seq<Record>, id: Id)
    ensures Has(Sort(s, ByRank()), id) == Has(s, id)
  {
    SortKeeps(s, ByRank());
    if Has(s, id) {
      var i :| 0 <= i < |s| && s[i].id == id;
      assert s[i] in Sort(s, ByRank());
    }
    if Has(Sort(s, ByRank()), id) {
      var i :| 0 <= i < |s| && Sort(s, ByRank())[i].id == id;
      assert Sort(s, ByRank())[i] in s;
    }
  }

  /** A second write of the same message makes the first one invisible. */
  lemma UpsertTwice(s: seq<Record>, a: Record, b: Record)
    requires a.id == b.id
    ensures Upsert(Upsert(s, a), b) == Upsert(s, b)
  {
    var atMost := ByRank();
    PutTwice(s, a, b);
    SortHas(Put(s, a), b.id);
    SortThenReplace(Put(s, a), b);
    SortSorted(Put(s, b), atMost);
    SortOfSorted(Sort(Put(s, b), atMost), atMost);
  }

  // ---------- Writing every snapshot in order ----------

  function WriteAll(initial: seq<Record>, entries: seq<Entry>): seq<Record> {
    if entries == [] then initial
    else Upsert(WriteAll(initial, entries[..|entries| - 1]), entries[|entries| - 1].record)
  }

  /** One write may stand for `from..to`: snapshots of one message, all of them replaceable if several. */
  ghost predicate Covers(entries: seq<Entry>, from: nat, to: nat) {
    && from < to <= |entries|
    && (from < to - 1 ==>
          && entries[to - 2].streaming && entries[to - 1].streaming
          && entries[to - 2].record.id == entries[to - 1].record.id && Covers(entries, from, to - 1))
  }

  lemma {:induction false} CoveringWrite(initial: seq<Record>, entries: seq<Entry>, from: nat, to: nat)
    requires Covers(entries, from, to)
    ensures WriteAll(initial, entries[..to])
            == Upsert(WriteAll(initial, entries[..from]), entries[to - 1].record)
  {
    assert entries[..to][..to - 1] == entries[..to - 1];
    if from < to - 1 {
      CoveringWrite(initial, entries, from, to - 1);
      UpsertTwice(WriteAll(initial, entries[..from]), entries[to - 2].record, entries[to - 1].record);
    }
  }

  /** Nothing but replaceable snapshots of the same message is passed over. */
  lemma {:induction false} PassedOver(entries: seq<Entry>, from: nat, to: nat, k: nat)
    requires Covers(entries, from, to) && from <= k < to - 1
    ensures entries[k].streaming && entries[k].record.id == entries[to - 1].record.id
  {
    if k < to - 2 {
      PassedOver(entries, from, to - 1, k);
    }
  }

  // ---------- The queue ----------

  /** The slots from entry `from` on: each covers what the one before it left, to the very end. */
  ghost predicate Tiles(entries: seq<Entry>, from: nat, slots: seq<Record>, ends: seq<nat>)
    decreases |slots|
  {
    if slots == [] then ends == [] && from == |entries|
    else
      && ends != [] && Covers(entries, from, ends[0]) && slots[0] == entries[ends[0] - 1].record
      && Tiles(entries, ends[0], slots[1..], ends[1..])
  }

  /** What is stored is what writing the first snapshots one by one leaves. */
  ghost predicate Written(initial: seq<Record>, stored: seq<Record>, entries: seq<Entry>, done: nat)
    requires done <= |entries|
  {
    stored == WriteAll(initial, entries[..done])
  }

  ghost predicate InFlight(writing: Option<Record>, entries: seq<Entry>, done: nat, started: nat)
    requires started <= |entries|
  {
    match writing
    case None => started == done
    case Some(r) => Covers(entries, done, started) && r == entries[started - 1].record
  }

  ghost predicate Waiting(slots: seq<Record>, pendingTail: bool, entries: seq<Entry>, started: nat, ends: seq<nat>) {
    && Tiles(entries, started, slots, ends)
    && (pendingTail ==> slots != [] && entries != [] && entries[|entries| - 1].streaming)
  }

  method FindIndex(s: seq<Record>, id: Id) returns (i: nat)
    ensures i <= |s| && (i < |s| ==> s[i].id == id) && (i < |s| <==> Has(s, id))
    ensures forall j :: 0 <= j < i ==> s[j].id != id
  {
    i := 0;
    while i < |s| && s[i].id != id
      invariant i <= |s| && forall j :: 0 <= j < i ==> s[j].id != id
    {
      i := i + 1;
    }
  }

  lemma {:induction false} ReplaceAtFirst(s: seq<Record>, r: Record, i: nat)
    requires i < |s| && s[i].id == r.id && forall j :: 0 <= j < i ==> s[j].id != r.id
    ensures ReplaceFirst(s, r) == s[i := r]
  {
    if i > 0 {
      assert s[0].id != r.id;
      ReplaceAtFirst(s[1..], r, i - 1);
      assert s[i := r] == [s[0]] + s[1..][i - 1 := r];
    }
  }

  class Queue {
    var stored: seq<Record>
    /** The write in progress, and the writes that have not started, oldest first. */
    var writing: Option<Record>
    var slots: seq<Record>
    /** The last slot is waiting and may be replaced. */
    var pendingTail: bool
    ghost const initial: seq<Record>
    ghost var entries: seq<Entry>
    /** How many entries are stored, how many the write in progress reaches, and each slot. */
    ghost var done: nat
    ghost var started: nat
    ghost var ends: seq<nat>

    /**
     * What is stored is what writing a prefix of all snapshots one by one leaves; the write in progress
     * and the slots cover the rest in order, passing over replaceable snapshots of one message only.
     */
    ghost predicate Valid()
      reads this
    {
      && done <= started <= |entries| && Written(initial, stored, entries, done)
      && InFlight(writing, entries, done, started) && Waiting(slots, pendingTail, entries, started, ends)
    }

    constructor (stored: seq<Record>)
      ensures Valid() && entries == [] && initial == stored
    {
      this.stored, this.initial := stored, stored;
      writing, slots, pendingTail := None, [], false;
      entries, done, started, ends := [], 0, 0, [];
    }

    method EnqueuePersist(record: Record, replaceableAsked: bool)
      requires Valid()
      modifies this`slots, this`pendingTail, this`entries, this`ends
      ensures Valid() && entries == old(entries) + [Entry(record, Replaceable(record, replaceableAsked))]
      ensures slots == old(slots) + [record]
              || (old(pendingTail) && Replaceable(record, replaceableAsked)
                  && slots == old(slots)[|old(slots)| - 1 := record] && old(slots)[|old(slots)| - 1].id == record.id)
    {
      var streaming := Replaceable(record, replaceableAsked);
      if streaming && pendingTail && slots[|slots| - 1].id == record.id {
        ReplaceTail(record);
      } else {
        AddSlot(record, streaming);
      }
    }

    /** Only the pending tail is replaced: everything else keeps its place. */
    method ReplaceTail(record: Record)
      requires Valid() && pendingTail && slots[|slots| - 1].id == record.id
      modifies this`slots, this`entries, this`ends
      ensures Valid() && entries == old(entries) + [Entry(record, true)]
      ensures slots == old(slots)[|old(slots)| - 1 := record]
    {
      ghost var e := Entry(record, true);
      WaitingReplaced(slots, entries, started, ends, e);
      PrefixGrows(initial, stored, writing, entries, e, done, started);
      slots := slots[|slots| - 1 := record];
      ends := ends[|ends| - 1 := |entries| + 1];
      entries := entries + [e];
    }

    method AddSlot(record: Record, streaming: bool)
      requires Valid()
      modifies this`slots, this`pendingTail, this`entries, this`ends
      ensures Valid() && entries == old(entries) + [Entry(record, streaming)] && slots == old(slots) + [record]
    {
      ghost var e := Entry(record, streaming);
      WaitingAdded(slots, pendingTail, entries, started, ends, e);
      PrefixGrows(initial, stored, writing, entries, e, done, started);
      slots := slots + [record];
      ends := ends + [|entries| + 1];
      pendingTail := streaming;
      entries := entries + [e];
    }

    /** The next write begins: its snapshot is fixed here. */
    method Start()
      requires Valid() && writing == None && slots != []
      modifies this`writing, this`slots, this`pendingTail, this`started, this`ends
      ensures Valid() && writing == Some(old(slots)[0]) && slots == old(slots)[1..] && started > old(started)
    {
      WaitingStarts(slots, pendingTail, entries, started, ends);
      writing := Some(slots[0]);
      started := ends[0];
      slots, ends := slots[1..], ends[1..];
      if slots == [] { pendingTail := false; }
    }

    method Finish()
      requires Valid() && writing.Some?
      modifies this`stored, this`writing, this`done
      ensures Valid() && writing == None && done == started > old(done)
    {
      WriteReaches(initial, stored, writing.value, entries, done, started);
      AppendOrReplaceRecord(writing.value);
      writing := None;
      done := started;
    }

    /** Reads the stored records, puts the new one in its place and sorts them. */
    method AppendOrReplaceRecord(record: Record)
      modifies this`stored
      ensures stored == Upsert(old(stored), record)
    {
      var next := stored + [record];
      var index := FindIndex(stored, record.id);
      if index < |stored| {
        ReplaceAtFirst(stored, record, index);
        next := stored[index := record];
      }
      stored := Sort(next, ByRank());
    }

    /** With nothing left to write, every snapshot has had its effect. */
    method WriteOut()
      requires Valid()
      modifies this`stored, this`writing, this`slots, this`pendingTail, this`done, this`started, this`ends
      ensures Valid() && writing == None && slots == [] && entries == old(entries)
      ensures stored == WriteAll(initial, entries)
    {
      if writing.Some? { Finish(); }
      while slots != []
        invariant Valid() && writing == None && entries == old(entries)
        decreases |slots|
      {
        Start();
        Finish();
      }
      assert entries[..done] == entries;
    }
  }

  // ---------- What keeps the parts of the queue's invariant ----------

  lemma PrefixGrows(initial: seq<Record>, stored: seq<Record>, writing: Option<Record>, entries: seq<Entry>, e: Entry,
                    done: nat, started: nat)
    requires done <= started <= |entries| && Written(initial, stored, entries, done)
    requires InFlight(writing, entries, done, started)
    ensures Written(initial, stored, entries + [e], done) && InFlight(writing, entries + [e], done, started)
  {
    EntriesGrow(entries, e, done, started);
  }

  lemma WaitingReplaced(slots: seq<Record>, entries: seq<Entry>, started: nat, ends: seq<nat>, e: Entry)
    requires Waiting(slots, true, entries, started, ends) && e.streaming && slots[|slots| - 1].id == e.record.id
    ensures |ends| == |slots|
    ensures Waiting(slots[|slots| - 1 := e.record], true, entries + [e], started, ends[|ends| - 1 := |entries| + 1])
  {
    TileCount(entries, started, slots, ends);
    TileReplaced(entries, started, slots, ends, e);
  }

  lemma WaitingAdded(slots: seq<Record>, pendingTail: bool, entries: seq<Entry>, started: nat, ends: seq<nat>, e: Entry)
    requires Waiting(slots, pendingTail, entries, started, ends)
    ensures Waiting(slots + [e.record], e.streaming, entries + [e], started, ends + [|entries| + 1])
  {
    TileAdded(entries, started, slots, ends, e);
  }

  lemma WaitingStarts(slots: seq<Record>, pendingTail: bool, entries: seq<Entry>, started: nat, ends: seq<nat>)
    requires Waiting(slots, pendingTail, entries, started, ends) && slots != []
    ensures ends != [] && started < ends[0] <= |entries|
    ensures InFlight(Some(slots[0]), entries, started, ends[0])
    ensures Waiting(slots[1..], pendingTail && slots[1..] != [], entries, ends[0], ends[1..])
  {
  }

  lemma WriteReaches(initial: seq<Record>, stored: seq<Record>, writing: Record, entries: seq<Entry>, done: nat,
                     started: nat)
    requires done <= started <= |entries| && Written(initial, stored, entries, done)
    requires InFlight(Some(writing), entries, done, started)
    ensures done < started && Written(initial, Upsert(stored, writing), entries, started)
  {
    CoveringWrite(initial, entries, done, started);
  }

  lemma {:induction false} EntriesGrow(entries: seq<Entry>, e: Entry, from: nat, to: nat)
    requires from <= to <= |entries|
    ensures (entries + [e])[..from] == entries[..from]
    ensures Covers(entries, from, to) ==> Covers(entries + [e], from, to)
  {
    if from < to - 1 {
      EntriesGrow(entries, e, from, to - 1);
    }
  }

  lemma {:induction false} TileAdded(entries: seq<Entry>, from: nat, slots: seq<Record>, ends: seq<nat>, e: Entry)
    requires Tiles(entries, from, slots, ends)
    ensures Tiles(entries + [e], from, slots + [e.record], ends + [|entries| + 1])
    decreases |slots|
  {
    if slots == [] {
      assert ([] + [e.record])[1..] == [] && ([] + [|entries| + 1])[1..] == [];
    } else {
      EntriesGrow(entries, e, from, ends[0]);
      TileAdded(entries, ends[0], slots[1..], ends[1..], e);
      assert (slots + [e.record])[1..] == slots[1..] + [e.record];
      assert (ends + [|entries| + 1])[1..] == ends[1..] + [|entries| + 1];
    }
  }

  lemma {:induction false} TileReplaced(entries: seq<Entry>, from: nat, slots: seq<Record>, ends: seq<nat>, e: Entry)
    requires Tiles(entries, from, slots, ends) && slots != [] && |ends| == |slots|
    requires e.streaming && entries != [] && entries[|entries| - 1].streaming && slots[|slots| - 1].id == e.record.id
    ensures Tiles(entries + [e], from, slots[|slots| - 1 := e.record], ends[|ends| - 1 := |entries| + 1])
    decreases |slots|
  {
    var n := |slots| - 1;
    if n > 0 {
      EntriesGrow(entries, e, from, ends[0]);
      TileReplaced(entries, ends[0], slots[1..], ends[1..], e);
      assert slots[n := e.record][1..] == slots[1..][n - 1 := e.record];
      assert ends[n := |entries| + 1][1..] == ends[1..][n - 1 := |entries| + 1];
    } else {
      assert Tiles(entries, ends[0], [], ends[1..]) && ends[0] == |entries|;
      assert slots[0 := e.record][1..] == [] && ends[0 := |entries| + 1][1..] == [];
      EntriesGrow(entries, e, from, |entries|);
    }
  }

  lemma {:induction false} TileCount(entries: seq<Entry>, from: nat, slots: seq<Record>, ends: seq<nat>)
    requires Tiles(entries, from, slots, ends)
    ensures |ends| == |slots| && from <= |entries|
    decreases |slots|
  {
    if slots != [] {
      TileCount(entries, ends[0], slots[1..], ends[1..]);
    }
  }
}
