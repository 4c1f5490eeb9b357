/** The two capped passes: fewest evictions, oldest first, with incremental totals. */
module CapEviction {
  import opened Outcomes
  import opened Ledger
  import opened LedgerBytes
  import opened Protection
  import opened Eviction
  import opened EvictionBytes

  /** What a pass needs to know about its input. */
  ghost predicate Evictable(s: Snapshot, l: Lookup, proofs: set<TaskId>, w: Work, ts: seq<Task>) {
    && Unique(s) && l == LookupOf(s) && Sound(l, w) && ProofSet(l, proofs)
    && UniqueTasks(ts) && (forall t :: t in ts ==> t in s.tasks && Known(l, t) && IsTerminal(t.status))
  }

  function TerminalTotal(s: Snapshot): (size: Work -> int)
    ensures forall w :: size(w) == CountedTerminal(BuildState(w, s))
  {
    (w: Work) => CountedTerminal(BuildState(w, s))
  }

  function ByteTotal(j: Encoders, s: Snapshot): (size: Work -> int)
    ensures forall w :: size(w) == CountedBytes(j, BuildState(w, s))
  {
    (w: Work) => CountedBytes(j, BuildState(w, s))
  }

  /**
   * Evicting the first `m` candidates is the least that meets the cap: one fewer would leave it
   * exceeded, and it stays exceeded only when no candidate is left.
   */
  ghost predicate FewestEvictions(w: Work, v: Work, candidates: seq<Task>, l: Lookup, proofs: set<TaskId>,
                                  size: Work -> int, cap: int, m: nat)
  {
    && m <= |candidates| && v == EvictAll(w, candidates[..m], l, proofs)
    && (forall i :: 0 <= i < m ==> size(EvictAll(w, candidates[..i], l, proofs)) > cap)
    && (m < |candidates| ==> size(v) <= cap)
  }

  lemma StepOf(s: Snapshot, l: Lookup, proofs: set<TaskId>, w: Work, t: Task)
    requires Unique(s) && l == LookupOf(s) && Sound(l, w) && ProofSet(l, proofs)
    requires Known(l, t) && IsTerminal(t.status) && Untouched(w, t)
    ensures var tomb := ToTombstone(t, EnvelopeOf(l, t.taskId));
            && Stepped(w, RemoveTask(w, t, l, proofs), t, t.taskId in proofs, tomb)
            && (t.taskId in proofs ==> TombstoneFits(s, t, tomb))
    ensures Sound(l, RemoveTask(w, t, l, proofs))
  {
    RemoveKeepsSound(l, w, t, proofs);
    if t.taskId in proofs {
      TombstoneKeepsProof(t, EnvelopeOf(l, t.taskId));
    }
    var v := RemoveTask(w, t, l, proofs);
    forall id | id != t.taskId
      ensures AgreeAt(w, v, id)
    {
    }
  }

  /** Earlier evictions of a pass leave its later records alone. */
  lemma StillUntouched(s: Snapshot, l: Lookup, proofs: set<TaskId>, w: Work, ts: seq<Task>, i: nat)
    requires Evictable(s, l, proofs, w, ts) && i < |ts|
    ensures Untouched(EvictAll(w, Candidates(w, ts[..i]), l, proofs), ts[i]) <==> Untouched(w, ts[i])
  {
    CandidatesAre(w, ts[..i]);
    EvictAllTouches(w, Candidates(w, ts[..i]), l, proofs, ts[i].taskId);
    forall t | t in Candidates(w, ts[..i])
      ensures t.taskId != ts[i].taskId
    {
      var k :| 0 <= k < i && ts[k] == t;
    }
  }

  lemma EvictNext(w: Work, ts: seq<Task>, i: nat, l: Lookup, proofs: set<TaskId>)
    requires i < |ts|
    ensures var v := EvictAll(w, Candidates(w, ts[..i]), l, proofs);
            EvictAll(w, Candidates(w, ts[..i + 1]), l, proofs)
            == if Untouched(w, ts[i]) then RemoveTask(v, ts[i], l, proofs) else v
    ensures |Candidates(w, ts[..i + 1])| == |Candidates(w, ts[..i])| + (if Untouched(w, ts[i]) then 1 else 0)
  {
    assert ts[..i + 1][..i] == ts[..i];
    var before := Candidates(w, ts[..i]);
    var after := Candidates(w, ts[..i + 1]);
    if Untouched(w, ts[i]) {
      assert after == before + [ts[i]];
      assert after[..|after| - 1] == before && after[|after| - 1] == ts[i];
    } else {
      assert after == before + [] == before;
    }
  }

  lemma PassSound(s: Snapshot, l: Lookup, proofs: set<TaskId>, w: Work, ts: seq<Task>, i: nat)
    requires Evictable(s, l, proofs, w, ts) && i <= |ts|
    ensures Sound(l, EvictAll(w, Candidates(w, ts[..i]), l, proofs))
  {
    CandidatesAre(w, ts[..i]);
    EvictAllSound(l, w, Candidates(w, ts[..i]), proofs);
  }

  /** What a pass knows before it looks at record `i`. */
  ghost predicate PassAt(before: Work, w: Work, removable: seq<Task>, i: nat, m: nat, l: Lookup, proofs: set<TaskId>)
    requires i <= |removable|
  {
    m == |Candidates(before, removable[..i])| && w == EvictAll(before, Candidates(before, removable[..i]), l, proofs)
  }

  /** The eviction prefix that a pass has built by record `i`, as a prefix of all candidates. */
  lemma PassPrefix(before: Work, w: Work, removable: seq<Task>, i: nat, m: nat, l: Lookup, proofs: set<TaskId>)
    requires i <= |removable| && PassAt(before, w, removable, i, m, l, proofs)
    ensures m <= |Candidates(before, removable)|
    ensures w == EvictAll(before, Candidates(before, removable)[..m], l, proofs)
    ensures i == |removable| ==> m == |Candidates(before, removable)|
  {
    CandidatesPrefix(before, removable, i);
    if i == |removable| {
      assert removable[..i] == removable;
    }
  }

  lemma PassStep(s: Snapshot, l: Lookup, proofs: set<TaskId>, before: Work, w: Work, removable: seq<Task>, i: nat,
                 m: nat)
    requires Evictable(s, l, proofs, before, removable) && i < |removable|
    requires PassAt(before, w, removable, i, m, l, proofs)
    ensures Sound(l, w)
    ensures Untouched(w, removable[i]) <==> Untouched(before, removable[i])
    ensures if Untouched(w, removable[i])
            then PassAt(before, RemoveTask(w, removable[i], l, proofs), removable, i + 1, m + 1, l, proofs)
            else PassAt(before, w, removable, i + 1, m, l, proofs)
  {
    StillUntouched(s, l, proofs, before, removable, i);
    EvictNext(before, removable, i, l, proofs);
    PassSound(s, l, proofs, before, removable, i);
  }

  lemma TerminalStep(s: Snapshot, l: Lookup, proofs: set<TaskId>, w: Work, t: Task)
    requires Unique(s) && l == LookupOf(s) && Sound(l, w) && ProofSet(l, proofs)
    requires t in s.tasks && Known(l, t) && IsTerminal(t.status) && Untouched(w, t)
    ensures CountedTerminal(BuildState(RemoveTask(w, t, l, proofs), s)) == CountedTerminal(BuildState(w, s)) - 1
  {
    StepOf(s, l, proofs, w, t);
    TerminalChange(s, w, RemoveTask(w, t, l, proofs), t, t.taskId in proofs, ToTombstone(t, EnvelopeOf(l, t.taskId)));
  }

  ghost predicate Exceeds(before: Work, candidates: seq<Task>, m: nat, l: Lookup, proofs: set<TaskId>,
                          size: Work -> int, cap: int)
  {
    forall i :: 0 <= i < m && i <= |candidates| ==> size(EvictAll(before, candidates[..i], l, proofs)) > cap
  }

  lemma ExceedsNext(before: Work, candidates: seq<Task>, m: nat, l: Lookup, proofs: set<TaskId>,
                    size: Work -> int, cap: int, w: Work)
    requires Exceeds(before, candidates, m, l, proofs, size, cap)
    requires m <= |candidates| && w == EvictAll(before, candidates[..m], l, proofs) && size(w) > cap
    ensures Exceeds(before, candidates, m + 1, l, proofs, size, cap)
  {
  }

  /** One record of the pass over the record cap. */
  lemma RecordStep(s: Snapshot, l: Lookup, proofs: set<TaskId>, before: Work, w: Work, removable: seq<Task>, i: nat,
                   m: nat, cap: int)
    requires Evictable(s, l, proofs, before, removable) && i < |removable|
    requires PassAt(before, w, removable, i, m, l, proofs) && TerminalTotal(s)(w) > cap
    requires Exceeds(before, Candidates(before, removable), m, l, proofs, TerminalTotal(s), cap)
    ensures var t := removable[i];
            if t.taskId in w.removed || Released(w, t) then PassAt(before, w, removable, i + 1, m, l, proofs)
            else && PassAt(before, RemoveTask(w, t, l, proofs), removable, i + 1, m + 1, l, proofs)
                 && Exceeds(before, Candidates(before, removable), m + 1, l, proofs, TerminalTotal(s), cap)
                 && TerminalTotal(s)(RemoveTask(w, t, l, proofs)) == TerminalTotal(s)(w) - 1
  {
    PassPrefix(before, w, removable, i, m, l, proofs);
    ExceedsNext(before, Candidates(before, removable), m, l, proofs, TerminalTotal(s), cap, w);
    PassStep(s, l, proofs, before, w, removable, i, m);
    if removable[i].taskId !in w.removed && !Released(w, removable[i]) {
      TerminalStep(s, l, proofs, w, removable[i]);
    }
  }

  lemma RecordPassEnds(before: Work, w: Work, removable: seq<Task>, i: nat, m: nat, l: Lookup, proofs: set<TaskId>,
                       size: Work -> int, cap: int)
    requires i <= |removable| && PassAt(before, w, removable, i, m, l, proofs)
    requires Exceeds(before, Candidates(before, removable), m, l, proofs, size, cap)
    requires i == |removable| || size(w) <= cap
    ensures FewestEvictions(before, w, Candidates(before, removable), l, proofs, size, cap, m)
  {
    PassPrefix(before, w, removable, i, m, l, proofs);
  }

  method EvictToRecordCap(s: Snapshot, l: Lookup, proofs: set<TaskId>, removable: seq<Task>, before: Work, cap: int)
    returns (w: Work)
    requires Evictable(s, l, proofs, before, removable)
    ensures exists m :: FewestEvictions(before, w, Candidates(before, removable), l, proofs, TerminalTotal(s), cap, m)
  {
    w := before;
    ghost var m: nat := 0;
    var terminalCount := CountedTerminal(BuildState(before, s));
    var i := 0;
    while i < |removable| && terminalCount > cap
      invariant i <= |removable| && PassAt(before, w, removable, i, m, l, proofs)
      invariant terminalCount == TerminalTotal(s)(w)
      invariant Exceeds(before, Candidates(before, removable), m, l, proofs, TerminalTotal(s), cap)
    {
      var task := removable[i];
      RecordStep(s, l, proofs, before, w, removable, i, m, cap);
      if !(task.taskId in w.removed || Released(w, task)) {
        w := RemoveTask(w, task, l, proofs);
        terminalCount := terminalCount - 1;
        m := m + 1;
      }
      i := i + 1;
    }
    RecordPassEnds(before, w, removable, i, m, l, proofs, TerminalTotal(s), cap);
  }

  // ---------- The byte pass ----------

  datatype EnvelopeCost = EnvelopeCost(bytes: int, count: int)

  function CostOf(costs: map<TaskId, EnvelopeCost>, id: TaskId): EnvelopeCost {
    if id in costs then costs[id] else EnvelopeCost(0, 0)
  }

  method MeasureTasks(j: Encoders, tasks: seq<Task>) returns (bytes: map<TaskId, int>)
    requires UniqueTasks(tasks)
    ensures forall t :: t in tasks ==> t.taskId in bytes && bytes[t.taskId] == |j.task(t)|
  {
    bytes := map[];
    for i := 0 to |tasks|
      invariant forall k :: 0 <= k < i ==> tasks[k].taskId in bytes && bytes[tasks[k].taskId] == |j.task(tasks[k])|
    {
      bytes := bytes[tasks[i].taskId := |j.task(tasks[i])|];
    }
  }

  /** Charges every envelope to its record; a record with two would be charged for both. */
  method MeasureEnvelopes(j: Encoders, envelopes: seq<Envelope>) returns (costs: map<TaskId, EnvelopeCost>)
    ensures forall id :: CostOf(costs, id) == CostAmong(j, envelopes, id)
  {
    costs := map[];
    for i := 0 to |envelopes|
      invariant forall id :: CostOf(costs, id) == CostAmong(j, envelopes[..i], id)
    {
      assert envelopes[..i + 1][..i] == envelopes[..i];
      var id := envelopes[i].taskId;
      var previous := CostOf(costs, id);
      costs := costs[id := EnvelopeCost(previous.bytes + |j.envelope(envelopes[i])|, previous.count + 1)];
    }
    assert envelopes[..|envelopes|] == envelopes;
  }

  /** The size and the number of the envelopes of one record. */
  function CostAmong(j: Encoders, envelopes: seq<Envelope>, id: TaskId): EnvelopeCost {
    if envelopes == [] then EnvelopeCost(0, 0)
    else
      var n := |envelopes| - 1;
      var rest := CostAmong(j, envelopes[..n], id);
      if envelopes[n].taskId == id then EnvelopeCost(rest.bytes + |j.envelope(envelopes[n])|, rest.count + 1) else rest
  }

  lemma {:induction false} CostOfOne(j: Encoders, envelopes: seq<Envelope>, id: TaskId)
    requires UniqueEnvelopes(envelopes)
    ensures forall e :: e in envelopes && e.taskId == id ==>
                          CostAmong(j, envelopes, id) == EnvelopeCost(|j.envelope(e)|, 1)
    ensures (forall e :: e in envelopes ==> e.taskId != id) ==> CostAmong(j, envelopes, id) == EnvelopeCost(0, 0)
  {
    if envelopes != [] {
      var n := |envelopes| - 1;
      CostOfOne(j, envelopes[..n], id);
      assert envelopes == envelopes[..n] + [envelopes[n]];
      if envelopes[n].taskId == id {
        forall e | e in envelopes[..n]
          ensures e.taskId != id
        {
          var k :| 0 <= k < n && envelopes[k] == e;
        }
      }
    }
  }

  /** Counting an envelope with its tombstone, record by record, reaches the same total. */
  method MeasureTombstones(j: Encoders, s: Snapshot, bytes: map<TaskId, int>, costs: map<TaskId, EnvelopeCost>)
    returns (total: int)
    requires Unique(s)
    requires forall t :: t in s.tasks ==> t.taskId in bytes && bytes[t.taskId] == |j.task(t)|
    requires forall id :: CostOf(costs, id) == CostAmong(j, s.envelopes, id)
    ensures total == TombstoneBytes(j, s)
  {
    total := 0;
    NothingReleased(j, s.envelopes);
    assert TombstoneIds([]) == {};
    for i := 0 to |s.tasks|
      invariant total == Total(s.tasks[..i], TombstoneTaskSize(j))
                         + Total(s.envelopes, ReleasedEnvelopeSize(j, TombstoneIds(s.tasks[..i])))
    {
      var task := s.tasks[i];
      TombstoneCounted(j, s, i);
      if IsTombstone(task) {
        total := total + bytes[task.taskId] + CostOf(costs, task.taskId).bytes;
      }
    }
    assert s.tasks[..|s.tasks|] == s.tasks;
  }

  /** One more record: a tombstone adds its own bytes and those of its envelope. */
  lemma TombstoneCounted(j: Encoders, s: Snapshot, i: nat)
    requires Unique(s) && i < |s.tasks|
    ensures Total(s.tasks[..i + 1], TombstoneTaskSize(j))
            + Total(s.envelopes, ReleasedEnvelopeSize(j, TombstoneIds(s.tasks[..i + 1])))
            == Total(s.tasks[..i], TombstoneTaskSize(j))
               + Total(s.envelopes, ReleasedEnvelopeSize(j, TombstoneIds(s.tasks[..i])))
               + (if IsTombstone(s.tasks[i])
                  then |j.task(s.tasks[i])| + CostAmong(j, s.envelopes, s.tasks[i].taskId).bytes else 0)
  {
    var task := s.tasks[i];
    assert s.tasks[..i + 1] == s.tasks[..i] + [task];
    TotalAppend(s.tasks[..i], [task], TombstoneTaskSize(j));
    if IsTombstone(task) {
      CostOfOne(j, s.envelopes, task.taskId);
      assert TombstoneIds(s.tasks[..i + 1]) == TombstoneIds(s.tasks[..i]) + {task.taskId};
      assert task.taskId !in TombstoneIds(s.tasks[..i]);
      ReleaseOne(j, s.envelopes, TombstoneIds(s.tasks[..i]), task.taskId);
    } else {
      assert TombstoneIds(s.tasks[..i + 1]) == TombstoneIds(s.tasks[..i]);
    }
  }

  lemma {:induction false} NothingReleased(j: Encoders, envelopes: seq<Envelope>)
    ensures Total(envelopes, ReleasedEnvelopeSize(j, {})) == 0
  {
    if envelopes != [] {
      NothingReleased(j, envelopes[1..]);
    }
  }

  lemma ReleaseOne(j: Encoders, envelopes: seq<Envelope>, released: set<TaskId>, id: TaskId)
    requires UniqueEnvelopes(envelopes) && id !in released
    ensures forall e :: e in envelopes && e.taskId == id ==>
                          Total(envelopes, ReleasedEnvelopeSize(j, released + {id}))
                          == Total(envelopes, ReleasedEnvelopeSize(j, released)) + |j.envelope(e)|
    ensures (forall e :: e in envelopes ==> e.taskId != id) ==>
              Total(envelopes, ReleasedEnvelopeSize(j, released + {id}))
              == Total(envelopes, ReleasedEnvelopeSize(j, released))
  {
    if k :| 0 <= k < |envelopes| && envelopes[k].taskId == id {
      TotalChangesAt(envelopes, ReleasedEnvelopeSize(j, released), ReleasedEnvelopeSize(j, released + {id}), k);
    } else {
      TotalCong(envelopes, ReleasedEnvelopeSize(j, released), ReleasedEnvelopeSize(j, released + {id}));
    }
  }

  /** The running byte counters, and the totals they stand for. */
  datatype Counters = Counters(serialized: int, tombstones: int, tasks: int, envelopes: int)

  ghost predicate Exact(j: Encoders, s: Snapshot, w: Work, c: Counters) {
    && c.serialized == |Serialize(j, BuildState(w, s))|
    && c.tombstones == TombstoneBytes(j, BuildState(w, s))
    && c.tasks == |KeptTasks(w, s.tasks)| && c.envelopes == |KeptEnvelopes(w, s.envelopes)|
  }

  function CostOfAny(j: Encoders, envelope: Option<Envelope>): EnvelopeCost {
    if envelope.Some? then EnvelopeCost(|j.envelope(envelope.value)|, 1) else EnvelopeCost(0, 0)
  }

  /** One eviction, charged to the counters without serializing the ledger again. */
  function Charge(j: Encoders, c: Counters, taskBytes: int, cost: EnvelopeCost, release: bool,
                  tomb: Tombstone): Counters {
    if release then
      var bytes := |j.task(tomb.task)| + (if tomb.envelope.Some? then |j.envelope(tomb.envelope.value)| else 0);
      c.(serialized := c.serialized + (bytes - taskBytes - cost.bytes), tombstones := c.tombstones + bytes)
    else
      Counters(c.serialized - (taskBytes + cost.bytes
                               + Separators(c.tasks) - Separators(c.tasks - 1)
                               + Separators(c.envelopes) - Separators(c.envelopes - cost.count)),
               c.tombstones, c.tasks - 1, c.envelopes - cost.count)
  }

  lemma ChargeIsExact(j: Encoders, s: Snapshot, l: Lookup, proofs: set<TaskId>, w: Work, t: Task, c: Counters)
    requires Unique(s) && l == LookupOf(s) && Sound(l, w) && ProofSet(l, proofs)
    requires t in s.tasks && Known(l, t) && IsTerminal(t.status) && Untouched(w, t)
    requires Exact(j, s, w, c)
    ensures var envelope := EnvelopeOf(l, t.taskId);
            var cost := CostOfAny(j, envelope);
            Exact(j, s, RemoveTask(w, t, l, proofs),
                  Charge(j, c, |j.task(t)|, cost, t.taskId in proofs, ToTombstone(t, envelope)))
  {
    var v, tomb, release := RemoveTask(w, t, l, proofs), ToTombstone(t, EnvelopeOf(l, t.taskId)), t.taskId in proofs;
    StepOf(s, l, proofs, w, t);
    CountersFollow(j, s, w, v, t, release, tomb, c);
  }

  lemma CountersFollow(j: Encoders, s: Snapshot, w: Work, v: Work, t: Task, release: bool, tomb: Tombstone, c: Counters)
    requires Unique(s) && t in s.tasks && !IsTombstone(t) && Sound(LookupOf(s), w) && Sound(LookupOf(s), v)
    requires Stepped(w, v, t, release, tomb) && (release ==> TombstoneFits(s, t, tomb))
    requires Exact(j, s, w, c)
    ensures var cost := CostOfAny(j, EnvelopeOf(LookupOf(s), t.taskId));
            Exact(j, s, v, Charge(j, c, |j.task(t)|, cost, release, tomb))
  {
    var d := Charge(j, c, |j.task(t)|, CostOfAny(j, EnvelopeOf(LookupOf(s), t.taskId)), release, tomb);
    assert d.tasks == |KeptTasks(v, s.tasks)| && d.envelopes == |KeptEnvelopes(v, s.envelopes)| by {
      CountChange(s, w, v, t, release, tomb);
    }
    assert d.serialized == |Serialize(j, BuildState(v, s))| by {
      SerializedFollows(j, s, w, v, t, release, tomb, c);
    }
    assert d.tombstones == TombstoneBytes(j, BuildState(v, s)) by {
      TombstoneBytesChange(j, s, w, v, t, release, tomb);
    }
  }

  lemma SerializedFollows(j: Encoders, s: Snapshot, w: Work, v: Work, t: Task, release: bool, tomb: Tombstone,
                          c: Counters)
    requires Unique(s) && t in s.tasks && Stepped(w, v, t, release, tomb) && (release ==> TombstoneFits(s, t, tomb))
    requires c.serialized == |Serialize(j, BuildState(w, s))|
    requires c.tasks == |KeptTasks(w, s.tasks)| && c.envelopes == |KeptEnvelopes(w, s.envelopes)|
    ensures var cost := CostOfAny(j, EnvelopeOf(LookupOf(s), t.taskId));
            Charge(j, c, |j.task(t)|, cost, release, tomb).serialized == |Serialize(j, BuildState(v, s))|
  {
    SerializedLength(j, BuildState(w, s));
    SerializedLength(j, BuildState(v, s));
    CountChange(s, w, v, t, release, tomb);
    RecordBytesChange(j, s, w, v, t, release, tomb);
  }

  /** Every record that is still whole was measured as it stands in the input. */
  ghost predicate Measured(j: Encoders, s: Snapshot, l: Lookup, w: Work, bytes: map<TaskId, int>,
                           costs: map<TaskId, EnvelopeCost>)
  {
    forall t :: t in s.tasks && Untouched(w, t) ==>
                  && t.taskId in bytes && bytes[t.taskId] == |j.task(t)|
                  && CostOf(costs, t.taskId) == CostOfAny(j, EnvelopeOf(l, t.taskId))
  }

  /** Encodes each retained record once and adds up the state's exact totals. */
  method MeasureState(j: Encoders, s: Snapshot, l: Lookup, w: Work)
    returns (bytes: map<TaskId, int>, costs: map<TaskId, EnvelopeCost>, c: Counters)
    requires Unique(s) && l == LookupOf(s)
    requires UniqueTasks(KeptTasks(w, s.tasks)) && UniqueEnvelopes(KeptEnvelopes(w, s.envelopes))
    requires forall e :: e in s.envelopes ==> CurrentEnvelope(w, e).taskId == e.taskId
    ensures Measured(j, s, l, w, bytes, costs)
    ensures Exact(j, s, w, c)
  {
    var compacted := BuildState(w, s);
    bytes := MeasureTasks(j, compacted.tasks);
    costs := MeasureEnvelopes(j, compacted.envelopes);
    var empty := |Serialize(j, Snapshot(s.objectiveChecks, [], []))|;
    var tombstoneBytes := MeasureTombstones(j, compacted, bytes, costs);
    c := Counters(empty + Total(compacted.tasks, TaskSize(j)) + Total(compacted.envelopes, EnvelopeSize(j))
                  + Separators(|compacted.tasks|) + Separators(|compacted.envelopes|),
                  tombstoneBytes, |compacted.tasks|, |compacted.envelopes|);
    SerializedLength(j, compacted);
    forall t | t in s.tasks && Untouched(w, t)
      ensures t.taskId in bytes && bytes[t.taskId] == |j.task(t)|
      ensures CostOf(costs, t.taskId) == CostOfAny(j, EnvelopeOf(l, t.taskId))
    {
      MeasuredRecord(j, s, l, w, t, bytes, costs);
    }
  }

  method EvictToByteCap(j: Encoders, s: Snapshot, l: Lookup, proofs: set<TaskId>, removable: seq<Task>, before: Work,
                        cap: int, bytes: map<TaskId, int>, costs: map<TaskId, EnvelopeCost>, start: Counters)
    returns (w: Work, c: Counters)
    requires Evictable(s, l, proofs, before, removable)
    requires Measured(j, s, l, before, bytes, costs) && Exact(j, s, before, start)
    ensures Exact(j, s, w, c)
    ensures exists m :: FewestEvictions(before, w, Candidates(before, removable), l, proofs, ByteTotal(j, s), cap, m)
  {
    w, c := before, start;
    ghost var m: nat := 0;
    ghost var candidates := Candidates(before, removable);
    for i := 0 to |removable|
      invariant PassAt(before, w, removable, i, m, l, proofs)
      invariant Exact(j, s, w, c)
      invariant Exceeds(before, candidates, m, l, proofs, ByteTotal(j, s), cap)
    {
      PassPrefix(before, w, removable, i, m, l, proofs);
      if c.serialized - c.tombstones <= cap {
        assert FewestEvictions(before, w, candidates, l, proofs, ByteTotal(j, s), cap, m);
        return;
      }
      ExceedsNext(before, candidates, m, l, proofs, ByteTotal(j, s), cap, w);
      var task := removable[i];
      PassStep(s, l, proofs, before, w, removable, i, m);
      if task.taskId in w.removed || Released(w, task) { continue; }
      ChargeIsExact(j, s, l, proofs, w, task, c);
      w := RemoveTask(w, task, l, proofs);
      c := Charge(j, c, bytes[task.taskId], CostOf(costs, task.taskId), task.taskId in proofs,
                  ToTombstone(task, EnvelopeOf(l, task.taskId)));
      m := m + 1;
    }
    PassPrefix(before, w, removable, |removable|, m, l, proofs);
    assert FewestEvictions(before, w, candidates, l, proofs, ByteTotal(j, s), cap, m);
  }

  /** A record that no pass has touched was measured as it stands in the input. */
  lemma MeasuredRecord(j: Encoders, s: Snapshot, l: Lookup, w: Work, t: Task, bytes: map<TaskId, int>,
                       costs: map<TaskId, EnvelopeCost>)
    requires Unique(s) && l == LookupOf(s) && t in s.tasks && Untouched(w, t)
    requires UniqueEnvelopes(KeptEnvelopes(w, s.envelopes))
    requires forall e :: e in s.envelopes ==> CurrentEnvelope(w, e).taskId == e.taskId
    requires forall t :: t in KeptTasks(w, s.tasks) ==> t.taskId in bytes && bytes[t.taskId] == |j.task(t)|
    requires forall id :: CostOf(costs, id) == CostAmong(j, KeptEnvelopes(w, s.envelopes), id)
    ensures t.taskId in bytes && bytes[t.taskId] == |j.task(t)|
    ensures CostOf(costs, t.taskId) == CostOfAny(j, EnvelopeOf(l, t.taskId))
  {
    KeptTasksAre(w, s.tasks);
    assert CurrentTask(w, t) == t;
    assert t in KeptTasks(w, s.tasks);
    KeptEnvelopesAre(w, s.envelopes);
    var kept := KeptEnvelopes(w, s.envelopes);
    CostOfOne(j, kept, t.taskId);
    if t.taskId in l.envelopes {
      var e := l.envelopes[t.taskId];
      assert CurrentEnvelope(w, e) == e;
      assert e in kept;
    } else {
      forall e | e in kept
        ensures e.taskId != t.taskId
      {
        var b :| b in s.envelopes && b.taskId !in w.removed && CurrentEnvelope(w, b) == e;
      }
    }
  }
}
