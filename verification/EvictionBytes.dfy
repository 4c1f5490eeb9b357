/** What one eviction does to the serialized length and to the counted totals. */
module EvictionBytes {
  import opened Outcomes
  import opened Ledger
  import opened LedgerBytes
  import opened Protection
  import opened Eviction

  function WeighTask(w: Work, f: Task -> int, t: Task): int {
    if t.taskId in w.removed then 0 else f(CurrentTask(w, t))
  }

  function WeighEnvelope(w: Work, f: Envelope -> int, e: Envelope): int {
    if e.taskId in w.removed then 0 else f(CurrentEnvelope(w, e))
  }

  function KeptTaskWeight(w: Work, f: Task -> int): (h: Task -> int)
    ensures forall t :: h(t) == WeighTask(w, f, t)
  {
    (t: Task) => WeighTask(w, f, t)
  }

  function KeptEnvelopeWeight(w: Work, f: Envelope -> int): (h: Envelope -> int)
    ensures forall e :: h(e) == WeighEnvelope(w, f, e)
  {
    (e: Envelope) => WeighEnvelope(w, f, e)
  }

  lemma {:induction false} KeptTaskTotal(w: Work, tasks: seq<Task>, f: Task -> int)
    ensures Total(KeptTasks(w, tasks), f) == Total(tasks, KeptTaskWeight(w, f))
  {
    if tasks != [] {
      var first := if tasks[0].taskId in w.removed then [] else [CurrentTask(w, tasks[0])];
      KeptTaskTotal(w, tasks[1..], f);
      TotalAppend(first, KeptTasks(w, tasks[1..]), f);
      assert Total(first, f) == KeptTaskWeight(w, f)(tasks[0]);
    }
  }

  lemma {:induction false} KeptEnvelopeTotal(w: Work, envelopes: seq<Envelope>, f: Envelope -> int)
    ensures Total(KeptEnvelopes(w, envelopes), f) == Total(envelopes, KeptEnvelopeWeight(w, f))
  {
    if envelopes != [] {
      var first := if envelopes[0].taskId in w.removed then [] else [CurrentEnvelope(w, envelopes[0])];
      KeptEnvelopeTotal(w, envelopes[1..], f);
      TotalAppend(first, KeptEnvelopes(w, envelopes[1..]), f);
      assert Total(first, f) == KeptEnvelopeWeight(w, f)(envelopes[0]);
    }
  }

  /** Two states of the work agree on every record but one. */
  ghost predicate AgreeOff(w: Work, v: Work, id: TaskId) {
    forall k :: k != id ==> AgreeAt(w, v, k)
  }

  ghost predicate AgreeAt(w: Work, v: Work, id: TaskId) {
    && (id in w.removed <==> id in v.removed)
    && (id in w.tombstones <==> id in v.tombstones)
    && (id in w.tombstones ==> w.tombstones[id] == v.tombstones[id])
  }

  lemma TaskTotalChange(w: Work, v: Work, tasks: seq<Task>, t: Task, f: Task -> int)
    requires UniqueTasks(tasks) && t in tasks && AgreeOff(w, v, t.taskId)
    ensures Total(KeptTasks(v, tasks), f)
            == Total(KeptTasks(w, tasks), f) - KeptTaskWeight(w, f)(t) + KeptTaskWeight(v, f)(t)
  {
    var k :| 0 <= k < |tasks| && tasks[k] == t;
    KeptTaskTotal(w, tasks, f);
    KeptTaskTotal(v, tasks, f);
    forall i | 0 <= i < |tasks| && i != k
      ensures KeptTaskWeight(w, f)(tasks[i]) == KeptTaskWeight(v, f)(tasks[i])
    {
      assert tasks[i].taskId != t.taskId && AgreeAt(w, v, tasks[i].taskId);
    }
    TotalChangesAt(tasks, KeptTaskWeight(w, f), KeptTaskWeight(v, f), k);
  }

  /** The envelope of a record, weighed, or nothing. */
  function WeighAny(envelope: Option<Envelope>, f: Envelope -> int): int {
    if envelope.Some? then f(envelope.value) else 0
  }

  lemma EnvelopeTotalChange(w: Work, v: Work, s: Snapshot, id: TaskId, f: Envelope -> int, g: Envelope -> int)
    requires UniqueEnvelopes(s.envelopes) && AgreeOff(w, v, id)
    requires forall e :: e in s.envelopes && e.taskId != id && e.taskId !in w.removed
                         ==> f(CurrentEnvelope(w, e)) == g(CurrentEnvelope(w, e))
    ensures var envelope := EnvelopeOf(LookupOf(s), id);
            Total(KeptEnvelopes(v, s.envelopes), g)
            == Total(KeptEnvelopes(w, s.envelopes), f)
               - WeighAny(envelope, KeptEnvelopeWeight(w, f)) + WeighAny(envelope, KeptEnvelopeWeight(v, g))
  {
    KeptEnvelopeTotal(w, s.envelopes, f);
    KeptEnvelopeTotal(v, s.envelopes, g);
    var m := EnvelopeMap(s.envelopes);
    forall e | e in s.envelopes && e.taskId != id
      ensures KeptEnvelopeWeight(w, f)(e) == KeptEnvelopeWeight(v, g)(e)
    {
      assert AgreeAt(w, v, e.taskId);
    }
    if id in m {
      var k :| 0 <= k < |s.envelopes| && s.envelopes[k] == m[id];
      forall i | 0 <= i < |s.envelopes| && i != k
        ensures KeptEnvelopeWeight(w, f)(s.envelopes[i]) == KeptEnvelopeWeight(v, g)(s.envelopes[i])
      {
        assert s.envelopes[i].taskId != id;
      }
      TotalChangesAt(s.envelopes, KeptEnvelopeWeight(w, f), KeptEnvelopeWeight(v, g), k);
    } else {
      TotalCong(s.envelopes, KeptEnvelopeWeight(w, f), KeptEnvelopeWeight(v, g));
    }
  }

  /** Which records of the current state are tombstones. */
  lemma {:induction false} KeptTasksAre(w: Work, tasks: seq<Task>)
    ensures forall t :: t in KeptTasks(w, tasks) <==>
                        exists b :: b in tasks && b.taskId !in w.removed && CurrentTask(w, b) == t
  {
    if tasks != [] {
      KeptTasksAre(w, tasks[1..]);
      assert tasks == [tasks[0]] + tasks[1..];
    }
  }

  lemma {:induction false} KeptEnvelopesAre(w: Work, envelopes: seq<Envelope>)
    ensures forall e :: e in KeptEnvelopes(w, envelopes) <==>
                        exists b :: b in envelopes && b.taskId !in w.removed && CurrentEnvelope(w, b) == e
  {
    if envelopes != [] {
      KeptEnvelopesAre(w, envelopes[1..]);
      assert envelopes == [envelopes[0]] + envelopes[1..];
    }
  }

  lemma CurrentKeepsId(l: Lookup, w: Work, t: Task)
    requires Sound(l, w) && Known(l, t)
    ensures CurrentTask(w, t).taskId == t.taskId && CurrentTask(w, t).status == t.status
    ensures IsTombstone(CurrentTask(w, t)) <==> Released(w, t)
    ensures RetainsProof(CurrentTask(w, t)) <==> RetainsProof(t)
  {
  }

  lemma TombstoneIdsAre(s: Snapshot, w: Work)
    requires UniqueTasks(s.tasks) && Sound(LookupOf(s), w)
    ensures forall id :: id in TombstoneIds(KeptTasks(w, s.tasks)) <==>
                         exists t :: t in s.tasks && t.taskId == id && id !in w.removed && Released(w, t)
  {
    KeptTasksAre(w, s.tasks);
    var kept := KeptTasks(w, s.tasks);
    forall t | t in s.tasks
      ensures Known(LookupOf(s), t)
      ensures CurrentTask(w, t).taskId == t.taskId && (IsTombstone(CurrentTask(w, t)) <==> Released(w, t))
    {
      TaskMapFinds(s.tasks, t);
      CurrentKeepsId(LookupOf(s), w, t);
    }
    forall id | id in TombstoneIds(kept)
      ensures exists t :: t in s.tasks && t.taskId == id && id !in w.removed && Released(w, t)
    {
      var c :| c in kept && IsTombstone(c) && c.taskId == id;
      var b :| b in s.tasks && b.taskId !in w.removed && CurrentTask(w, b) == c;
    }
    forall t | t in s.tasks && t.taskId !in w.removed && Released(w, t)
      ensures t.taskId in TombstoneIds(kept)
    {
      assert CurrentTask(w, t) in kept;
    }
  }

  // ---------- One eviction ----------

  /** Record `t` leaves the ledger, or is replaced by `tomb`; every other record stays as it was. */
  ghost predicate Stepped(w: Work, v: Work, t: Task, release: bool, tomb: Tombstone) {
    && AgreeOff(w, v, t.taskId)
    && t.taskId !in w.removed && t.taskId !in w.tombstones
    && (release ==> t.taskId !in v.removed && t.taskId in v.tombstones && v.tombstones[t.taskId] == tomb)
    && (!release ==> t.taskId in v.removed)
  }

  ghost predicate Unique(s: Snapshot) {
    UniqueTasks(s.tasks) && UniqueEnvelopes(s.envelopes)
  }

  lemma CountChange(s: Snapshot, w: Work, v: Work, t: Task, release: bool, tomb: Tombstone)
    requires Unique(s) && t in s.tasks && Stepped(w, v, t, release, tomb)
    ensures |KeptTasks(v, s.tasks)| == |KeptTasks(w, s.tasks)| - (if release then 0 else 1)
    ensures |KeptEnvelopes(v, s.envelopes)| == |KeptEnvelopes(w, s.envelopes)|
            - (if EnvelopeOf(LookupOf(s), t.taskId).Some? && !release then 1 else 0)
  {
    TaskTotalChange(w, v, s.tasks, t, One());
    EnvelopeTotalChange(w, v, s, t.taskId, One(), One());
    TotalOfOnes(KeptTasks(w, s.tasks));
    TotalOfOnes(KeptTasks(v, s.tasks));
    TotalOfOnes(KeptEnvelopes(w, s.envelopes));
    TotalOfOnes(KeptEnvelopes(v, s.envelopes));
    assert KeptTaskWeight(w, One())(t) == 1;
    var envelope := EnvelopeOf(LookupOf(s), t.taskId);
    assert envelope.Some? ==> KeptEnvelopeWeight(w, One())(envelope.value) == 1;
  }

  lemma TerminalChange(s: Snapshot, w: Work, v: Work, t: Task, release: bool, tomb: Tombstone)
    requires Unique(s) && t in s.tasks && Stepped(w, v, t, release, tomb)
    requires IsTerminal(t.status) && !IsTombstone(t) && (release ==> IsTombstone(tomb.task))
    ensures CountedTerminal(BuildState(v, s)) == CountedTerminal(BuildState(w, s)) - 1
  {
    TaskTotalChange(w, v, s.tasks, t, TerminalWeight);
    assert KeptTaskWeight(w, TerminalWeight)(t) == TerminalWeight(t) == 1;
    assert KeptTaskWeight(v, TerminalWeight)(t) == 0;
  }

  /** The bytes a record and its envelope take in the ledger, without separators. */
  function PairBytes(j: Encoders, task: Task, envelope: Option<Envelope>): int {
    |j.task(task)| + WeighAny(envelope, EnvelopeSize(j))
  }

  ghost predicate TombstoneFits(s: Snapshot, t: Task, tomb: Tombstone) {
    && IsTombstone(tomb.task) && tomb.task.taskId == t.taskId
    && (tomb.envelope.Some? <==> EnvelopeOf(LookupOf(s), t.taskId).Some?)
    && (tomb.envelope.Some? ==> tomb.envelope.value.taskId == t.taskId)
  }

  lemma RecordBytesChange(j: Encoders, s: Snapshot, w: Work, v: Work, t: Task, release: bool, tomb: Tombstone)
    requires Unique(s) && t in s.tasks && Stepped(w, v, t, release, tomb) && (release ==> TombstoneFits(s, t, tomb))
    ensures Total(KeptTasks(v, s.tasks), TaskSize(j)) + Total(KeptEnvelopes(v, s.envelopes), EnvelopeSize(j))
            == Total(KeptTasks(w, s.tasks), TaskSize(j)) + Total(KeptEnvelopes(w, s.envelopes), EnvelopeSize(j))
               - PairBytes(j, t, EnvelopeOf(LookupOf(s), t.taskId))
               + (if release then PairBytes(j, tomb.task, tomb.envelope) else 0)
  {
    TaskTotalChange(w, v, s.tasks, t, TaskSize(j));
    EnvelopeTotalChange(w, v, s, t.taskId, EnvelopeSize(j), EnvelopeSize(j));
  }

  lemma TombstoneBytesChange(j: Encoders, s: Snapshot, w: Work, v: Work, t: Task, release: bool, tomb: Tombstone)
    requires Unique(s) && t in s.tasks && Stepped(w, v, t, release, tomb) && (release ==> TombstoneFits(s, t, tomb))
    requires Sound(LookupOf(s), w) && Sound(LookupOf(s), v) && !IsTombstone(t)
    ensures TombstoneBytes(j, BuildState(v, s))
            == TombstoneBytes(j, BuildState(w, s)) + (if release then PairBytes(j, tomb.task, tomb.envelope) else 0)
  {
    var before, after := TombstoneIds(KeptTasks(w, s.tasks)), TombstoneIds(KeptTasks(v, s.tasks));
    TaskTotalChange(w, v, s.tasks, t, TombstoneTaskSize(j));
    ReleasedStep(s, w, v, t, release, tomb);
    ReleasedEnvelopeChange(j, s, w, v, t, release, tomb, before, after);
    assert KeptTaskWeight(w, TombstoneTaskSize(j))(t) == 0;
    assert KeptTaskWeight(v, TombstoneTaskSize(j))(t) == if release then |j.task(tomb.task)| else 0;
  }

  lemma ReleasedEnvelopeChange(j: Encoders, s: Snapshot, w: Work, v: Work, t: Task, release: bool, tomb: Tombstone,
                               before: set<TaskId>, after: set<TaskId>)
    requires Unique(s) && Stepped(w, v, t, release, tomb) && (release ==> TombstoneFits(s, t, tomb))
    requires t.taskId !in before && (t.taskId in after <==> release)
    requires forall id :: id != t.taskId ==> (id in before <==> id in after)
    requires forall e, x :: e in s.envelopes && x in {w, v} ==> CurrentEnvelope(x, e).taskId == e.taskId
    ensures Total(KeptEnvelopes(v, s.envelopes), ReleasedEnvelopeSize(j, after))
            == Total(KeptEnvelopes(w, s.envelopes), ReleasedEnvelopeSize(j, before))
               + (if release then WeighAny(tomb.envelope, EnvelopeSize(j)) else 0)
  {
    EnvelopeTotalChange(w, v, s, t.taskId, ReleasedEnvelopeSize(j, before), ReleasedEnvelopeSize(j, after));
  }

  lemma ReleasedStep(s: Snapshot, w: Work, v: Work, t: Task, release: bool, tomb: Tombstone)
    requires Unique(s) && t in s.tasks && Stepped(w, v, t, release, tomb) && !IsTombstone(t)
    requires Sound(LookupOf(s), w) && Sound(LookupOf(s), v)
    ensures var before, after := TombstoneIds(KeptTasks(w, s.tasks)), TombstoneIds(KeptTasks(v, s.tasks));
            && t.taskId !in before && (t.taskId in after <==> release)
            && (forall id :: id != t.taskId ==> (id in before <==> id in after))
    ensures forall e, x :: e in s.envelopes && x in {w, v} ==> CurrentEnvelope(x, e).taskId == e.taskId
  {
    TombstoneIdsAre(s, w);
    TombstoneIdsAre(s, v);
    forall u | u in s.tasks && u.taskId == t.taskId
      ensures u == t
    {
      TaskMapFinds(s.tasks, u);
      TaskMapFinds(s.tasks, t);
    }
    forall u | u in s.tasks && u.taskId != t.taskId
      ensures Released(w, u) <==> Released(v, u)
      ensures u.taskId in w.removed <==> u.taskId in v.removed
    {
      assert AgreeAt(w, v, u.taskId);
    }
  }
}
