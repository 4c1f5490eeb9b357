/** Removing a record, or releasing a native proof into its tombstone, one record at a time. */
module Eviction {
  import opened Outcomes
  import opened Ledger
  import opened Protection

  datatype Tombstone = Tombstone(task: Task, envelope: Option<Envelope>)

  /** What compaction has done so far. */
  datatype Work = Work(removed: set<TaskId>, removedIds: seq<TaskId>,
                       tombstones: map<TaskId, Tombstone>, tombstonedIds: seq<TaskId>)

  const NO_WORK := Work({}, [], map[], [])

  /** Keeps the identities recovery and disposal read; the bodies go. */
  function ToTombstone(task: Task, envelope: Option<Envelope>): Tombstone {
    Tombstone(
      task.(approvedPlanRef := None, taskPrerequisites := None, requiredChecks := None,
            requiredCheckReceipts := None, requiredCheckCorrections := None, primaryStepBudget := None,
            dispatchObjectiveId := None, failureReason := None, recoverablePreview := [], canonicalRefs := [],
            prompt := TOMBSTONE_PROMPT, dispatchGroupId := None, dispatchCallId := None, dispatchWaveId := None,
            transportRecovery := None),
      if envelope.Some?
      then Some(envelope.value.(failureReason := None, recoverablePreview := [], canonicalRefs := []))
      else None)
  }

  lemma TombstoneKeepsProof(task: Task, envelope: Option<Envelope>)
    requires RetainsProof(task)
    ensures var tomb := ToTombstone(task, envelope);
            && IsTombstone(tomb.task) && tomb.task.taskId == task.taskId
            && (tomb.envelope.Some? <==> envelope.Some?)
            && (envelope.Some? ==> tomb.envelope.value.taskId == envelope.value.taskId)
  {
  }

  /** Releasing a proof keeps it a proof, and keeps the envelope an exact copy of its task. */
  lemma TombstoneIsFaithful(task: Task, envelope: Option<Envelope>)
    requires RetainsProof(task)
    requires envelope.Some? ==> PayloadMatches(task, envelope.value)
    ensures var tomb := ToTombstone(task, envelope);
            && IsTombstone(tomb.task) && tomb.task.taskId == task.taskId
            && tomb.task.nativeJobSegments == task.nativeJobSegments && tomb.task.status == task.status
            && tomb.task.idempotencyKey == task.idempotencyKey && tomb.task.rootSessionId == task.rootSessionId
            && tomb.task.sequence == task.sequence && tomb.task.priorTaskId == task.priorTaskId
            && (envelope.Some? ==>
                  && tomb.envelope.Some? && PayloadMatches(tomb.task, tomb.envelope.value)
                  && tomb.envelope.value.envelopeId == envelope.value.envelopeId
                  && tomb.envelope.value.taskId == envelope.value.taskId)
  {
  }

  predicate Released(w: Work, t: Task) {
    t.taskId in w.tombstones || IsTombstone(t)
  }

  function EnvelopeOf(l: Lookup, id: TaskId): Option<Envelope> {
    if id in l.envelopes then Some(l.envelopes[id]) else None
  }

  /** Removes a record, releases it when it is a proof, or leaves it when that was already done. */
  function RemoveTask(w: Work, t: Task, l: Lookup, proofs: set<TaskId>): Work {
    if t.taskId in w.removed then w
    else if t.taskId in proofs then
      if Released(w, t) then w
      else w.(tombstones := w.tombstones[t.taskId := ToTombstone(t, EnvelopeOf(l, t.taskId))],
              tombstonedIds := w.tombstonedIds + [t.taskId])
    else w.(removed := w.removed + {t.taskId}, removedIds := w.removedIds + [t.taskId])
  }

  function CurrentTask(w: Work, t: Task): Task {
    if t.taskId in w.tombstones then w.tombstones[t.taskId].task else t
  }

  function CurrentEnvelope(w: Work, e: Envelope): Envelope {
    if e.taskId in w.tombstones && w.tombstones[e.taskId].envelope.Some?
    then w.tombstones[e.taskId].envelope.value else e
  }

  function KeptTasks(w: Work, tasks: seq<Task>): seq<Task> {
    if tasks == [] then []
    else (if tasks[0].taskId in w.removed then [] else [CurrentTask(w, tasks[0])]) + KeptTasks(w, tasks[1..])
  }

  function KeptEnvelopes(w: Work, envelopes: seq<Envelope>): seq<Envelope> {
    if envelopes == [] then []
    else (if envelopes[0].taskId in w.removed then [] else [CurrentEnvelope(w, envelopes[0])])
         + KeptEnvelopes(w, envelopes[1..])
  }

  function BuildState(w: Work, s: Snapshot): Snapshot {
    Snapshot(s.objectiveChecks, KeptTasks(w, s.tasks), KeptEnvelopes(w, s.envelopes))
  }

  // ---------- Soundness of the working state ----------

  predicate NoRepeats(ids: seq<TaskId>) {
    forall i, j :: 0 <= i < j < |ids| ==> ids[i] != ids[j]
  }

  ghost predicate Removable(l: Lookup, id: TaskId) {
    id in l.tasks && !RetainsProof(l.tasks[id]) && IsTerminal(l.tasks[id].status)
  }

  ghost predicate Releasable(l: Lookup, id: TaskId) {
    id in l.tasks && RetainsProof(l.tasks[id]) && !IsTombstone(l.tasks[id])
  }

  /** The facts every removal keeps: only proofs are released, only other records are removed. */
  ghost predicate Sound(l: Lookup, w: Work) {
    && (forall id :: id in w.removed ==> Removable(l, id))
    && (forall id :: id in w.tombstones ==>
          Releasable(l, id) && w.tombstones[id] == ToTombstone(l.tasks[id], EnvelopeOf(l, id)))
    && (forall id :: id in w.removed <==> id in w.removedIds) && NoRepeats(w.removedIds)
    && (forall id :: id in w.tombstones <==> id in w.tombstonedIds) && NoRepeats(w.tombstonedIds)
  }

  ghost predicate ProofSet(l: Lookup, proofs: set<TaskId>) {
    forall id :: id in proofs <==> id in l.tasks && RetainsProof(l.tasks[id])
  }

  ghost predicate Known(l: Lookup, t: Task) {
    t.taskId in l.tasks && l.tasks[t.taskId] == t
  }

  predicate Untouched(w: Work, t: Task) {
    t.taskId !in w.removed && !Released(w, t)
  }

  lemma RemoveKeepsSound(l: Lookup, w: Work, t: Task, proofs: set<TaskId>)
    requires Sound(l, w) && ProofSet(l, proofs) && Known(l, t) && IsTerminal(t.status)
    ensures Sound(l, RemoveTask(w, t, l, proofs))
  {
    var v := RemoveTask(w, t, l, proofs);
    if t.taskId in w.removed || (t.taskId in proofs && Released(w, t)) {
      assert v == w;
    } else if t.taskId in proofs {
      assert v.removedIds == w.removedIds;
      assert forall id :: id in v.tombstones <==> id in w.tombstones || id == t.taskId;
      assert Releasable(l, t.taskId);
    } else {
      assert v.tombstones == w.tombstones && v.tombstonedIds == w.tombstonedIds;
      assert Removable(l, t.taskId);
    }
  }

  // ---------- Evicting a list of records ----------

  function EvictAll(w: Work, ts: seq<Task>, l: Lookup, proofs: set<TaskId>): Work {
    if ts == [] then w
    else RemoveTask(EvictAll(w, ts[..|ts| - 1], l, proofs), ts[|ts| - 1], l, proofs)
  }

  /** The records of `ts` that are still present and still carry their bodies. */
  function Candidates(w: Work, ts: seq<Task>): seq<Task> {
    if ts == [] then []
    else
      var n := |ts| - 1;
      Candidates(w, ts[..n]) + (if Untouched(w, ts[n]) then [ts[n]] else [])
  }

  lemma {:induction false} CandidatesPrefix(w: Work, ts: seq<Task>, i: nat)
    requires i <= |ts|
    ensures |Candidates(w, ts[..i])| <= |Candidates(w, ts)|
    ensures Candidates(w, ts)[..|Candidates(w, ts[..i])|] == Candidates(w, ts[..i])
  {
    if i == |ts| {
      assert ts[..i] == ts;
    } else {
      CandidatesPrefix(w, ts[..|ts| - 1], i);
      assert ts[..|ts| - 1][..i] == ts[..i];
    }
  }

  lemma {:induction false} CandidatesAre(w: Work, ts: seq<Task>)
    ensures forall t :: t in Candidates(w, ts) <==> t in ts && Untouched(w, t)
  {
    if ts != [] {
      var n := |ts| - 1;
      CandidatesAre(w, ts[..n]);
      assert ts == ts[..n] + [ts[n]];
    }
  }

  lemma {:induction false} EvictAllSound(l: Lookup, w: Work, ts: seq<Task>, proofs: set<TaskId>)
    requires Sound(l, w) && ProofSet(l, proofs)
    requires forall t :: t in ts ==> Known(l, t) && IsTerminal(t.status)
    ensures Sound(l, EvictAll(w, ts, l, proofs))
  {
    if ts != [] {
      var n := |ts| - 1;
      EvictAllSound(l, w, ts[..n], proofs);
      RemoveKeepsSound(l, EvictAll(w, ts[..n], l, proofs), ts[n], proofs);
    }
  }

  /** Evicting touches the evicted records and no others. */
  lemma {:induction false} EvictAllTouches(w: Work, ts: seq<Task>, l: Lookup, proofs: set<TaskId>, id: TaskId)
    ensures var v := EvictAll(w, ts, l, proofs);
            && (id in w.removed ==> id in v.removed) && (id in w.tombstones ==> id in v.tombstones)
            && ((exists t :: t in ts && t.taskId == id)
                || ((id in v.removed <==> id in w.removed) && (id in v.tombstones <==> id in w.tombstones)))
            && (forall t :: t in ts && t.taskId == id ==> id in v.removed || Released(v, t))
  {
    if ts != [] {
      var n := |ts| - 1;
      EvictAllTouches(w, ts[..n], l, proofs, id);
      assert ts == ts[..n] + [ts[n]];
    }
  }
}
