/**
 * Ledger compaction: the eager lineage bound, then age, record count and bytes, in that order,
 * and what the compacted ledger still guarantees.
 */
module Compaction {
  import opened Outcomes
  import opened JsText
  import opened Sorting
  import opened Ledger
  import opened LedgerBytes
  import opened Protection
  import opened Lineage
  import opened Eviction
  import opened EvictionBytes
  import opened CapEviction

  datatype Compacted = Compacted(state: Snapshot, removedTaskIds: seq<TaskId>, tombstonedTaskIds: seq<TaskId>,
                                 proofTaskIds: seq<TaskId>, serializedBytes: int, overLimit: bool)

  // ---------- What the passes may touch ----------

  predicate Touched(w: Work, id: TaskId) {
    id in w.removed || id in w.tombstones
  }

  /** A pass may take a record that nothing protects, or that the eager bound gave up. */
  ghost predicate MayTake(s: Snapshot, l: Lookup, p: Protections, collation: TaskId -> int, t: Task)
    requires Groupable(s.tasks, l)
  {
    && t in s.tasks && Known(l, t) && IsTerminal(t.status) && t.taskId !in p.hard
    && (t.taskId !in p.all || EagerlyRemoved(s.tasks, l, p.hard, collation, t))
  }

  ghost predicate TakesOnly(s: Snapshot, l: Lookup, p: Protections, collation: TaskId -> int, w: Work)
    requires Groupable(s.tasks, l)
  {
    forall id :: Touched(w, id) ==> exists t :: MayTake(s, l, p, collation, t) && t.taskId == id
  }

  lemma EvictAllTakesOnly(s: Snapshot, l: Lookup, p: Protections, collation: TaskId -> int, w: Work, ts: seq<Task>)
    requires Groupable(s.tasks, l) && TakesOnly(s, l, p, collation, w)
    requires forall t :: t in ts ==> MayTake(s, l, p, collation, t)
    ensures TakesOnly(s, l, p, collation, EvictAll(w, ts, l, p.proofs))
  {
    var v := EvictAll(w, ts, l, p.proofs);
    forall id | Touched(v, id)
      ensures exists t :: MayTake(s, l, p, collation, t) && t.taskId == id
    {
      EvictAllTouches(w, ts, l, p.proofs, id);
      if t :| t in ts && t.taskId == id {
        assert MayTake(s, l, p, collation, t);
      } else {
        assert Touched(w, id);
      }
    }
  }

  // ---------- The passes ----------

  function OldEnough(ts: seq<Task>, now: int, maxAge: int): seq<Task> {
    if ts == [] then []
    else
      var n := |ts| - 1;
      OldEnough(ts[..n], now, maxAge) + (if now - AgeTimestamp(ts[n]) > maxAge then [ts[n]] else [])
  }

  lemma {:induction false} OldEnoughAre(ts: seq<Task>, now: int, maxAge: int)
    ensures forall t :: t in OldEnough(ts, now, maxAge) <==> t in ts && now - AgeTimestamp(t) > maxAge
  {
    if ts != [] {
      OldEnoughAre(ts[..|ts| - 1], now, maxAge);
      assert ts == ts[..|ts| - 1] + [ts[|ts| - 1]];
    }
  }

  lemma EvictAllNext(w: Work, ts: seq<Task>, t: Task, l: Lookup, proofs: set<TaskId>)
    ensures EvictAll(w, ts + [t], l, proofs) == RemoveTask(EvictAll(w, ts, l, proofs), t, l, proofs)
  {
    assert (ts + [t])[..|ts|] == ts;
  }

  method TakeAll(before: Work, ts: seq<Task>, l: Lookup, proofs: set<TaskId>) returns (w: Work)
    ensures w == EvictAll(before, ts, l, proofs)
  {
    w := before;
    for i := 0 to |ts|
      invariant w == EvictAll(before, ts[..i], l, proofs)
    {
      assert ts[..i + 1] == ts[..i] + [ts[i]];
      EvictAllNext(before, ts[..i], ts[i], l, proofs);
      w := RemoveTask(w, ts[i], l, proofs);
    }
    assert ts[..|ts|] == ts;
  }

  method TakeOld(before: Work, removable: seq<Task>, l: Lookup, proofs: set<TaskId>, now: int, maxAge: int)
    returns (w: Work)
    ensures w == EvictAll(before, OldEnough(removable, now, maxAge), l, proofs)
  {
    w := before;
    for i := 0 to |removable|
      invariant w == EvictAll(before, OldEnough(removable[..i], now, maxAge), l, proofs)
    {
      assert removable[..i + 1][..i] == removable[..i];
      if now - AgeTimestamp(removable[i]) > maxAge {
        EvictAllNext(before, OldEnough(removable[..i], now, maxAge), removable[i], l, proofs);
        w := RemoveTask(w, removable[i], l, proofs);
      } else {
        assert OldEnough(removable[..i + 1], now, maxAge) == OldEnough(removable[..i], now, maxAge);
      }
    }
    assert removable[..|removable|] == removable;
  }

  /** The unprotected terminal records, oldest first. */
  function RemovableFrom(tasks: seq<Task>, all: set<TaskId>): seq<Task> {
    if tasks == [] then []
    else (if IsTerminal(tasks[0].status) && tasks[0].taskId !in all then [tasks[0]] else [])
         + RemovableFrom(tasks[1..], all)
  }

  lemma {:induction false} RemovableAre(tasks: seq<Task>, all: set<TaskId>)
    ensures forall t :: t in RemovableFrom(tasks, all) <==> t in tasks && IsTerminal(t.status) && t.taskId !in all
    ensures UniqueTasks(tasks) ==> UniqueTasks(RemovableFrom(tasks, all))
  {
    if tasks != [] {
      RemovableAre(tasks[1..], all);
      assert tasks == [tasks[0]] + tasks[1..];
      if UniqueTasks(tasks) {
        forall t | t in RemovableFrom(tasks[1..], all)
          ensures t.taskId != tasks[0].taskId
        {
          var k :| 0 <= k < |tasks| - 1 && tasks[1..][k] == t;
          assert tasks[k + 1] == t;
        }
      }
    }
  }

  lemma UniqueIsDistinct(tasks: seq<Task>)
    requires UniqueTasks(tasks)
    ensures Distinct(tasks)
  {
  }

  lemma RemovableSorted(s: Snapshot, all: set<TaskId>, collation: TaskId -> int)
    requires UniqueTasks(s.tasks)
    ensures var r := Sort(RemovableFrom(s.tasks, all), ByAge(collation));
            && (forall t :: t in r <==> t in s.tasks && IsTerminal(t.status) && t.taskId !in all)
            && UniqueTasks(r) && Sorted(r, ByAge(collation))
  {
    RemovableAre(s.tasks, all);
    var base := RemovableFrom(s.tasks, all);
    var r := Sort(base, ByAge(collation));
    SortKeeps(base, ByAge(collation));
    ByAgeIsTotal(collation);
    SortSorted(base, ByAge(collation));
    UniqueIsDistinct(base);
    SortDistinct(base, ByAge(collation));
    forall i, k | 0 <= i < k < |r|
      ensures r[i].taskId != r[k].taskId
    {
      assert r[i] in s.tasks && r[k] in s.tasks && r[i] != r[k];
      DistinctRecordsDifferById(s.tasks, r[i], r[k]);
    }
  }

  lemma DistinctRecordsDifferById(tasks: seq<Task>, a: Task, b: Task)
    requires UniqueTasks(tasks) && a in tasks && b in tasks && a != b
    ensures a.taskId != b.taskId
  {
    var i :| 0 <= i < |tasks| && tasks[i] == a;
    var k :| 0 <= k < |tasks| && tasks[k] == b;
  }

  /** What compaction did, pass by pass: the eager bound and age, then records, then bytes. */
  datatype Trace = Trace(eager: seq<Task>, removable: seq<Task>, aged: Work, counted: Work, final: Work)

  ghost predicate Passes(j: Encoders, s: Snapshot, o: Policy, p: Protections, t: Trace)
    requires Decoded(s)
  {
    var l := LookupOf(s);
    && Groupable(s.tasks, l) && p.hard <= p.all && ProofSet(l, p.proofs)
    && (forall e :: e in t.eager <==> EagerlyRemoved(s.tasks, l, p.hard, o.collation, e))
    && t.removable == Sort(RemovableFrom(s.tasks, p.all), ByAge(o.collation))
    && t.aged == (var w := EvictAll(NO_WORK, t.eager, l, p.proofs);
                  if o.maxAge.Unbounded? then w
                  else EvictAll(w, OldEnough(t.removable, o.now, o.maxAge.value), l, p.proofs))
    && Capped(t.aged, t.counted, t.removable, l, p.proofs, TerminalTotal(s), o.maxTerminalRecords)
    && Capped(t.counted, t.final, t.removable, l, p.proofs, ByteTotal(j, s), o.maxBytes)
  }

  /** A capped pass evicts the fewest of its oldest candidates, or nothing without a cap. */
  ghost predicate Capped(w: Work, v: Work, removable: seq<Task>, l: Lookup, proofs: set<TaskId>, size: Work -> int,
                         limit: Limit)
  {
    if limit.Unbounded? then v == w
    else exists m: nat :: FewestEvictions(w, v, Candidates(w, removable), l, proofs, size, limit.value, m)
  }

  // ---------- What every pass keeps ----------

  ghost predicate Kept(s: Snapshot, p: Protections, collation: TaskId -> int, w: Work)
    requires Decoded(s) && Groupable(s.tasks, LookupOf(s))
  {
    Sound(LookupOf(s), w) && TakesOnly(s, LookupOf(s), p, collation, w)
  }

  lemma AllKnown(s: Snapshot, l: Lookup)
    requires UniqueTasks(s.tasks) && l == LookupOf(s)
    ensures forall t :: t in s.tasks ==> Known(l, t)
  {
    forall t | t in s.tasks
      ensures Known(l, t)
    {
      TaskMapFinds(s.tasks, t);
    }
  }

  lemma EvictAllKeeps(s: Snapshot, p: Protections, collation: TaskId -> int, w: Work, ts: seq<Task>)
    requires Decoded(s) && Groupable(s.tasks, LookupOf(s)) && ProofSet(LookupOf(s), p.proofs)
    requires Kept(s, p, collation, w)
    requires forall t :: t in ts ==> MayTake(s, LookupOf(s), p, collation, t)
    ensures Kept(s, p, collation, EvictAll(w, ts, LookupOf(s), p.proofs))
  {
    EvictAllSound(LookupOf(s), w, ts, p.proofs);
    EvictAllTakesOnly(s, LookupOf(s), p, collation, w, ts);
  }

  lemma EagerMayBeTaken(s: Snapshot, l: Lookup, p: Protections, collation: TaskId -> int, t: Task)
    requires Decoded(s) && l == LookupOf(s) && Groupable(s.tasks, l)
    requires EagerlyRemoved(s.tasks, l, p.hard, collation, t)
    ensures MayTake(s, l, p, collation, t)
  {
    ExcessAreMembers(s.tasks, l, p.hard, Key(t, l.tasks), collation, t);
    TaskMapFinds(s.tasks, t);
  }

  lemma RemovableMayBeTaken(s: Snapshot, o: Policy, p: Protections, removable: seq<Task>)
    requires Decoded(s) && Groupable(s.tasks, LookupOf(s)) && p.hard <= p.all
    requires removable == Sort(RemovableFrom(s.tasks, p.all), ByAge(o.collation))
    ensures UniqueTasks(removable)
    ensures forall t :: t in removable ==> MayTake(s, LookupOf(s), p, o.collation, t)
    ensures forall t :: t in s.tasks && IsTerminal(t.status) && t.taskId !in p.all ==> t in removable
  {
    RemovableSorted(s, p.all, o.collation);
    AllKnown(s, LookupOf(s));
  }

  lemma CappedKeeps(s: Snapshot, o: Policy, p: Protections, w: Work, v: Work, removable: seq<Task>, size: Work -> int,
                    limit: Limit)
    requires Decoded(s) && Groupable(s.tasks, LookupOf(s)) && ProofSet(LookupOf(s), p.proofs)
    requires Kept(s, p, o.collation, w)
    requires forall t :: t in removable ==> MayTake(s, LookupOf(s), p, o.collation, t)
    requires Capped(w, v, removable, LookupOf(s), p.proofs, size, limit)
    ensures Kept(s, p, o.collation, v)
    ensures forall id :: Touched(w, id) ==> Touched(v, id)
  {
    if limit.AtMostValue? {
      var candidates := Candidates(w, removable);
      var m: nat :| FewestEvictions(w, v, candidates, LookupOf(s), p.proofs, size, limit.value, m);
      CandidatesAre(w, removable);
      forall t | t in candidates[..m]
        ensures MayTake(s, LookupOf(s), p, o.collation, t)
      {
        assert t in candidates;
      }
      EvictAllKeeps(s, p, o.collation, w, candidates[..m]);
      forall id
        ensures Touched(w, id) ==> Touched(v, id)
      {
        EvictAllTouches(w, candidates[..m], LookupOf(s), p.proofs, id);
      }
    }
  }

  lemma EagerKeeps(s: Snapshot, l: Lookup, p: Protections, collation: TaskId -> int, eager: seq<Task>)
    requires Decoded(s) && l == LookupOf(s) && Groupable(s.tasks, l) && ProofSet(l, p.proofs)
    requires forall e :: e in eager ==> EagerlyRemoved(s.tasks, l, p.hard, collation, e)
    ensures Kept(s, p, collation, EvictAll(NO_WORK, eager, l, p.proofs))
  {
    forall e | e in eager
      ensures MayTake(s, l, p, collation, e)
    {
      EagerMayBeTaken(s, l, p, collation, e);
    }
    EvictAllKeeps(s, p, collation, NO_WORK, eager);
  }

  lemma AgedKeeps(j: Encoders, s: Snapshot, o: Policy, p: Protections, t: Trace)
    requires Decoded(s) && Passes(j, s, o, p, t)
    ensures Kept(s, p, o.collation, t.aged)
  {
    EagerKeeps(s, LookupOf(s), p, o.collation, t.eager);
    if o.maxAge.AtMostValue? {
      OldMayBeTaken(s, o, p, t.removable, o.maxAge.value);
      EvictAllKeeps(s, p, o.collation, EvictAll(NO_WORK, t.eager, LookupOf(s), p.proofs),
                    OldEnough(t.removable, o.now, o.maxAge.value));
    }
  }

  lemma OldMayBeTaken(s: Snapshot, o: Policy, p: Protections, removable: seq<Task>, maxAge: int)
    requires Decoded(s) && Groupable(s.tasks, LookupOf(s)) && p.hard <= p.all
    requires removable == Sort(RemovableFrom(s.tasks, p.all), ByAge(o.collation))
    ensures forall t :: t in OldEnough(removable, o.now, maxAge) ==> MayTake(s, LookupOf(s), p, o.collation, t)
  {
    RemovableMayBeTaken(s, o, p, removable);
    OldEnoughAre(removable, o.now, maxAge);
  }

  lemma EagerIsGone(j: Encoders, s: Snapshot, o: Policy, p: Protections, t: Trace, e: Task)
    requires Decoded(s) && Passes(j, s, o, p, t) && e in t.eager
    ensures Touched(t.aged, e.taskId) || IsTombstone(e)
  {
    var l := LookupOf(s);
    EvictAllTouches(NO_WORK, t.eager, l, p.proofs, e.taskId);
    if o.maxAge.AtMostValue? {
      EvictAllTouches(EvictAll(NO_WORK, t.eager, l, p.proofs), OldEnough(t.removable, o.now, o.maxAge.value), l,
                      p.proofs, e.taskId);
    }
  }

  lemma FinalKeeps(j: Encoders, s: Snapshot, o: Policy, p: Protections, t: Trace)
    requires Decoded(s) && Passes(j, s, o, p, t)
    ensures Kept(s, p, o.collation, t.counted) && Kept(s, p, o.collation, t.final)
    ensures forall e :: e in t.eager ==> Touched(t.final, e.taskId) || IsTombstone(e)
  {
    AgedKeeps(j, s, o, p, t);
    RemovableMayBeTaken(s, o, p, t.removable);
    CappedKeeps(s, o, p, t.aged, t.counted, t.removable, TerminalTotal(s), o.maxTerminalRecords);
    CappedKeeps(s, o, p, t.counted, t.final, t.removable, ByteTotal(j, s), o.maxBytes);
    forall e | e in t.eager
      ensures Touched(t.final, e.taskId) || IsTombstone(e)
    {
      EagerIsGone(j, s, o, p, t, e);
    }
  }

  // ---------- What the compacted ledger guarantees ----------

  /** The state holds exactly the records that were not removed, each whole or released. */
  ghost predicate Partitions(s: Snapshot, r: Compacted) {
    && NoRepeats(r.removedTaskIds) && NoRepeats(r.tombstonedTaskIds)
    && (forall t :: t in s.tasks ==>
          && (t.taskId in r.removedTaskIds <==> forall k :: k in r.state.tasks ==> k.taskId != t.taskId)
          && (t.taskId !in r.removedTaskIds && t.taskId !in r.tombstonedTaskIds ==> t in r.state.tasks)
          && (t.taskId in r.tombstonedTaskIds ==>
                ToTombstone(t, EnvelopeOf(LookupOf(s), t.taskId)).task in r.state.tasks))
    && (forall k :: k in r.state.tasks ==> exists t :: t in s.tasks && t.taskId == k.taskId)
    && (forall id :: id in r.removedTaskIds ==> exists t :: t in s.tasks && t.taskId == id)
  }

  /** Nothing protected is taken, except what the eager bound gave up; proofs are only released. */
  ghost predicate RespectsProtection(s: Snapshot, o: Policy, p: Protections, r: Compacted)
    requires Decoded(s) && Groupable(s.tasks, LookupOf(s))
  {
    && (forall t :: t in s.tasks && t.taskId in r.removedTaskIds ==> !RetainsProof(t))
    && (forall t :: t in s.tasks && t.taskId in r.tombstonedTaskIds ==> RetainsProof(t))
    && (forall t :: t in s.tasks && (t.taskId in r.removedTaskIds || t.taskId in r.tombstonedTaskIds) ==>
          && IsTerminal(t.status) && t.taskId !in p.hard
          && (t.taskId in p.all ==> EagerlyRemoved(s.tasks, LookupOf(s), p.hard, o.collation, t)))
  }

  lemma {:induction false} KeptTasksUnique(l: Lookup, w: Work, tasks: seq<Task>)
    requires Sound(l, w) && UniqueTasks(tasks) && forall t :: t in tasks ==> Known(l, t)
    ensures UniqueTasks(KeptTasks(w, tasks))
  {
    if tasks != [] {
      KeptTasksUnique(l, w, tasks[1..]);
      KeptTasksAre(w, tasks[1..]);
      var rest := KeptTasks(w, tasks[1..]);
      forall k | k in rest
        ensures k.taskId != CurrentTask(w, tasks[0]).taskId
      {
        var b :| b in tasks[1..] && b.taskId !in w.removed && CurrentTask(w, b) == k;
        var n :| 0 <= n < |tasks| - 1 && tasks[1..][n] == b;
        assert tasks[n + 1] == b;
        CurrentKeepsId(l, w, b);
        CurrentKeepsId(l, w, tasks[0]);
      }
    }
  }

  lemma {:induction false} KeptEnvelopesUnique(w: Work, envelopes: seq<Envelope>)
    requires UniqueEnvelopes(envelopes)
    requires forall e :: e in envelopes ==> CurrentEnvelope(w, e).taskId == e.taskId
    ensures UniqueEnvelopes(KeptEnvelopes(w, envelopes))
  {
    if envelopes != [] {
      KeptEnvelopesUnique(w, envelopes[1..]);
      KeptEnvelopesAre(w, envelopes[1..]);
      var rest := KeptEnvelopes(w, envelopes[1..]);
      forall k | k in rest
        ensures k.taskId != CurrentEnvelope(w, envelopes[0]).taskId
      {
        var b :| b in envelopes[1..] && b.taskId !in w.removed && CurrentEnvelope(w, b) == k;
        var n :| 0 <= n < |envelopes| - 1 && envelopes[1..][n] == b;
        assert envelopes[n + 1] == b;
      }
    }
  }

  lemma EnvelopesKeepIds(s: Snapshot, w: Work)
    requires Sound(LookupOf(s), w)
    ensures forall e :: e in s.envelopes ==> CurrentEnvelope(w, e).taskId == e.taskId
  {
  }

  lemma PartitionHolds(s: Snapshot, w: Work, r: Compacted)
    requires Decoded(s) && Sound(LookupOf(s), w)
    requires r.state == BuildState(w, s) && r.removedTaskIds == w.removedIds && r.tombstonedTaskIds == w.tombstonedIds
    ensures Partitions(s, r)
  {
    var l := LookupOf(s);
    AllKnown(s, l);
    KeptTasksAre(w, s.tasks);
    forall k | k in r.state.tasks
      ensures exists t :: t in s.tasks && t.taskId == k.taskId && t.taskId !in w.removed
    {
      var b :| b in s.tasks && b.taskId !in w.removed && CurrentTask(w, b) == k;
      CurrentKeepsId(l, w, b);
    }
    forall t | t in s.tasks
      ensures t.taskId in r.removedTaskIds <==> forall k :: k in r.state.tasks ==> k.taskId != t.taskId
      ensures t.taskId !in r.removedTaskIds && t.taskId !in r.tombstonedTaskIds ==> t in r.state.tasks
      ensures t.taskId in r.tombstonedTaskIds ==> ToTombstone(t, EnvelopeOf(l, t.taskId)).task in r.state.tasks
    {
      CurrentKeepsId(l, w, t);
      if t.taskId !in w.removed {
        assert CurrentTask(w, t) in r.state.tasks;
      }
    }
  }

  lemma ProtectionHolds(s: Snapshot, o: Policy, p: Protections, w: Work, r: Compacted)
    requires Decoded(s) && Groupable(s.tasks, LookupOf(s)) && Kept(s, p, o.collation, w)
    requires r.removedTaskIds == w.removedIds && r.tombstonedTaskIds == w.tombstonedIds
    ensures RespectsProtection(s, o, p, r)
  {
    var l := LookupOf(s);
    AllKnown(s, l);
    forall t | t in s.tasks && (t.taskId in r.removedTaskIds || t.taskId in r.tombstonedTaskIds)
      ensures MayTake(s, l, p, o.collation, t)
    {
      assert Touched(w, t.taskId);
      var b :| MayTake(s, l, p, o.collation, b) && b.taskId == t.taskId;
    }
  }

  /** A compacted ledger is again a ledger: later runs and the proof store may decode it. */
  lemma StaysValid(s: Snapshot, w: Work)
    requires Decoded(s) && Sound(LookupOf(s), w)
    ensures Decoded(BuildState(w, s))
    ensures PriorsPrecede(s.tasks) ==> PriorsPrecede(BuildState(w, s).tasks)
  {
    var l := LookupOf(s);
    AllKnown(s, l);
    EnvelopesKeepIds(s, w);
    KeptTasksUnique(l, w, s.tasks);
    KeptEnvelopesUnique(w, s.envelopes);
    KeptTasksAre(w, s.tasks);
    forall k | k in KeptTasks(w, s.tasks)
      ensures exists b :: b in s.tasks && SameIdentity(b, k)
    {
      var b :| b in s.tasks && b.taskId !in w.removed && CurrentTask(w, b) == k;
      CurrentIsSame(l, w, b);
    }
    PriorsStayOrdered(s.tasks, KeptTasks(w, s.tasks));
    forall e | e in KeptEnvelopes(w, s.envelopes)
      ensures exists t :: t in KeptTasks(w, s.tasks) && PayloadMatches(t, e)
    {
      KeptEnvelopeMatches(s, w, e);
    }
  }

  ghost predicate SameIdentity(a: Task, b: Task) {
    && a.taskId == b.taskId && a.sequence == b.sequence && a.priorTaskId == b.priorTaskId
    && a.rootSessionId == b.rootSessionId && a.idempotencyKey == b.idempotencyKey
  }

  lemma CurrentIsSame(l: Lookup, w: Work, t: Task)
    requires Sound(l, w) && Known(l, t)
    ensures SameIdentity(t, CurrentTask(w, t))
  {
  }

  lemma PriorsStayOrdered(tasks: seq<Task>, kept: seq<Task>)
    requires UniqueKeys(tasks)
    requires forall k :: k in kept ==> exists b :: b in tasks && SameIdentity(b, k)
    ensures UniqueKeys(kept)
    ensures PriorsPrecede(tasks) ==> PriorsPrecede(kept)
  {
    forall t, q | t in kept && q in kept && t.taskId != q.taskId
      ensures t.rootSessionId != q.rootSessionId || t.idempotencyKey != q.idempotencyKey
    {
      var a :| a in tasks && SameIdentity(a, t);
      var b :| b in tasks && SameIdentity(b, q);
    }
    forall t, q | PriorsPrecede(tasks) && t in kept && q in kept && t.priorTaskId == Some(q.taskId)
      ensures q.sequence < t.sequence
    {
      var a :| a in tasks && SameIdentity(a, t);
      var b :| b in tasks && SameIdentity(b, q);
      assert a.priorTaskId == Some(b.taskId);
    }
  }

  lemma KeptEnvelopeMatches(s: Snapshot, w: Work, e: Envelope)
    requires Decoded(s) && Sound(LookupOf(s), w) && e in KeptEnvelopes(w, s.envelopes)
    ensures exists t :: t in KeptTasks(w, s.tasks) && PayloadMatches(t, e)
  {
    KeptEnvelopesAre(w, s.envelopes);
    KeptTasksAre(w, s.tasks);
    var b :| b in s.envelopes && b.taskId !in w.removed && CurrentEnvelope(w, b) == e;
    var t :| t in s.tasks && PayloadMatches(t, b);
    TaskMapFinds(s.tasks, t);
    EnvelopeMapFinds(s.envelopes, b);
    PairStaysMatched(LookupOf(s), w, t, b);
    assert CurrentTask(w, t) in KeptTasks(w, s.tasks);
  }

  lemma PairStaysMatched(l: Lookup, w: Work, t: Task, e: Envelope)
    requires Sound(l, w) && Known(l, t) && PayloadMatches(t, e)
    requires e.taskId in l.envelopes && l.envelopes[e.taskId] == e
    ensures PayloadMatches(CurrentTask(w, t), CurrentEnvelope(w, e))
  {
    if t.taskId in w.tombstones {
      TombstoneIsFaithful(t, EnvelopeOf(l, t.taskId));
    }
  }

  // ---------- The lineage bound ----------

  /** An acknowledged terminal record of the state that keeps its bodies and nothing holds. */
  ghost predicate CountsInLineage(s: Snapshot, state: Snapshot, p: Protections, key: Text, k: Task)
    requires Groupable(s.tasks, LookupOf(s))
  {
    && k in state.tasks && IsTerminal(k.status) && k.taskId !in p.hard && !IsTombstone(k)
    && (exists e :: e in state.envelopes && e.taskId == k.taskId && e.action.Some?)
    && (exists t :: t in s.tasks && t.taskId == k.taskId && Key(t, LookupOf(s).tasks) == key)
  }

  ghost predicate OfOneLineage(s: Snapshot, state: Snapshot, p: Protections, key: Text, ids: set<TaskId>)
    requires Groupable(s.tasks, LookupOf(s))
  {
    forall id :: id in ids ==> exists k :: CountsInLineage(s, state, p, key, k) && k.taskId == id
  }

  lemma LineageBoundHolds(s: Snapshot, p: Protections, collation: TaskId -> int, w: Work, key: Text, ids: set<TaskId>)
    requires Decoded(s) && Groupable(s.tasks, LookupOf(s)) && Sound(LookupOf(s), w)
    requires forall t :: EagerlyRemoved(s.tasks, LookupOf(s), p.hard, collation, t) ==>
                           Touched(w, t.taskId) || IsTombstone(t)
    requires OfOneLineage(s, BuildState(w, s), p, key, ids)
    ensures |ids| <= MAX_RETAINED_LINEAGE_RECORDS
  {
    var l := LookupOf(s);
    forall id | id in ids
      ensures exists t :: t in s.tasks && t.taskId == id && Bounded(t, l.envelopes, p.hard)
                          && Key(t, l.tasks) == key && !EagerlyRemoved(s.tasks, l, p.hard, collation, t)
    {
      var k :| CountsInLineage(s, BuildState(w, s), p, key, k) && k.taskId == id;
      LineageSurvivor(s, p, w, key, k);
    }
    LineageBound(s.tasks, l, p.hard, collation, key, ids);
  }

  lemma LineageSurvivor(s: Snapshot, p: Protections, w: Work, key: Text, k: Task)
    requires Unique(s) && Groupable(s.tasks, LookupOf(s)) && Sound(LookupOf(s), w)
    requires CountsInLineage(s, BuildState(w, s), p, key, k)
    ensures k in s.tasks && Bounded(k, LookupOf(s).envelopes, p.hard) && Key(k, LookupOf(s).tasks) == key
    ensures !Touched(w, k.taskId)
  {
    var l := LookupOf(s);
    WholeRecordIsInput(s, w, k);
    var t :| t in s.tasks && t.taskId == k.taskId && Key(t, l.tasks) == key;
    TaskMapFinds(s.tasks, t);
    TaskMapFinds(s.tasks, k);
    var e :| e in KeptEnvelopes(w, s.envelopes) && e.taskId == k.taskId && e.action.Some?;
    WholeEnvelopeIsInput(s, w, e);
  }

  lemma WholeRecordIsInput(s: Snapshot, w: Work, k: Task)
    requires UniqueTasks(s.tasks) && Sound(LookupOf(s), w) && k in KeptTasks(w, s.tasks) && !IsTombstone(k)
    ensures k in s.tasks && !Touched(w, k.taskId)
  {
    KeptTasksAre(w, s.tasks);
    var b :| b in s.tasks && b.taskId !in w.removed && CurrentTask(w, b) == k;
    TaskMapFinds(s.tasks, b);
    CurrentKeepsId(LookupOf(s), w, b);
  }

  lemma WholeEnvelopeIsInput(s: Snapshot, w: Work, e: Envelope)
    requires UniqueEnvelopes(s.envelopes) && Sound(LookupOf(s), w)
    requires e in KeptEnvelopes(w, s.envelopes) && !Touched(w, e.taskId)
    ensures e.taskId in LookupOf(s).envelopes && LookupOf(s).envelopes[e.taskId] == e
  {
    KeptEnvelopesAre(w, s.envelopes);
    var f :| f in s.envelopes && f.taskId !in w.removed && CurrentEnvelope(w, f) == e;
    EnvelopesKeepIds(s, w);
    EnvelopeMapFinds(s.envelopes, f);
  }

  // ---------- The limits ----------

  /** When a cap stays exceeded, every terminal record that still counts is protected. */
  lemma OverLimitMeansProtected(j: Encoders, s: Snapshot, o: Policy, p: Protections, t: Trace, k: Task)
    requires Decoded(s) && Passes(j, s, o, p, t)
    requires k in BuildState(t.final, s).tasks && IsTerminal(k.status) && !IsTombstone(k)
    requires || (o.maxTerminalRecords.AtMostValue?
                 && CountedTerminal(BuildState(t.counted, s)) > o.maxTerminalRecords.value)
             || (o.maxBytes.AtMostValue? && CountedBytes(j, BuildState(t.final, s)) > o.maxBytes.value)
    ensures k.taskId in p.all
  {
    FinalKeeps(j, s, o, p, t);
    var l := LookupOf(s);
    KeptTasksAre(t.final, s.tasks);
    var b :| b in s.tasks && b.taskId !in t.final.removed && CurrentTask(t.final, b) == k;
    TaskMapFinds(s.tasks, b);
    CurrentKeepsId(l, t.final, b);
    if b.taskId !in p.all {
      AgedKeeps(j, s, o, p, t);
      RemovableMayBeTaken(s, o, p, t.removable);
      if o.maxBytes.AtMostValue? && CountedBytes(j, BuildState(t.final, s)) > o.maxBytes.value {
        ExceededTakesAll(t.counted, t.final, t.removable, l, p.proofs, ByteTotal(j, s), o.maxBytes.value, b);
      } else {
        ExceededTakesAll(t.aged, t.counted, t.removable, l, p.proofs, TerminalTotal(s), o.maxTerminalRecords.value, b);
        CappedKeeps(s, o, p, t.counted, t.final, t.removable, ByteTotal(j, s), o.maxBytes);
      }
      assert false;
    }
  }

  lemma ExceededTakesAll(w: Work, v: Work, removable: seq<Task>, l: Lookup, proofs: set<TaskId>, size: Work -> int,
                         cap: int, t: Task)
    requires Capped(w, v, removable, l, proofs, size, AtMostValue(cap)) && size(v) > cap && t in removable
    ensures Touched(v, t.taskId) || IsTombstone(t)
  {
    var candidates := Candidates(w, removable);
    var m: nat :| FewestEvictions(w, v, candidates, l, proofs, size, cap, m);
    assert candidates[..m] == candidates;
    CandidatesAre(w, removable);
    EvictAllTouches(w, candidates, l, proofs, t.taskId);
  }

  // ---------- The whole operation ----------

  method Compact(j: Encoders, s: Snapshot, o: Policy)
    returns (r: Compacted, ghost p: Protections, ghost trace: Trace)
    requires Decoded(s) && WalksEnd(s, o)
    // Protection and the passes, in order.
    ensures (forall id :: id in p.hard <==> HardProtected(s, o, id))
        && (forall id :: id in p.all <==> Protected(s, o, id))
    ensures Passes(j, s, o, p, trace)
    ensures r.state == BuildState(trace.final, s)
    // The incremental byte counter is the length of the text that will be written.
    ensures r.serializedBytes == |Serialize(j, r.state)|
    ensures r.overLimit <==> Exceeded(CountedTerminal(r.state), o.maxTerminalRecords)
                             || Exceeded(CountedBytes(j, r.state), o.maxBytes)
    ensures r.overLimit ==> EveryCountedIsProtected(s, o, r.state)
    // No record is lost, and what is left is a ledger again.
    ensures Decoded(r.state) && Partitions(s, r)
    ensures PriorsPrecede(s.tasks) ==> PriorsPrecede(r.state.tasks)
    ensures Groupable(s.tasks, LookupOf(s)) && RespectsProtection(s, o, p, r)
    ensures forall key, ids :: OfOneLineage(s, r.state, p, key, ids) ==> |ids| <= MAX_RETAINED_LINEAGE_RECORDS
    // What may move to the proof store.
    ensures forall id :: id in r.proofTaskIds <==> !HardProtected(s, o, id) && HasProofPair(r.state, id)
  {
    var protections, passes, c := RunPasses(j, s, o);
    p, trace := protections, passes;
    var state := BuildState(passes.final, s);
    var proofTaskIds := ProofIds(state.tasks, set e | e in state.envelopes :: e.taskId, protections.hard);
    r := Compacted(state, passes.final.removedIds, passes.final.tombstonedIds, proofTaskIds, c.serialized,
                   Exceeded(CountedTerminal(state), o.maxTerminalRecords)
                   || Exceeded(c.serialized - c.tombstones, o.maxBytes));
    Guarantees(j, s, o, p, trace, r);
  }

  /** When a cap stays exceeded, only protected records are left to count. */
  ghost predicate EveryCountedIsProtected(s: Snapshot, o: Policy, state: Snapshot)
    requires Decoded(s)
  {
    forall k :: k in state.tasks && IsTerminal(k.status) && !IsTombstone(k) ==> Protected(s, o, k.taskId)
  }

  /** A released proof and an envelope that still copies it exactly. */
  ghost predicate HasProofPair(state: Snapshot, id: TaskId) {
    exists t, e :: t in state.tasks && e in state.envelopes && t.taskId == id && IsTombstone(t) && PayloadMatches(t, e)
  }

  method RunPasses(j: Encoders, s: Snapshot, o: Policy) returns (p: Protections, t: Trace, c: Counters)
    requires Decoded(s) && WalksEnd(s, o)
    ensures (forall id :: id in p.hard <==> HardProtected(s, o, id))
        && (forall id :: id in p.all <==> Protected(s, o, id))
    ensures Passes(j, s, o, p, t) && Exact(j, s, t.final, c)
  {
    p := CollectProtectedTaskIds(s, o);
    var l := LookupOf(s);
    LedgerGroupable(s);
    ProofsKnown(s, p);
    var removable := Sort(RemovableFrom(s.tasks, p.all), ByAge(o.collation));
    var eager := CollectEagerLineageRemovals(s.tasks, l, p.hard, o.collation);
    var aged := TakeAll(NO_WORK, eager, l, p.proofs);
    if o.maxAge.AtMostValue? {
      aged := TakeOld(aged, removable, l, p.proofs, o.now, o.maxAge.value);
    }
    var counted, final;
    counted, final, c := CapPasses(j, s, o, p, eager, removable, aged);
    t := Trace(eager, removable, aged, counted, final);
  }

  lemma Guarantees(j: Encoders, s: Snapshot, o: Policy, p: Protections, t: Trace, r: Compacted)
    requires Decoded(s) && Passes(j, s, o, p, t)
    requires (forall id :: id in p.hard <==> HardProtected(s, o, id))
        && (forall id :: id in p.all <==> Protected(s, o, id))
    requires r.state == BuildState(t.final, s)
    requires r.removedTaskIds == t.final.removedIds && r.tombstonedTaskIds == t.final.tombstonedIds
    requires r.proofTaskIds == ProofIds(r.state.tasks, set e | e in r.state.envelopes :: e.taskId, p.hard)
    ensures Exceeded(CountedTerminal(r.state), o.maxTerminalRecords) || Exceeded(CountedBytes(j, r.state), o.maxBytes)
            ==> EveryCountedIsProtected(s, o, r.state)
    ensures Decoded(r.state) && Partitions(s, r)
    ensures PriorsPrecede(s.tasks) ==> PriorsPrecede(r.state.tasks)
    ensures Groupable(s.tasks, LookupOf(s)) && RespectsProtection(s, o, p, r)
    ensures forall key, ids :: OfOneLineage(s, r.state, p, key, ids) ==> |ids| <= MAX_RETAINED_LINEAGE_RECORDS
    ensures forall id :: id in r.proofTaskIds <==> !HardProtected(s, o, id) && HasProofPair(r.state, id)
  {
    FinalKeeps(j, s, o, p, t);
    StaysValid(s, t.final);
    PartitionHolds(s, t.final, r);
    ProtectionHolds(s, o, p, t.final, r);
    OverLimitHolds(j, s, o, p, t);
    LineagesBounded(j, s, o, p, t);
    ProofIdsAre(s, o, p, r.state, r.proofTaskIds);
  }

  lemma LedgerGroupable(s: Snapshot)
    requires Decoded(s)
    ensures Groupable(s.tasks, LookupOf(s))
  {
  }

  predicate Exceeded(total: int, limit: Limit) {
    limit.AtMostValue? && total > limit.value
  }

  lemma ProofsKnown(s: Snapshot, p: Protections)
    requires UniqueTasks(s.tasks)
    requires forall id :: id in p.proofs <==> exists t :: t in s.tasks && t.taskId == id && RetainsProof(t)
    ensures ProofSet(LookupOf(s), p.proofs)
  {
    AllKnown(s, LookupOf(s));
  }

  /** The record-count pass, then the byte pass with the exact totals of what it left. */
  method CapPasses(j: Encoders, s: Snapshot, o: Policy, p: Protections, eager: seq<Task>, removable: seq<Task>,
                   aged: Work)
    returns (counted: Work, final: Work, c: Counters)
    requires Decoded(s) && Groupable(s.tasks, LookupOf(s)) && ProofSet(LookupOf(s), p.proofs) && p.hard <= p.all
    requires removable == Sort(RemovableFrom(s.tasks, p.all), ByAge(o.collation))
    requires forall e :: e in eager <==> EagerlyRemoved(s.tasks, LookupOf(s), p.hard, o.collation, e)
    requires aged == (var w := EvictAll(NO_WORK, eager, LookupOf(s), p.proofs);
                      if o.maxAge.Unbounded? then w
                      else EvictAll(w, OldEnough(removable, o.now, o.maxAge.value), LookupOf(s), p.proofs))
    ensures Capped(aged, counted, removable, LookupOf(s), p.proofs, TerminalTotal(s), o.maxTerminalRecords)
    ensures Capped(counted, final, removable, LookupOf(s), p.proofs, ByteTotal(j, s), o.maxBytes)
    ensures Exact(j, s, final, c)
  {
    var l := LookupOf(s);
    assert Kept(s, p, o.collation, aged) by {
      AgedKeeps(j, s, o.(maxTerminalRecords := Unbounded, maxBytes := Unbounded), p,
                Trace(eager, removable, aged, aged, aged));
    }
    RemovableMayBeTaken(s, o, p, removable);
    counted := aged;
    if o.maxTerminalRecords.AtMostValue? {
      counted := EvictToRecordCap(s, l, p.proofs, removable, aged, o.maxTerminalRecords.value);
    }
    CappedKeeps(s, o, p, aged, counted, removable, TerminalTotal(s), o.maxTerminalRecords);
    final, c := BytePass(j, s, o, p, removable, counted);
  }

  method BytePass(j: Encoders, s: Snapshot, o: Policy, p: Protections, removable: seq<Task>, counted: Work)
    returns (final: Work, c: Counters)
    requires Decoded(s) && Groupable(s.tasks, LookupOf(s)) && ProofSet(LookupOf(s), p.proofs) && p.hard <= p.all
    requires removable == Sort(RemovableFrom(s.tasks, p.all), ByAge(o.collation)) && Kept(s, p, o.collation, counted)
    ensures Capped(counted, final, removable, LookupOf(s), p.proofs, ByteTotal(j, s), o.maxBytes)
    ensures Exact(j, s, final, c)
  {
    var l := LookupOf(s);
    RemovableMayBeTaken(s, o, p, removable);
    AllKnown(s, l);
    EnvelopesKeepIds(s, counted);
    KeptTasksUnique(l, counted, s.tasks);
    KeptEnvelopesUnique(counted, s.envelopes);
    var bytes, costs, start := MeasureState(j, s, l, counted);
    final, c := counted, start;
    if o.maxBytes.AtMostValue? {
      final, c := EvictToByteCap(j, s, l, p.proofs, removable, counted, o.maxBytes.value, bytes, costs, start);
    }
  }

  lemma OverLimitHolds(j: Encoders, s: Snapshot, o: Policy, p: Protections, t: Trace)
    requires Decoded(s) && Passes(j, s, o, p, t) && (forall id :: id in p.all <==> Protected(s, o, id))
    ensures var state := BuildState(t.final, s);
            Exceeded(CountedTerminal(state), o.maxTerminalRecords) || Exceeded(CountedBytes(j, state), o.maxBytes)
            ==> EveryCountedIsProtected(s, o, state)
  {
    var state := BuildState(t.final, s);
    if Exceeded(CountedTerminal(state), o.maxTerminalRecords) || Exceeded(CountedBytes(j, state), o.maxBytes) {
      BytePassKeepsRecordCap(j, s, o, p, t);
      forall k | k in state.tasks && IsTerminal(k.status) && !IsTombstone(k)
        ensures Protected(s, o, k.taskId)
      {
        OverLimitMeansProtected(j, s, o, p, t, k);
        assert k.taskId in p.all;
      }
    }
  }

  /** Taking more records can only lower the number that counts. */
  lemma {:induction false} EvictingLowersCount(s: Snapshot, l: Lookup, proofs: set<TaskId>, w: Work, ts: seq<Task>)
    requires Unique(s) && l == LookupOf(s) && Sound(l, w) && ProofSet(l, proofs)
    requires forall t :: t in ts ==> t in s.tasks && Known(l, t) && IsTerminal(t.status)
    ensures CountedTerminal(BuildState(EvictAll(w, ts, l, proofs), s)) <= CountedTerminal(BuildState(w, s))
  {
    if ts != [] {
      var n := |ts| - 1;
      EvictingLowersCount(s, l, proofs, w, ts[..n]);
      EvictAllSound(l, w, ts[..n], proofs);
      var v := EvictAll(w, ts[..n], l, proofs);
      if Untouched(v, ts[n]) {
        TerminalStep(s, l, proofs, v, ts[n]);
      } else {
        assert ts[n].taskId in v.removed || ts[n].taskId in proofs;
        assert RemoveTask(v, ts[n], l, proofs) == v;
      }
    }
  }

  lemma BytePassKeepsRecordCap(j: Encoders, s: Snapshot, o: Policy, p: Protections, t: Trace)
    requires Decoded(s) && Passes(j, s, o, p, t)
    ensures CountedTerminal(BuildState(t.final, s)) <= CountedTerminal(BuildState(t.counted, s))
  {
    if o.maxBytes.AtMostValue? {
      FinalKeeps(j, s, o, p, t);
      RemovableMayBeTaken(s, o, p, t.removable);
      var candidates := Candidates(t.counted, t.removable);
      var m: nat :| FewestEvictions(t.counted, t.final, candidates, LookupOf(s), p.proofs, ByteTotal(j, s),
                                    o.maxBytes.value, m);
      CandidatesAre(t.counted, t.removable);
      forall c | c in candidates[..m]
        ensures c in s.tasks && Known(LookupOf(s), c) && IsTerminal(c.status)
      {
        assert c in candidates;
        assert MayTake(s, LookupOf(s), p, o.collation, c);
      }
      EvictingLowersCount(s, LookupOf(s), p.proofs, t.counted, candidates[..m]);
    }
  }

  lemma LineagesBounded(j: Encoders, s: Snapshot, o: Policy, p: Protections, t: Trace)
    requires Decoded(s) && Passes(j, s, o, p, t)
    ensures Groupable(s.tasks, LookupOf(s))
    ensures forall key, ids :: OfOneLineage(s, BuildState(t.final, s), p, key, ids)
                               ==> |ids| <= MAX_RETAINED_LINEAGE_RECORDS
  {
    FinalKeeps(j, s, o, p, t);
    forall key, ids | OfOneLineage(s, BuildState(t.final, s), p, key, ids)
      ensures |ids| <= MAX_RETAINED_LINEAGE_RECORDS
    {
      LineageBoundHolds(s, p, o.collation, t.final, key, ids);
    }
  }

  function ProofIds(tasks: seq<Task>, withEnvelope: set<TaskId>, hard: set<TaskId>): (ids: seq<TaskId>)
    ensures forall id :: id in ids <==>
                         id !in hard && id in withEnvelope && exists t :: t in tasks && t.taskId == id && IsTombstone(t)
  {
    if tasks == [] then []
    else
      assert tasks == [tasks[0]] + tasks[1..];
      (if IsTombstone(tasks[0]) && tasks[0].taskId !in hard && tasks[0].taskId in withEnvelope
       then [tasks[0].taskId] else [])
      + ProofIds(tasks[1..], withEnvelope, hard)
  }

  lemma ProofIdsAre(s: Snapshot, o: Policy, p: Protections, state: Snapshot, ids: seq<TaskId>)
    requires Decoded(state) && (forall id :: id in p.hard <==> HardProtected(s, o, id))
    requires ids == ProofIds(state.tasks, set e | e in state.envelopes :: e.taskId, p.hard)
    ensures forall id :: id in ids <==> !HardProtected(s, o, id) && HasProofPair(state, id)
  {
    forall id
      ensures id in ids ==> HasProofPair(state, id)
      ensures !HardProtected(s, o, id) && HasProofPair(state, id) ==> id in ids
    {
      if id in ids {
        ProofIdHasPair(state, id);
      }
    }
  }

  lemma ProofIdHasPair(state: Snapshot, id: TaskId)
    requires Decoded(state) && (exists t :: t in state.tasks && t.taskId == id && IsTombstone(t))
    requires id in set e | e in state.envelopes :: e.taskId
    ensures HasProofPair(state, id)
  {
    var t :| t in state.tasks && t.taskId == id && IsTombstone(t);
    var e :| e in state.envelopes && e.taskId == id;
    OwnTaskMatches(state, t, e);
  }

  lemma OwnTaskMatches(state: Snapshot, t: Task, e: Envelope)
    requires Decoded(state) && t in state.tasks && e in state.envelopes && e.taskId == t.taskId
    ensures PayloadMatches(t, e)
  {
    var u :| u in state.tasks && PayloadMatches(u, e);
    TaskMapFinds(state.tasks, t);
    TaskMapFinds(state.tasks, u);
  }
}
