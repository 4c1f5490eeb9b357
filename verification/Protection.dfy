/**
 * Which ledger records compaction must keep, and the eager bound on acknowledged
 * records of one recovery lineage.
 */
module Protection {
  import opened Outcomes
  import opened JsText
  import opened Ledger
  import opened Sorting

  const MAX_RETAINED_LINEAGE_RECORDS: nat := 3

  /** A numeric limit; every non-finite option value disables it. */
  datatype Limit = Unbounded | AtMostValue(value: int)

  /** `collation` ranks task ids the way `localeCompare` orders them. */
  datatype Policy = Policy(now: int, maxTerminalRecords: Limit, maxAge: Limit, maxBytes: Limit,
                           expireUnacknowledged: bool, collation: TaskId -> int)

  datatype Lookup = Lookup(tasks: map<TaskId, Task>, envelopes: map<TaskId, Envelope>)

  function LookupOf(s: Snapshot): Lookup {
    Lookup(TaskMap(s.tasks), EnvelopeMap(s.envelopes))
  }

  // ---------- Order ----------

  function AgeTimestamp(t: Task): int {
    if t.finishedAt.Some? then t.finishedAt.value else t.createdAt
  }

  predicate OldestFirst(collation: TaskId -> int, a: Task, b: Task) {
    if AgeTimestamp(a) != AgeTimestamp(b) then AgeTimestamp(a) < AgeTimestamp(b)
    else if a.sequence != b.sequence then a.sequence < b.sequence
    else collation(a.taskId) <= collation(b.taskId)
  }

  function ByAge(collation: TaskId -> int): (Task, Task) -> bool {
    (a: Task, b: Task) => OldestFirst(collation, a, b)
  }

  lemma ByAgeIsTotal(collation: TaskId -> int)
    ensures TotalPreorder(ByAge(collation))
  {
  }

  // ---------- Active conversations ----------

  function Max(a: int, b: int): int {
    if a < b then b else a
  }

  function OrZero(t: Option<int>): int {
    if t.Some? then t.value else 0
  }

  function LatestChange(t: Task, envelopes: map<TaskId, Envelope>): int {
    var own := Max(t.createdAt, Max(OrZero(t.startedAt), OrZero(t.finishedAt)));
    if t.taskId in envelopes then
      var e := envelopes[t.taskId];
      Max(own, Max(e.createdAt, OrZero(e.acknowledgedAt)))
    else Max(own, 0)
  }

  predicate KeepsRootActive(t: Task, envelopes: map<TaskId, Envelope>, now: int, maxAge: int) {
    !IsTerminal(t.status) || now - LatestChange(t, envelopes) <= maxAge
  }

  ghost predicate ActiveRoot(tasks: seq<Task>, envelopes: map<TaskId, Envelope>, now: int, maxAge: int, root: Text) {
    exists t :: t in tasks && t.rootSessionId == root && KeepsRootActive(t, envelopes, now, maxAge)
  }

  method CollectActiveRoots(tasks: seq<Task>, envelopes: map<TaskId, Envelope>, now: int, maxAge: int)
    returns (active: set<Text>)
    ensures forall root :: root in active <==> ActiveRoot(tasks, envelopes, now, maxAge, root)
  {
    active := {};
    for i := 0 to |tasks|
      invariant forall root :: root in active <==> ActiveRoot(tasks[..i], envelopes, now, maxAge, root)
    {
      var task := tasks[i];
      assert tasks[..i + 1] == tasks[..i] + [task];
      if task.rootSessionId in active { continue; }
      if KeepsRootActive(task, envelopes, now, maxAge) {
        active := active + {task.rootSessionId};
      }
    }
    assert tasks[..|tasks|] == tasks;
  }

  // ---------- What is protected ----------

  /** Unacknowledged results expire only with an age bound and only in idle conversations. */
  ghost predicate StillCollectable(s: Snapshot, o: Policy, root: Text) {
    (o.expireUnacknowledged && o.maxAge.AtMostValue?)
    ==> ActiveRoot(s.tasks, EnvelopeMap(s.envelopes), o.now, o.maxAge.value, root)
  }

  ghost predicate Unacknowledged(s: Snapshot, o: Policy, id: TaskId) {
    var l := LookupOf(s);
    && id in l.envelopes && l.envelopes[id].action == None
    && ((o.expireUnacknowledged && o.maxAge.AtMostValue?)
        ==> id in l.tasks && StillCollectable(s, o, l.tasks[id].rootSessionId))
  }

  ghost predicate AutoResuming(s: Snapshot, id: TaskId) {
    var l := LookupOf(s);
    id in l.envelopes && IsAutoResumeActive(l.envelopes[id])
  }

  /** The newest attempt of a chain that still needs the history behind it. */
  ghost predicate LiveChainHead(s: Snapshot, o: Policy, t: Task) {
    && t.priorTaskId.Some?
    && (forall other :: other in s.tasks ==> other.priorTaskId != Some(t.taskId))
    && (!IsTerminal(t.status) || Unacknowledged(s, o, t.taskId) || AutoResuming(s, t.taskId))
  }

  ghost predicate AwaitsItsChecks(s: Snapshot, o: Policy, t: Task) {
    var l := LookupOf(s);
    && t.dispatchGroupId.Some?
    && t.taskId in l.envelopes && l.envelopes[t.taskId].action == Some(Collect)
    && t.requiredChecks.Some? && |t.requiredChecks.value| > 0
    && StillCollectable(s, o, t.rootSessionId)
  }

  /** Task `t` puts a hard hold on record `id`. */
  ghost predicate Holds(s: Snapshot, o: Policy, t: Task, id: TaskId) {
    || (!IsTerminal(t.status) && id == t.taskId)
    || (!IsTerminal(t.status) && t.taskPrerequisites.Some? && id in t.taskPrerequisites.value
        && id in LookupOf(s).tasks)
    || (!IsTerminal(t.status) && t.parentTaskId == Some(id))
    || (id == t.taskId && t.dispatchGroupId.Some? && Unacknowledged(s, o, id))
    || (id == t.taskId && AwaitsItsChecks(s, o, t))
    || (id == t.taskId && AutoResuming(s, id))
    || (LiveChainHead(s, o, t) && t.priorTaskId == Some(id))
  }

  ghost predicate HardProtected(s: Snapshot, o: Policy, id: TaskId) {
    exists t :: t in s.tasks && Holds(s, o, t, id)
  }

  /** Predecessors follow `priorTaskId` to records with smaller sequences. */
  ghost predicate Descends(tasks: map<TaskId, Task>) {
    forall id :: id in tasks ==>
      && tasks[id].taskId == id
      && tasks[id].sequence >= 0
      && (tasks[id].priorTaskId.Some? && tasks[id].priorTaskId.value in tasks
          ==> tasks[tasks[id].priorTaskId.value].sequence < tasks[id].sequence)
  }

  ghost predicate Protected(s: Snapshot, o: Policy, id: TaskId) {
    || HardProtected(s, o, id)
    || exists t :: t in s.tasks && InLiveChain(s, o, t, id)
  }

  ghost predicate InLiveChain(s: Snapshot, o: Policy, t: Task, id: TaskId) {
    t in s.tasks && LiveChainHead(s, o, t) && OnChain(t, TaskMap(s.tasks), id)
  }

  lemma LedgerDescends(s: Snapshot)
    requires Decoded(s) && PriorsPrecede(s.tasks)
    ensures Descends(TaskMap(s.tasks))
  {
  }

  // ---------- The walk along predecessors ----------

  /** The record `n` hops before `t`, if the walk has not ended by then. */
  function Hop(t: Task, tasks: map<TaskId, Task>, n: nat): Option<Task>
    decreases n
  {
    if n == 0 then Some(t)
    else if t.priorTaskId.Some? && t.priorTaskId.value in tasks then Hop(tasks[t.priorTaskId.value], tasks, n - 1)
    else None
  }

  /** `t` or an attempt before it that the ledger still holds. */
  ghost predicate OnChain(t: Task, tasks: map<TaskId, Task>, id: TaskId) {
    exists n: nat :: PassesAt(t, tasks, n, id)
  }

  predicate PassesAt(t: Task, tasks: map<TaskId, Task>, n: nat, id: TaskId) {
    Hop(t, tasks, n).Some? && Hop(t, tasks, n).value.taskId == id
  }

  ghost predicate Ends(t: Task, tasks: map<TaskId, Task>) {
    exists n: nat :: Hop(t, tasks, n).None?
  }

  ghost predicate Repeats(t: Task, tasks: map<TaskId, Task>) {
    exists i: nat, k: nat :: RepeatsAt(t, tasks, i, k)
  }

  predicate RepeatsAt(t: Task, tasks: map<TaskId, Task>, i: nat, k: nat) {
    i < k && Hop(t, tasks, i).Some? && Hop(t, tasks, i) == Hop(t, tasks, k)
  }

  predicate Keyed(tasks: map<TaskId, Task>) {
    forall id :: id in tasks ==> tasks[id].taskId == id
  }

  /** The ids of the first `n` records of the walk. */
  ghost function Trail(t: Task, tasks: map<TaskId, Task>, n: nat): set<TaskId>
    decreases n
  {
    if n == 0 then {}
    else {t.taskId} + if t.priorTaskId.Some? && t.priorTaskId.value in tasks
                      then Trail(tasks[t.priorTaskId.value], tasks, n - 1) else {}
  }

  lemma {:induction false} TrailHas(t: Task, tasks: map<TaskId, Task>, n: nat, id: TaskId)
    ensures id in Trail(t, tasks, n)
            <==> exists i: nat :: i < n && PassesAt(t, tasks, i, id)
    decreases n
  {
    if n > 0 {
      assert id == t.taskId ==> PassesAt(t, tasks, 0, id);
      if t.priorTaskId.Some? && t.priorTaskId.value in tasks {
        var prior := tasks[t.priorTaskId.value];
        TrailHas(prior, tasks, n - 1, id);
        if i: nat :| i < n - 1 && PassesAt(prior, tasks, i, id) {
          assert PassesAt(t, tasks, i + 1, id);
        }
        if i: nat :| 0 < i < n && PassesAt(t, tasks, i, id) {
          assert PassesAt(prior, tasks, i - 1, id);
        }
      }
    }
  }

  /** A walk that has ended has passed its whole chain. */
  lemma TrailIsChain(t: Task, tasks: map<TaskId, Task>, n: nat, id: TaskId)
    requires Hop(t, tasks, n).None?
    ensures id in Trail(t, tasks, n) <==> OnChain(t, tasks, id)
  {
    TrailHas(t, tasks, n, id);
    if i: nat :| PassesAt(t, tasks, i, id) {
      if i >= n {
        WalkStaysEnded(t, tasks, n, i);
      }
    }
  }

  lemma {:induction false} WalkStaysEnded(t: Task, tasks: map<TaskId, Task>, n: nat, m: nat)
    requires n <= m && Hop(t, tasks, n) == None
    ensures Hop(t, tasks, m) == None
    decreases n
  {
    if t.priorTaskId.Some? && t.priorTaskId.value in tasks {
      WalkStaysEnded(tasks[t.priorTaskId.value], tasks, n - 1, m - 1);
    }
  }

  lemma {:induction false} HopOn(t: Task, tasks: map<TaskId, Task>, i: nat, j: nat)
    requires Hop(t, tasks, i).Some?
    ensures Hop(t, tasks, i + j) == Hop(Hop(t, tasks, i).value, tasks, j)
    decreases i
  {
    if i > 0 {
      HopOn(tasks[t.priorTaskId.value], tasks, i - 1, j);
    }
  }

  lemma {:induction false} LoopNeverEnds(u: Task, tasks: map<TaskId, Task>, p: nat, n: nat)
    requires p > 0 && Hop(u, tasks, p) == Some(u)
    ensures Hop(u, tasks, n).Some?
    decreases n
  {
    if n < p {
      if Hop(u, tasks, n).None? {
        WalkStaysEnded(u, tasks, n, p);
      }
    } else {
      HopOn(u, tasks, p, n - p);
      LoopNeverEnds(u, tasks, p, n - p);
    }
  }

  /** What holds of a walk without end or repetition holds of the rest of it. */
  lemma RestIsFresh(t: Task, tasks: map<TaskId, Task>)
    requires !Repeats(t, tasks) && !Ends(t, tasks)
    ensures t.priorTaskId.Some? && t.priorTaskId.value in tasks
    ensures !Repeats(tasks[t.priorTaskId.value], tasks) && !Ends(tasks[t.priorTaskId.value], tasks)
  {
    assert Hop(t, tasks, 1).Some?;
    var prior := tasks[t.priorTaskId.value];
    forall i: nat, k: nat
      ensures RepeatsAt(prior, tasks, i, k) ==> RepeatsAt(t, tasks, i + 1, k + 1)
    {
    }
    forall i: nat
      ensures Hop(prior, tasks, i).Some?
    {
      assert Hop(t, tasks, i + 1) == Hop(prior, tasks, i);
    }
  }

  /** Without a repetition every hop finds a record not met before. */
  lemma {:induction false} TrailGrows(t: Task, tasks: map<TaskId, Task>, n: nat)
    requires Keyed(tasks) && t.taskId in tasks && tasks[t.taskId] == t
    requires !Repeats(t, tasks) && !Ends(t, tasks)
    ensures |Trail(t, tasks, n)| == n && Trail(t, tasks, n) <= tasks.Keys
    decreases n
  {
    if n > 0 {
      RestIsFresh(t, tasks);
      var prior := tasks[t.priorTaskId.value];
      TrailGrows(prior, tasks, n - 1);
      TrailHas(prior, tasks, n - 1, t.taskId);
      if i: nat :| i < n - 1 && PassesAt(prior, tasks, i, t.taskId) {
        HopIsKnown(prior, tasks, i);
        assert RepeatsAt(t, tasks, 0, i + 1);
      }
    }
  }

  lemma {:induction false} HopIsKnown(t: Task, tasks: map<TaskId, Task>, n: nat)
    requires Keyed(tasks) && t.taskId in tasks && tasks[t.taskId] == t && Hop(t, tasks, n).Some?
    ensures Hop(t, tasks, n).value.taskId in tasks && tasks[Hop(t, tasks, n).value.taskId] == Hop(t, tasks, n).value
    decreases n
  {
    if n > 0 {
      HopIsKnown(tasks[t.priorTaskId.value], tasks, n - 1);
    }
  }

  /** The walk from a record ends exactly if it never comes back to a record. */
  lemma WalkEndsExactly(t: Task, tasks: map<TaskId, Task>)
    requires Keyed(tasks) && t.taskId in tasks && tasks[t.taskId] == t
    ensures Ends(t, tasks) <==> !Repeats(t, tasks)
  {
    if i: nat, k: nat :| RepeatsAt(t, tasks, i, k) {
      var u := Hop(t, tasks, i).value;
      HopOn(t, tasks, i, k - i);
      if n: nat :| Hop(t, tasks, n).None? {
        LoopNeverEnds(u, tasks, k - i, n);
        HopOn(t, tasks, i, n);
        WalkStaysEnded(t, tasks, n, i + n);
      }
    } else if !Ends(t, tasks) {
      var n := |tasks.Keys| + 1;
      TrailGrows(t, tasks, n);
      NoLargerSubset(Trail(t, tasks, n), tasks.Keys);
    }
  }

  lemma {:induction false} NoLargerSubset(a: set<TaskId>, b: set<TaskId>)
    requires a <= b
    ensures |a| <= |b|
    decreases a
  {
    if a != {} {
      var x :| x in a;
      NoLargerSubset(a - {x}, b - {x});
    }
  }

  /** With predecessors of smaller sequence the walk ends for every record. */
  lemma {:induction false} WalkEnds(t: Task, tasks: map<TaskId, Task>)
    requires Descends(tasks) && t.taskId in tasks && tasks[t.taskId] == t
    ensures Hop(t, tasks, t.sequence + 1) == None
    decreases t.sequence
  {
    if t.priorTaskId.Some? && t.priorTaskId.value in tasks {
      var prior := tasks[t.priorTaskId.value];
      WalkEnds(prior, tasks);
      WalkStaysEnded(prior, tasks, prior.sequence + 1, t.sequence);
    }
  }

  /** Every walk that collecting protection starts comes to an end. */
  ghost predicate WalksEnd(s: Snapshot, o: Policy) {
    forall t :: t in s.tasks && LiveChainHead(s, o, t) ==> Ends(t, TaskMap(s.tasks))
  }

  /** Collecting ends exactly if no live chain comes back to one of its records. */
  lemma WalksEndExactly(s: Snapshot, o: Policy)
    requires UniqueTasks(s.tasks)
    ensures WalksEnd(s, o) <==> forall t :: t in s.tasks && LiveChainHead(s, o, t) ==> !Repeats(t, TaskMap(s.tasks))
  {
    forall t | t in s.tasks
      ensures Ends(t, TaskMap(s.tasks)) <==> !Repeats(t, TaskMap(s.tasks))
    {
      TaskMapFinds(s.tasks, t);
      WalkEndsExactly(t, TaskMap(s.tasks));
    }
  }

  lemma OrderedLedgersEnd(s: Snapshot, o: Policy)
    requires Decoded(s) && PriorsPrecede(s.tasks)
    ensures WalksEnd(s, o)
  {
    LedgerDescends(s);
    forall t | t in s.tasks
      ensures Ends(t, TaskMap(s.tasks))
    {
      TaskMapFinds(s.tasks, t);
      WalkEnds(t, TaskMap(s.tasks));
    }
  }

  /** A finished attempt that precedes itself, and a running one behind it. */
  function LoopingLedger(): Snapshot {
    var a, b := TASK_ID_PREFIX + [97], TASK_ID_PREFIX + [98];
    Snapshot([], [PlainTask(a, [97], 1, Some(a), Completed), PlainTask(b, [98], 2, Some(a), Running)], [])
  }

  lemma LoopingLedgerDecodes()
    ensures Decoded(LoopingLedger()) && LoopingLedger().tasks[0].taskId != LoopingLedger().tasks[1].taskId
  {
    var a, b := TASK_ID_PREFIX + [97], TASK_ID_PREFIX + [98];
    assert a[|TASK_ID_PREFIX|] == 97 && b[|TASK_ID_PREFIX|] == 98;
  }

  /** A decoded ledger can keep collection from returning: the running attempt's chain never ends. */
  lemma DecodedLedgerCanLoop(o: Policy)
    ensures var s := LoopingLedger();
            && Decoded(s) && LiveChainHead(s, o, s.tasks[1]) && !WalksEnd(s, o)
            && forall n: nat :: Hop(s.tasks[1], TaskMap(s.tasks), n).Some?
  {
    var s := LoopingLedger();
    var t, h, tasks := s.tasks[0], s.tasks[1], TaskMap(s.tasks);
    LoopingLedgerDecodes();
    TaskMapFinds(s.tasks, t);
    assert Hop(t, tasks, 1) == Hop(t, tasks, 0);
    forall n: nat
      ensures Hop(h, tasks, n).Some?
    {
      if n > 0 {
        LoopNeverEnds(t, tasks, 1, n - 1);
      }
    }
    assert h in s.tasks && !Ends(h, tasks);
  }

  // ---------- Collecting the protection sets ----------

  datatype Protections = Protections(hard: set<TaskId>, all: set<TaskId>, proofs: set<TaskId>)

  method CollectProtectedTaskIds(s: Snapshot, o: Policy) returns (p: Protections)
    requires UniqueTasks(s.tasks) && WalksEnd(s, o)
    ensures forall id :: id in p.hard <==> HardProtected(s, o, id)
    ensures forall id :: id in p.all <==> Protected(s, o, id)
    ensures forall id :: id in p.proofs <==> exists t :: t in s.tasks && t.taskId == id && RetainsProof(t)
  {
    var hard: set<TaskId>, all: set<TaskId>, proofs: set<TaskId> := {}, {}, {};
    var l := LookupOf(s);
    var activeRoots := {};
    if o.expireUnacknowledged && o.maxAge.AtMostValue? {
      activeRoots := CollectActiveRoots(s.tasks, l.envelopes, o.now, o.maxAge.value);
    }
    for i := 0 to |s.tasks|
      invariant CollectedUpTo(s, o, i, hard, all, proofs)
    {
      hard, all, proofs := ProtectFrom(s, o, i, activeRoots, hard, all, proofs);
    }
    AllCollected(s, o, hard, all, proofs);
    p := Protections(hard, all + hard, proofs);
  }

  /** The three sets after the first `i` records. */
  ghost predicate CollectedUpTo(s: Snapshot, o: Policy, i: nat, hard: set<TaskId>, all: set<TaskId>,
                                proofs: set<TaskId>)
    requires i <= |s.tasks|
  {
    && (forall id :: id in proofs <==> ProvenUpTo(s, i, id))
    && (forall id :: id in hard <==> HeldUpTo(s, o, i, id))
    && (forall id :: id in all <==> ChainedUpTo(s, o, i, id))
  }

  /** What one record holds, directly and through its live chain. */
  method ProtectFrom(s: Snapshot, o: Policy, i: nat, activeRoots: set<Text>, hard: set<TaskId>, all: set<TaskId>,
                     proofs: set<TaskId>)
    returns (hard': set<TaskId>, all': set<TaskId>, proofs': set<TaskId>)
    requires UniqueTasks(s.tasks) && WalksEnd(s, o) && i < |s.tasks| && CollectedUpTo(s, o, i, hard, all, proofs)
    requires o.expireUnacknowledged && o.maxAge.AtMostValue? ==>
               forall root :: root in activeRoots <==>
                              ActiveRoot(s.tasks, EnvelopeMap(s.envelopes), o.now, o.maxAge.value, root)
    ensures forall id :: id in proofs' <==> ProvenUpTo(s, i + 1, id)
    ensures forall id :: id in hard' <==> HeldUpTo(s, o, i + 1, id)
    ensures forall id :: id in all' <==> ChainedUpTo(s, o, i + 1, id)
  {
    var task, l := s.tasks[i], LookupOf(s);
    assert task.taskId in l.tasks && l.tasks[task.taskId] == task by { TaskMapFinds(s.tasks, task); }
    proofs' := if RetainsProof(task) then proofs + {task.taskId} else proofs;
    var held, live := HoldsOf(s, o, task, activeRoots);
    hard', all' := hard + held, all;
    if live {
      all' := AddChain(task, l.tasks, all);
    }
    OneMoreProof(s, i, proofs, proofs');
    OneMoreHeld(s, o, i, hard, held);
    OneMoreChain(s, o, i, all, live, all');
  }

  lemma OneMoreProof(s: Snapshot, i: nat, proofs: set<TaskId>, proofs': set<TaskId>)
    requires i < |s.tasks| && forall id :: id in proofs <==> ProvenUpTo(s, i, id)
    requires proofs' == if RetainsProof(s.tasks[i]) then proofs + {s.tasks[i].taskId} else proofs
    ensures forall id :: id in proofs' <==> ProvenUpTo(s, i + 1, id)
  {
  }

  lemma OneMoreHeld(s: Snapshot, o: Policy, i: nat, hard: set<TaskId>, held: set<TaskId>)
    requires i < |s.tasks|
    requires forall id :: id in hard <==> HeldUpTo(s, o, i, id)
    requires forall id :: id in held <==> Holds(s, o, s.tasks[i], id)
    ensures forall id :: id in hard + held <==> HeldUpTo(s, o, i + 1, id)
  {
  }

  lemma OneMoreChain(s: Snapshot, o: Policy, i: nat, all: set<TaskId>, live: bool, all': set<TaskId>)
    requires i < |s.tasks| && (live <==> LiveChainHead(s, o, s.tasks[i]))
    requires forall id :: id in all <==> ChainedUpTo(s, o, i, id)
    requires forall id :: id in all' <==> id in all || (live && OnChain(s.tasks[i], TaskMap(s.tasks), id))
    ensures forall id :: id in all' <==> ChainedUpTo(s, o, i + 1, id)
  {
  }

  lemma AllCollected(s: Snapshot, o: Policy, hard: set<TaskId>, all: set<TaskId>, proofs: set<TaskId>)
    requires CollectedUpTo(s, o, |s.tasks|, hard, all, proofs)
    ensures forall id :: id in hard <==> HardProtected(s, o, id)
    ensures forall id :: id in all + hard <==> Protected(s, o, id)
    ensures forall id :: id in proofs <==> exists t :: t in s.tasks && t.taskId == id && RetainsProof(t)
  {
    forall id
      ensures ProvenUpTo(s, |s.tasks|, id) <==> exists t :: t in s.tasks && t.taskId == id && RetainsProof(t)
      ensures HeldUpTo(s, o, |s.tasks|, id) <==> HardProtected(s, o, id)
      ensures ChainedUpTo(s, o, |s.tasks|, id) <==> exists t :: t in s.tasks && InLiveChain(s, o, t, id)
    {
      ProvenUpToAny(s, |s.tasks|, id);
      HeldUpToAny(s, o, |s.tasks|, id);
      AllChained(s, o, id);
    }
  }

  ghost predicate ProvenUpTo(s: Snapshot, i: nat, id: TaskId)
    requires i <= |s.tasks|
  {
    i > 0 && (ProvenUpTo(s, i - 1, id) || (s.tasks[i - 1].taskId == id && RetainsProof(s.tasks[i - 1])))
  }

  ghost predicate HeldUpTo(s: Snapshot, o: Policy, i: nat, id: TaskId)
    requires i <= |s.tasks|
  {
    i > 0 && (HeldUpTo(s, o, i - 1, id) || Holds(s, o, s.tasks[i - 1], id))
  }

  ghost predicate ChainedUpTo(s: Snapshot, o: Policy, i: nat, id: TaskId)
    requires i <= |s.tasks|
  {
    i > 0 && (ChainedUpTo(s, o, i - 1, id) || InLiveChain(s, o, s.tasks[i - 1], id))
  }

  lemma {:induction false} ProvenUpToAny(s: Snapshot, i: nat, id: TaskId)
    requires i <= |s.tasks|
    ensures ProvenUpTo(s, i, id) <==> exists j :: 0 <= j < i && s.tasks[j].taskId == id && RetainsProof(s.tasks[j])
  {
    if i > 0 {
      ProvenUpToAny(s, i - 1, id);
    }
  }

  lemma {:induction false} HeldUpToAny(s: Snapshot, o: Policy, i: nat, id: TaskId)
    requires i <= |s.tasks|
    ensures HeldUpTo(s, o, i, id) <==> exists j :: 0 <= j < i && Holds(s, o, s.tasks[j], id)
  {
    if i > 0 {
      HeldUpToAny(s, o, i - 1, id);
    }
  }

  lemma {:induction false} ChainedUpToHas(s: Snapshot, o: Policy, i: nat, j: nat, id: TaskId)
    requires j < i <= |s.tasks| && InLiveChain(s, o, s.tasks[j], id)
    ensures ChainedUpTo(s, o, i, id)
  {
    if j < i - 1 {
      ChainedUpToHas(s, o, i - 1, j, id);
    }
  }

  lemma {:induction false} ChainedUpToFinds(s: Snapshot, o: Policy, i: nat, id: TaskId) returns (j: nat)
    requires i <= |s.tasks| && ChainedUpTo(s, o, i, id)
    ensures j < i && InLiveChain(s, o, s.tasks[j], id)
  {
    j := i - 1;
    if ChainedUpTo(s, o, i - 1, id) {
      j := ChainedUpToFinds(s, o, i - 1, id);
    }
  }

  lemma AllChained(s: Snapshot, o: Policy, id: TaskId)
    ensures ChainedUpTo(s, o, |s.tasks|, id) <==> exists t :: t in s.tasks && InLiveChain(s, o, t, id)
  {
    if ChainedUpTo(s, o, |s.tasks|, id) {
      var j := ChainedUpToFinds(s, o, |s.tasks|, id);
    }
    if t :| t in s.tasks && InLiveChain(s, o, t, id) {
      var j :| 0 <= j < |s.tasks| && s.tasks[j] == t;
      ChainedUpToHas(s, o, |s.tasks|, j, id);
    }
  }

  /** What one record contributes: the ids it holds, and whether it heads a live chain. */
  method HoldsOf(s: Snapshot, o: Policy, task: Task, activeRoots: set<Text>) returns (held: set<TaskId>, live: bool)
    requires UniqueTasks(s.tasks) && task in s.tasks
    requires o.expireUnacknowledged && o.maxAge.AtMostValue? ==>
               forall root :: root in activeRoots <==>
                              ActiveRoot(s.tasks, EnvelopeMap(s.envelopes), o.now, o.maxAge.value, root)
    ensures forall id :: id in held <==> Holds(s, o, task, id)
    ensures live <==> LiveChainHead(s, o, task)
  {
    var l := LookupOf(s);
    assert l.tasks == TaskMap(s.tasks) && l.envelopes == EnvelopeMap(s.envelopes);
    assert task.taskId in l.tasks && l.tasks[task.taskId] == task by { TaskMapFinds(s.tasks, task); }
    var expires := o.expireUnacknowledged && o.maxAge.AtMostValue?;
    var collectable := !expires || task.rootSessionId in activeRoots;
    assert collectable <==> StillCollectable(s, o, task.rootSessionId);
    var unfinished := !IsTerminal(task.status);
    var unacknowledged := task.taskId in l.envelopes && l.envelopes[task.taskId].action == None && collectable;
    assert unacknowledged <==> Unacknowledged(s, o, task.taskId);
    var resuming := task.taskId in l.envelopes && IsAutoResumeActive(l.envelopes[task.taskId]);
    assert resuming <==> AutoResuming(s, task.taskId);
    var awaits := task.dispatchGroupId.Some?
    && task.taskId in l.envelopes && l.envelopes[task.taskId].action == Some(Collect)
    && task.requiredChecks.Some? && |task.requiredChecks.value| > 0 && collectable;
    assert awaits <==> AwaitsItsChecks(s, o, task);
    var superseded := IsPrior(s.tasks, task.taskId);
    live := !superseded && task.priorTaskId.Some? && (unfinished || unacknowledged || resuming);
    assert live <==> LiveChainHead(s, o, task);
    held := HeldIds(task, l.tasks.Keys, unfinished, task.dispatchGroupId.Some? && unacknowledged, awaits,
                    resuming, live);
  }

  predicate IsPrior(tasks: seq<Task>, id: TaskId) {
    var priorTaskIds := set t | t in tasks && t.priorTaskId.Some? :: t.priorTaskId.value;
    id in priorTaskIds
  }

  function HeldIds(t: Task, known: set<TaskId>, unfinished: bool, uncollected: bool, awaits: bool, resuming: bool,
                   live: bool): (held: set<TaskId>)
    requires live ==> t.priorTaskId.Some?
    ensures forall id :: id in held <==>
                         || (unfinished && id == t.taskId)
                         || (unfinished && t.taskPrerequisites.Some? && id in t.taskPrerequisites.value && id in known)
                         || (unfinished && t.parentTaskId == Some(id))
                         || ((uncollected || awaits || resuming) && id == t.taskId)
                         || (live && t.priorTaskId == Some(id))
  {
    (if unfinished then
       {t.taskId}
       + (if t.taskPrerequisites.Some? then set id | id in t.taskPrerequisites.value && id in known else {})
       + (if t.parentTaskId.Some? then {t.parentTaskId.value} else {})
     else {})
    + (if uncollected || awaits || resuming then {t.taskId} else {})
    + (if live then {t.priorTaskId.value} else {})
  }

  /** The walk that shields a live chain's history. It has no guard against coming back to a record. */
  method AddChain(task: Task, tasks: map<TaskId, Task>, before: set<TaskId>) returns (all: set<TaskId>)
    requires Ends(task, tasks)
    ensures forall id :: id in all <==> id in before || OnChain(task, tasks, id)
  {
    all := before;
    var current := Some(task);
    ghost var n: nat :| Hop(task, tasks, n).None?;
    ghost var left := n;
    while current.Some?
      invariant current.Some? ==> Hop(current.value, tasks, left).None?
      invariant all + (if current.Some? then Trail(current.value, tasks, left) else {})
                == before + Trail(task, tasks, n)
      decreases if current.Some? then left + 1 else 0
    {
      var record := current.value;
      all := all + {record.taskId};
      current := if record.priorTaskId.Some? && record.priorTaskId.value in tasks
      then Some(tasks[record.priorTaskId.value]) else None;
      left := left - 1;
    }
    forall id
      ensures id in Trail(task, tasks, n) <==> OnChain(task, tasks, id)
    {
      TrailIsChain(task, tasks, n, id);
    }
  }
}
