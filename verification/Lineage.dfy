/** Recovery lineages and the eager bound on their acknowledged records. */
module Lineage {
  import opened Outcomes
  import opened JsText
  import opened Ledger
  import opened Protection
  import opened Sorting

  function LineageId(rootTaskId: TaskId): Text
    requires TASK_ID_PREFIX <= rootTaskId
  {
    LINEAGE_ID_PREFIX + rootTaskId[|TASK_ID_PREFIX|..]
  }

  lemma LineageIdInjective(a: TaskId, b: TaskId)
    requires TASK_ID_PREFIX <= a && TASK_ID_PREFIX <= b
    ensures LineageId(a) == LineageId(b) <==> a == b
  {
    if LineageId(a) == LineageId(b) {
      var n := |LINEAGE_ID_PREFIX|;
      assert LineageId(a)[n..] == a[|TASK_ID_PREFIX|..];
      assert LineageId(b)[n..] == b[|TASK_ID_PREFIX|..];
      assert a == TASK_ID_PREFIX + a[|TASK_ID_PREFIX|..] && b == TASK_ID_PREFIX + b[|TASK_ID_PREFIX|..];
    }
  }

  ghost predicate WellKeyed(tasks: map<TaskId, Task>) {
    forall id :: id in tasks ==> tasks[id].taskId == id && TASK_ID_PREFIX <= id
  }

  /** The last record the guarded walk reaches; it is defined on every graph, cycles included. */
  function Oldest(current: Task, tasks: map<TaskId, Task>, seen: set<TaskId>): (r: Task)
    requires WellKeyed(tasks)
    decreases |tasks.Keys - seen|
  {
    if current.priorTaskId.Some? && current.priorTaskId.value !in seen && current.priorTaskId.value in tasks then
      var prior := tasks[current.priorTaskId.value];
      assert prior.taskId in tasks.Keys - seen;
      assert tasks.Keys - (seen + {prior.taskId}) < tasks.Keys - seen;
      StrictSubsetIsSmaller(tasks.Keys - (seen + {prior.taskId}), tasks.Keys - seen);
      Oldest(prior, tasks, seen + {prior.taskId})
    else current
  }

  lemma StrictSubsetIsSmaller<T>(a: set<T>, b: set<T>)
    requires a < b
    ensures |a| < |b|
  {
    var x :| x in b && x !in a;
    assert b == a + (b - a);
    assert |b| == |a| + |b - a|;
    assert x in b - a;
  }

  function Key(t: Task, tasks: map<TaskId, Task>): Text
    requires WellKeyed(tasks) && TASK_ID_PREFIX <= t.taskId
  {
    if t.recoveryLineageId.Some? then t.recoveryLineageId.value
    else
      OldestIsKnown(t, tasks, {t.taskId});
      LineageId(Oldest(t, tasks, {t.taskId}).taskId)
  }

  lemma {:induction false} OldestIsKnown(t: Task, tasks: map<TaskId, Task>, seen: set<TaskId>)
    requires WellKeyed(tasks) && TASK_ID_PREFIX <= t.taskId
    ensures TASK_ID_PREFIX <= Oldest(t, tasks, seen).taskId
    decreases |tasks.Keys - seen|
  {
    if t.priorTaskId.Some? && t.priorTaskId.value !in seen && t.priorTaskId.value in tasks {
      var prior := tasks[t.priorTaskId.value];
      assert prior.taskId in tasks.Keys - seen;
      StrictSubsetIsSmaller(tasks.Keys - (seen + {prior.taskId}), tasks.Keys - seen);
      OldestIsKnown(prior, tasks, seen + {prior.taskId});
    }
  }

  method LineageKeyOf(t: Task, tasks: map<TaskId, Task>) returns (key: Text)
    requires WellKeyed(tasks) && TASK_ID_PREFIX <= t.taskId
    ensures key == Key(t, tasks)
  {
    if t.recoveryLineageId.Some? { return t.recoveryLineageId.value; }
    var current := t;
    var seen := {t.taskId};
    while current.priorTaskId.Some? && current.priorTaskId.value !in seen
      invariant TASK_ID_PREFIX <= current.taskId
      invariant Oldest(current, tasks, seen) == Oldest(t, tasks, {t.taskId})
      decreases |tasks.Keys - seen|
    {
      if current.priorTaskId.value !in tasks { break; }
      var prior := tasks[current.priorTaskId.value];
      assert prior.taskId in tasks.Keys - seen;
      StrictSubsetIsSmaller(tasks.Keys - (seen + {prior.taskId}), tasks.Keys - seen);
      seen := seen + {prior.taskId};
      current := prior;
    }
    OldestIsKnown(t, tasks, {t.taskId});
    key := LineageId(current.taskId);
  }

  /**
   * In a ledger without cycles the guard never cuts a walk short: two records without a recorded
   * lineage share a key when one is the predecessor of the other.
   */
  lemma PriorSharesKey(t: Task, p: Task, tasks: map<TaskId, Task>)
    requires WellKeyed(tasks) && Descends(tasks)
    requires t.taskId in tasks && tasks[t.taskId] == t && p.taskId in tasks && tasks[p.taskId] == p
    requires t.priorTaskId == Some(p.taskId)
    requires t.recoveryLineageId.None? && p.recoveryLineageId.None?
    ensures Key(t, tasks) == Key(p, tasks)
  {
    assert Oldest(t, tasks, {t.taskId}) == Oldest(p, tasks, {t.taskId} + {p.taskId});
    SeenAboveIsIrrelevant(p, tasks, {t.taskId} + {p.taskId}, {p.taskId});
  }

  lemma {:induction false} SeenAboveIsIrrelevant(t: Task, tasks: map<TaskId, Task>, a: set<TaskId>, b: set<TaskId>)
    requires WellKeyed(tasks) && Descends(tasks) && t.taskId in tasks && tasks[t.taskId] == t
    requires forall id :: id in a + b ==> id in tasks && tasks[id].sequence >= t.sequence
    ensures Oldest(t, tasks, a) == Oldest(t, tasks, b)
    decreases t.sequence
  {
    if t.priorTaskId.Some? && t.priorTaskId.value in tasks {
      var prior := tasks[t.priorTaskId.value];
      SeenAboveIsIrrelevant(prior, tasks, a + {prior.taskId}, b + {prior.taskId});
    }
  }

  // ---------- The eager bound ----------

  /** An acknowledged terminal record that is neither hard-protected nor already a tombstone. */
  predicate Bounded(t: Task, envelopes: map<TaskId, Envelope>, hard: set<TaskId>) {
    && IsTerminal(t.status) && t.taskId !in hard && !IsTombstone(t)
    && t.taskId in envelopes && envelopes[t.taskId].action.Some?
  }

  /** The bounded records of one lineage, in ledger order. */
  function Members(tasks: seq<Task>, l: Lookup, hard: set<TaskId>, key: Text): seq<Task>
    requires WellKeyed(l.tasks)
    requires forall t :: t in tasks ==> TASK_ID_PREFIX <= t.taskId
  {
    if tasks == [] then []
    else
      var n := |tasks| - 1;
      assert forall t :: t in tasks[..n] ==> t in tasks;
      Members(tasks[..n], l, hard, key)
      + (if Bounded(tasks[n], l.envelopes, hard) && Key(tasks[n], l.tasks) == key then [tasks[n]] else [])
  }

  lemma {:induction false} MembersAre(tasks: seq<Task>, l: Lookup, hard: set<TaskId>, key: Text)
    requires WellKeyed(l.tasks)
    requires forall t :: t in tasks ==> TASK_ID_PREFIX <= t.taskId
    ensures forall t :: t in Members(tasks, l, hard, key) <==>
                        t in tasks && Bounded(t, l.envelopes, hard) && Key(t, l.tasks) == key
  {
    if tasks != [] {
      var n := |tasks| - 1;
      assert forall t :: t in tasks <==> t in tasks[..n] || t == tasks[n];
      MembersAre(tasks[..n], l, hard, key);
    }
  }

  /** All but the newest three, oldest first. */
  function Excess(members: seq<Task>, collation: TaskId -> int): seq<Task> {
    Surplus(members, ByAge(collation), MAX_RETAINED_LINEAGE_RECORDS)
  }

  ghost predicate Groupable(tasks: seq<Task>, l: Lookup) {
    WellKeyed(l.tasks) && forall t :: t in tasks ==> TASK_ID_PREFIX <= t.taskId
  }

  /** The record is one of its lineage's surplus records. */
  ghost predicate EagerlyRemoved(tasks: seq<Task>, l: Lookup, hard: set<TaskId>, collation: TaskId -> int, t: Task)
    requires Groupable(tasks, l)
  {
    t in tasks && t in Excess(Members(tasks, l, hard, Key(t, l.tasks)), collation)
  }

  method GroupByLineage(tasks: seq<Task>, l: Lookup, hard: set<TaskId>)
    returns (keys: seq<Text>, lineages: map<Text, seq<Task>>)
    requires Groupable(tasks, l)
    ensures forall k :: k in keys ==> k in lineages
    ensures forall k :: k in lineages ==> lineages[k] == Members(tasks, l, hard, k)
    ensures forall k :: k !in keys ==> Members(tasks, l, hard, k) == []
  {
    lineages := map[];
    keys := [];
    for i := 0 to |tasks|
      invariant forall t :: t in tasks[..i] ==> t in tasks
      invariant forall k :: k in lineages <==> k in keys
      invariant forall k :: k in lineages ==> lineages[k] == Members(tasks[..i], l, hard, k)
      invariant forall k :: k !in lineages ==> Members(tasks[..i], l, hard, k) == []
    {
      var task := tasks[i];
      assert tasks[..i + 1][..i] == tasks[..i];
      assert forall t :: t in tasks[..i + 1] ==> t in tasks;
      if Bounded(task, l.envelopes, hard) {
        var key := LineageKeyOf(task, l.tasks);
        var members := if key in lineages then lineages[key] else [];
        if key !in lineages { keys := keys + [key]; }
        lineages := lineages[key := members + [task]];
      }
    }
    assert tasks[..|tasks|] == tasks;
  }

  method CollectEagerLineageRemovals(tasks: seq<Task>, l: Lookup, hard: set<TaskId>, collation: TaskId -> int)
    returns (removals: seq<Task>)
    requires Groupable(tasks, l)
    ensures forall t :: t in removals <==> EagerlyRemoved(tasks, l, hard, collation, t)
  {
    var keys, lineages := GroupByLineage(tasks, l, hard);
    removals := [];
    for i := 0 to |keys|
      invariant forall t :: t in removals <==>
                            exists j :: 0 <= j < i && t in Excess(lineages[keys[j]], collation)
    {
      removals := removals + Excess(lineages[keys[i]], collation);
    }
    forall t
      ensures t in removals <==> EagerlyRemoved(tasks, l, hard, collation, t)
    {
      SurplusOfSomeLineage(tasks, l, hard, collation, keys, t);
    }
  }

  lemma SurplusOfSomeLineage(tasks: seq<Task>, l: Lookup, hard: set<TaskId>, collation: TaskId -> int,
                             keys: seq<Text>, t: Task)
    requires Groupable(tasks, l)
    requires forall k :: k !in keys ==> Members(tasks, l, hard, k) == []
    ensures (exists j :: 0 <= j < |keys| && t in Excess(Members(tasks, l, hard, keys[j]), collation))
            <==> EagerlyRemoved(tasks, l, hard, collation, t)
  {
    if j :| 0 <= j < |keys| && t in Excess(Members(tasks, l, hard, keys[j]), collation) {
      ExcessAreMembers(tasks, l, hard, keys[j], collation, t);
    }
    if EagerlyRemoved(tasks, l, hard, collation, t) {
      var key := Key(t, l.tasks);
      SurplusSplits(Members(tasks, l, hard, key), ByAge(collation), MAX_RETAINED_LINEAGE_RECORDS);
      assert t in Members(tasks, l, hard, key);
      var j :| 0 <= j < |keys| && keys[j] == key;
    }
  }

  lemma ExcessAreMembers(tasks: seq<Task>, l: Lookup, hard: set<TaskId>, key: Text, collation: TaskId -> int, t: Task)
    requires Groupable(tasks, l)
    requires t in Excess(Members(tasks, l, hard, key), collation)
    ensures t in tasks && Bounded(t, l.envelopes, hard) && Key(t, l.tasks) == key
  {
    SurplusSplits(Members(tasks, l, hard, key), ByAge(collation), MAX_RETAINED_LINEAGE_RECORDS);
    MembersAre(tasks, l, hard, key);
  }

  /** Every surplus record is at least as old as every record its lineage keeps. */
  lemma SurplusIsOldest(tasks: seq<Task>, l: Lookup, hard: set<TaskId>, collation: TaskId -> int, gone: Task,
                        kept: Task)
    requires Groupable(tasks, l)
    requires EagerlyRemoved(tasks, l, hard, collation, gone)
    requires kept in tasks && !EagerlyRemoved(tasks, l, hard, collation, kept) && Bounded(kept, l.envelopes, hard)
    requires Key(kept, l.tasks) == Key(gone, l.tasks)
    ensures OldestFirst(collation, gone, kept)
  {
    var members := Members(tasks, l, hard, Key(gone, l.tasks));
    MembersAre(tasks, l, hard, Key(gone, l.tasks));
    ByAgeIsTotal(collation);
    SurplusIsSmallest(members, ByAge(collation), MAX_RETAINED_LINEAGE_RECORDS, gone, kept);
    assert ByAge(collation)(gone, kept);
  }

  /** At most three records of a lineage escape the eager pass. */
  lemma LineageBound(tasks: seq<Task>, l: Lookup, hard: set<TaskId>, collation: TaskId -> int, key: Text,
                     survivors: set<TaskId>)
    requires Groupable(tasks, l)
    requires forall id :: id in survivors ==>
                            exists t :: t in tasks && t.taskId == id && Bounded(t, l.envelopes, hard)
                                        && Key(t, l.tasks) == key && !EagerlyRemoved(tasks, l, hard, collation, t)
    ensures |survivors| <= MAX_RETAINED_LINEAGE_RECORDS
  {
    var members := Members(tasks, l, hard, key);
    MembersAre(tasks, l, hard, key);
    SurplusSplits(members, ByAge(collation), MAX_RETAINED_LINEAGE_RECORDS);
    var newest := Largest(members, ByAge(collation), MAX_RETAINED_LINEAGE_RECORDS);
    forall id | id in survivors
      ensures id in set t | t in newest :: t.taskId
    {
      var t :| t in tasks && t.taskId == id && Bounded(t, l.envelopes, hard)
               && Key(t, l.tasks) == key && !EagerlyRemoved(tasks, l, hard, collation, t);
      assert t in newest;
    }
    IdsAtMost(newest);
    SubsetIsNoLarger(survivors, set t | t in newest :: t.taskId);
  }

  lemma {:induction false} IdsAtMost(tasks: seq<Task>)
    ensures |set t | t in tasks :: t.taskId| <= |tasks|
  {
    if tasks != [] {
      IdsAtMost(tasks[1..]);
      var rest := set t | t in tasks[1..] :: t.taskId;
      assert (set t | t in tasks :: t.taskId) == {tasks[0].taskId} + rest by {
        assert tasks == [tasks[0]] + tasks[1..];
      }
    }
  }

  lemma SubsetIsNoLarger<T>(a: set<T>, b: set<T>)
    requires a <= b
    ensures |a| <= |b|
  {
    assert b == a + (b - a);
    assert |b| == |a| + |b - a|;
  }
}
