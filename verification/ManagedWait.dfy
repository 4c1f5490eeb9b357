/** Waiting for managed results: snapshots of a selection, and cursors that say what was already shown. */
module ManagedWait {
  import opened Outcomes
  import opened JsText
  import opened Sorting
  import Ledger

  // ---------- Results and their states ----------

  /** What waiting reads of a ledger task. */
  datatype TaskView = TaskView(taskId: Text, root: Text, terminal: bool)

  /**
   * What waiting reads of an envelope. `attention` says that the task needs its model chosen by hand or
   * was stopped and can be recovered.
   */
  datatype EnvelopeView = EnvelopeView(taskId: Text, envelopeId: Text, root: Text, sequence: nat,
                                       action: Option<Ledger.Action>, followUp: Option<Text>, autoResuming: bool,
                                       attention: bool, details: Text)

  function ViewTask(t: Ledger.Task): TaskView {
    TaskView(t.taskId, t.rootSessionId, Ledger.IsTerminal(t.status))
  }

  function ViewEnvelope(e: Ledger.Envelope, attention: bool): EnvelopeView
    requires e.sequence >= 0
  {
    EnvelopeView(e.taskId, e.envelopeId, e.rootSessionId, e.sequence, e.action, e.followUpTaskId,
                 Ledger.IsAutoResumeActive(e), attention, e.details)
  }

  datatype State = Pending | Dispositioned | Scheduled | Attention | Ready

  function CollectionState(t: TaskView, envelope: Option<EnvelopeView>): State {
    if !t.terminal || envelope.None? then Pending
    else if envelope.value.action.Some? then Dispositioned
    else if envelope.value.autoResuming then Scheduled
    else if envelope.value.attention then Attention
    else Ready
  }

  // ---------- The scope of a cursor ----------

  function TextOrder(): (atMost: (Text, Text) -> bool)
    ensures forall a, b :: atMost(a, b) <==> AtMost(a, b)
  {
    (a: Text, b: Text) => AtMost(a, b)
  }

  /** First occurrences, in order. */
  function Unique(ids: seq<Text>): (r: seq<Text>)
    ensures Distinct(r) && (forall x :: x in r <==> x in ids)
  {
    if ids == [] then []
    else
      var n := |ids| - 1;
      var rest := Unique(ids[..n]);
      assert ids == ids[..n] + [ids[n]];
      if ids[n] in rest then rest else rest + [ids[n]]
  }

  function SelectedScope(ids: seq<Text>): seq<Text> {
    Sort(Unique(ids), TextOrder())
  }

  lemma TextOrderIsTotal()
    ensures TotalPreorder(TextOrder())
  {
    var atMost := TextOrder();
    forall a, b
      ensures atMost(a, b) || atMost(b, a)
    {
      AtMostTotal(a, b);
    }
    forall a, b, c | atMost(a, b) && atMost(b, c)
      ensures atMost(a, c)
    {
      AtMostTransitive(a, b, c);
    }
  }

  lemma {:induction false} SortedSetIsUnique(a: seq<Text>, b: seq<Text>)
    requires Sorted(a, TextOrder()) && Sorted(b, TextOrder()) && Distinct(a) && Distinct(b)
    requires forall x :: x in a <==> x in b
    ensures a == b
  {
    assert b != [] ==> b[0] in a;
    if a != [] {
      assert a[0] in b && b != [] && b[0] in a;
      var i :| 0 <= i < |b| && b[i] == a[0];
      var j :| 0 <= j < |a| && a[j] == b[0];
      if i > 0 && j > 0 {
        assert TextOrder()(b[0], b[i]) && TextOrder()(a[0], a[j]);
        AtMostAntisymmetric(a[0], b[0]);
      }
      assert a[0] == b[0];
      forall x
        ensures x in a[1..] <==> x in b[1..]
      {
        TailMembers(a, x);
        TailMembers(b, x);
      }
      SortedSetIsUnique(a[1..], b[1..]);
      assert a == [a[0]] + a[1..] && b == [b[0]] + b[1..];
    }
  }

  lemma TailMembers(a: seq<Text>, x: Text)
    requires a != [] && Distinct(a)
    ensures x in a[1..] <==> x in a && x != a[0]
  {
    assert a == [a[0]] + a[1..];
    if x in a[1..] {
      var k :| 0 <= k < |a| - 1 && a[1..][k] == x;
      assert a[k + 1] == x && a[0] != a[k + 1];
    }
  }

  /** Two selections have the same scope exactly if they name the same tasks. */
  lemma ScopesAgree(a: seq<Text>, b: seq<Text>)
    ensures SelectedScope(a) == SelectedScope(b) <==> forall x :: x in a <==> x in b
  {
    TextOrderIsTotal();
    SortKeeps(Unique(a), TextOrder());
    SortKeeps(Unique(b), TextOrder());
    SortSorted(Unique(a), TextOrder());
    SortSorted(Unique(b), TextOrder());
    SortDistinct(Unique(a), TextOrder());
    SortDistinct(Unique(b), TextOrder());
    if forall x :: x in a <==> x in b {
      SortedSetIsUnique(SelectedScope(a), SelectedScope(b));
    }
    if SelectedScope(a) == SelectedScope(b) {
      forall x
        ensures x in a <==> x in b
      {
        assert x in SelectedScope(a) <==> x in Unique(a);
        assert x in SelectedScope(b) <==> x in Unique(b);
      }
    }
  }

  // ---------- Cursors ----------

  /** A cursor as the caller sends it back: nothing, the current or the legacy form, or anything else. */
  datatype Cursor =
    | NoCursor
    | Current(root: Text, sequence: nat, envelopeId: Option<Text>, scope: Option<seq<Text>>)
    | Legacy(root: Text, sequence: nat, envelopeId: Option<Text>)
    | Malformed

  datatype Failure = NotACursor | OtherRoot

  datatype Position = Position(sequence: nat, reset: bool)

  function CreateCursor(root: Text, latest: Option<EnvelopeView>, ids: seq<Text>): Cursor {
    match latest
    case None => Current(root, 0, None, Some(SelectedScope(ids)))
    case Some(e) => Current(root, e.sequence, Some(e.envelopeId), Some(SelectedScope(ids)))
  }

  /** The envelope the cursor names is still kept, at the cursor's sequence or a later one. */
  predicate Retained(envelopes: seq<EnvelopeView>, id: Option<Text>, sequence: nat) {
    exists i :: 0 <= i < |envelopes| && Some(envelopes[i].envelopeId) == id && envelopes[i].sequence >= sequence
  }

  function Resolve(cursor: Cursor, root: Text, envelopes: seq<EnvelopeView>, ids: seq<Text>)
    : Result<Position, Failure>
  {
    match cursor
    case NoCursor => Ok(Position(0, false))
    case Malformed => Err(NotACursor)
    case Legacy(r, _, _) => if r != root then Err(OtherRoot) else Ok(Position(0, true))
    case Current(r, sequence, id, scope) =>
      if r != root then Err(OtherRoot)
      else if scope != Some(SelectedScope(ids)) then Ok(Position(0, true))
      else if sequence == 0 && id == None then Ok(Position(0, false))
      else if Retained(envelopes, id, sequence) then Ok(Position(sequence, false))
      else Ok(Position(0, true))
  }

  // ---------- Snapshots ----------

  function Scoped(envelopes: seq<EnvelopeView>, root: Text): seq<EnvelopeView> {
    if envelopes == [] then []
    else
      var n := |envelopes| - 1;
      Scoped(envelopes[..n], root) + if envelopes[n].root == root then [envelopes[n]] else []
  }

  /** The envelope of a task: the last one listed. */
  function EnvelopeOf(envelopes: seq<EnvelopeView>, taskId: Text): Option<EnvelopeView> {
    if envelopes == [] then None
    else
      var n := |envelopes| - 1;
      if envelopes[n].taskId == taskId then Some(envelopes[n]) else EnvelopeOf(envelopes[..n], taskId)
  }

  /** The first envelope of a selected task with the highest sequence. */
  function Latest(envelopes: seq<EnvelopeView>, ids: seq<Text>): Option<EnvelopeView> {
    if envelopes == [] then None
    else
      var n := |envelopes| - 1;
      var best := Latest(envelopes[..n], ids);
      if envelopes[n].taskId in ids && (best.None? || envelopes[n].sequence > best.value.sequence)
      then Some(envelopes[n]) else best
  }

  datatype List = ReadyList | PendingList | UnacknowledgedList | ChangedList

  predicate Belongs(t: TaskView, envelope: Option<EnvelopeView>, after: nat, list: List) {
    var state := CollectionState(t, envelope);
    match list
    case ReadyList => state == Ready && envelope.value.sequence > after
    case PendingList => state == Pending
    case UnacknowledgedList => state == Ready
    case ChangedList =>
      envelope.Some? && envelope.value.sequence > after && (state != Dispositioned || envelope.value.followUp.Some?)
  }

  /** A task that is not simply ready, with its state. */
  datatype Flagged = Flagged(taskId: Text, state: State)

  /** A task whose result was disposed of, and how. */
  datatype Settled = Settled(taskId: Text, action: Option<Ledger.Action>, followUp: Option<Text>)

  function Listed(tasks: seq<TaskView>, envelopes: seq<EnvelopeView>, after: nat, list: List): seq<Text> {
    if tasks == [] then []
    else
      var n := |tasks| - 1;
      Listed(tasks[..n], envelopes, after, list)
      + if Belongs(tasks[n], EnvelopeOf(envelopes, tasks[n].taskId), after, list) then [tasks[n].taskId] else []
  }

  function FlaggedOf(tasks: seq<TaskView>, envelopes: seq<EnvelopeView>): seq<Flagged> {
    if tasks == [] then []
    else
      var n := |tasks| - 1;
      var state := CollectionState(tasks[n], EnvelopeOf(envelopes, tasks[n].taskId));
      FlaggedOf(tasks[..n], envelopes)
      + if state == Scheduled || state == Attention then [Flagged(tasks[n].taskId, state)] else []
  }

  function SettledOf(tasks: seq<TaskView>, envelopes: seq<EnvelopeView>): seq<Settled> {
    if tasks == [] then []
    else
      var n := |tasks| - 1;
      var envelope := EnvelopeOf(envelopes, tasks[n].taskId);
      SettledOf(tasks[..n], envelopes)
      + if CollectionState(tasks[n], envelope) == Dispositioned
        then [Settled(tasks[n].taskId, envelope.value.action, envelope.value.followUp)] else []
  }

  function IdsOf(tasks: seq<TaskView>): (ids: seq<Text>)
    ensures |ids| == |tasks| && forall i :: 0 <= i < |tasks| ==> ids[i] == tasks[i].taskId
  {
    if tasks == [] then [] else IdsOf(tasks[..|tasks| - 1]) + [tasks[|tasks| - 1].taskId]
  }

  datatype Snapshot = Snapshot(cursor: Cursor, reset: bool, ready: seq<Text>, attention: seq<Flagged>,
                               pending: seq<Text>, unacknowledged: seq<Text>, changed: seq<Text>,
                               dispositioned: seq<Settled>, available: seq<Text>)

  /** Ready results of the root outside the selection. */
  function Available(all: seq<TaskView>, root: Text, ids: seq<Text>, envelopes: seq<EnvelopeView>): seq<Text> {
    if all == [] then []
    else
      var n := |all| - 1;
      Available(all[..n], root, ids, envelopes)
      + if all[n].root == root && all[n].taskId !in ids
          && CollectionState(all[n], EnvelopeOf(envelopes, all[n].taskId)) == Ready
        then [all[n].taskId] else []
  }

  function Project(root: Text, tasks: seq<TaskView>, envelopes: seq<EnvelopeView>, cursor: Cursor, all: seq<TaskView>)
    : Result<Snapshot, Failure>
  {
    var scoped := Scoped(envelopes, root);
    var ids := IdsOf(tasks);
    match Resolve(cursor, root, scoped, ids)
    case Err(e) => Err(e)
    case Ok(p) =>
      Ok(Snapshot(CreateCursor(root, Latest(scoped, ids), ids), p.reset,
                  Listed(tasks, scoped, p.sequence, ReadyList), FlaggedOf(tasks, scoped),
                  Listed(tasks, scoped, p.sequence, PendingList), Listed(tasks, scoped, p.sequence, UnacknowledgedList),
                  Listed(tasks, scoped, p.sequence, ChangedList), SettledOf(tasks, scoped),
                  Available(all, root, ids, scoped)))
  }

  /** One pass over the selection fills every list. */
  method ProjectManagedWaitSnapshot(root: Text, tasks: seq<TaskView>, envelopes: seq<EnvelopeView>, cursor: Cursor,
                                    all: seq<TaskView>)
    returns (r: Result<Snapshot, Failure>)
    ensures r == Project(root, tasks, envelopes, cursor, all)
  {
    var scoped := Scoped(envelopes, root);
    var ids := IdsOf(tasks);
    var resolved := Resolve(cursor, root, scoped, ids);
    if resolved.Err? { return Err(resolved.error); }
    var after := resolved.value.sequence;
    var ready, attention, pending, unacknowledged, changed, dispositioned := [], [], [], [], [], [];
    for i := 0 to |tasks|
      invariant ready == Listed(tasks[..i], scoped, after, ReadyList)
      invariant attention == FlaggedOf(tasks[..i], scoped)
      invariant pending == Listed(tasks[..i], scoped, after, PendingList)
      invariant unacknowledged == Listed(tasks[..i], scoped, after, UnacknowledgedList)
      invariant changed == Listed(tasks[..i], scoped, after, ChangedList)
      invariant dispositioned == SettledOf(tasks[..i], scoped)
    {
      var task := tasks[i];
      assert tasks[..i + 1][..i] == tasks[..i];
      var envelope := EnvelopeOf(scoped, task.taskId);
      var state := CollectionState(task, envelope);
      if envelope.Some? && envelope.value.sequence > after
          && (state != Dispositioned || envelope.value.followUp.Some?) {
        changed := changed + [task.taskId];
      }
      if state == Pending { pending := pending + [task.taskId]; }
      if state == Ready {
        unacknowledged := unacknowledged + [task.taskId];
        if envelope.value.sequence > after { ready := ready + [task.taskId]; }
      }
      if state == Scheduled || state == Attention { attention := attention + [Flagged(task.taskId, state)]; }
      if state == Dispositioned {
        dispositioned := dispositioned + [Settled(task.taskId, envelope.value.action, envelope.value.followUp)];
      }
    }
    assert tasks[..|tasks|] == tasks;
    r := Ok(Snapshot(CreateCursor(root, Latest(scoped, ids), ids), resolved.value.reset, ready, attention, pending,
                     unacknowledged, changed, dispositioned, Available(all, root, ids, scoped)));
  }

  lemma {:induction false} ListedExactly(tasks: seq<TaskView>, envelopes: seq<EnvelopeView>, after: nat, list: List,
                                         id: Text)
    ensures id in Listed(tasks, envelopes, after, list)
            <==> exists i :: 0 <= i < |tasks| && tasks[i].taskId == id
                             && Belongs(tasks[i], EnvelopeOf(envelopes, id), after, list)
  {
    if tasks != [] {
      var n := |tasks| - 1;
      ListedExactly(tasks[..n], envelopes, after, list, id);
      if i :| 0 <= i < |tasks| && tasks[i].taskId == id && Belongs(tasks[i], EnvelopeOf(envelopes, id), after, list) {
        if i < n {
          assert tasks[..n][i] == tasks[i];
        }
      }
      if i :|
        0 <= i < n && tasks[..n][i].taskId == id && Belongs(tasks[..n][i], EnvelopeOf(envelopes, id), after, list) {
        assert tasks[i] == tasks[..n][i];
      }
    }
  }

  lemma {:induction false} FlaggedExactly(tasks: seq<TaskView>, envelopes: seq<EnvelopeView>, f: Flagged)
    ensures f in FlaggedOf(tasks, envelopes)
            <==> (f.state == Scheduled || f.state == Attention)
                 && exists i :: 0 <= i < |tasks| && tasks[i].taskId == f.taskId
                                && CollectionState(tasks[i], EnvelopeOf(envelopes, f.taskId)) == f.state
  {
    if tasks != [] {
      var n := |tasks| - 1;
      FlaggedExactly(tasks[..n], envelopes, f);
      forall i | 0 <= i < n
        ensures tasks[..n][i] == tasks[i]
      {
      }
    }
  }

  lemma {:induction false} SettledExactly(tasks: seq<TaskView>, envelopes: seq<EnvelopeView>, s: Settled)
    ensures s in SettledOf(tasks, envelopes)
            <==> exists i :: 0 <= i < |tasks| && tasks[i].taskId == s.taskId
                             && (var e := EnvelopeOf(envelopes, s.taskId);
                                 CollectionState(tasks[i], e) == Dispositioned
                                 && e.value.action == s.action && e.value.followUp == s.followUp)
  {
    if tasks != [] {
      var n := |tasks| - 1;
      SettledExactly(tasks[..n], envelopes, s);
      forall i | 0 <= i < n
        ensures tasks[..n][i] == tasks[i]
      {
      }
    }
  }

  ghost predicate NamedOnce(tasks: seq<TaskView>) {
    forall i, j :: 0 <= i < j < |tasks| ==> tasks[i].taskId != tasks[j].taskId
  }

  /**
   * A selected task is in the list of its state and in no list of another one; a settled one is listed
   * with its disposition. New results are among the unacknowledged ones.
   */
  lemma StatesPartition(tasks: seq<TaskView>, envelopes: seq<EnvelopeView>, after: nat, k: nat)
    requires NamedOnce(tasks) && k < |tasks|
    ensures var id, e := tasks[k].taskId, EnvelopeOf(envelopes, tasks[k].taskId);
            var state := CollectionState(tasks[k], e);
            && (id in Listed(tasks, envelopes, after, PendingList) <==> state == Pending)
            && (id in Listed(tasks, envelopes, after, UnacknowledgedList) <==> state == Ready)
            && (id in Listed(tasks, envelopes, after, ReadyList) <==> state == Ready && e.value.sequence > after)
            && (forall s :: Flagged(id, s) in FlaggedOf(tasks, envelopes) <==>
                            s == state && (s == Scheduled || s == Attention))
            && (forall a, f :: Settled(id, a, f) in SettledOf(tasks, envelopes) <==>
                               state == Dispositioned && a == e.value.action && f == e.value.followUp)
  {
    var id, e := tasks[k].taskId, EnvelopeOf(envelopes, tasks[k].taskId);
    ListedOnce(tasks, envelopes, after, PendingList, k);
    ListedOnce(tasks, envelopes, after, UnacknowledgedList, k);
    ListedOnce(tasks, envelopes, after, ReadyList, k);
    forall s
      ensures Flagged(id, s) in FlaggedOf(tasks, envelopes) <==>
              s == CollectionState(tasks[k], e) && (s == Scheduled || s == Attention)
    {
      FlaggedExactly(tasks, envelopes, Flagged(id, s));
    }
    forall a, f
      ensures Settled(id, a, f) in SettledOf(tasks, envelopes) <==>
              CollectionState(tasks[k], e) == Dispositioned && a == e.value.action && f == e.value.followUp
    {
      SettledExactly(tasks, envelopes, Settled(id, a, f));
    }
  }

  lemma ListedOnce(tasks: seq<TaskView>, envelopes: seq<EnvelopeView>, after: nat, list: List, k: nat)
    requires NamedOnce(tasks) && k < |tasks|
    ensures tasks[k].taskId in Listed(tasks, envelopes, after, list)
            <==> Belongs(tasks[k], EnvelopeOf(envelopes, tasks[k].taskId), after, list)
  {
    ListedExactly(tasks, envelopes, after, list, tasks[k].taskId);
  }

  // ---------- The scheduler's world between polls ----------

  /** Every stored envelope, the tasks that have ended, and every envelope id ever given out. */
  datatype World = World(envelopes: seq<EnvelopeView>, ended: set<Text>, used: set<Text>)

  datatype Change = End(taskId: Text) | Create(e: EnvelopeView) | Update(i: nat, e: EnvelopeView) | Evict(i: nat)

  function Highest(envelopes: seq<EnvelopeView>): (m: nat)
    ensures forall i :: 0 <= i < |envelopes| ==> envelopes[i].sequence <= m
  {
    if envelopes == [] then 0
    else
      var n := |envelopes| - 1;
      var m := Highest(envelopes[..n]);
      assert forall i :: 0 <= i < n ==> envelopes[i] == envelopes[..n][i];
      if envelopes[n].sequence > m then envelopes[n].sequence else m
  }

  /** The state an envelope gives its ended task. */
  function StateOf(e: EnvelopeView): State {
    CollectionState(TaskView(e.taskId, e.root, true), Some(e))
  }

  predicate SameCollection(a: EnvelopeView, b: EnvelopeView) {
    a.action == b.action && a.followUp == b.followUp && StateOf(a) == StateOf(b)
  }

  predicate SameIdentity(a: EnvelopeView, b: EnvelopeView) {
    a.taskId == b.taskId && a.envelopeId == b.envelopeId && a.root == b.root
  }

  predicate Holds(envelopes: seq<EnvelopeView>, taskId: Text) {
    exists i :: 0 <= i < |envelopes| && envelopes[i].taskId == taskId
  }

  /** Creation and every change that collection can see take the next sequence; bookkeeping keeps its own. */
  function Changed(w: World, c: Change): World {
    match c
    case End(t) => w.(ended := w.ended + {t})
    case Create(e) =>
      if e.taskId in w.ended && e.envelopeId !in w.used && !Holds(w.envelopes, e.taskId)
      then w.(envelopes := w.envelopes + [e.(sequence := Highest(w.envelopes) + 1)], used := w.used + {e.envelopeId})
      else w
    case Update(i, e) =>
      if i < |w.envelopes| && SameIdentity(w.envelopes[i], e)
      then
        var sequence := if SameCollection(w.envelopes[i], e) then w.envelopes[i].sequence else Highest(w.envelopes) + 1;
        w.(envelopes := w.envelopes[i := e.(sequence := sequence)])
      else w
    case Evict(i) => if i < |w.envelopes| then w.(envelopes := w.envelopes[..i] + w.envelopes[i + 1..]) else w
  }

  ghost predicate SoundAt(w: World, i: nat)
    requires i < |w.envelopes|
  {
    w.envelopes[i].sequence >= 1 && w.envelopes[i].taskId in w.ended && w.envelopes[i].envelopeId in w.used
  }

  ghost predicate Sound(w: World) {
    && (forall i :: 0 <= i < |w.envelopes| ==> SoundAt(w, i))
    && (forall i, j :: 0 <= i < j < |w.envelopes| ==>
          w.envelopes[i].taskId != w.envelopes[j].taskId && w.envelopes[i].envelopeId != w.envelopes[j].envelopeId)
  }

  lemma ChangedSound(w: World, c: Change)
    requires Sound(w)
    ensures Sound(Changed(w, c)) && w.used <= Changed(w, c).used
  {
    var v := Changed(w, c);
    forall i | 0 <= i < |v.envelopes|
      ensures SoundAt(v, i)
    {
      if c.Evict? && v != w {
        assert v.envelopes[i] == w.envelopes[if i < c.i then i else i + 1];
        assert SoundAt(w, if i < c.i then i else i + 1);
      } else if i < |w.envelopes| {
        assert SoundAt(w, i);
      }
    }
    forall i, j | 0 <= i < j < |v.envelopes|
      ensures v.envelopes[i].taskId != v.envelopes[j].taskId && v.envelopes[i].envelopeId != v.envelopes[j].envelopeId
    {
      if c.Create? && j == |w.envelopes| {
        assert SoundAt(w, i) && v.envelopes[i] == w.envelopes[i];
      }
    }
  }

  // ---------- Runs of polls ----------

  datatype Run = Start | Then(before: Run, c: Change) | Poll(before: Run)

  function WorldOf(run: Run): (w: World)
    ensures Sound(w)
  {
    match run
    case Start => World([], {}, {})
    case Then(before, c) => ChangedSound(WorldOf(before), c); Changed(WorldOf(before), c)
    case Poll(before) => WorldOf(before)
  }

  function LastPoll(run: Run): Option<Run> {
    match run
    case Start => None
    case Then(before, _) => LastPoll(before)
    case Poll(_) => Some(run)
  }

  function TasksOf(w: World, root: Text, selection: seq<Text>): (tasks: seq<TaskView>)
    ensures |tasks| == |selection|
    ensures forall i :: 0 <= i < |tasks| ==> tasks[i] == TaskView(selection[i], root, selection[i] in w.ended)
  {
    if selection == [] then []
    else
      var n := |selection| - 1;
      TasksOf(w, root, selection[..n]) + [TaskView(selection[n], root, selection[n] in w.ended)]
  }

  /** The cursor that the poll at this point hands out. */
  function CursorAfter(run: Run, root: Text, selection: seq<Text>): Cursor {
    CreateCursor(root, Latest(Scoped(WorldOf(run).envelopes, root), selection), selection)
  }

  /** The result of a poll that sends back the cursor of the poll before. */
  function PollResult(run: Run, root: Text, selection: seq<Text>): Result<Snapshot, Failure>
    requires run.Poll?
  {
    var w := WorldOf(run);
    Project(root, TasksOf(w, root, selection), w.envelopes, CursorSent(run, root, selection), [])
  }

  function CursorSent(run: Run, root: Text, selection: seq<Text>): Cursor
    requires run.Poll?
  {
    match LastPoll(run.before)
    case None => NoCursor
    case Some(last) => CursorAfter(last, root, selection)
  }

  lemma {:induction false} IdsOfTasks(w: World, root: Text, selection: seq<Text>)
    ensures IdsOf(TasksOf(w, root, selection)) == selection
  {
  }

  lemma {:induction false} ScopedHas(envelopes: seq<EnvelopeView>, root: Text, e: EnvelopeView)
    ensures e in Scoped(envelopes, root) <==> e in envelopes && e.root == root
  {
    if envelopes != [] {
      var n := |envelopes| - 1;
      ScopedHas(envelopes[..n], root, e);
      assert envelopes == envelopes[..n] + [envelopes[n]];
    }
  }

  lemma {:induction false} EnvelopeFound(envelopes: seq<EnvelopeView>, id: Text)
    ensures EnvelopeOf(envelopes, id).Some? ==>
              EnvelopeOf(envelopes, id).value in envelopes && EnvelopeOf(envelopes, id).value.taskId == id
    ensures EnvelopeOf(envelopes, id).None? ==> forall e :: e in envelopes ==> e.taskId != id
  {
    if envelopes != [] {
      var n := |envelopes| - 1;
      EnvelopeFound(envelopes[..n], id);
      assert envelopes == envelopes[..n] + [envelopes[n]];
    }
  }

  lemma {:induction false} LatestIsHighest(envelopes: seq<EnvelopeView>, ids: seq<Text>)
    ensures var best := Latest(envelopes, ids);
            && (best.Some? ==> best.value in envelopes && best.value.taskId in ids)
            && (forall e :: e in envelopes && e.taskId in ids ==> best.Some? && e.sequence <= best.value.sequence)
  {
    if envelopes != [] {
      var n := |envelopes| - 1;
      LatestIsHighest(envelopes[..n], ids);
      assert envelopes == envelopes[..n] + [envelopes[n]];
    }
  }

  /** The task's envelope of the root in this world. */
  function At(w: World, root: Text, id: Text): Option<EnvelopeView> {
    EnvelopeOf(Scoped(w.envelopes, root), id)
  }

  lemma AtFinds(w: World, root: Text, id: Text, e: EnvelopeView)
    requires Sound(w)
    ensures At(w, root, id) == Some(e) <==> e in w.envelopes && e.root == root && e.taskId == id
  {
    var scoped := Scoped(w.envelopes, root);
    EnvelopeFound(scoped, id);
    ScopedHas(w.envelopes, root, e);
    if At(w, root, id).Some? {
      ScopedHas(w.envelopes, root, At(w, root, id).value);
    }
  }

  /** The envelope is as it was: same sequence, and the same in everything collection can see. */
  ghost predicate KeptFrom(w: World, e: EnvelopeView) {
    exists i :: 0 <= i < |w.envelopes| && SameEnvelope(w.envelopes[i], e)
  }

  predicate SameEnvelope(a: EnvelopeView, e: EnvelopeView) {
    SameIdentity(a, e) && a.sequence == e.sequence && SameCollection(a, e)
  }

  predicate Names(envelopes: seq<EnvelopeView>, id: Text) {
    exists i :: 0 <= i < |envelopes| && envelopes[i].envelopeId == id
  }

  /**
   * While the envelope `a` of `from` is kept, it only grows, and everything stored is as it was or came
   * after `a`.
   */
  ghost predicate Since(from: World, a: EnvelopeView, w: World) {
    && a.envelopeId in w.used
    && (Names(w.envelopes, a.envelopeId) ==>
          && (forall i :: 0 <= i < |w.envelopes| ==>
                && KeptOrLater(from, a, w.envelopes[i])
                && (w.envelopes[i].envelopeId == a.envelopeId ==>
                      w.envelopes[i].sequence >= a.sequence && w.envelopes[i].root == a.root)))
  }

  ghost predicate KeptOrLater(from: World, a: EnvelopeView, e: EnvelopeView) {
    KeptFrom(from, e) || e.sequence > a.sequence
  }

  lemma SinceItself(w: World, a: EnvelopeView)
    requires Sound(w) && a in w.envelopes
    ensures Since(w, a, w)
  {
    var k :| 0 <= k < |w.envelopes| && w.envelopes[k] == a;
    assert SoundAt(w, k);
    forall i | 0 <= i < |w.envelopes|
      ensures KeptOrLater(w, a, w.envelopes[i])
      ensures w.envelopes[i].envelopeId == a.envelopeId ==> w.envelopes[i] == a
    {
      assert SameEnvelope(w.envelopes[i], w.envelopes[i]);
    }
  }

  lemma SinceCreate(from: World, a: EnvelopeView, w: World, e: EnvelopeView)
    requires Sound(w) && Since(from, a, w)
    ensures Since(from, a, Changed(w, Create(e)))
  {
    var v := Changed(w, Create(e));
    var n := |w.envelopes|;
    if v != w && Names(v.envelopes, a.envelopeId) {
      var k :| 0 <= k < |v.envelopes| && v.envelopes[k].envelopeId == a.envelopeId;
      assert w.envelopes[k].envelopeId == a.envelopeId;
      forall i | 0 <= i < |v.envelopes|
        ensures KeptOrLater(from, a, v.envelopes[i])
      {
        if i < n { assert v.envelopes[i] == w.envelopes[i]; }
      }
    }
  }

  lemma SinceUpdate(from: World, a: EnvelopeView, w: World, j: nat, e: EnvelopeView)
    requires Sound(w) && Since(from, a, w)
    ensures Since(from, a, Changed(w, Update(j, e)))
  {
    var v := Changed(w, Update(j, e));
    if v != w && Names(v.envelopes, a.envelopeId) {
      var k :| 0 <= k < |v.envelopes| && v.envelopes[k].envelopeId == a.envelopeId;
      assert w.envelopes[k].envelopeId == a.envelopeId;
      assert w.envelopes[k].sequence >= a.sequence;
      assert KeptOrLater(from, a, w.envelopes[j]);
      if KeptFrom(from, w.envelopes[j]) && SameCollection(w.envelopes[j], e) {
        var i :| 0 <= i < |from.envelopes| && SameEnvelope(from.envelopes[i], w.envelopes[j]);
        assert SameEnvelope(from.envelopes[i], v.envelopes[j]);
      }
      assert KeptOrLater(from, a, v.envelopes[j]);
    }
  }

  lemma SinceEvict(from: World, a: EnvelopeView, w: World, j: nat)
    requires Sound(w) && Since(from, a, w)
    ensures Since(from, a, Changed(w, Evict(j)))
  {
    var v := Changed(w, Evict(j));
    if v != w && Names(v.envelopes, a.envelopeId) {
      var k :| 0 <= k < |v.envelopes| && v.envelopes[k].envelopeId == a.envelopeId;
      assert w.envelopes[if k < j then k else k + 1].envelopeId == a.envelopeId;
      forall i | 0 <= i < |v.envelopes|
        ensures v.envelopes[i] == w.envelopes[if i < j then i else i + 1]
      {
      }
    }
  }

  lemma {:induction false} SinceLastPoll(run: Run, a: EnvelopeView)
    requires LastPoll(run).Some? && a in WorldOf(LastPoll(run).value).envelopes
    ensures Since(WorldOf(LastPoll(run).value), a, WorldOf(run))
  {
    match run
    case Poll(_) => SinceItself(WorldOf(run), a);
    case Then(before, c) =>
      SinceLastPoll(before, a);
      var from, w := WorldOf(LastPoll(run).value), WorldOf(before);
      match c {
        case End(_) =>
        case Create(e) => SinceCreate(from, a, w, e);
        case Update(j, e) => SinceUpdate(from, a, w, j, e);
        case Evict(j) => SinceEvict(from, a, w, j);
      }
  }

  /** The task's envelope is the one the poll before saw, unchanged. */
  predicate Unchanged(from: World, w: World, root: Text, id: Text) {
    && At(from, root, id).Some? && At(w, root, id).Some?
    && SameEnvelope(At(from, root, id).value, At(w, root, id).value)
  }

  /** The envelope behind the last cursor is no longer stored. */
  predicate CursorLost(run: Run, root: Text, selection: seq<Text>)
    requires run.Poll?
  {
    match LastPoll(run.before)
    case None => false
    case Some(last) =>
      match Latest(Scoped(WorldOf(last).envelopes, root), selection)
      case None => false
      case Some(a) => !Names(WorldOf(run).envelopes, a.envelopeId)
  }

  lemma RetainedExactly(run: Run, root: Text, a: EnvelopeView)
    requires LastPoll(run).Some? && a in WorldOf(LastPoll(run).value).envelopes && a.root == root
    ensures Retained(Scoped(WorldOf(run).envelopes, root), Some(a.envelopeId), a.sequence)
            <==> Names(WorldOf(run).envelopes, a.envelopeId)
  {
    var w := WorldOf(run);
    var scoped := Scoped(w.envelopes, root);
    SinceLastPoll(run, a);
    if Names(w.envelopes, a.envelopeId) {
      var k :| 0 <= k < |w.envelopes| && w.envelopes[k].envelopeId == a.envelopeId;
      ScopedHas(w.envelopes, root, w.envelopes[k]);
      var j :| 0 <= j < |scoped| && scoped[j] == w.envelopes[k];
      assert Some(scoped[j].envelopeId) == Some(a.envelopeId) && scoped[j].sequence >= a.sequence;
    }
    if Retained(scoped, Some(a.envelopeId), a.sequence) {
      var j :| 0 <= j < |scoped| && Some(scoped[j].envelopeId) == Some(a.envelopeId)
          && scoped[j].sequence >= a.sequence;
      ScopedHas(w.envelopes, root, scoped[j]);
      var k :| 0 <= k < |w.envelopes| && w.envelopes[k] == scoped[j];
      assert w.envelopes[k].envelopeId == a.envelopeId;
    }
  }

  function StartsAfter(run: Run, root: Text, selection: seq<Text>): nat
    requires run.Poll?
  {
    match LastPoll(run.before)
    case None => 0
    case Some(last) =>
      match Latest(Scoped(WorldOf(last).envelopes, root), selection)
      case None => 0
      case Some(a) => if CursorLost(run, root, selection) then 0 else a.sequence
  }

  /** Where a poll starts: at the last cursor, or afresh if there is none or its envelope is lost. */
  lemma PollResolves(run: Run, root: Text, selection: seq<Text>)
    requires run.Poll?
    ensures Resolve(CursorSent(run, root, selection), root, Scoped(WorldOf(run).envelopes, root), selection)
            == Ok(Position(StartsAfter(run, root, selection), CursorLost(run, root, selection)))
  {
    var last := LastPoll(run.before);
    if last.Some? {
      var scoped := Scoped(WorldOf(last.value).envelopes, root);
      LatestIsHighest(scoped, selection);
      var best := Latest(scoped, selection);
      if best.Some? {
        ScopedHas(WorldOf(last.value).envelopes, root, best.value);
        RetainedExactly(run.before, root, best.value);
        AtLeastOne(WorldOf(last.value), best.value);
      }
    }
  }

  lemma AtLeastOne(w: World, e: EnvelopeView)
    requires Sound(w) && e in w.envelopes
    ensures e.sequence >= 1
  {
    var k :| 0 <= k < |w.envelopes| && w.envelopes[k] == e;
    assert SoundAt(w, k);
  }

  lemma ProjectLists(root: Text, tasks: seq<TaskView>, envelopes: seq<EnvelopeView>, cursor: Cursor, all: seq<TaskView>,
                     p: Position)
    requires Resolve(cursor, root, Scoped(envelopes, root), IdsOf(tasks)) == Ok(p)
    ensures var r := Project(root, tasks, envelopes, cursor, all);
            r.Ok? && r.value.reset == p.reset
            && r.value.ready == Listed(tasks, Scoped(envelopes, root), p.sequence, ReadyList)
  {
  }

  /** Past the cursor are exactly the envelopes that are not as the last poll saw them. */
  lemma PastCursor(run: Run, root: Text, selection: seq<Text>, id: Text)
    requires run.Poll? && id in selection && At(WorldOf(run), root, id).Some?
    ensures At(WorldOf(run), root, id).value.sequence > StartsAfter(run, root, selection)
            <==> (LastPoll(run.before).None? || CursorLost(run, root, selection)
                  || !Unchanged(WorldOf(LastPoll(run.before).value), WorldOf(run), root, id))
  {
    var w := WorldOf(run);
    var e := At(w, root, id).value;
    AtFinds(w, root, id, e);
    var k :| 0 <= k < |w.envelopes| && w.envelopes[k] == e;
    assert SoundAt(w, k);
    var last := LastPoll(run.before);
    if last.Some? {
      var from := WorldOf(last.value);
      var scoped := Scoped(from.envelopes, root);
      LatestIsHighest(scoped, selection);
      var best := Latest(scoped, selection);
      if best.Some? {
        ScopedHas(from.envelopes, root, best.value);
        SinceLastPoll(run.before, best.value);
      }
      UnchangedIsOld(from, w, root, selection, id);
      if best.Some? && !CursorLost(run, root, selection) && e.sequence <= best.value.sequence {
        assert KeptOrLater(from, best.value, w.envelopes[k]);
        KeptIsUnchanged(from, w, root, id, e);
      }
    }
  }

  lemma UnchangedIsOld(from: World, w: World, root: Text, selection: seq<Text>, id: Text)
    requires Sound(from) && id in selection
    ensures Unchanged(from, w, root, id) ==>
              var best := Latest(Scoped(from.envelopes, root), selection);
              best.Some? && At(w, root, id).value.sequence <= best.value.sequence
  {
    var scoped := Scoped(from.envelopes, root);
    LatestIsHighest(scoped, selection);
    EnvelopeFound(scoped, id);
  }

  lemma KeptIsUnchanged(from: World, w: World, root: Text, id: Text, e: EnvelopeView)
    requires Sound(from) && Sound(w) && At(w, root, id) == Some(e) && KeptFrom(from, e)
    ensures Unchanged(from, w, root, id)
  {
    AtFinds(w, root, id, e);
    var i :| 0 <= i < |from.envelopes| && SameEnvelope(from.envelopes[i], e);
    AtFinds(from, root, id, from.envelopes[i]);
  }

  /**
   * Over every run of polls and changes, a ready result is listed as ready by the first poll that finds
   * it ready, and by a later one only if its envelope has changed since the poll before or the cursor's
   * envelope was lost; then the poll resets and lists every ready result, so none is skipped.
   */
  lemma EachReadyOnce(run: Run, root: Text, selection: seq<Text>, id: Text)
    requires run.Poll? && id in selection
    ensures PollResult(run, root, selection).Ok?
    ensures PollResult(run, root, selection).value.reset == CursorLost(run, root, selection)
    ensures id in PollResult(run, root, selection).value.ready <==>
              && At(WorldOf(run), root, id).Some? && StateOf(At(WorldOf(run), root, id).value) == Ready
              && (LastPoll(run.before).None? || CursorLost(run, root, selection)
                  || !Unchanged(WorldOf(LastPoll(run.before).value), WorldOf(run), root, id))
  {
    var w := WorldOf(run);
    var after := StartsAfter(run, root, selection);
    PollResolves(run, root, selection);
    IdsOfTasks(w, root, selection);
    ProjectLists(root, TasksOf(w, root, selection), w.envelopes, CursorSent(run, root, selection), [],
                 Position(after, CursorLost(run, root, selection)));
    ReadyIsListed(w, root, selection, after, id);
    if At(w, root, id).Some? {
      PastCursor(run, root, selection, id);
    }
  }

  lemma ReadyIsListed(w: World, root: Text, selection: seq<Text>, after: nat, id: Text)
    requires Sound(w) && id in selection
    ensures id in Listed(TasksOf(w, root, selection), Scoped(w.envelopes, root), after, ReadyList) <==>
              && At(w, root, id).Some? && StateOf(At(w, root, id).value) == Ready
              && At(w, root, id).value.sequence > after
  {
    var tasks := TasksOf(w, root, selection);
    ListedExactly(tasks, Scoped(w.envelopes, root), after, ReadyList, id);
    var n :| 0 <= n < |selection| && selection[n] == id;
    assert tasks[n].taskId == id;
    if At(w, root, id).Some? {
      var e := At(w, root, id).value;
      AtFinds(w, root, id, e);
      var k :| 0 <= k < |w.envelopes| && w.envelopes[k] == e;
      assert SoundAt(w, k);
    }
  }
}

/** What compaction keeps for those who wait. */
module WaitRetention {
  import opened Outcomes
  import opened Ledger
  import opened Protection
  import opened Lineage
  import opened Compaction
  import ManagedWait

  function StateOf(s: Snapshot, t: Task, attention: bool): ManagedWait.State
    requires t.taskId in LookupOf(s).envelopes ==> LookupOf(s).envelopes[t.taskId].sequence >= 0
  {
    var envelopes := LookupOf(s).envelopes;
    var view := if t.taskId in envelopes then Some(ManagedWait.ViewEnvelope(envelopes[t.taskId], attention)) else None;
    ManagedWait.CollectionState(ManagedWait.ViewTask(t), view)
  }

  /** Waiting still counts on the record: it is unfinished, resuming, or a result that may be taken up. */
  ghost predicate CountedOn(s: Snapshot, o: Policy, t: Task, attention: bool)
    requires t.taskId in LookupOf(s).envelopes ==> LookupOf(s).envelopes[t.taskId].sequence >= 0
  {
    var state := StateOf(s, t, attention);
    || !IsTerminal(t.status) || state == ManagedWait.Scheduled
    || ((state == ManagedWait.Ready || state == ManagedWait.Attention)
        && t.dispatchGroupId.Some? && StillCollectable(s, o, t.rootSessionId))
  }

  lemma CountedOnIsHeld(s: Snapshot, o: Policy, t: Task, attention: bool)
    requires UniqueTasks(s.tasks) && t in s.tasks
    requires t.taskId in LookupOf(s).envelopes ==> LookupOf(s).envelopes[t.taskId].sequence >= 0
    requires CountedOn(s, o, t, attention)
    ensures HardProtected(s, o, t.taskId)
  {
    TaskMapFinds(s.tasks, t);
    assert Holds(s, o, t, t.taskId);
  }

  lemma HeldStays(s: Snapshot, o: Policy, p: Protections, r: Compacted, t: Task)
    requires Decoded(s) && Partitions(s, r) && t in s.tasks
    requires Groupable(s.tasks, LookupOf(s)) && RespectsProtection(s, o, p, r)
    requires t.taskId in p.hard
    ensures t in r.state.tasks && t.taskId !in r.removedTaskIds && t.taskId !in r.tombstonedTaskIds
  {
  }

  /**
   * Compaction keeps whole every record that waiting counts on: one that is unfinished or resuming always,
   * and a grouped result nobody has disposed of for as long as its root may still collect.
   */
  lemma WaitedForStays(s: Snapshot, o: Policy, p: Protections, r: Compacted, t: Task, attention: bool)
    requires Decoded(s) && Partitions(s, r) && t in s.tasks
    requires Groupable(s.tasks, LookupOf(s)) && RespectsProtection(s, o, p, r)
    requires HardProtected(s, o, t.taskId) ==> t.taskId in p.hard
    requires t.taskId in LookupOf(s).envelopes ==> LookupOf(s).envelopes[t.taskId].sequence >= 0
    requires CountedOn(s, o, t, attention)
    ensures t in r.state.tasks && t.taskId !in r.removedTaskIds && t.taskId !in r.tombstonedTaskIds
  {
    CountedOnIsHeld(s, o, t, attention);
    HeldStays(s, o, p, r, t);
  }
}
