/**
 * Connection recovery of a managed child: reserve in the durable record, look again, post, mark
 * submitted. Any number of executors may hold an old copy of the receipt, and each may stop anywhere.
 */
module TransportRecovery {
  import opened Outcomes

  // ---------- The durable receipt ----------

  datatype Phase = BackupPending | Reserved | Submitted | Recovered | Exhausted | Uncertain | Blocked

  datatype Receipt = Receipt(revision: nat, phase: Phase, sameModelAttempts: nat, backupAttempts: nat, messageId: nat)

  /** A managed task as stored. `epoch` names the receipt it carries: an automatic backup inherits it. */
  datatype Record = Record(epoch: nat, lease: nat, terminal: bool, acknowledged: bool, receipt: Option<Receipt>)

  /** One recovery prompt of a receipt, for the same model or for the backup. */
  datatype Message = Message(epoch: nat, backup: bool, id: nat)

  datatype Stage = Watching | Sending(m: Message) | Checked(m: Message) | Posted | Ended

  /** One execution of a task: its lease, its copy of the receipt, and how far its send has come. */
  datatype Worker = Worker(task: nat, lease: nat, memory: Option<Receipt>, stage: Stage)

  /** `reserved` and `posts` record every reservation that was stored and every prompt that was sent. */
  datatype System = System(records: seq<Record>, workers: seq<Worker>, reserved: seq<Message>, posts: seq<Message>,
                           epochs: nat, ids: nat)

  function RevisionOf(receipt: Option<Receipt>): nat {
    match receipt case None => 0 case Some(r) => r.revision
  }

  function BackupsOf(receipt: Option<Receipt>): nat {
    match receipt case None => 0 case Some(r) => r.backupAttempts
  }

  /** The durable compare-and-set: same lease, next revision, unfinished task, no attempt given back. */
  predicate Accepts(r: Record, lease: nat, expected: nat, next: Receipt) {
    && next.sameModelAttempts == 1 && next.backupAttempts <= 1 && next.revision == expected + 1
    && !r.terminal && r.lease == lease && RevisionOf(r.receipt) == expected
    && BackupsOf(r.receipt) <= next.backupAttempts
  }

  function WithPhase(memory: Receipt, phase: Phase): Receipt {
    memory.(revision := memory.revision + 1, phase := phase)
  }

  /** The write goes through, unless the host is shutting down or keeps no receipts. */
  predicate Stores(s: System, w: nat, next: Receipt, trouble: bool)
    requires w < |s.workers| && s.workers[w].task < |s.records|
  {
    var worker := s.workers[w];
    !trouble && Accepts(s.records[worker.task], worker.lease, RevisionOf(worker.memory), next)
  }

  function Stored(s: System, w: nat, next: Receipt, stage: Stage): System
    requires w < |s.workers| && s.workers[w].task < |s.records|
  {
    var t := s.workers[w].task;
    s.(records := s.records[t := s.records[t].(receipt := Some(next))],
       workers := s.workers[w := s.workers[w].(memory := Some(next), stage := stage)])
  }

  function Moved(s: System, w: nat, stage: Stage): System
    requires w < |s.workers|
  {
    s.(workers := s.workers[w := s.workers[w].(stage := stage)])
  }

  // ---------- The steps ----------

  datatype Verdict = Clear | Superseded | Stopped

  /** What becomes of the prompt call: it is never made, it is answered, or nobody knows. */
  datatype Outcome = Withheld | Delivered | Ambiguous

  datatype Step =
    | Submit
    | Launch(task: nat)
    | Reserve(w: nat, backup: bool, trouble: bool)
    | Recheck(w: nat, verdict: Verdict, trouble: bool)
    | Post(w: nat, outcome: Outcome)
    | MarkSubmitted(w: nat, trouble: bool)
    | Observe(w: nat, phase: Phase, trouble: bool)
    | Unsent(w: nat, parent: nat, trouble: bool)
    | Crash(w: nat)
    | Settle(task: nat)
    | FollowUp(task: nat)
    | Retry(task: nat)

  const EMPTY := System([], [], [], [], 0, 0)

  function NewTask(s: System): System {
    s.(records := s.records + [Record(s.epochs, 0, false, false, None)], epochs := s.epochs + 1)
  }

  /** A fresh lease; the executor starts from the stored receipt. */
  function Launched(s: System, t: nat): System
    requires t < |s.records|
  {
    var lease := s.records[t].lease + 1;
    s.(records := s.records[t := s.records[t].(lease := lease)],
       workers := s.workers + [Worker(t, lease, s.records[t].receipt, Watching)])
  }

  /** Only a task without a receipt gets a same-model prompt, only a pending backup a backup prompt. */
  predicate MayReserve(worker: Worker, backup: bool) {
    && worker.stage.Watching?
    && if backup then worker.memory.Some? && worker.memory.value.phase.BackupPending? else worker.memory.None?
  }

  function Reservation(s: System, w: nat, backup: bool): Receipt
    requires w < |s.workers|
  {
    Receipt(RevisionOf(s.workers[w].memory) + 1, Reserved, 1, if backup then 1 else 0, s.ids)
  }

  function ReserveStep(s: System, w: nat, backup: bool, trouble: bool): System
    requires w < |s.workers| && s.workers[w].task < |s.records|
  {
    var next := Reservation(s, w, backup);
    var m := Message(s.records[s.workers[w].task].epoch, backup, s.ids);
    if !MayReserve(s.workers[w], backup) then s
    else if Stores(s, w, next, trouble)
    then Stored(s, w, next, Sending(m)).(reserved := s.reserved + [m], ids := s.ids + 1)
    else Moved(s, w, Ended)
  }

  /** The look before the prompt: anything newer in the conversation blocks it for good. */
  function RecheckStep(s: System, w: nat, verdict: Verdict, trouble: bool): System
    requires w < |s.workers| && s.workers[w].task < |s.records|
  {
    var worker := s.workers[w];
    if !worker.stage.Sending? then s
    else match verdict
      case Clear => Moved(s, w, Checked(worker.stage.m))
      case Stopped => Moved(s, w, Watching)
      case Superseded => PhaseStep(s, w, Blocked, trouble, Ended, Watching)
  }

  /** Stores a new phase; `stored` and `refused` say where the worker goes on. */
  function PhaseStep(s: System, w: nat, phase: Phase, trouble: bool, stored: Stage, refused: Stage): System
    requires w < |s.workers| && s.workers[w].task < |s.records|
  {
    var worker := s.workers[w];
    if worker.memory.None? then Moved(s, w, refused)
    else if Stores(s, w, WithPhase(worker.memory.value, phase), trouble)
    then Stored(s, w, WithPhase(worker.memory.value, phase), stored)
    else Moved(s, w, refused)
  }

  function PostStep(s: System, w: nat, outcome: Outcome): System
    requires w < |s.workers|
  {
    var stage := s.workers[w].stage;
    if !stage.Checked? then s
    else match outcome
      case Withheld => Moved(s, w, Watching)
      case Delivered => Moved(s, w, Posted).(posts := s.posts + [stage.m])
      case Ambiguous => Moved(s, w, Watching).(posts := s.posts + [stage.m])
  }

  function ObserveStep(s: System, w: nat, phase: Phase, trouble: bool): System
    requires w < |s.workers| && s.workers[w].task < |s.records|
  {
    if s.workers[w].stage.Watching? && s.workers[w].memory.Some?
       && (phase.Blocked? || phase.Uncertain? || phase.Recovered? || phase.Exhausted?)
    then PhaseStep(s, w, phase, trouble, Ended, Ended)
    else s
  }

  /** A configuration failure spends the same-model attempt without a prompt. */
  function UnsentStep(s: System, w: nat, parent: nat, trouble: bool): System
    requires w < |s.workers| && s.workers[w].task < |s.records|
  {
    var next := Receipt(1, Exhausted, 1, 0, parent);
    if !(s.workers[w].stage.Watching? && s.workers[w].memory.None?) then s
    else if Stores(s, w, next, trouble) then Stored(s, w, next, Ended)
    else Moved(s, w, Ended)
  }

  predicate BackupEligible(r: Record) {
    && r.terminal && !r.acknowledged && r.receipt.Some? && r.receipt.value.phase.Exhausted?
    && r.receipt.value.sameModelAttempts == 1 && r.receipt.value.backupAttempts == 0
  }

  /** The scheduler's one automatic backup: a new task that carries the receipt on. */
  function FollowedUp(s: System, t: nat): System
    requires t < |s.records| && BackupEligible(s.records[t])
  {
    var r := s.records[t];
    var next := r.receipt.value.(revision := r.receipt.value.revision + 1, phase := BackupPending, backupAttempts := 1);
    s.(records := s.records[t := r.(acknowledged := true)] + [Record(r.epoch, 0, false, false, Some(next))])
  }

  function Apply(s: System, step: Step): System
    requires Rooted(s)
  {
    match step
    case Submit => NewTask(s)
    case Launch(t) => if t < |s.records| && !s.records[t].terminal then Launched(s, t) else s
    case Reserve(w, backup, trouble) => if w < |s.workers| then ReserveStep(s, w, backup, trouble) else s
    case Recheck(w, verdict, trouble) => if w < |s.workers| then RecheckStep(s, w, verdict, trouble) else s
    case Post(w, outcome) => if w < |s.workers| then PostStep(s, w, outcome) else s
    case MarkSubmitted(w, trouble) =>
      if w < |s.workers| && s.workers[w].stage.Posted?
      then PhaseStep(s, w, Submitted, trouble, Watching, Watching) else s
    case Observe(w, phase, trouble) => if w < |s.workers| then ObserveStep(s, w, phase, trouble) else s
    case Unsent(w, parent, trouble) => if w < |s.workers| then UnsentStep(s, w, parent, trouble) else s
    case Crash(w) => if w < |s.workers| then Moved(s, w, Ended) else s
    case Settle(t) =>
      if t < |s.records| then s.(records := s.records[t := s.records[t].(terminal := true)]) else s
    case FollowUp(t) => if t < |s.records| && BackupEligible(s.records[t]) then FollowedUp(s, t) else s
    case Retry(t) =>
      if t < |s.records| && s.records[t].terminal && !s.records[t].acknowledged
      then NewTask(s.(records := s.records[t := s.records[t].(acknowledged := true)])) else s
  }

  /** Every execution belongs to a task. */
  ghost predicate Rooted(s: System) {
    forall w :: 0 <= w < |s.workers| ==> s.workers[w].task < |s.records|
  }

  // ---------- Budgets ----------

  function Count(ms: seq<Message>, epoch: nat, backup: bool): nat {
    if ms == [] then 0
    else Count(ms[..|ms| - 1], epoch, backup)
         + (if ms[|ms| - 1].epoch == epoch && ms[|ms| - 1].backup == backup then 1 else 0)
  }

  /** The record still allows a reservation of this kind, now or through a later backup. */
  predicate Open(r: Record, epoch: nat, backup: bool) {
    && r.epoch == epoch
    && match r.receipt
       case None => !backup || !r.acknowledged
       case Some(c) => backup && (c.phase.BackupPending? || (c.backupAttempts == 0 && !r.acknowledged))
  }

  /** The worker holds a reservation that it has not posted yet. */
  predicate Carries(w: Worker, epoch: nat, backup: bool) {
    (w.stage.Sending? || w.stage.Checked?) && w.stage.m.epoch == epoch && w.stage.m.backup == backup
  }

  function Openings(rs: seq<Record>, epoch: nat, backup: bool): nat {
    if rs == [] then 0
    else Openings(rs[..|rs| - 1], epoch, backup) + if Open(rs[|rs| - 1], epoch, backup) then 1 else 0
  }

  function Carried(ws: seq<Worker>, epoch: nat, backup: bool): nat {
    if ws == [] then 0
    else Carried(ws[..|ws| - 1], epoch, backup) + if Carries(ws[|ws| - 1], epoch, backup) then 1 else 0
  }

  function Bit(b: bool): nat {
    if b then 1 else 0
  }

  lemma {:induction false} OpeningsSet(rs: seq<Record>, t: nat, r: Record, epoch: nat, backup: bool)
    requires t < |rs|
    ensures Openings(rs[t := r], epoch, backup) + Bit(Open(rs[t], epoch, backup))
            == Openings(rs, epoch, backup) + Bit(Open(r, epoch, backup))
  {
    var n := |rs| - 1;
    if t < n {
      OpeningsSet(rs[..n], t, r, epoch, backup);
      assert rs[t := r][..n] == rs[..n][t := r];
    } else {
      assert rs[t := r][..n] == rs[..n];
    }
  }

  lemma {:induction false} CarriedSet(ws: seq<Worker>, i: nat, w: Worker, epoch: nat, backup: bool)
    requires i < |ws|
    ensures Carried(ws[i := w], epoch, backup) + Bit(Carries(ws[i], epoch, backup))
            == Carried(ws, epoch, backup) + Bit(Carries(w, epoch, backup))
  {
    var n := |ws| - 1;
    if i < n {
      CarriedSet(ws[..n], i, w, epoch, backup);
      assert ws[i := w][..n] == ws[..n][i := w];
    } else {
      assert ws[i := w][..n] == ws[..n];
    }
  }

  lemma Appended(rs: seq<Record>, r: Record, ws: seq<Worker>, w: Worker, ms: seq<Message>, m: Message,
                 epoch: nat, backup: bool)
    ensures Openings(rs + [r], epoch, backup) == Openings(rs, epoch, backup) + Bit(Open(r, epoch, backup))
    ensures Carried(ws + [w], epoch, backup) == Carried(ws, epoch, backup) + Bit(Carries(w, epoch, backup))
    ensures Count(ms + [m], epoch, backup) == Count(ms, epoch, backup) + Bit(m.epoch == epoch && m.backup == backup)
  {
    assert (rs + [r])[..|rs|] == rs && (ws + [w])[..|ws|] == ws && (ms + [m])[..|ms|] == ms;
  }

  lemma {:induction false} NothingOpen(rs: seq<Record>, epoch: nat, backup: bool)
    requires forall t :: 0 <= t < |rs| ==> !Open(rs[t], epoch, backup)
    ensures Openings(rs, epoch, backup) == 0
  {
    if rs != [] {
      NothingOpen(rs[..|rs| - 1], epoch, backup);
    }
  }

  lemma {:induction false} NothingCarried(ws: seq<Worker>, epoch: nat, backup: bool)
    requires forall w :: 0 <= w < |ws| ==> !Carries(ws[w], epoch, backup)
    ensures Carried(ws, epoch, backup) == 0
  {
    if ws != [] {
      NothingCarried(ws[..|ws| - 1], epoch, backup);
    }
  }

  lemma {:induction false} NothingCounted(ms: seq<Message>, epoch: nat, backup: bool)
    requires forall i :: 0 <= i < |ms| ==> ms[i].epoch != epoch
    ensures Count(ms, epoch, backup) == 0
  {
    if ms != [] {
      NothingCounted(ms[..|ms| - 1], epoch, backup);
    }
  }

  // ---------- The shape every run keeps ----------

  /** A source that has handed its receipt on to an automatic backup. */
  predicate Passed(r: Record) {
    && r.terminal && r.acknowledged && r.receipt.Some?
    && r.receipt.value.phase.Exhausted? && r.receipt.value.backupAttempts == 0
  }

  predicate Inherited(r: Record) {
    r.receipt.Some? && r.receipt.value.backupAttempts == 1
  }

  /** A copy is older than the stored receipt, or it is the stored receipt. */
  predicate CopyOf(memory: Option<Receipt>, stored: Option<Receipt>) {
    memory.Some? ==>
      && stored.Some? && 1 <= memory.value.revision <= stored.value.revision
      && (memory.value.revision == stored.value.revision ==> memory == stored)
  }

  ghost predicate RecordsSound(s: System) {
    && (forall t :: 0 <= t < |s.records| ==>
          s.records[t].epoch < s.epochs && (s.records[t].receipt.Some? ==> s.records[t].receipt.value.revision >= 1))
    && (forall i, j :: 0 <= i < j < |s.records| && s.records[i].epoch == s.records[j].epoch
          ==> Passed(s.records[i]) && Inherited(s.records[j]))
  }

  ghost predicate WorkersSound(s: System)
    requires Rooted(s)
  {
    forall w :: 0 <= w < |s.workers| ==>
      && CopyOf(s.workers[w].memory, s.records[s.workers[w].task].receipt)
      && (s.workers[w].stage.Sending? || s.workers[w].stage.Checked? ==> s.workers[w].stage.m in s.reserved)
  }

  ghost predicate MessagesSound(s: System) {
    && (forall m :: m in s.reserved ==> m.epoch < s.epochs && m.id < s.ids)
    && (forall m :: m in s.posts ==> m in s.reserved)
  }

  ghost predicate Sound(s: System) {
    Rooted(s) && RecordsSound(s) && WorkersSound(s) && MessagesSound(s)
  }

  lemma MovedSound(s: System, w: nat, stage: Stage)
    requires Sound(s) && w < |s.workers|
    requires stage.Sending? || stage.Checked? ==> stage.m in s.reserved
    ensures Sound(Moved(s, w, stage))
  {
  }

  /** A write by a worker whose lease and revision are current. */
  lemma StoredSound(s: System, w: nat, next: Receipt, stage: Stage)
    requires Sound(s) && w < |s.workers| && !stage.Sending? && !stage.Checked?
    requires Stores(s, w, next, false)
    ensures Sound(Stored(s, w, next, stage))
  {
    StoredRecordsSound(s, w, next, stage);
  }

  lemma StoredRecordsSound(s: System, w: nat, next: Receipt, stage: Stage)
    requires Sound(s) && w < |s.workers| && Stores(s, w, next, false)
    ensures RecordsSound(Stored(s, w, next, stage))
    ensures s.records[s.workers[w].task].receipt.Some? ==> !Passed(s.records[s.workers[w].task])
  {
    var t := s.workers[w].task;
    var rs := Stored(s, w, next, stage).records;
    forall i, j | 0 <= i < j < |rs| && rs[i].epoch == rs[j].epoch
      ensures Passed(rs[i]) && Inherited(rs[j])
    {
      assert Passed(s.records[i]) && Inherited(s.records[j]);
      assert i != t;
    }
  }

  lemma ReserveSound(s: System, w: nat, backup: bool, trouble: bool)
    requires Sound(s) && w < |s.workers|
    ensures Sound(ReserveStep(s, w, backup, trouble))
  {
    var next := Reservation(s, w, backup);
    if MayReserve(s.workers[w], backup) && Stores(s, w, next, trouble) {
      StoredRecordsSound(s, w, next, Ended);
      var m := Message(s.records[s.workers[w].task].epoch, backup, s.ids);
      assert m in s.reserved + [m];
    }
  }

  lemma NewTaskSound(s: System)
    requires Sound(s)
    ensures Sound(NewTask(s))
  {
  }

  lemma FollowUpSound(s: System, t: nat)
    requires Sound(s) && t < |s.records| && BackupEligible(s.records[t])
    ensures Sound(FollowedUp(s, t))
  {
    var rs := FollowedUp(s, t).records;
    var n := |s.records|;
    forall i, j | 0 <= i < j < |rs| && rs[i].epoch == rs[j].epoch
      ensures Passed(rs[i]) && Inherited(rs[j])
    {
      if j < n {
        assert Passed(s.records[i]) && Inherited(s.records[j]);
      }
    }
  }

  lemma RetryRecordSound(s: System, t: nat)
    requires Sound(s) && t < |s.records|
    ensures Sound(s.(records := s.records[t := s.records[t].(acknowledged := true)]))
    ensures Sound(s.(records := s.records[t := s.records[t].(terminal := true)]))
  {
  }

  lemma LaunchSound(s: System, t: nat)
    requires Sound(s) && t < |s.records|
    ensures Sound(Launched(s, t))
  {
  }

  lemma UnsentSound(s: System, w: nat, parent: nat, trouble: bool)
    requires Sound(s) && w < |s.workers|
    ensures Sound(UnsentStep(s, w, parent, trouble))
  {
    var next := Receipt(1, Exhausted, 1, 0, parent);
    MovedSound(s, w, Ended);
    if Stores(s, w, next, trouble) { StoredSound(s, w, next, Ended); }
  }

  lemma RecheckSound(s: System, w: nat, verdict: Verdict, trouble: bool)
    requires Sound(s) && w < |s.workers|
    ensures Sound(RecheckStep(s, w, verdict, trouble))
  {
    if s.workers[w].stage.Sending? {
      match verdict
      case Clear => MovedSound(s, w, Checked(s.workers[w].stage.m));
      case Stopped => MovedSound(s, w, Watching);
      case Superseded => PhaseSound(s, w, Blocked, trouble, Ended, Watching);
    }
  }

  lemma WorkerStepSound(s: System, step: Step)
    requires Sound(s) && !step.Submit? && !step.Launch? && !step.Settle? && !step.FollowUp? && !step.Retry?
    requires step.w < |s.workers|
    ensures Sound(Apply(s, step))
  {
    var w := step.w;
    match step
    case Reserve(_, backup, trouble) => ReserveSound(s, w, backup, trouble);
    case Recheck(_, verdict, trouble) => RecheckSound(s, w, verdict, trouble);
    case Post(_, outcome) => PostSound(s, w, outcome);
    case MarkSubmitted(_, trouble) => PhaseSound(s, w, Submitted, trouble, Watching, Watching);
    case Observe(_, phase, trouble) => PhaseSound(s, w, phase, trouble, Ended, Ended);
    case Unsent(_, parent, trouble) => UnsentSound(s, w, parent, trouble);
    case Crash(_) => MovedSound(s, w, Ended);
  }

  /** Every step keeps the shape. */
  lemma ApplySound(s: System, step: Step)
    requires Sound(s)
    ensures Sound(Apply(s, step))
  {
    match step
    case Submit => NewTaskSound(s);
    case Launch(t) => if t < |s.records| { LaunchSound(s, t); }
    case Settle(t) => if t < |s.records| { RetryRecordSound(s, t); }
    case FollowUp(t) => if t < |s.records| && BackupEligible(s.records[t]) { FollowUpSound(s, t); }
    case Retry(t) =>
      if t < |s.records| {
        RetryRecordSound(s, t);
        NewTaskSound(s.(records := s.records[t := s.records[t].(acknowledged := true)]));
      }
    case _ => if step.w < |s.workers| { WorkerStepSound(s, step); }
  }

  lemma PhaseSound(s: System, w: nat, phase: Phase, trouble: bool, stored: Stage, refused: Stage)
    requires Sound(s) && w < |s.workers|
    requires !stored.Sending? && !stored.Checked? && !refused.Sending? && !refused.Checked?
    ensures Sound(PhaseStep(s, w, phase, trouble, stored, refused))
  {
    MovedSound(s, w, refused);
    if s.workers[w].memory.Some? && Stores(s, w, WithPhase(s.workers[w].memory.value, phase), trouble) {
      StoredSound(s, w, WithPhase(s.workers[w].memory.value, phase), stored);
    }
  }

  lemma PostSound(s: System, w: nat, outcome: Outcome)
    requires Sound(s) && w < |s.workers|
    ensures Sound(PostStep(s, w, outcome))
  {
    MovedSound(s, w, Watching);
    MovedSound(s, w, Posted);
  }

  // ---------- What a step spends ----------

  /**
   * A reservation uses up an opening, and a prompt uses up a reservation a worker carries; nothing
   * gives either back.
   */
  ghost predicate Spends(s: System, t: System, epoch: nat, backup: bool) {
    && Count(s.reserved, epoch, backup) <= Count(t.reserved, epoch, backup)
    && Count(s.posts, epoch, backup) <= Count(t.posts, epoch, backup)
    && Count(t.reserved, epoch, backup) + Openings(t.records, epoch, backup)
       <= Count(s.reserved, epoch, backup) + Openings(s.records, epoch, backup)
    && Count(t.posts, epoch, backup) + Carried(t.workers, epoch, backup) + Count(s.reserved, epoch, backup)
       <= Count(s.posts, epoch, backup) + Carried(s.workers, epoch, backup) + Count(t.reserved, epoch, backup)
  }

  lemma MovedSpends(s: System, w: nat, stage: Stage, epoch: nat, backup: bool)
    requires w < |s.workers| && (stage.Sending? || stage.Checked? ==>
               && (s.workers[w].stage.Sending? || s.workers[w].stage.Checked?) && s.workers[w].stage.m == stage.m)
    ensures Spends(s, Moved(s, w, stage), epoch, backup)
  {
    CarriedSet(s.workers, w, s.workers[w].(stage := stage), epoch, backup);
  }

  lemma StoredSpends(s: System, w: nat, next: Receipt, stage: Stage, epoch: nat, backup: bool)
    requires Sound(s) && w < |s.workers| && Stores(s, w, next, false)
    requires !stage.Sending? && !stage.Checked? && !next.phase.BackupPending?
    ensures Spends(s, Stored(s, w, next, stage), epoch, backup)
  {
    var t := s.workers[w].task;
    OpeningsSet(s.records, t, s.records[t].(receipt := Some(next)), epoch, backup);
    CarriedSet(s.workers, w, s.workers[w].(memory := Some(next), stage := stage), epoch, backup);
  }

  /** A reservation that is stored closes one opening of its kind and puts one prompt into a worker's hands. */
  lemma ReserveSpends(s: System, w: nat, kind: bool, trouble: bool, epoch: nat, backup: bool)
    requires Sound(s) && w < |s.workers|
    ensures Spends(s, ReserveStep(s, w, kind, trouble), epoch, backup)
    ensures var worker, t := s.workers[w], ReserveStep(s, w, kind, trouble);
            var one := Bit(MayReserve(worker, kind) && Stores(s, w, Reservation(s, w, kind), trouble)
                           && s.records[worker.task].epoch == epoch && kind == backup);
            && Openings(t.records, epoch, backup) + one == Openings(s.records, epoch, backup)
            && Count(t.reserved, epoch, backup) == Count(s.reserved, epoch, backup) + one
            && Carried(t.workers, epoch, backup) == Carried(s.workers, epoch, backup) + one
            && t.posts == s.posts
  {
    var next := Reservation(s, w, kind);
    var worker := s.workers[w];
    var t := worker.task;
    MovedSpends(s, w, Ended, epoch, backup);
    CarriedSet(s.workers, w, worker.(stage := Ended), epoch, backup);
    if MayReserve(worker, kind) && Stores(s, w, next, trouble) {
      var m := Message(s.records[t].epoch, kind, s.ids);
      var to := worker.(memory := Some(next), stage := Sending(m));
      assert worker.memory == s.records[t].receipt;
      OpeningsSet(s.records, t, s.records[t].(receipt := Some(next)), epoch, backup);
      CarriedSet(s.workers, w, to, epoch, backup);
      Appended(s.records, s.records[t], s.workers, to, s.reserved, m, epoch, backup);
    }
  }

  lemma PhaseSpends(s: System, w: nat, phase: Phase, trouble: bool, stored: Stage, refused: Stage,
                    epoch: nat, backup: bool)
    requires Sound(s) && w < |s.workers| && !phase.BackupPending?
    requires !stored.Sending? && !stored.Checked? && !refused.Sending? && !refused.Checked?
    ensures Spends(s, PhaseStep(s, w, phase, trouble, stored, refused), epoch, backup)
  {
    MovedSpends(s, w, refused, epoch, backup);
    if s.workers[w].memory.Some? && Stores(s, w, WithPhase(s.workers[w].memory.value, phase), trouble) {
      StoredSpends(s, w, WithPhase(s.workers[w].memory.value, phase), stored, epoch, backup);
    }
  }

  lemma CarriedMoves(s: System, w: nat, stage: Stage, epoch: nat, backup: bool)
    requires w < |s.workers| && !stage.Sending? && !stage.Checked?
    ensures Carried(Moved(s, w, stage).workers, epoch, backup) + Bit(Carries(s.workers[w], epoch, backup))
            == Carried(s.workers, epoch, backup)
  {
    CarriedSet(s.workers, w, s.workers[w].(stage := stage), epoch, backup);
  }

  /** A prompt call uses up the reservation the worker carries, answered or not; so does not making it. */
  lemma PostSpends(s: System, w: nat, outcome: Outcome, epoch: nat, backup: bool)
    requires w < |s.workers|
    ensures Spends(s, PostStep(s, w, outcome), epoch, backup)
    ensures var stage, t := s.workers[w].stage, PostStep(s, w, outcome);
            var one := Bit(stage.Checked? && stage.m.epoch == epoch && stage.m.backup == backup);
            && Carried(t.workers, epoch, backup) + one == Carried(s.workers, epoch, backup)
            && Count(t.posts, epoch, backup)
               == Count(s.posts, epoch, backup) + (if outcome.Withheld? then 0 else one)
            && t.records == s.records && t.reserved == s.reserved
  {
    var stage := s.workers[w].stage;
    if stage.Checked? {
      CarriedMoves(s, w, Posted, epoch, backup);
      CarriedMoves(s, w, Watching, epoch, backup);
      assert (s.posts + [stage.m])[..|s.posts|] == s.posts;
    }
  }

  lemma NewTaskSpends(s: System, epoch: nat, backup: bool)
    requires epoch < s.epochs
    ensures Spends(s, NewTask(s), epoch, backup)
  {
    assert NewTask(s).records[..|s.records|] == s.records;
  }

  /** The follow-up moves the one backup opening from the settled task to the new one, and makes none. */
  lemma FollowUpSpends(s: System, t: nat, epoch: nat, backup: bool)
    requires t < |s.records| && BackupEligible(s.records[t])
    ensures Spends(s, FollowedUp(s, t), epoch, backup)
    ensures var u, own := FollowedUp(s, t), s.records[t].epoch;
            && Openings(u.records, epoch, backup) == Openings(s.records, epoch, backup)
            && Open(s.records[t], own, true) && !Open(u.records[t], own, true)
            && |u.records| == |s.records| + 1 && Open(u.records[|s.records|], own, true)
            && u.workers == s.workers && u.reserved == s.reserved && u.posts == s.posts
  {
    var n := |s.records|;
    OpeningsSet(s.records, t, s.records[t].(acknowledged := true), epoch, backup);
    assert FollowedUp(s, t).records[..n] == s.records[t := s.records[t].(acknowledged := true)];
  }

  lemma RecordSpends(s: System, t: nat, r: Record, epoch: nat, backup: bool)
    requires t < |s.records| && r.epoch == s.records[t].epoch && r.receipt == s.records[t].receipt
    requires s.records[t].acknowledged ==> r.acknowledged
    ensures Spends(s, s.(records := s.records[t := r]), epoch, backup)
  {
    OpeningsSet(s.records, t, r, epoch, backup);
  }

  lemma LaunchSpends(s: System, t: nat, epoch: nat, backup: bool)
    requires t < |s.records|
    ensures Spends(s, Launched(s, t), epoch, backup)
  {
    var lease := s.records[t].lease + 1;
    OpeningsSet(s.records, t, s.records[t].(lease := lease), epoch, backup);
    assert Launched(s, t).workers[..|s.workers|] == s.workers;
  }

  lemma RecheckSpends(s: System, w: nat, verdict: Verdict, trouble: bool, epoch: nat, backup: bool)
    requires Sound(s) && w < |s.workers|
    ensures Spends(s, RecheckStep(s, w, verdict, trouble), epoch, backup)
  {
    if s.workers[w].stage.Sending? {
      match verdict
      case Clear => MovedSpends(s, w, Checked(s.workers[w].stage.m), epoch, backup);
      case Stopped => MovedSpends(s, w, Watching, epoch, backup);
      case Superseded => PhaseSpends(s, w, Blocked, trouble, Ended, Watching, epoch, backup);
    }
  }

  lemma UnsentSpends(s: System, w: nat, parent: nat, trouble: bool, epoch: nat, backup: bool)
    requires Sound(s) && w < |s.workers|
    ensures Spends(s, UnsentStep(s, w, parent, trouble), epoch, backup)
  {
    var next := Receipt(1, Exhausted, 1, 0, parent);
    if Stores(s, w, next, trouble) {
      StoredSpends(s, w, next, Ended, epoch, backup);
    }
    MovedSpends(s, w, Ended, epoch, backup);
  }

  lemma WorkerStepSpends(s: System, step: Step, epoch: nat, backup: bool)
    requires Sound(s) && !step.Submit? && !step.Launch? && !step.Settle? && !step.FollowUp? && !step.Retry?
    requires step.w < |s.workers|
    ensures Spends(s, Apply(s, step), epoch, backup)
  {
    var w := step.w;
    match step
    case Reserve(_, kind, trouble) => ReserveSpends(s, w, kind, trouble, epoch, backup);
    case Recheck(_, verdict, trouble) => RecheckSpends(s, w, verdict, trouble, epoch, backup);
    case Post(_, outcome) => PostSpends(s, w, outcome, epoch, backup);
    case MarkSubmitted(_, trouble) => PhaseSpends(s, w, Submitted, trouble, Watching, Watching, epoch, backup);
    case Observe(_, phase, trouble) =>
      if !phase.BackupPending? { PhaseSpends(s, w, phase, trouble, Ended, Ended, epoch, backup); }
    case Unsent(_, parent, trouble) => UnsentSpends(s, w, parent, trouble, epoch, backup);
    case Crash(_) => MovedSpends(s, w, Ended, epoch, backup);
  }

  lemma RetrySpends(s: System, t: nat, epoch: nat, backup: bool)
    requires t < |s.records| && epoch < s.epochs
    ensures Spends(s, NewTask(s.(records := s.records[t := s.records[t].(acknowledged := true)])), epoch, backup)
  {
    RecordSpends(s, t, s.records[t].(acknowledged := true), epoch, backup);
    NewTaskSpends(s.(records := s.records[t := s.records[t].(acknowledged := true)]), epoch, backup);
  }

  /** No step gives an attempt of an existing receipt back. */
  lemma ApplySpends(s: System, step: Step, epoch: nat, backup: bool)
    requires Sound(s) && epoch < s.epochs
    ensures Spends(s, Apply(s, step), epoch, backup)
  {
    match step
    case Submit => NewTaskSpends(s, epoch, backup);
    case Launch(t) => if t < |s.records| { LaunchSpends(s, t, epoch, backup); }
    case Settle(t) =>
      if t < |s.records| { RecordSpends(s, t, s.records[t].(terminal := true), epoch, backup); }
    case FollowUp(t) => if t < |s.records| && BackupEligible(s.records[t]) { FollowUpSpends(s, t, epoch, backup); }
    case Retry(t) => if t < |s.records| { RetrySpends(s, t, epoch, backup); }
    case _ => if step.w < |s.workers| { WorkerStepSpends(s, step, epoch, backup); }
  }

  // ---------- Runs ----------

  /** A history of steps from the empty system. */
  datatype Run = Begin | Then(before: Run, step: Step)

  function After(run: Run): (s: System)
    ensures Sound(s)
  {
    match run
    case Begin => EMPTY
    case Then(before, step) =>
      ApplySound(After(before), step);
      Apply(After(before), step)
  }

  ghost predicate Extends(run: Run, base: Run) {
    run == base || (run.Then? && Extends(run.before, base))
  }

  /** Nothing has happened yet under a receipt that does not exist yet. */
  lemma UnusedEpoch(s: System, epoch: nat, backup: bool)
    requires Sound(s) && epoch >= s.epochs
    ensures Count(s.reserved, epoch, backup) == 0 && Count(s.posts, epoch, backup) == 0
    ensures Openings(s.records, epoch, backup) == 0 && Carried(s.workers, epoch, backup) == 0
  {
    NothingCounted(s.reserved, epoch, backup);
    NothingCounted(s.posts, epoch, backup);
    NothingOpen(s.records, epoch, backup);
    NothingCarried(s.workers, epoch, backup);
  }

  ghost predicate WithinBudget(s: System, epoch: nat, backup: bool) {
    && Count(s.reserved, epoch, backup) + Openings(s.records, epoch, backup) <= 1
    && Count(s.posts, epoch, backup) + Carried(s.workers, epoch, backup) <= Count(s.reserved, epoch, backup)
  }

  lemma NewTaskBudget(s: System, epoch: nat, backup: bool)
    requires Sound(s) && epoch >= s.epochs
    ensures WithinBudget(NewTask(s), epoch, backup)
  {
    UnusedEpoch(s, epoch, backup);
    assert NewTask(s).records[..|s.records|] == s.records;
  }

  /** The first step under a new receipt is the one that makes its task. */
  lemma FreshBudget(s: System, step: Step, epoch: nat, backup: bool)
    requires Sound(s) && epoch >= s.epochs
    ensures WithinBudget(Apply(s, step), epoch, backup)
  {
    ApplySound(s, step);
    if epoch >= Apply(s, step).epochs {
      UnusedEpoch(Apply(s, step), epoch, backup);
    } else if step.Submit? {
      NewTaskBudget(s, epoch, backup);
    } else {
      RetryRecordSound(s, step.task);
      NewTaskBudget(s.(records := s.records[step.task := s.records[step.task].(acknowledged := true)]), epoch, backup);
    }
  }

  /**
   * Over every run, whatever crashes, restarts, stale executors and unanswered prompts it holds: under
   * one receipt at most one same-model prompt and at most one backup prompt is ever posted, and never
   * more than were reserved.
   */
  lemma {:induction false} AtMostOnePrompt(run: Run, epoch: nat, backup: bool)
    ensures WithinBudget(After(run), epoch, backup)
    ensures Count(After(run).posts, epoch, backup) <= Count(After(run).reserved, epoch, backup) <= 1
  {
    match run
    case Begin =>
    case Then(before, step) =>
      AtMostOnePrompt(before, epoch, backup);
      if epoch < After(before).epochs {
        ApplySpends(After(before), step, epoch, backup);
      } else {
        FreshBudget(After(before), step, epoch, backup);
      }
  }

  /** The stored receipt of some task is reserved for exactly this prompt. */
  ghost predicate DurablyReserved(s: System, m: Message) {
    exists t :: 0 <= t < |s.records| && ReservedFor(s.records[t], m)
  }

  predicate ReservedFor(r: Record, m: Message) {
    && r.epoch == m.epoch && r.receipt.Some? && r.receipt.value.phase.Reserved?
    && r.receipt.value.messageId == m.id && r.receipt.value.backupAttempts == (if m.backup then 1 else 0)
  }

  /** At some moment of the run the reservation was stored and the prompt had not been posted. */
  ghost predicate ReservedFirst(run: Run, m: Message) {
    run.Then? && ((DurablyReserved(After(run), m) && m !in After(run).posts) || ReservedFirst(run.before, m))
  }

  lemma ReservationIsDurable(s: System, step: Step, m: Message)
    requires Sound(s) && m !in s.reserved && m in Apply(s, step).reserved
    ensures DurablyReserved(Apply(s, step), m) && m !in Apply(s, step).posts
  {
    var t := s.workers[step.w].task;
    assert ReservedFor(Apply(s, step).records[t], m);
  }

  /** A prompt is posted only after its reservation is durable. */
  lemma {:induction false} ReservedBeforePosted(run: Run, m: Message)
    ensures m in After(run).reserved ==> ReservedFirst(run, m)
    ensures m in After(run).posts ==> ReservedFirst(run, m)
  {
    match run
    case Begin =>
    case Then(before, step) =>
      ReservedBeforePosted(before, m);
      if m in After(run).reserved && m !in After(before).reserved {
        ReservationIsDurable(After(before), step, m);
      }
  }

  /** The first half of the longest life of a receipt: a same-model prompt goes out. */
  lemma ReservedRun() returns (run: Run)
    ensures After(run) == System([Record(0, 1, false, false, Some(Receipt(1, Reserved, 1, 0, 0)))],
                                 [Worker(0, 1, Some(Receipt(1, Reserved, 1, 0, 0)), Sending(Message(0, false, 0)))],
                                 [Message(0, false, 0)], [], 1, 1)
  {
    run := Then(Then(Begin, Submit), Launch(0));
    assert After(run) == System([Record(0, 1, false, false, None)], [Worker(0, 1, None, Watching)], [], [], 1, 0);
    run := Then(run, Reserve(0, false, false));
  }

  lemma PostedRun() returns (run: Run)
    ensures After(run) == System([Record(0, 1, false, false, Some(Receipt(1, Reserved, 1, 0, 0)))],
                                 [Worker(0, 1, Some(Receipt(1, Reserved, 1, 0, 0)), Posted)],
                                 [Message(0, false, 0)], [Message(0, false, 0)], 1, 1)
  {
    run := ReservedRun();
    run := Then(Then(run, Recheck(0, Clear, false)), Post(0, Delivered));
  }

  lemma WatchingRun() returns (run: Run)
    ensures After(run) == System([Record(0, 1, false, false, Some(Receipt(1, Reserved, 1, 0, 0)))],
                                 [Worker(0, 1, Some(Receipt(1, Reserved, 1, 0, 0)), Watching)],
                                 [Message(0, false, 0)], [Message(0, false, 0)], 1, 1)
  {
    run := PostedRun();
    run := Then(run, MarkSubmitted(0, true));
  }

  /** The prompt fails and the receipt is exhausted. */
  lemma ExhaustedRun() returns (run: Run)
    ensures After(run) == System([Record(0, 1, false, false, Some(Receipt(2, Exhausted, 1, 0, 0)))],
                                 [Worker(0, 1, Some(Receipt(2, Exhausted, 1, 0, 0)), Ended)],
                                 [Message(0, false, 0)], [Message(0, false, 0)], 1, 1)
  {
    run := WatchingRun();
    run := Then(run, Observe(0, Exhausted, false));
  }

  /** The task settles, and the scheduler's follow-up carries the receipt on as a pending backup. */
  lemma FollowedRun() returns (run: Run)
    ensures After(run) == System([Record(0, 1, true, true, Some(Receipt(2, Exhausted, 1, 0, 0))),
                                  Record(0, 0, false, false, Some(Receipt(3, BackupPending, 1, 1, 0)))],
                                 [Worker(0, 1, Some(Receipt(2, Exhausted, 1, 0, 0)), Ended)],
                                 [Message(0, false, 0)], [Message(0, false, 0)], 1, 1)
  {
    run := ExhaustedRun();
    run := Then(run, Settle(0));
    var spent := Receipt(2, Exhausted, 1, 0, 0);
    assert After(run) == System([Record(0, 1, true, false, Some(spent))], [Worker(0, 1, Some(spent), Ended)],
                                [Message(0, false, 0)], [Message(0, false, 0)], 1, 1);
    run := Then(run, FollowUp(0));
  }

  lemma BackupRun() returns (run: Run)
    ensures var spent, pending := Receipt(2, Exhausted, 1, 0, 0), Receipt(3, BackupPending, 1, 1, 0);
            && After(run).records == [Record(0, 1, true, true, Some(spent)), Record(0, 1, false, false, Some(pending))]
            && After(run).workers == [Worker(0, 1, Some(spent), Ended), Worker(1, 1, Some(pending), Watching)]
            && After(run).reserved == After(run).posts == [Message(0, false, 0)]
            && After(run).epochs == 1 && After(run).ids == 1
  {
    run := FollowedRun();
    var s := After(run);
    run := Then(run, Launch(1));
    assert After(run) == Launched(s, 1);
  }

  lemma BackupReservedRun() returns (run: Run)
    ensures |After(run).workers| == 2 && After(run).workers[1].stage == Sending(Message(0, true, 1))
    ensures After(run).posts == [Message(0, false, 0)]
  {
    run := BackupRun();
    var s := After(run);
    run := Then(run, Reserve(1, true, false));
    assert After(run) == ReserveStep(s, 1, true, false);
    assert s.workers[1].memory == s.records[1].receipt;
  }

  lemma BackupCheckedRun() returns (run: Run)
    ensures |After(run).workers| == 2 && After(run).workers[1].stage == Checked(Message(0, true, 1))
    ensures After(run).posts == [Message(0, false, 0)]
  {
    run := BackupReservedRun();
    run := Then(run, Recheck(1, Clear, false));
  }

  /** The bound is met: one receipt can see its same-model prompt and, after the follow-up, its backup prompt. */
  lemma BothPromptsCanHappen() returns (run: Run)
    ensures Count(After(run).posts, 0, false) == 1 && Count(After(run).posts, 0, true) == 1
  {
    run := BackupCheckedRun();
    var s := After(run);
    run := Then(run, Post(1, Ambiguous));
    assert After(run).posts == PostStep(s, 1, Ambiguous).posts == [Message(0, false, 0)] + [Message(0, true, 1)];
    OneOfEach(Message(0, false, 0), Message(0, true, 1));
  }

  lemma OneOfEach(m: Message, n: Message)
    requires m.epoch == n.epoch && !m.backup && n.backup
    ensures Count([m] + [n], m.epoch, false) == 1 && Count([m] + [n], m.epoch, true) == 1
  {
    assert ([m] + [n])[..1] == [m] && [m][..0] == [];
    assert Count([m], m.epoch, false) == 1 && Count([m], m.epoch, true) == 0;
  }

  // ---------- A receipt that is not a pending backup is only observed ----------

  /** No further prompt of this kind can be reserved or is on its way. */
  ghost predicate Spent(s: System, epoch: nat, backup: bool) {
    epoch < s.epochs && Openings(s.records, epoch, backup) == 0
  }

  lemma {:induction false} SpentForGood(run: Run, base: Run, epoch: nat, backup: bool)
    requires Extends(run, base) && Spent(After(base), epoch, backup)
    ensures Spent(After(run), epoch, backup)
    ensures Count(After(run).reserved, epoch, backup) == Count(After(base).reserved, epoch, backup)
    ensures Count(After(base).posts, epoch, backup) <= Count(After(run).posts, epoch, backup)
    ensures Count(After(run).posts, epoch, backup) + Carried(After(run).workers, epoch, backup)
            <= Count(After(base).posts, epoch, backup) + Carried(After(base).workers, epoch, backup)
  {
    if run != base {
      SpentForGood(run.before, base, epoch, backup);
      ApplySpends(After(run.before), run.step, epoch, backup);
      EpochsGrow(After(run.before), run.step);
    }
  }

  lemma EpochsGrow(s: System, step: Step)
    requires Sound(s)
    ensures s.epochs <= Apply(s, step).epochs
  {
  }

  /** With a receipt in any phase but `BackupPending`, its epoch has no opening of that kind left. */
  lemma ReceiptClosesEpoch(s: System, t: nat)
    requires Sound(s) && t < |s.records| && s.records[t].receipt.Some?
        && !s.records[t].receipt.value.phase.BackupPending?
    ensures Spent(s, s.records[t].epoch, false)
    ensures s.records[t].receipt.value.backupAttempts >= 1 ==> Spent(s, s.records[t].epoch, true)
  {
    var epoch := s.records[t].epoch;
    forall i | 0 <= i < |s.records|
      ensures !Open(s.records[i], epoch, false)
      ensures s.records[t].receipt.value.backupAttempts >= 1 ==> !Open(s.records[i], epoch, true)
    {
      if s.records[i].epoch == epoch && i < t {
        assert Passed(s.records[i]);
      }
      if s.records[i].epoch == epoch && t < i {
        assert Passed(s.records[t]) && Inherited(s.records[i]);
      }
    }
    NothingOpen(s.records, epoch, false);
    if s.records[t].receipt.value.backupAttempts >= 1 {
      NothingOpen(s.records, epoch, true);
    }
  }

  predicate Closed(r: Record) {
    r.receipt.Some? && !r.receipt.value.phase.BackupPending?
  }

  lemma StepKeepsClosed(s: System, step: Step, t: nat)
    requires Sound(s) && t < |s.records| && Closed(s.records[t])
    ensures t < |Apply(s, step).records|
    ensures var r := Apply(s, step).records[t];
            && Closed(r) && r.epoch == s.records[t].epoch && BackupsOf(r.receipt) == BackupsOf(s.records[t].receipt)
            && (s.records[t].acknowledged ==> r.acknowledged)
  {
  }

  lemma {:induction false} ClosedForGood(run: Run, base: Run, t: nat)
    requires Extends(run, base) && t < |After(base).records| && Closed(After(base).records[t])
    ensures t < |After(run).records|
    ensures var r, q := After(base).records[t], After(run).records[t];
            && Closed(q) && q.epoch == r.epoch && BackupsOf(q.receipt) == BackupsOf(r.receipt)
            && (r.acknowledged ==> q.acknowledged)
  {
    if run != base {
      ClosedForGood(run.before, base, t);
      StepKeepsClosed(After(run.before), run.step, t);
    }
  }

  /** While nobody has followed it up, an unused backup has not been reserved, let alone posted. */
  lemma UnusedBackup(run: Run, t: nat)
    requires t < |After(run).records| && Closed(After(run).records[t]) && !After(run).records[t].acknowledged
    requires BackupsOf(After(run).records[t].receipt) == 0
    ensures Count(After(run).posts, After(run).records[t].epoch, true) == 0
  {
    var s := After(run);
    AtMostOnePrompt(run, s.records[t].epoch, true);
    OpeningsSet(s.records, t, s.records[t].(acknowledged := true), s.records[t].epoch, true);
    assert Open(s.records[t], s.records[t].epoch, true);
  }

  /** No executor is between reserving and posting a prompt under the receipt. */
  ghost predicate NoneOnItsWay(s: System, epoch: nat) {
    forall w :: 0 <= w < |s.workers| ==>
      var stage := s.workers[w].stage;
      stage.Sending? || stage.Checked? ==> stage.m.epoch != epoch
  }

  lemma SpentIsSilent(run: Run, base: Run, epoch: nat, backup: bool)
    requires Extends(run, base) && Spent(After(base), epoch, backup) && NoneOnItsWay(After(base), epoch)
    ensures Count(After(run).posts, epoch, backup) == Count(After(base).posts, epoch, backup)
  {
    NothingCarried(After(base).workers, epoch, backup);
    SpentForGood(run, base, epoch, backup);
  }

  lemma NoBackupSent(run: Run, base: Run, t: nat)
    requires Extends(run, base) && t < |After(base).records| && Closed(After(base).records[t])
    requires NoneOnItsWay(After(base), After(base).records[t].epoch)
    ensures t < |After(run).records|
    ensures var r := After(base).records[t];
            BackupsOf(r.receipt) > 0 || !After(run).records[t].acknowledged ==>
              Count(After(run).posts, r.epoch, true) == Count(After(base).posts, r.epoch, true)
  {
    var r := After(base).records[t];
    ClosedForGood(run, base, t);
    if BackupsOf(r.receipt) > 0 {
      ReceiptClosesEpoch(After(base), t);
      SpentIsSilent(run, base, r.epoch, true);
    } else if !After(run).records[t].acknowledged {
      UnusedBackup(run, t);
      UnusedBackup(base, t);
    }
  }

  /**
   * Once a task's receipt is stored in any phase but `BackupPending` and no executor is between
   * reserving and posting, no later step of any run posts a same-model prompt under it. Nor is the
   * backup prompt posted, unless it was still unused and a follow-up has taken the task over.
   */
  lemma NeverSentAgain(run: Run, base: Run, t: nat)
    requires Extends(run, base) && t < |After(base).records| && Closed(After(base).records[t])
    requires NoneOnItsWay(After(base), After(base).records[t].epoch)
    ensures t < |After(run).records|
    ensures var r := After(base).records[t];
            && Count(After(run).posts, r.epoch, false) == Count(After(base).posts, r.epoch, false)
            && (BackupsOf(r.receipt) > 0 || !After(run).records[t].acknowledged ==>
                  Count(After(run).posts, r.epoch, true) == Count(After(base).posts, r.epoch, true))
  {
    ReceiptClosesEpoch(After(base), t);
    SpentIsSilent(run, base, After(base).records[t].epoch, false);
    NoBackupSent(run, base, t);
  }

  // ---------- The stored receipt only moves forward ----------

  ghost predicate Advances(r: Record, q: Record) {
    && r.epoch == q.epoch && RevisionOf(r.receipt) <= RevisionOf(q.receipt)
    && BackupsOf(r.receipt) <= BackupsOf(q.receipt)
    && (RevisionOf(r.receipt) == RevisionOf(q.receipt) ==> r.receipt == q.receipt)
    && (r.terminal ==> q.terminal && q.receipt == r.receipt)
  }

  lemma StepAdvances(s: System, step: Step, t: nat)
    requires Sound(s) && t < |s.records|
    ensures t < |Apply(s, step).records| && Advances(s.records[t], Apply(s, step).records[t])
  {
  }

  /** Revisions grow, attempts are not restored, and a settled task's receipt is final. */
  lemma {:induction false} ReceiptsAdvance(run: Run, base: Run, t: nat)
    requires Extends(run, base) && t < |After(base).records|
    ensures t < |After(run).records| && Advances(After(base).records[t], After(run).records[t])
  {
    if run != base {
      ReceiptsAdvance(run.before, base, t);
      StepAdvances(After(run.before), run.step, t);
    }
  }

  // ---------- One executor, with the others running between its awaits ----------

  lemma {:induction false} ExtendsThrough(run: Run, middle: Run, base: Run)
    requires Extends(run, middle) && Extends(middle, base)
    ensures Extends(run, base)
  {
    if run != middle {
      ExtendsThrough(run.before, middle, base);
    }
  }

  /** A step appended to a history that extends `base` extends it too. */
  lemma ThenExtends(middle: Run, base: Run, step: Step)
    requires Extends(middle, base)
    ensures Extends(Then(middle, step), base)
  {
  }

  lemma ReserveMine(s: System, w: nat, backup: bool, trouble: bool)
    requires Sound(s) && w < |s.workers| && MayReserve(s.workers[w], backup)
    ensures var ws := ReserveStep(s, w, backup, trouble).workers;
            && |ws| == |s.workers|
            && if ws[w].stage.Ended? then ws[w].memory == s.workers[w].memory
               else InHand(ws[w]) && ws[w].stage.Sending?
  {
  }

  lemma RecheckMine(s: System, w: nat, verdict: Verdict, trouble: bool)
    requires Sound(s) && w < |s.workers| && InHand(s.workers[w]) && s.workers[w].stage.Sending?
    ensures var ws := RecheckStep(s, w, verdict, trouble).workers;
            && |ws| == |s.workers| && ws[w].memory.Some?
            && if ws[w].stage.Ended? then verdict.Superseded? && ws[w].memory.value.phase.Blocked?
               else if ws[w].stage.Watching? then ws[w].memory == s.workers[w].memory
               else InHand(ws[w]) && ws[w].stage.Checked?
    ensures var stage := RecheckStep(s, w, verdict, trouble).workers[w].stage;
            && (stage.Checked? <==> verdict.Clear?)
            && (verdict.Stopped? || (verdict.Superseded? && trouble) ==> stage.Watching?)
  {
  }

  lemma PostMine(s: System, w: nat, outcome: Outcome)
    requires Sound(s) && w < |s.workers| && InHand(s.workers[w]) && s.workers[w].stage.Checked?
    ensures var ws := PostStep(s, w, outcome).workers;
            && |ws| == |s.workers| && ws[w].memory == s.workers[w].memory
            && (ws[w].stage.Watching? || ws[w].stage.Posted?)
  {
  }

  lemma MarkMine(s: System, w: nat, trouble: bool)
    requires Sound(s) && w < |s.workers| && s.workers[w].memory.Some? && s.workers[w].memory.value.phase.Reserved?
    ensures var ws := PhaseStep(s, w, Submitted, trouble, Watching, Watching).workers;
            && |ws| == |s.workers| && ws[w].stage.Watching?
            && ws[w].memory.Some? && !ws[w].memory.value.phase.BackupPending?
  {
  }

  predicate InHand(worker: Worker) {
    && (worker.stage.Sending? || worker.stage.Checked?)
    && worker.memory.Some? && worker.memory.value.phase.Reserved?
  }

  datatype Sent = Refused | Superseding | Watch

  class Executor {
    const w: nat
    /** Everything the whole system has done so far. */
    var run: Run

    ghost predicate Valid()
      reads this
    {
      w < |After(run).workers|
    }

    function Me(): Worker
      requires Valid()
      reads this
    {
      After(run).workers[w]
    }

    /** Anything the others do before this executor goes on. */
    method Await()
      requires Valid()
      modifies this`run
      ensures Valid() && Extends(run, old(run)) && Me() == old(Me())
    {
    }

    /** One step of this executor after an await; `at` is the history it acts on. */
    method Later(step: Step) returns (ghost at: Run)
      requires Valid()
      modifies this`run
      ensures run == Then(at, step) && Extends(at, old(run)) && Extends(run, old(run))
      ensures w < |After(at).workers| && After(at).workers[w] == old(Me())
    {
      Await();
      at := run;
      ThenExtends(run, old(run), step);
      run := Then(run, step);
    }

    method TryReserve(backup: bool, trouble: bool)
      requires Valid() && MayReserve(Me(), backup)
      modifies this`run
      ensures Valid() && Extends(run, old(run)) && run.Then? && run.step == Reserve(w, backup, trouble)
      ensures if Me().stage.Ended? then Me().memory == old(Me().memory) else InHand(Me()) && Me().stage.Sending?
    {
      ghost var at := Later(Reserve(w, backup, trouble));
      ReserveMine(After(at), w, backup, trouble);
    }

    method LookAgain(verdict: Verdict, trouble: bool)
      requires Valid() && InHand(Me()) && Me().stage.Sending?
      modifies this`run
      ensures Valid() && Extends(run, old(run)) && run.Then? && run.step == Recheck(w, verdict, trouble)
      ensures Me().stage.Checked? <==> verdict.Clear?
      ensures verdict.Stopped? || (verdict.Superseded? && trouble) ==> Me().stage.Watching?
      ensures Me().memory.Some?
      ensures if Me().stage.Ended? then verdict.Superseded? && Me().memory.value.phase.Blocked?
              else if Me().stage.Watching? then Me().memory == old(Me().memory)
              else InHand(Me()) && Me().stage.Checked?
    {
      ghost var at := Later(Recheck(w, verdict, trouble));
      RecheckMine(After(at), w, verdict, trouble);
    }

    method Prompt(outcome: Outcome)
      requires Valid() && InHand(Me()) && Me().stage.Checked?
      modifies this`run
      ensures Valid() && Extends(run, old(run)) && run.Then? && run.step == Post(w, outcome)
      ensures Me().memory == old(Me().memory) && (Me().stage.Watching? || Me().stage.Posted?)
    {
      ghost var at := Later(Post(w, outcome));
      PostMine(After(at), w, outcome);
    }

    method Mark(trouble: bool)
      requires Valid() && Me().stage.Posted? && Me().memory.Some? && Me().memory.value.phase.Reserved?
      modifies this`run
      ensures Valid() && Extends(run, old(run)) && run.Then? && run.step == MarkSubmitted(w, trouble)
      ensures Me().stage.Watching? && Me().memory.Some? && !Me().memory.value.phase.BackupPending?
    {
      ghost var at := Later(MarkSubmitted(w, trouble));
      MarkMine(After(at), w, trouble);
    }

    /**
     * Sends one recovery prompt. Whatever the others do at each await: the reservation is stored before
     * the call, is not carried past the end, and the caller goes on watching only with a receipt in hand.
     */
    method Send(backup: bool, trouble: bool, verdict: Verdict, blockTrouble: bool, outcome: Outcome, markTrouble: bool)
      returns (r: Sent)
      requires Valid() && MayReserve(Me(), backup)
      modifies this`run
      ensures Valid() && Extends(run, old(run))
      ensures !Me().stage.Sending? && !Me().stage.Checked?
      ensures r == Watch ==> Me().stage.Watching? && Me().memory.Some? && !MayReserve(Me(), backup)
      ensures r == Refused ==> Me().stage.Ended? && Me().memory == old(Me().memory)
      ensures r == Superseding ==> Me().memory.Some? && Me().memory.value.phase.Blocked? && verdict.Superseded?
    {
      ghost var start := run;
      TryReserve(backup, trouble);
      if Me().stage.Ended? { return Refused; }
      ghost var middle := run;
      LookAgain(verdict, blockTrouble);
      ExtendsThrough(run, middle, start);
      if Me().stage.Ended? { return Superseding; }
      if Me().stage.Watching? { return Watch; }
      middle := run;
      Prompt(outcome);
      ExtendsThrough(run, middle, start);
      if Me().stage.Posted? {
        middle := run;
        Mark(markTrouble);
        ExtendsThrough(run, middle, start);
      }
      r := Watch;
    }
  }
}
