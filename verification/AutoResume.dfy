/** Planning the automatic recovery attempts of a task that parked on a provider limit. */
module AutoResume {
  import opened Outcomes

  const MAX_ATTEMPTS := 8
  const MAX_LINEAGE_MS := 6 * 60 * 60 * 1000
  const MAX_REJECTIONS_PER_WINDOW := 2
  const RESET_JITTER_MS := 15000
  const MIN_DELAY_MS := 5000
  const MAX_HOST_FAILURES := 5

  /** The backoff ladder; its last rung repeats. */
  function Backoff(probes: nat): (delay: nat)
    ensures delay >= 15 * 60 * 1000
  {
    if probes <= 1 then 15 * 60 * 1000 else if probes == 2 then 30 * 60 * 1000 else 60 * 60 * 1000
  }

  datatype Status = Planning | Scheduled | Attempting | Exhausted | Cancelled

  datatype Source = OpenCodeStatus | MeridianQuota | BackoffLadder

  datatype Execution = Execution(provider: string, model: string, variant: Option<string>)

  datatype Target = Original(execution: Execution) | Backup(execution: Execution)

  /** Times are milliseconds; a missing or non-finite one is `None`. */
  datatype State = State(
    enabled: bool, status: Status, transport: bool, cancelGeneration: nat, lineageStartedAt: int, expiresAt: int,
    attemptCount: nat, backupAttempt: Option<string>, noSignalProbes: nat, rejectionsInWindow: nat,
    windowResetAt: Option<int>, nextAttemptAt: Option<int>, resetAt: Option<int>, resetSource: Option<Source>,
    target: Option<Target>, lastAttemptTaskId: Option<string>, availabilityUnknown: bool, hostFailures: nat)

  function Future(at: Option<int>, now: int): (r: Option<int>)
    ensures r.Some? <==> at.Some? && at.value > now
    ensures r.Some? ==> r == at
  {
    if at.Some? && at.value > now then at else None
  }

  function Or<T>(a: Option<T>, b: Option<T>): Option<T> {
    if a.Some? then a else b
  }

  function Larger(a: int, b: int): int {
    if a >= b then a else b
  }

  // ---------- Parking ----------

  /** The park continues the attempt that was under way on this very task. */
  predicate Continues(prior: Option<State>, taskId: Option<string>) {
    prior.Some? && prior.value.status.Attempting? && (taskId.None? || prior.value.lastAttemptTaskId == taskId)
  }

  function InitialState(now: int, enabled: bool, providerResetAt: Option<int>, prior: Option<State>,
                        taskId: Option<string>): State
  {
    if Continues(prior, taskId) then
      var p := prior.value;
      var resetAt := Or(Future(providerResetAt, now), Future(p.resetAt, now));
      var source := if resetAt.None? then None
                    else if resetAt == p.resetAt then Or(p.resetSource, Some(OpenCodeStatus)) else Some(OpenCodeStatus);
      State(enabled, Planning, false, p.cancelGeneration, p.lineageStartedAt, p.expiresAt, p.attemptCount,
            p.backupAttempt, p.noSignalProbes, p.rejectionsInWindow, p.windowResetAt, None, resetAt, source, None,
            p.lastAttemptTaskId, false, p.hostFailures)
    else
      var resetAt := Future(providerResetAt, now);
      State(enabled, Planning, false, 0, now, now + MAX_LINEAGE_MS, 0, None, 0, 0, None, None, resetAt,
            if resetAt.None? then None else Some(OpenCodeStatus), None, None, false, 0)
  }

  function Distance(a: int, b: int): nat {
    if a >= b then a - b else b - a
  }

  /** The rejection falls into the window that is already open. */
  predicate SameWindow(s: State, now: int, reset: Option<int>) {
    s.windowResetAt.Some? && (now < s.windowResetAt.value
                              || (reset.Some? && Distance(reset.value, s.windowResetAt.value) <= RESET_JITTER_MS))
  }

  function RecordRejection(s: State, now: int, providerResetAt: Option<int>): State {
    var raw := if providerResetAt.Some? && providerResetAt.value >= 0 then providerResetAt else None;
    var resetAt := Future(raw, now);
    var same := SameWindow(s, now, raw);
    var known := if resetAt.Some? then resetAt else if same then Future(s.resetAt, now) else None;
    s.(rejectionsInWindow := if same then s.rejectionsInWindow + 1 else 1,
       windowResetAt := if same then s.windowResetAt else resetAt,
       noSignalProbes := if resetAt.None? then s.noSignalProbes + 1 else s.noSignalProbes,
       resetAt := known,
       resetSource := if known.None? then None
                      else if resetAt.Some? then Some(OpenCodeStatus) else Or(s.resetSource, Some(OpenCodeStatus)))
  }

  // ---------- Planning ----------

  /** What the host knows when it plans: executions, the two breakers, and a quota answer that counts. */
  datatype Input = Input(
    now: int, task: Execution, origin: Option<Execution>, backup: Option<Execution>, backupUsed: bool,
    backupAllowed: bool, backupBreaker: Option<int>, originBreaker: Option<int>, breakerSource: Option<Source>,
    quotaReset: Option<int>)

  datatype Reason = AttemptCap | TimeCap | BackupUnavailable | WindowRejections

  datatype Plan = GiveUp(reason: Reason) | Attempt(at: int, target: Target, resetAt: Option<int>,
                         source: Option<Source>)

  function OriginOf(input: Input): Execution {
    if input.origin.Some? then input.origin.value else input.task
  }

  predicate Differ(a: Execution, b: Execution) {
    a.provider != b.provider || a.model != b.model
  }

  /** The earlier of two resets, the first on a tie. */
  function Earlier(a: Option<(int, Source)>, b: Option<(int, Source)>): Option<(int, Source)> {
    if a.None? then b else if b.None? || a.value.0 <= b.value.0 then a else b
  }

  function Reset(at: Option<int>, now: int, source: Source): Option<(int, Source)> {
    match Future(at, now) case None => None case Some(t) => Some((t, source))
  }

  /** The first of the known resets that still lie ahead. */
  function EarliestReset(input: Input, s: State): Option<(int, Source)> {
    var known := Reset(s.resetAt, input.now, if s.resetSource.Some? then s.resetSource.value else OpenCodeStatus);
    var quota := Reset(input.quotaReset, input.now, MeridianQuota);
    var breaker := Reset(input.originBreaker, input.now,
                         if input.breakerSource.Some? then input.breakerSource.value else OpenCodeStatus);
    Earlier(Earlier(known, quota), breaker)
  }

  function ScheduleOriginal(input: Input, s: State, at: int, resetAt: int, source: Source): Plan {
    if at > s.expiresAt then GiveUp(TimeCap) else Attempt(at, Original(OriginOf(input)), Some(resetAt), Some(source))
  }

  predicate BackupReady(input: Input, from: Execution) {
    && input.backup.Some? && Differ(input.backup.value, from) && input.backupAllowed
    && Future(input.backupBreaker, input.now).None?
  }

  function PlanTransport(input: Input, s: State): Plan {
    if s.attemptCount >= 1 || input.backupUsed then GiveUp(AttemptCap)
    else if input.now >= s.expiresAt then GiveUp(TimeCap)
    else if !BackupReady(input, input.task) then GiveUp(BackupUnavailable)
    else Attempt(input.now, Backup(input.backup.value), None, None)
  }

  /** The rejection window decides: the provider has refused twice and has said when it resets. */
  predicate WindowDecides(input: Input, s: State) {
    s.rejectionsInWindow == MAX_REJECTIONS_PER_WINDOW && Future(s.windowResetAt, input.now).Some?
  }

  function PlanOriginal(input: Input, s: State): Plan {
    var earliest := EarliestReset(input, s);
    if s.rejectionsInWindow > MAX_REJECTIONS_PER_WINDOW then GiveUp(WindowRejections)
    else if WindowDecides(input, s)
    then ScheduleOriginal(input, s, s.windowResetAt.value + RESET_JITTER_MS, s.windowResetAt.value, OpenCodeStatus)
    else if earliest.Some?
    then ScheduleOriginal(input, s, Larger(input.now + MIN_DELAY_MS, earliest.value.0 + RESET_JITTER_MS),
                          earliest.value.0, earliest.value.1)
    else if s.availabilityUnknown && s.resetAt.Some?
    then ScheduleOriginal(input, s, Larger(input.now + MIN_DELAY_MS, s.resetAt.value + RESET_JITTER_MS),
                          s.resetAt.value,
                          if s.resetSource.Some? then s.resetSource.value else OpenCodeStatus)
    else
      var at := input.now + Backoff(s.noSignalProbes);
      ScheduleOriginal(input, s, at, at, BackoffLadder)
  }

  function PlanAttempt(input: Input, s: State): Plan {
    if s.transport then PlanTransport(input, s)
    else if s.attemptCount >= MAX_ATTEMPTS then GiveUp(AttemptCap)
    else if input.now >= s.expiresAt then GiveUp(TimeCap)
    else if BackupReady(input, OriginOf(input)) && s.backupAttempt.None? then
      var earliest := EarliestReset(input, s);
      Attempt(input.now, Backup(input.backup.value), if earliest.None? then None else Some(earliest.value.0),
              if earliest.None? then None else Some(earliest.value.1))
    else PlanOriginal(input, s)
  }

  function Cap(s: State): nat {
    if s.transport then 1 else MAX_ATTEMPTS
  }

  /**
   * Whatever is scheduled lies between now and the end of the lineage and within the attempt cap; the
   * original model gets the minimum delay, and the backup is another model that this cycle has not used.
   */
  lemma PlansWithinLineage(input: Input, s: State)
    requires PlanAttempt(input, s).Attempt?
    ensures var p := PlanAttempt(input, s);
            && s.attemptCount < Cap(s) && input.now < s.expiresAt && input.now <= p.at <= s.expiresAt
            && (p.target.Original? ==>
                  p.at >= input.now + MIN_DELAY_MS && p.target.execution == OriginOf(input) && !s.transport)
            && (p.target.Backup? ==> p.at == input.now && Some(p.target.execution) == input.backup
                                     && Differ(p.target.execution, if s.transport then input.task else OriginOf(input))
                                     && (if s.transport then !input.backupUsed else s.backupAttempt.None?))
  {
  }

  ghost predicate AfterKnownReset(input: Input, s: State, at: int) {
    EarliestReset(input, s).Some? ==> at >= EarliestReset(input, s).value.0
  }

  /**
   * The original model is attempted no earlier than the first known reset, except when the rejection
   * window decides and its own reset, with the jitter, comes before every other known one.
   */
  lemma OriginalWaitsForReset(input: Input, s: State)
    requires PlanAttempt(input, s).Attempt? && PlanAttempt(input, s).target.Original?
    ensures AfterKnownReset(input, s, PlanAttempt(input, s).at)
            <==> !(WindowDecides(input, s) && EarliestReset(input, s).Some?
                   && s.windowResetAt.value + RESET_JITTER_MS < EarliestReset(input, s).value.0)
  {
  }

  // ---------- One lineage ----------

  /** Why the host would not start an attempt; a missing acknowledgement is `Other`. */
  datatype Refusal = BackupGone | BackupChanged | Unverified | Other

  /**
   * What happens to a lineage: plans, attempts that start, are put off or are refused, parks that continue
   * it, a restart, and the user switching it off and on. A park can be a connection incident, which keeps
   * only a budget of its own kind. A launch is told how long the target's breaker holds.
   */
  datatype Step =
    | Replan(input: Input)
    | Rearm(at: int)
    | Launch(at: int, followUp: string, breaker: Option<int>)
    | Deferred(at: int, unverified: bool, replan: bool)
    | Rejected(at: int, refusal: Refusal)
    | Restart
    | Park(now: int, reset: Option<int>, incident: bool)
    | Disable
    | Reenable(now: int)

  /** `usedBackup` is the parked task itself, when it ran on the backup of an earlier lineage. */
  datatype Run =
    | Start(now: int, enabled: bool, reset: Option<int>, incident: bool, usedBackup: Option<string>)
    | Then(before: Run, step: Step)

  /**
   * The state, the launches not given back, the latest time of one, those of a connection incident after
   * its first, the refused ones, how often the user switched it on, and what the parked attempts ran on.
   */
  datatype Lineage = Lineage(s: State, launches: nat, lastLaunchAt: Option<int>, repeatedIncidents: nat,
                             refused: nat, reenabled: nat, ran: seq<Target>)

  predicate Active(s: State) {
    s.enabled && (s.status.Planning? || s.status.Scheduled? || s.status.Attempting?)
  }

  function Stopped(s: State): State {
    s.(status := Exhausted, nextAttemptAt := None, target := None)
  }

  function OneLess(n: nat): nat {
    if n > 0 then n - 1 else 0
  }

  function ToPlanning(s: State): State {
    s.(status := Planning, nextAttemptAt := None)
  }

  /** An attempt on the backup uses up its cycle; one on the original model starts a new cycle. */
  function CycleBackup(s: State): Option<string> {
    if s.target.Some? && s.target.value.Backup? then s.lastAttemptTaskId else None
  }

  function AfterPlan(s: State, p: Plan): State {
    match p
    case GiveUp(_) => Stopped(s)
    case Attempt(at, target, resetAt, source) =>
      s.(status := Scheduled, nextAttemptAt := Some(at), target := Some(target), resetAt := resetAt,
         resetSource := source)
  }

  function TakeLaunch(l: Lineage, at: int, followUp: string, breaker: Option<int>): Lineage {
    var s := l.s;
    if !Active(s) || !s.status.Scheduled? || s.target.None? then l
    else if Future(breaker, at).Some?
    then l.(s := if s.target.value.Backup? then ToPlanning(s) else s.(nextAttemptAt := breaker))
    else if s.attemptCount >= Cap(s) || at >= s.expiresAt then l.(s := Stopped(s))
    else l.(s := s.(status := Attempting, attemptCount := s.attemptCount + 1, nextAttemptAt := None,
                    lastAttemptTaskId := Some(followUp)),
            launches := l.launches + 1, lastLaunchAt := Some(at),
            repeatedIncidents := l.repeatedIncidents + if s.transport && l.launches > 0 then 1 else 0)
  }

  /** The launch is given back: the attempt goes to planning, or is scheduled again. */
  function GiveBack(l: Lineage, at: int, replan: bool, unverified: bool): Lineage {
    var s := l.s.(attemptCount := OneLess(l.s.attemptCount), availabilityUnknown := unverified);
    l.(s := if replan then ToPlanning(s) else s.(status := Scheduled, nextAttemptAt := Some(at)),
       launches := OneLess(l.launches))
  }

  function TakeRejected(l: Lineage, at: int, refusal: Refusal): Lineage {
    var s := l.s;
    if !s.status.Attempting? then l
    else if s.transport && refusal.BackupGone? then l.(s := Stopped(s), refused := l.refused + 1)
    else
      var replan := s.target.Some? && s.target.value.Backup? && (refusal.BackupGone? || refusal.BackupChanged?);
      var back := GiveBack(l, at, replan, refusal.Unverified?);
      var failed := back.s.(hostFailures := s.hostFailures + 1);
      back.(refused := l.refused + 1,
            s := if failed.hostFailures >= MAX_HOST_FAILURES then failed.(status := Exhausted, nextAttemptAt := None)
                 else failed)
  }

  /** A park on the original model is a rejection by it; one on the backup keeps what was known. */
  function Parked(s: State, now: int, reset: Option<int>, incident: bool): State
    requires s.target.Some?
  {
    var primary := s.target.value.Original?;
    var hint := if primary then reset else s.resetAt;
    var initial := InitialState(now, s.enabled, hint, Some(s), s.lastAttemptTaskId);
    (if primary && !incident then RecordRejection(initial, now, hint) else initial)
      .(transport := incident, backupAttempt := CycleBackup(s))
  }

  /** The attempt under way settles and the lineage goes on with it. */
  predicate Continued(l: Lineage, incident: bool) {
    l.s.status.Attempting? && l.s.target.Some? && (!incident || l.s.transport)
  }

  function Take(l: Lineage, step: Step): Lineage {
    var s := l.s;
    match step
    case Replan(input) =>
      if Active(s) && !s.status.Attempting? then l.(s := AfterPlan(s, PlanAttempt(input, s))) else l
    case Rearm(at) => if s.status.Scheduled? then l.(s := s.(nextAttemptAt := Some(at))) else l
    case Launch(at, followUp, breaker) => TakeLaunch(l, at, followUp, breaker)
    case Deferred(at, unverified, replan) =>
      var unknown := unverified && !s.transport && s.target.Some? && s.target.value.Backup?;
      if s.status.Attempting? then GiveBack(l, at, unknown && replan, s.availabilityUnknown || unknown) else l
    case Rejected(at, refusal) => TakeRejected(l, at, refusal)
    case Restart => if s.status.Attempting? then GiveBack(l, 0, true, s.availabilityUnknown) else l
    case Park(now, reset, incident) =>
      if Continued(l, incident)
      then l.(s := Parked(s, now, reset, incident), ran := l.ran + [s.target.value])
      else l
    case Disable =>
      l.(s := s.(enabled := false, status := Cancelled, cancelGeneration := s.cancelGeneration + 1,
                 nextAttemptAt := None))
    case Reenable(now) =>
      if Active(s) then l
      else l.(s := s.(enabled := true, status := if s.expiresAt <= now then Exhausted else Planning,
                      cancelGeneration := s.cancelGeneration + 1, nextAttemptAt := None, target := None),
              reenabled := l.reenabled + 1)
  }

  function After(run: Run): Lineage {
    match run
    case Start(now, enabled, reset, incident, usedBackup) =>
      var initial := InitialState(now, enabled, reset, None, None);
      var s := if usedBackup.None? && !incident then RecordRejection(initial, now, reset) else initial;
      Lineage(s.(transport := incident, backupAttempt := usedBackup), 0, None, 0, 0, 0, [])
    case Then(before, step) => Take(After(before), step)
  }

  function StartOf(run: Run): int {
    match run case Start(now, _, _, _, _) => now case Then(before, _) => StartOf(before)
  }

  ghost predicate WithinCaps(l: Lineage, start: int) {
    && l.launches == l.s.attemptCount <= MAX_ATTEMPTS && l.repeatedIncidents == 0
    && l.s.lineageStartedAt == start && l.s.expiresAt == start + MAX_LINEAGE_MS
    && (l.lastLaunchAt.Some? ==> l.lastLaunchAt.value < l.s.expiresAt)
  }

  /** The host refused at most five launches, and one more for each time the user switched it on again. */
  ghost predicate WithinRefusals(l: Lineage) {
    l.refused <= MAX_HOST_FAILURES + l.reenabled
  }

  /** Refusals are counted, except that of an incident's backup, after which nothing is launched. */
  ghost predicate RefusalsCounted(l: Lineage) {
    && l.launches == l.s.attemptCount && WithinRefusals(l)
    && (l.s.status.Attempting? ==> l.s.attemptCount >= 1)
    && (!(l.s.status.Exhausted? || l.s.status.Cancelled?) ==> l.s.hostFailures < MAX_HOST_FAILURES + l.reenabled)
    && (|| l.s.hostFailures == l.refused
        || (l.s.hostFailures + 1 == l.refused && l.s.transport && l.s.attemptCount >= 1
            && !(l.s.status.Scheduled? || l.s.status.Attempting?)))
  }

  lemma LaunchKeepsCaps(l: Lineage, at: int, followUp: string, breaker: Option<int>, start: int)
    requires WithinCaps(l, start)
    ensures WithinCaps(TakeLaunch(l, at, followUp, breaker), start)
  {
  }

  lemma RejectionKeepsCaps(l: Lineage, at: int, refusal: Refusal, start: int)
    requires WithinCaps(l, start)
    ensures WithinCaps(TakeRejected(l, at, refusal), start)
  {
  }

  lemma ParkKeepsCaps(l: Lineage, now: int, reset: Option<int>, incident: bool, start: int)
    requires WithinCaps(l, start)
    ensures WithinCaps(Take(l, Park(now, reset, incident)), start)
  {
  }

  lemma StepKeepsCaps(l: Lineage, step: Step, start: int)
    requires WithinCaps(l, start)
    ensures WithinCaps(Take(l, step), start)
  {
    match step
    case Launch(at, followUp, breaker) => LaunchKeepsCaps(l, at, followUp, breaker, start);
    case Rejected(at, refusal) => RejectionKeepsCaps(l, at, refusal, start);
    case Park(now, reset, incident) => ParkKeepsCaps(l, now, reset, incident, start);
    case _ =>
  }

  lemma StepCountsRefusals(l: Lineage, step: Step)
    requires RefusalsCounted(l)
    ensures RefusalsCounted(Take(l, step))
  {
  }

  /**
   * Over every run of one lineage: at most eight launches that were not given back and five that the host
   * refused, one more for each time it was switched on again; a connection incident only ever launches the
   * first one; the end is fixed six hours after the start, and nothing is launched at or after it.
   */
  lemma {:induction false} LineageStaysWithinCaps(run: Run)
    ensures WithinCaps(After(run), StartOf(run)) && WithinRefusals(After(run))
  {
    LineageCounts(run);
    match run
    case Start(_, _, _, _, _) =>
    case Then(before, step) =>
      LineageStaysWithinCaps(before);
      StepKeepsCaps(After(before), step, StartOf(before));
  }

  lemma {:induction false} LineageCounts(run: Run)
    ensures RefusalsCounted(After(run))
  {
    match run
    case Start(_, _, _, _, _) =>
    case Then(before, step) =>
      LineageCounts(before);
      StepCountsRefusals(After(before), step);
  }

  /** The bound on refused launches is met without the user's help. */
  lemma FiveRefusalsCanHappen() returns (run: Run)
    ensures After(run).refused == MAX_HOST_FAILURES && After(run).reenabled == 0 && After(run).s.status.Exhausted?
  {
    var e := Execution("anthropic", "opus", None);
    var input := Input(1, e, None, None, false, false, None, None, None, None);
    run := Then(Start(0, true, None, false, None), Replan(input));
    for i := 0 to MAX_HOST_FAILURES
      invariant After(run).refused == i == After(run).s.hostFailures && After(run).reenabled == 0
      invariant After(run).s.enabled && !After(run).s.transport && After(run).s.target == Some(Original(e))
      invariant After(run).s.attemptCount == 0 && After(run).s.expiresAt == MAX_LINEAGE_MS
      invariant if i < MAX_HOST_FAILURES then After(run).s.status.Scheduled? else After(run).s.status.Exhausted?
    {
      run := Then(Then(run, Launch(2, "x", None)), Rejected(3, Other));
    }
  }

  // ---------- The backup's turn ----------

  /** What the next attempt may run on, given what the parked ones ran on. */
  ghost predicate CycleKept(l: Lineage) {
    && |l.ran| + (if l.s.status.Attempting? then 1 else 0) <= l.s.attemptCount
    && (l.ran != [] && l.ran[|l.ran| - 1].Backup? ==> l.s.backupAttempt.Some?)
    && (l.s.status.Attempting? ==> l.s.lastAttemptTaskId.Some?)
    && (l.s.status.Scheduled? || l.s.status.Attempting? ==>
          l.s.target.Some?
          && (l.s.target.value.Backup? ==> l.ran == [] || l.ran[|l.ran| - 1].Original?))
  }

  lemma PlanKeepsCycle(l: Lineage, input: Input)
    requires CycleKept(l)
    ensures CycleKept(Take(l, Replan(input))) && Take(l, Replan(input)).ran == l.ran
  {
    var p := PlanAttempt(input, l.s);
    assert p.Attempt? && p.target.Backup? ==> if l.s.transport then l.s.attemptCount == 0 else l.s.backupAttempt.None?;
  }

  lemma ParkKeepsCycle(l: Lineage, now: int, reset: Option<int>, incident: bool)
    requires CycleKept(l)
    ensures CycleKept(Take(l, Park(now, reset, incident)))
    ensures var m := Take(l, Park(now, reset, incident));
            || m.ran == l.ran
            || (m.ran == l.ran + [l.s.target.value]
                && (l.ran != [] && l.ran[|l.ran| - 1].Backup? ==> l.s.target.value.Original?))
  {
  }

  lemma LaunchKeepsCycle(l: Lineage, at: int, followUp: string, breaker: Option<int>)
    requires CycleKept(l)
    ensures CycleKept(TakeLaunch(l, at, followUp, breaker)) && TakeLaunch(l, at, followUp, breaker).ran == l.ran
  {
  }

  lemma RejectionKeepsCycle(l: Lineage, at: int, refusal: Refusal)
    requires CycleKept(l)
    ensures CycleKept(TakeRejected(l, at, refusal)) && TakeRejected(l, at, refusal).ran == l.ran
  {
  }

  lemma StepKeepsCycle(l: Lineage, step: Step)
    requires CycleKept(l)
    ensures CycleKept(Take(l, step))
    ensures var ran := Take(l, step).ran;
            ran == l.ran
            || (|ran| == |l.ran| + 1 && l.ran == ran[..|l.ran|]
                && (l.ran != [] && l.ran[|l.ran| - 1].Backup? ==> ran[|l.ran|].Original?))
  {
    match step
    case Replan(input) => PlanKeepsCycle(l, input);
    case Launch(at, followUp, breaker) => LaunchKeepsCycle(l, at, followUp, breaker);
    case Rejected(at, refusal) => RejectionKeepsCycle(l, at, refusal);
    case Park(now, reset, incident) => ParkKeepsCycle(l, now, reset, incident);
    case _ =>
  }

  /** Over every run the backup is never tried twice in a row: the original model comes between. */
  lemma {:induction false} BackupsAlternate(run: Run)
    ensures CycleKept(After(run))
    ensures forall i :: 0 <= i < |After(run).ran| - 1 && After(run).ran[i].Backup? ==> After(run).ran[i + 1].Original?
  {
    match run
    case Start(_, _, _, _, _) =>
    case Then(before, step) =>
      BackupsAlternate(before);
      StepKeepsCycle(After(before), step);
  }

  /**
   * Parking gives nothing back. Whatever the lineage did, once its attempt parks, the next plan still
   * counts every launch and the first start, never turns to the backup right after it, and gives up
   * on a second connection incident.
   */
  lemma ParkingKeepsBudget(run: Run, now: int, reset: Option<int>, incident: bool, input: Input)
    requires Continued(After(run), incident)
    ensures var l, m := After(run), After(Then(run, Park(now, reset, incident)));
            && (m.s.backupAttempt.Some? <==> l.s.target.value.Backup?)
            && (incident ==> PlanAttempt(input, m.s) == GiveUp(AttemptCap))
            && (PlanAttempt(input, m.s).Attempt? ==>
                  && l.launches < MAX_ATTEMPTS && input.now < StartOf(run) + MAX_LINEAGE_MS
                  && PlanAttempt(input, m.s).at <= StartOf(run) + MAX_LINEAGE_MS
                  && (PlanAttempt(input, m.s).target.Backup? ==> l.s.target.value.Original?))
  {
    LineageStaysWithinCaps(run);
    BackupsAlternate(run);
    var m := After(Then(run, Park(now, reset, incident)));
    assert m.s.attemptCount >= 1;
    if PlanAttempt(input, m.s).Attempt? {
      PlansWithinLineage(input, m.s);
    }
  }

  // ---------- The window against the earliest reset ----------

  /**
   * A run in which the window decides too early. A quota answer plans the original model for 25 seconds,
   * and no breaker holds it back by then, as after the success of another task. It is refused again, now
   * until an hour from the start, and the plan takes the first window.
   */
  function PreemptingRun(e: Execution): Run {
    var first := Input(1, e, None, None, false, false, None, Some(60000), Some(OpenCodeStatus), Some(10000));
    Then(Then(Then(Start(0, true, Some(60000), false, None), Replan(first)), Launch(25000, "x", None)),
         Park(25001, Some(3600000), false))
  }

  lemma WindowCanPreemptReset(e: Execution) returns (input: Input)
    ensures var s := After(PreemptingRun(e)).s;
            && PlanAttempt(input, s) == Attempt(75000, Original(e), Some(60000), Some(OpenCodeStatus))
            && EarliestReset(input, s) == Some((3600000, OpenCodeStatus))
            && !AfterKnownReset(input, s, PlanAttempt(input, s).at)
  {
    input := Input(25002, e, None, None, false, false, None, Some(3600000), Some(OpenCodeStatus), None);
    var run := PreemptingRun(e);
    assert After(run.before.before.before).s.windowResetAt == Some(60000);
    var planned := After(run.before.before).s;
    assert planned.nextAttemptAt == Some(25000) && planned.rejectionsInWindow == 1;
    var launched := After(run.before).s;
    assert launched.status.Attempting? && launched.rejectionsInWindow == 1;
    var s := After(run).s;
    assert s.windowResetAt == Some(60000) && s.resetAt == Some(3600000) && s.rejectionsInWindow == 2;
  }

  // ---------- The key of an attempt ----------

  function Decimal(n: nat): (s: string)
    ensures s != [] && forall i :: 0 <= i < |s| ==> s[i] != ':'
  {
    var digit := "0123456789"[n % 10];
    if n < 10 then [digit] else Decimal(n / 10) + [digit]
  }

  function AttemptKey(taskId: string, generation: nat, attempt: nat): string {
    "auto-resume:" + taskId + ":" + Decimal(generation) + ":" + Decimal(attempt)
  }

  lemma {:induction false} DecimalInjective(a: nat, b: nat)
    requires Decimal(a) == Decimal(b)
    ensures a == b
  {
    var x, y := Decimal(a), Decimal(b);
    assert x[|x| - 1] == "0123456789"[a % 10] && y[|y| - 1] == "0123456789"[b % 10];
    DigitInjective(a % 10, b % 10);
    if a >= 10 && b >= 10 {
      assert x[..|x| - 1] == Decimal(a / 10) && y[..|y| - 1] == Decimal(b / 10);
      DecimalInjective(a / 10, b / 10);
    }
  }

  lemma DigitInjective(a: nat, b: nat)
    requires a < 10 && b < 10 && "0123456789"[a] == "0123456789"[b]
    ensures a == b
  {
  }

  /** What follows the last colon is determined by the whole. */
  lemma LastField(x: string, d: string, y: string, e: string)
    requires x + ":" + d == y + ":" + e
    requires (forall i :: 0 <= i < |d| ==> d[i] != ':') && (forall i :: 0 <= i < |e| ==> e[i] != ':')
    ensures x == y && d == e
  {
    var whole := x + ":" + d;
    assert whole[|x|] == ':' && (y + ":" + e)[|y|] == ':';
    assert forall i :: |x| < i < |whole| ==> whole[i] == d[i - |x| - 1];
    assert forall i :: |y| < i < |whole| ==> whole[i] == e[i - |y| - 1];
    assert whole[..|x|] == x && (y + ":" + e)[..|y|] == y;
    assert whole[|x| + 1..] == d && (y + ":" + e)[|y| + 1..] == e;
  }

  /** A cancelled generation, another attempt or another task never gets the same key. */
  lemma KeysDiffer(a: string, g: nat, m: nat, b: string, h: nat, n: nat)
    requires AttemptKey(a, g, m) == AttemptKey(b, h, n)
    ensures a == b && g == h && m == n
  {
    LastField("auto-resume:" + a + ":" + Decimal(g), Decimal(m), "auto-resume:" + b + ":" + Decimal(h), Decimal(n));
    LastField("auto-resume:" + a, Decimal(g), "auto-resume:" + b, Decimal(h));
    assert ("auto-resume:" + a)[12..] == a && ("auto-resume:" + b)[12..] == b;
    DecimalInjective(g, h);
    DecimalInjective(m, n);
  }
}
