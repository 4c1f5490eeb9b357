/**
 * The records of the managed-orchestration ledger: tasks, result envelopes and the
 * predicates that retention, proof storage and collection share.
 */
module Ledger {
  import opened Outcomes
  import opened JsText

  type TaskId = Text

  const TASK_ID_PREFIX: Text := Ascii("dvr_task_")
  const LINEAGE_ID_PREFIX: Text := Ascii("dvr_lineage_")
  const TOMBSTONE_PROMPT: Text := Ascii("Released native job proof")

  datatype Status = Queued | Starting | Running | Completed | Failed | Aborted | Interrupted

  datatype Backend = LegacySession | NativeJob | CursorSdk

  datatype Completion = Pending | Done

  datatype SegmentState = SegReserved | SegPrepared | SegAccepted | SegUncertain | SegCancelled

  datatype Segment = Segment(jobID: Text, notificationID: Text, messageID: Text,
                             state: SegmentState, completion: Option<Completion>)

  /** A recorded disposition; only `collect` is told apart from the others by retention. */
  datatype Action = Collect | Disposition(name: Text)

  datatype ResumePhase =
    | Planning | Scheduled | Attempting | Superseded | Succeeded | Ended | Cancelled | Exhausted | Acknowledged

  datatype ResumeStatus = ResumeStatus(enabled: bool, phase: ResumePhase, details: Text)

  /** `details` carries every field that no modelled operation reads. */
  datatype Task = Task(
    taskId: TaskId,
    idempotencyKey: Text,
    rootSessionId: Text,
    parentTaskId: Option<TaskId>,
    childSessionId: Option<Text>,
    directory: Text,
    sequence: int,
    priorTaskId: Option<TaskId>,
    attempt: int,
    executionKind: Text,
    status: Status,
    partial: bool,
    executionBackend: Option<Backend>,
    nativeJobSegments: Option<seq<Segment>>,
    prompt: Text,
    failureReason: Option<Text>,
    recoverablePreview: Text,
    canonicalRefs: seq<Text>,
    createdAt: int,
    startedAt: Option<int>,
    finishedAt: Option<int>,
    recoveryLineageId: Option<Text>,
    dispatchGroupId: Option<Text>,
    dispatchCallId: Option<Text>,
    dispatchWaveId: Option<Text>,
    dispatchObjectiveId: Option<Text>,
    transportRecovery: Option<Text>,
    approvedPlanRef: Option<Text>,
    taskPrerequisites: Option<seq<TaskId>>,
    requiredChecks: Option<seq<Text>>,
    requiredCheckReceipts: Option<Text>,
    requiredCheckCorrections: Option<Text>,
    primaryStepBudget: Option<Text>,
    details: Text)

  datatype Envelope = Envelope(
    envelopeId: Text,
    sequence: int,
    taskId: TaskId,
    rootSessionId: Text,
    parentTaskId: Option<TaskId>,
    childSessionId: Option<Text>,
    directory: Text,
    status: Status,
    partial: bool,
    failureReason: Option<Text>,
    attempt: int,
    priorTaskId: Option<TaskId>,
    executionKind: Text,
    recoverablePreview: Text,
    canonicalRefs: seq<Text>,
    createdAt: int,
    acknowledgedAt: Option<int>,
    action: Option<Action>,
    followUpTaskId: Option<TaskId>,
    autoResume: Option<ResumeStatus>,
    details: Text)

  datatype Snapshot = Snapshot(objectiveChecks: seq<Text>, tasks: seq<Task>, envelopes: seq<Envelope>)

  predicate IsTerminal(status: Status) {
    status.Completed? || status.Failed? || status.Aborted? || status.Interrupted?
  }

  predicate IsAutoResumeActive(envelope: Envelope) {
    && envelope.autoResume.Some?
    && envelope.autoResume.value.enabled
    && (var phase := envelope.autoResume.value.phase; phase.Planning? || phase.Scheduled? || phase.Attempting?)
  }

  /** Adverse native attempts keep their input receipts until verified disposal. */
  predicate RequiresInputDisposition(task: Task) {
    && task.executionBackend == Some(NativeJob)
    && (task.status.Failed? || task.status.Aborted? || task.status.Interrupted?)
    && task.nativeJobSegments.Some? && |task.nativeJobSegments.value| > 0
  }

  predicate RetainsProof(task: Task) {
    && IsTerminal(task.status)
    && task.executionBackend == Some(NativeJob)
    && task.nativeJobSegments.Some? && |task.nativeJobSegments.value| > 0
    && (RequiresInputDisposition(task)
        || exists i :: 0 <= i < |task.nativeJobSegments.value|
                       && task.nativeJobSegments.value[i].completion != Some(Done))
  }

  predicate IsTombstone(task: Task) {
    RetainsProof(task) && task.prompt == TOMBSTONE_PROMPT
  }

  /** The fields an envelope copies from its task, compared the way the codec compares them. */
  predicate PayloadMatches(task: Task, envelope: Envelope) {
    && task.taskId == envelope.taskId
    && task.rootSessionId == envelope.rootSessionId
    && task.parentTaskId == envelope.parentTaskId
    && task.childSessionId == envelope.childSessionId
    && task.directory == envelope.directory
    && task.status == envelope.status
    && task.partial == envelope.partial
    && task.failureReason == envelope.failureReason
    && task.attempt == envelope.attempt
    && task.priorTaskId == envelope.priorTaskId
    && task.executionKind == envelope.executionKind
    && task.recoverablePreview == envelope.recoverablePreview
    && task.canonicalRefs == envelope.canonicalRefs
  }

  /** A later record with the same id would win, as it does in `new Map(entries)`. */
  function TaskMap(tasks: seq<Task>): (m: map<TaskId, Task>)
    ensures forall id :: id in m ==> m[id] in tasks && m[id].taskId == id
    ensures forall t :: t in tasks ==> t.taskId in m
  {
    if tasks == [] then map[]
    else
      var last := tasks[|tasks| - 1];
      TaskMap(tasks[..|tasks| - 1])[last.taskId := last]
  }

  function EnvelopeMap(envelopes: seq<Envelope>): (m: map<TaskId, Envelope>)
    ensures forall id :: id in m ==> m[id] in envelopes && m[id].taskId == id
    ensures forall e :: e in envelopes ==> e.taskId in m
  {
    if envelopes == [] then map[]
    else
      var last := envelopes[|envelopes| - 1];
      EnvelopeMap(envelopes[..|envelopes| - 1])[last.taskId := last]
  }

  ghost predicate UniqueTasks(tasks: seq<Task>) {
    forall i, j :: 0 <= i < j < |tasks| ==> tasks[i].taskId != tasks[j].taskId
  }

  ghost predicate UniqueEnvelopes(envelopes: seq<Envelope>) {
    forall i, j :: 0 <= i < j < |envelopes| ==> envelopes[i].taskId != envelopes[j].taskId
  }

  /** Two tasks of one root never share an idempotency key. */
  ghost predicate UniqueKeys(tasks: seq<Task>) {
    forall a, b :: a in tasks && b in tasks && a.taskId != b.taskId
                   ==> a.rootSessionId != b.rootSessionId || a.idempotencyKey != b.idempotencyKey
  }

  /** What decoding a ledger enforces on ids, keys, envelopes and payload copies. */
  ghost predicate Decoded(s: Snapshot) {
    && UniqueTasks(s.tasks)
    && UniqueEnvelopes(s.envelopes)
    && UniqueKeys(s.tasks)
    && (forall t :: t in s.tasks ==> TASK_ID_PREFIX <= t.taskId && t.sequence >= 1)
    && (forall e :: e in s.envelopes ==> exists t :: t in s.tasks && PayloadMatches(t, e))
  }

  /** Task sequences grow, so an attempt's predecessor always carries a smaller one. */
  ghost predicate PriorsPrecede(tasks: seq<Task>) {
    forall t, p :: t in tasks && p in tasks && t.priorTaskId == Some(p.taskId) ==> p.sequence < t.sequence
  }

  /** A task with no more than its identity, for the examples. */
  function PlainTask(id: TaskId, key: Text, sequence: int, prior: Option<TaskId>, status: Status): Task {
    Task(id, key, [], None, None, [], sequence, prior, 1, [], status, false, None, None, [], None, [], [], 0, None,
         None, None, None, None, None, None, None, None, None, None, None, None, None, [])
  }

  lemma TaskMapFinds(tasks: seq<Task>, t: Task)
    requires UniqueTasks(tasks) && t in tasks
    ensures t.taskId in TaskMap(tasks) && TaskMap(tasks)[t.taskId] == t
  {
    var found := TaskMap(tasks)[t.taskId];
    var i :| 0 <= i < |tasks| && tasks[i] == t;
    var j :| 0 <= j < |tasks| && tasks[j] == found;
    assert i == j;
  }

  lemma EnvelopeMapFinds(envelopes: seq<Envelope>, e: Envelope)
    requires UniqueEnvelopes(envelopes) && e in envelopes
    ensures e.taskId in EnvelopeMap(envelopes) && EnvelopeMap(envelopes)[e.taskId] == e
  {
    var found := EnvelopeMap(envelopes)[e.taskId];
    var i :| 0 <= i < |envelopes| && envelopes[i] == e;
    var j :| 0 <= j < |envelopes| && envelopes[j] == found;
    assert i == j;
  }
}
