/** Stopping a child whose provider keeps retrying: a bounded number of aborts within a bounded watch. */
module RetryStop {
  /** One answer of the status call; `Unreadable` also stands for a shutdown or a lost lease. */
  datatype Status = Idle | Busy | Retrying(identity: string) | Unreadable

  predicate Live(s: Status) {
    s.Busy? || s.Retrying?
  }

  /** The retry last seen before poll `n`. */
  function LastRetry(read: nat -> Status, initial: string, n: nat): string {
    if n == 0 then initial
    else match read(n - 1)
      case Retrying(identity) => identity
      case _ => LastRetry(read, initial, n - 1)
  }

  /** The child is busy again, or in another retry than before. */
  predicate Resumed(read: nat -> Status, initial: string, n: nat) {
    match read(n)
    case Busy => true
    case Retrying(identity) => identity != LastRetry(read, initial, n)
    case _ => false
  }

  function Resumptions(read: nat -> Status, initial: string, n: nat): nat {
    if n == 0 then 0
    else Resumptions(read, initial, n - 1) + if Resumed(read, initial, n - 1) then 1 else 0
  }

  function AtMost(n: nat, most: nat): nat {
    if n < most then n else most
  }

  /** The first `n` answers are live. */
  ghost predicate LiveBefore(read: nat -> Status, n: nat) {
    forall k :: 0 <= k < n ==> Live(read(k))
  }

  /** The abort calls made before poll `n`: one, and one for each resumption while any is left. */
  function AbortsBefore(read: nat -> Status, initial: string, maxAborts: nat, n: nat): nat {
    1 + AtMost(Resumptions(read, initial, n), if maxAborts > 0 then maxAborts - 1 else 0)
  }

  /** Poll `n` finds the child resumed, and the abort call it makes fails. */
  predicate AbortFailsAt(read: nat -> Status, initial: string, maxAborts: nat, abortFails: nat -> bool, n: nat) {
    var aborts := AbortsBefore(read, initial, maxAborts, n);
    Resumed(read, initial, n) && aborts < maxAborts && abortFails(aborts)
  }

  /** The first abort call succeeds, and so does every one that the first `n` polls make. */
  ghost predicate AbortsSucceed(read: nat -> Status, initial: string, maxAborts: nat, abortFails: nat -> bool, n: nat) {
    !abortFails(0) && forall k :: 0 <= k < n ==> !AbortFailsAt(read, initial, maxAborts, abortFails, k)
  }

  datatype Ending = Stopped | StillRunning | Failed

  /**
   * The watch ends at the first answer that is not live, at the first abort call that fails, or at the poll
   * limit. It makes one abort call, and one more each time the child resumes, up to `maxAborts` in all.
   */
  method StartRetryStop(initial: string, read: nat -> Status, abortFails: nat -> bool, maxAborts: nat, pollLimit: nat)
    returns (ending: Ending, aborts: nat, polls: nat)
    requires maxAborts >= 1 && pollLimit >= 1
    ensures 1 <= aborts <= maxAborts && polls <= pollLimit
    ensures ending.StillRunning? <==>
              LiveBefore(read, pollLimit) && AbortsSucceed(read, initial, maxAborts, abortFails, pollLimit)
    ensures ending.StillRunning? ==> polls == pollLimit && aborts == AbortsBefore(read, initial, maxAborts, polls)
    ensures polls == 0 <==> abortFails(0)
    ensures polls == 0 ==> ending.Failed? && aborts == 1
    ensures polls > 0 && !ending.StillRunning? ==>
              && LiveBefore(read, polls - 1) && AbortsSucceed(read, initial, maxAborts, abortFails, polls - 1)
              && (ending.Stopped? <==> read(polls - 1).Idle?)
              && (ending.Failed? <==> read(polls - 1).Unreadable?
                                      || AbortFailsAt(read, initial, maxAborts, abortFails, polls - 1))
              && aborts == AbortsBefore(read, initial, maxAborts, polls - 1)
                           + if AbortFailsAt(read, initial, maxAborts, abortFails, polls - 1) then 1 else 0
  {
    aborts := 1;
    polls := 0;
    if abortFails(0) { return Failed, aborts, polls; }
    var lastRetryIdentity := initial;
    while polls < pollLimit
      invariant polls <= pollLimit && LiveBefore(read, polls)
      invariant AbortsSucceed(read, initial, maxAborts, abortFails, polls)
      invariant lastRetryIdentity == LastRetry(read, initial, polls)
      invariant aborts == AbortsBefore(read, initial, maxAborts, polls)
    {
      var status := read(polls);
      polls := polls + 1;
      assert !Live(status) ==> !Resumed(read, initial, polls - 1);
      if status.Unreadable? { return Failed, aborts, polls; }
      if !Live(status) { return Stopped, aborts, polls; }
      var shouldReabort := status.Busy? || status.identity != lastRetryIdentity;
      assert shouldReabort == Resumed(read, initial, polls - 1);
      if shouldReabort && aborts < maxAborts {
        aborts := aborts + 1;
        if abortFails(aborts - 1) { return Failed, aborts, polls; }
      }
      if status.Retrying? { lastRetryIdentity := status.identity; }
    }
    ending := StillRunning;
  }
}

/** One observation of a running child, and the automatic prompts it may send. */
module Observation {
  import opened Outcomes

  datatype Prompt = Connection | StaleTail | EmptyOutput | TurnBudget

  const MAX_TRANSIENT_TRANSPORT_CONTINUATIONS := 1
  const MAX_STALE_TAIL_REPROMPTS := 1
  const MAX_EMPTY_OUTPUT_CONTINUATIONS := 1

  /** What a prompt call comes back with; a connection recovery may also be refused before it is sent. */
  datatype Answer = Accepted | NotSubmitted | Refused

  /** Everything one pass of the loop reads, and the answers of the prompts it may send. */
  datatype Reading = Reading(
    unreadable: bool, steered: bool, event: bool, statusLive: bool,
    refreshDue: bool, silent: bool, stopFails: bool, completed: bool, atRest: bool,
    assistantCount: nat, primarySteps: nat, failures: nat, continuations: nat, emptyContinuations: nat,
    usageLimit: bool, configurationFailure: bool, newerInput: bool, unsettledPhase: bool, ownAssistant: bool,
    withinGrace: bool, transportFailure: bool, settled: bool, settleOverdue: bool,
    onAnchor: bool, orphan: bool, orphanConfirmed: bool, continuationPending: bool, emptyTerminal: bool,
    terminal: bool, deferred: bool,
    budgetAnswer: Answer, answer: Answer)

  /** How many prompts of each kind were accepted, and how many empty-output ones came after a recovery. */
  datatype Tally = Tally(connection: nat, staleTail: nat, emptyOutput: nat, turnBudget: nat, lateEmptyOutput: nat)

  const NONE := Tally(0, 0, 0, 0, 0)

  function Noted(tally: Tally, p: Prompt, recovered: bool): Tally {
    match p
    case Connection => tally.(connection := tally.connection + 1)
    case StaleTail => tally.(staleTail := tally.staleTail + 1)
    case EmptyOutput => tally.(emptyOutput := tally.emptyOutput + 1,
                               lateEmptyOutput := tally.lateEmptyOutput + if recovered then 1 else 0)
    case TurnBudget => tally.(turnBudget := tally.turnBudget + 1)
  }

  /** What one observation remembers between passes. */
  class Observer {
    const turnBudget: Option<nat>
    const designer: bool
    const graceTurns: nat
    /** The prompt that can be posted again for an inherited tail. */
    const anchorPrompt: bool
    var receipt: bool
    var anchored: bool
    var graceExhausted: bool
    var transportContinuations: nat
    var staleTailReprompts: nat
    var emptyOutputContinuations: nat
    var turnBudgetPromptSent: bool
    var baseline: Option<nat>
    ghost var sent: Tally
    ghost var hadReceipt: bool

    /** The counters say what was sent. */
    ghost predicate Valid()
      reads this
    {
      && sent.connection <= transportContinuations <= MAX_TRANSIENT_TRANSPORT_CONTINUATIONS
      && sent.staleTail == staleTailReprompts <= MAX_STALE_TAIL_REPROMPTS
      && sent.emptyOutput == emptyOutputContinuations <= MAX_EMPTY_OUTPUT_CONTINUATIONS
      && sent.turnBudget == (if turnBudgetPromptSent then 1 else 0)
      && (turnBudget.None? || designer ==> !turnBudgetPromptSent) && (!anchorPrompt ==> staleTailReprompts == 0)
      && (sent.connection > 0 ==> receipt && !hadReceipt)
      && (hadReceipt ==> receipt && sent.emptyOutput == 0) && sent.lateEmptyOutput == 0
    }

    constructor (turnBudget: Option<nat>, designer: bool, graceTurns: nat, baseline: Option<nat>,
                 receipt: bool, anchored: bool, anchorPrompt: bool)
      ensures Valid() && sent == NONE && this.receipt == receipt && hadReceipt == receipt && this.anchored == anchored
      ensures this.anchorPrompt == anchorPrompt
      ensures this.turnBudget == turnBudget && this.designer == designer
    {
      this.turnBudget, this.designer, this.graceTurns, this.baseline := turnBudget, designer, graceTurns, baseline;
      this.anchorPrompt := anchorPrompt;
      this.receipt, this.hadReceipt, this.anchored, this.graceExhausted := receipt, receipt, anchored, false;
      transportContinuations, staleTailReprompts, emptyOutputContinuations := 0, 0, 0;
      turnBudgetPromptSent := false;
      sent := NONE;
    }

    /** Notes that the prompt was accepted. */
    ghost method Note(p: Prompt)
      modifies this`sent
      ensures sent == Noted(old(sent), p, old(sent).connection > 0)
    {
      sent := Noted(sent, p, sent.connection > 0);
    }

    /** Counts the turns; posts the budget prompt once, and ends the watch when the grace is used up. */
    method EnforceTurnBudget(r: Reading) returns (ended: bool)
      requires Valid()
      modifies this`turnBudgetPromptSent, this`baseline, this`sent
      ensures Valid() && (sent == old(sent) || sent == Noted(old(sent), TurnBudget, false))
      ensures var counted := turnBudget.Some? && (designer || !r.steered);
              var from := if old(baseline).Some? then old(baseline).value else r.assistantCount;
              var used: int := if designer then r.primarySteps else r.assistantCount - from;
              && (ended <==> counted && used >= turnBudget.value + (if designer then 0 else graceTurns))
              && (sent != old(sent) <==> counted && !ended && !designer && used >= turnBudget.value
                                         && !old(turnBudgetPromptSent) && r.budgetAnswer.Accepted?)
    {
      if (!designer && r.steered) || turnBudget.None? { return false; }
      if baseline.None? { baseline := Some(r.assistantCount); }
      var used: int := if designer then r.primarySteps else r.assistantCount - baseline.value;
      if used >= turnBudget.value + (if designer then 0 else graceTurns) { return true; }
      if !designer && used >= turnBudget.value && !turnBudgetPromptSent {
        turnBudgetPromptSent := r.budgetAnswer.Accepted?;
        if turnBudgetPromptSent { Note(TurnBudget); }
      }
      ended := false;
    }

    /** A live child that went silent is stopped and, if the budget allows, continued. */
    method RecoverSilent(r: Reading) returns (ended: bool)
      requires Valid()
      modifies this`transportContinuations, this`receipt, this`sent
      ensures Valid() && (sent == old(sent) || sent == Noted(old(sent), Connection, false))
      ensures old(receipt) ==> ended && receipt && sent == old(sent)
      ensures !ended ==> receipt
      ensures sent != old(sent) <==>
                && !r.stopFails && !r.completed && r.atRest && !old(receipt) && old(transportContinuations) == 0
                && r.continuations == 0 && !r.answer.Refused?
    {
      var continuationAlreadyUsed := transportContinuations >= MAX_TRANSIENT_TRANSPORT_CONTINUATIONS
                                     || receipt || r.continuations >= MAX_TRANSIENT_TRANSPORT_CONTINUATIONS;
      if r.stopFails || r.completed || !r.atRest || continuationAlreadyUsed { return true; }
      transportContinuations := transportContinuations + 1;
      ended := SendConnectionRecovery(r.answer);
    }

    /** A recovery that was not refused leaves a receipt behind, whatever became of the prompt. */
    method SendConnectionRecovery(answer: Answer) returns (failed: bool)
      requires Valid() && sent.connection == 0 && !receipt && transportContinuations == 1
      modifies this`receipt, this`sent
      ensures Valid() && (sent == old(sent) || sent == Noted(old(sent), Connection, false))
      ensures failed == answer.Refused?
      ensures if failed then sent == old(sent) else receipt && sent == Noted(old(sent), Connection, false)
    {
      failed := answer.Refused?;
      if !failed {
        receipt := true;
        Note(Connection);
      }
    }

    /** One pass of the loop; `ended` says that the observation returns. */
    method Pass(r: Reading) returns (ended: bool)
      requires Valid()
      modifies this
      ensures Valid() && hadReceipt == old(hadReceipt) && (old(receipt) ==> receipt)
      ensures !old(anchored) ==> !anchored && sent.staleTail == old(sent).staleTail
    {
      if r.unreadable { return false; }
      if r.statusLive && !r.event && (!receipt || r.ownAssistant || r.steered) {
        ended := WhileLive(r);
        return;
      }
      if r.steered { return r.terminal; }
      if r.usageLimit || r.configurationFailure { return true; }
      if receipt {
        if r.newerInput || r.unsettledPhase { return true; }
        if !r.ownAssistant { return !r.withinGrace; }
        if r.completed { return true; }
      }
      if (r.event || r.transportFailure) && !(anchored && r.onAnchor && !receipt) {
        ended := AfterTransportFailure(r);
        return;
      }
      if anchored && r.onAnchor {
        var waiting := HoldAnchor(r);
        if waiting { return false; }
      }
      ended := AfterTail(r);
    }

    /** The inherited tail is still the latest: wait, post once more if there is a prompt, then stop holding back. */
    method HoldAnchor(r: Reading) returns (waiting: bool)
      requires Valid() && anchored
      modifies this`anchored, this`graceExhausted, this`staleTailReprompts, this`sent
      ensures Valid() && (sent == old(sent) || (waiting && sent == Noted(old(sent), StaleTail, false)))
          && (waiting <==> anchored)
      ensures sent != old(sent) <==>
                !r.withinGrace && anchorPrompt && old(staleTailReprompts) == 0 && r.answer.Accepted?
      ensures !waiting <==> !r.withinGrace && (!anchorPrompt || old(staleTailReprompts) == 1)
    {
      if r.withinGrace { return true; }
      if staleTailReprompts < MAX_STALE_TAIL_REPROMPTS && anchorPrompt {
        if r.answer.Accepted? {
          staleTailReprompts := staleTailReprompts + 1;
          Note(StaleTail);
        }
        return true;
      }
      anchored, graceExhausted := false, true;
      waiting := false;
    }

    method WhileLive(r: Reading) returns (ended: bool)
      requires Valid()
      modifies this`turnBudgetPromptSent, this`baseline, this`transportContinuations, this`receipt, this`sent
      ensures Valid() && (old(receipt) ==> receipt) && sent.staleTail == old(sent).staleTail
    {
      if !r.refreshDue { return false; }
      ended := EnforceTurnBudget(r);
      if !ended && r.silent && !r.steered { ended := RecoverSilent(r); }
    }

    method AfterTransportFailure(r: Reading) returns (ended: bool)
      requires Valid()
      modifies this`transportContinuations, this`receipt, this`sent
      ensures Valid() && (sent == old(sent) || sent == Noted(old(sent), Connection, false))
          && (old(receipt) ==> receipt)
      ensures old(receipt) ==> sent == old(sent)
      ensures sent != old(sent) <==>
                && !old(receipt) && !r.newerInput && r.settled && r.failures <= 1 && r.continuations == 0
                && old(transportContinuations) == 0 && !r.answer.Refused?
    {
      var used := r.failures > MAX_TRANSIENT_TRANSPORT_CONTINUATIONS
                  || r.continuations >= MAX_TRANSIENT_TRANSPORT_CONTINUATIONS
                  || transportContinuations >= MAX_TRANSIENT_TRANSPORT_CONTINUATIONS;
      if !receipt && used && r.terminal { return true; }
      if r.newerInput { return true; }
      if !r.settled { return r.settleOverdue; }
      if receipt || used { return true; }
      transportContinuations := transportContinuations + 1;
      ended := SendConnectionRecovery(r.answer);
    }

    method AfterTail(r: Reading) returns (ended: bool)
      requires Valid()
      modifies this`emptyOutputContinuations, this`turnBudgetPromptSent, this`baseline, this`sent
      ensures Valid()
      ensures sent.emptyOutput != old(sent).emptyOutput <==>
                && !r.orphan && (!r.continuationPending || graceExhausted) && r.emptyTerminal && !receipt
                && r.emptyContinuations == 0 && old(emptyOutputContinuations) == 0 && r.answer.Accepted?
      ensures sent == old(sent) || sent == Noted(old(sent), EmptyOutput, false)
          || sent == Noted(old(sent), TurnBudget, false)
    {
      if r.orphan { return r.orphanConfirmed; }
      if r.continuationPending && !graceExhausted { return false; }
      if r.emptyTerminal && !receipt && r.emptyContinuations < MAX_EMPTY_OUTPUT_CONTINUATIONS
         && emptyOutputContinuations < MAX_EMPTY_OUTPUT_CONTINUATIONS {
        if r.answer.Accepted? {
          emptyOutputContinuations := emptyOutputContinuations + 1;
          Note(EmptyOutput);
        }
        return false;
      }
      if !r.terminal {
        ended := EnforceTurnBudget(r);
        return;
      }
      ended := !r.deferred;
    }
  }

  /**
   * Over any sequence of readings one observation sends at most four automatic prompts, at most one of
   * each kind: none for an empty output once a connection recovery was sent or inherited, none for the
   * connection with an inherited receipt, none for a stale tail without an anchor that has a prompt.
   */
  method ObserveTerminal(o: Observer, readings: seq<Reading>) returns (ended: bool)
    requires o.Valid() && o.sent == NONE && o.receipt == o.hadReceipt
    modifies o
    ensures o.Valid() && o.sent.connection + o.sent.staleTail + o.sent.emptyOutput + o.sent.turnBudget <= 4
    ensures o.sent.connection <= 1 && o.sent.staleTail <= 1 && o.sent.emptyOutput <= 1 && o.sent.turnBudget <= 1
    ensures o.sent.lateEmptyOutput == 0
    ensures old(o.receipt) ==> o.sent.connection == 0 && o.sent.emptyOutput == 0
    ensures !old(o.anchored) || !o.anchorPrompt ==> o.sent.staleTail == 0
    ensures o.turnBudget.None? || o.designer ==> o.sent.turnBudget == 0
  {
    ended := false;
    for i := 0 to |readings|
      invariant o.Valid() && o.hadReceipt == old(o.receipt)
      invariant !old(o.anchored) ==> !o.anchored && o.sent.staleTail == 0
    {
      ended := o.Pass(readings[i]);
      if ended { break; }
    }
  }
}
