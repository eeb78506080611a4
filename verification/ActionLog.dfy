/**
  The append-only audit log of one action and its refinement: the log alone, folded from
  its CREATED event, gives back the row's state, version and both human decisions.
 */
module ActionLog {
  import opened Options
  import opened ActionModel
  import opened ActionLifecycle

  /** What the log knows about a row. A decision carries its verdict and its actor. */
  datatype LogSummary = LogSummary(
    state: ActionState,
    version: nat,
    customer: Option<(Verdict, Option<Uuid>)>,
    supervisor: Option<(Verdict, Option<Uuid>)>)

  predicate CustomerEvent(kind: EventType) { kind == CustomerConfirmed || kind == CustomerRejected }

  predicate SupervisorEvent(kind: EventType) { kind == SupervisorApproved || kind == SupervisorRejected }

  function Replay(sum: LogSummary, event: ActionEvent): LogSummary {
    LogSummary(
      event.next,
      sum.version + 1,
      if event.kind == CustomerConfirmed then Some((Granted, event.actor))
      else if event.kind == CustomerRejected then Some((Refused, event.actor))
      else sum.customer,
      if event.kind == SupervisorApproved then Some((Granted, event.actor))
      else if event.kind == SupervisorRejected then Some((Refused, event.actor))
      else sum.supervisor)
  }

  /** Folds a log from its CREATED event. */
  function Fold(log: seq<ActionEvent>): LogSummary
    requires |log| > 0
  {
    if |log| == 1 then LogSummary(log[0].next, 1, None, None)
    else Replay(Fold(log[..|log| - 1]), log[|log| - 1])
  }

  function Recorded(d: HumanDecision): Option<(Verdict, Option<Uuid>)> {
    if d.verdict.Some? then Some((d.verdict.value, d.actor)) else None
  }

  function SummaryOf(row: ActionRow): LogSummary {
    LogSummary(row.state, row.version, Recorded(row.customer), Recorded(row.supervisor))
  }

  /** Numbered 1..n, opened by CREATED, each event continuing its predecessor. */
  ghost predicate WellFormed(log: seq<ActionEvent>, fingerprint: Fingerprint) {
    && |log| > 0
    && log[0].kind == CreatedEvent && log[0].previous == None && log[0].next == Proposed
    && (forall i | 0 <= i < |log| :: log[i].sequence == i + 1 && log[i].fingerprint == fingerprint)
    && (forall i, j | 0 <= i < j < |log| && j == i + 1 :: Continues(log[i], log[j]))
  }

  predicate Continues(before: ActionEvent, after: ActionEvent) {
    after.kind != CreatedEvent && after.previous == Some(before.next) && LiveEdge(before.next, after.next)
  }

  /**
    The edges that really commit: the approved ones and self-loops, except the ways into
    ready and policy_denied that no guard combination lets through.
   */
  predicate LiveEdge(before: ActionState, after: ActionState) {
    && (before == after || after in Successors(before))
    && (after == ReadyToExecute ==> before in {AwaitingConfirmation, Executing, ReadyToExecute})
    && (after == PolicyDenied ==> before == Proposed)
  }

  /** Each human decides at most once, and no supervisor decision follows the customer's. */
  ghost predicate DecisionsOrderly(log: seq<ActionEvent>) {
    forall i, j | 0 <= i < j < |log| ::
      && !(CustomerEvent(log[i].kind) && CustomerEvent(log[j].kind))
      && !(SupervisorEvent(log[i].kind) && SupervisorEvent(log[j].kind))
      && !(CustomerEvent(log[i].kind) && SupervisorEvent(log[j].kind))
  }

  ghost predicate LogSound(row: ActionRow, log: seq<ActionEvent>) {
    && WellFormed(log, row.fixed.fingerprint)
    && DecisionsOrderly(log)
    && Fold(log) == SummaryOf(row)
  }

  /** A row that its own log explains. */
  ghost predicate Sound(row: ActionRow, log: seq<ActionEvent>) {
    RowSound(row) && LogSound(row, log)
  }

  lemma {:induction false} FoldCountsAndRemembers(log: seq<ActionEvent>)
    requires |log| > 0 && log[0].kind == CreatedEvent
    ensures Fold(log).version == |log|
    ensures Fold(log).customer.Some? <==> exists i :: 0 <= i < |log| && CustomerEvent(log[i].kind)
    ensures Fold(log).supervisor.Some? <==> exists i :: 0 <= i < |log| && SupervisorEvent(log[i].kind)
  {
    if |log| > 1 {
      var init := log[..|log| - 1];
      FoldCountsAndRemembers(init);
      assert forall i | 0 <= i < |init| :: init[i] == log[i];
    }
  }

  /** The version of a sound row is the length of its log, and the last event names its state. */
  lemma LogNumbersVersions(row: ActionRow, log: seq<ActionEvent>)
    requires LogSound(row, log)
    ensures |log| == row.version && log[|log| - 1].next == row.state
  {
    FoldCountsAndRemembers(log);
  }

  lemma AppendKeepsWellFormed(log: seq<ActionEvent>, fingerprint: Fingerprint, event: ActionEvent)
    requires WellFormed(log, fingerprint)
    requires event.sequence == |log| + 1 && event.fingerprint == fingerprint && event.kind != CreatedEvent
    requires event.previous == Some(log[|log| - 1].next) && LiveEdge(log[|log| - 1].next, event.next)
    ensures WellFormed(log + [event], fingerprint)
  {
    hide LiveEdge;
  }

  lemma AppendKeepsOrder(log: seq<ActionEvent>, event: ActionEvent)
    requires |log| > 0 && log[0].kind == CreatedEvent && DecisionsOrderly(log)
    requires CustomerEvent(event.kind) ==> Fold(log).customer.None?
    requires SupervisorEvent(event.kind) ==> Fold(log).customer.None? && Fold(log).supervisor.None?
    ensures DecisionsOrderly(log + [event])
  {
    hide Fold;
    FoldCountsAndRemembers(log);
  }

  /** An event that continues a log and decides nothing twice extends it, and the fold by one replay. */
  lemma AppendKeepsLog(log: seq<ActionEvent>, fingerprint: Fingerprint, event: ActionEvent)
    requires WellFormed(log, fingerprint) && DecisionsOrderly(log)
    requires event.sequence == |log| + 1 && event.fingerprint == fingerprint && event.kind != CreatedEvent
    requires event.previous == Some(log[|log| - 1].next) && LiveEdge(log[|log| - 1].next, event.next)
    requires CustomerEvent(event.kind) ==> Fold(log).customer.None?
    requires SupervisorEvent(event.kind) ==> Fold(log).customer.None? && Fold(log).supervisor.None?
    ensures WellFormed(log + [event], fingerprint) && DecisionsOrderly(log + [event])
    ensures Fold(log + [event]) == Replay(Fold(log), event)
  {
    hide LiveEdge, DecisionsOrderly, Replay;
    AppendKeepsWellFormed(log, fingerprint, event);
    AppendKeepsOrder(log, event);
    var log' := log + [event];
    assert log'[..|log'| - 1] == log;
  }

  /** Decision columns are written exactly when the matching event is, and only when still empty. */
  lemma EventMatchesColumns(row: ActionRow, req: TransitionRequest)
    requires RowSound(row)
    requires Settle(row, req).Moved?
    ensures var event := Settle(row, req).event;
      && Replay(SummaryOf(row), event) == SummaryOf(Settle(row, req).row)
      && (CustomerEvent(event.kind) ==> SummaryOf(row).customer.None?)
      && (SupervisorEvent(event.kind) ==> SummaryOf(row).customer.None? && SummaryOf(row).supervisor.None?)
      && event.sequence == row.version + 1 && event.fingerprint == row.fixed.fingerprint
      && event.kind != CreatedEvent
      && event.previous == Some(row.state) && LiveEdge(row.state, event.next)
  {
  }

  /** Every committed transition extends the log by one event that the fold accounts for exactly. */
  lemma SettleExtendsLog(row: ActionRow, log: seq<ActionEvent>, req: TransitionRequest)
    requires Sound(row, log)
    requires Settle(row, req).Moved?
    ensures Sound(Settle(row, req).row, log + [Settle(row, req).event])
  {
    hide Settle, RowSound, SummaryOf, LiveEdge, Replay;
    SettleKeepsRow(row, req);
    EventMatchesColumns(row, req);
    LogNumbersVersions(row, log);
    AppendKeepsLog(log, row.fixed.fingerprint, Settle(row, req).event);
  }
}
