/**
  Runs that exist: every valid action can succeed, a reconciler's FAILED on an answer from
  before or inside a rolled-back transaction can still be followed by the effect, and the last
  worker left to send can be wrong only on an answer from before the transaction.
 */
module ProtocolScenarios {
  import opened Options
  import opened ActionModel
  import opened ActionLifecycle
  import opened ActionServices
  import ActionStore
  import opened CommerceRequests
  import opened IdempotentWrites
  import opened CommerceWire
  import opened ActionProtocol
  import opened ProtocolMoves
  import opened ProtocolInvariant
  import opened ProtocolTrail
  import opened ProtocolSafety
  import opened ProtocolFailure
  import opened ProtocolSoleWriter
  import opened ProtocolRounds

  lemma PolicyReason()
    ensures ReasonCode("allowed")
  {
  }

  lemma VerifiedReason()
    ensures ReasonCode("verified")
  {
  }

  lemma AmbiguousReason()
    ensures ReasonCode("ambiguous_write_outcome")
  {
  }

  lemma ClaimedReason()
    ensures ReasonCode("reconciliation_claimed")
  {
  }

  lemma ReceivedReason()
    ensures ReasonCode("write_response_received")
  {
  }

  lemma RefusedReason()
    ensures ReasonCode("unauthorized")
  {
  }

  const ALLOW: PolicyDecision := PolicyOutcome(true, "allowed", true, false, "v1")

  lemma PolicyGoesThrough(row: ActionRow, now: Time)
    requires RowSound(row) && row.state == Proposed && now < row.fixed.expiresAt
    ensures var change := Transition(row, row.fixed.fingerprint, AsRequest(RecordPolicy(0, ALLOW), now)).change;
      && change.Written? && change.row.state == AwaitingConfirmation && change.row.fixed == row.fixed
      && !change.row.approvalRequired && change.row.supervisor == row.supervisor
  {
    hide ReasonCode;
    PolicyReason();
  }

  lemma ConfirmationGoesThrough(row: ActionRow, now: Time)
    requires RowSound(row) && row.state == AwaitingConfirmation && now < row.fixed.expiresAt && !row.approvalRequired
    ensures var call := Confirm(0, Freshness(row.fixed.fingerprint, ALLOW));
      var change := Transition(row, row.fixed.fingerprint, AsRequest(call, now)).change;
      && change.Written? && change.row.state == ReadyToExecute && change.row.fixed == row.fixed
      && GatesSatisfied(change.row) && !change.row.approvalRequired && change.row.supervisor == row.supervisor
  {
    hide ReasonCode;
  }

  /** Some continuation without duplicated delivery leads here. */
  ghost predicate Reached(from: System, s: System) {
    exists more :: NoDuplicates(more) && Continue(from, more) == s
  }

  lemma RunTo(from: System, s: System) returns (more: seq<Label>)
    requires Reached(from, s)
    ensures NoDuplicates(more) && Continue(from, more) == s
  {
    more :| NoDuplicates(more) && Continue(from, more) == s;
  }

  lemma ReachBegun(r: ActionStore.CreateRequest)
    requires Creatable(r)
    ensures Reached(Begun(r), Begun(r)) && Inv(Begun(r))
  {
    hide Inv;
    BegunIsSound(r);
    ReachedAtOnce(Begun(r));
  }

  lemma ReachedAtOnce(s: System)
    ensures Reached(s, s)
  {
    assert Continue(s, []) == s;
  }

  lemma ReachStep(from: System, s: System, l: Label) returns (s': System)
    requires Reached(from, s) && Inv(s)
    requires Step(s, l).Some? && !Duplicates(l)
    ensures Step(s, l) == Some(s') && Reached(from, s') && Inv(s') && s'.row.fixed == s.row.fixed
  {
    hide Inv, Step;
    s' := Step(s, l).value;
    StepOfSound(s, l, s');
    var more := RunTo(from, s);
    ContinueSnoc(from, more, l);
    assert NoDuplicates(more + [l]);
  }

  /** The row, request and leases of a system between two workers. */
  ghost predicate Between(r: ActionStore.CreateRequest, s: System, state: ActionState, grants: seq<Uuid>)
    requires r.customer.Some?
  {
    && Reached(Begun(r), s) && Inv(s)
    && s.row.state == state && s.row.fixed == ActionStore.NewRow(r).fixed && s.grants == grants
    && s.workers == map[]
    && ExecutorRequest(s.row) == ExecutorRequest(ActionStore.NewRow(r))
    && !s.row.approvalRequired
  }

  lemma SameRequestSameEvidence(a: ActionRow, b: ActionRow)
    requires SameEvidence(a, b)
    ensures ExecutorRequest(a) == ExecutorRequest(b)
  {
  }

  lemma ReachConfirmable(r: ActionStore.CreateRequest) returns (s: System)
    requires Creatable(r)
    ensures Between(r, s, AwaitingConfirmation, []) && s.wire == IDLE
    ensures s.row.supervisor == ActionStore.NewRow(r).supervisor
  {
    hide Inv, Step, RowSound, Transition, AsRequest, ExecutorRequest, Reached;
    ReachBegun(r);
    s := Begun(r);
    InvRowSound(s);
    PolicyGoesThrough(s.row, r.now);
    var call := RecordPolicy(0, ALLOW);
    DecisionStep(s, call, r.now);
    s := ReachStep(Begun(r), s, Decides(call, r.now));
    SameRequestSameEvidence(s.row, ActionStore.NewRow(r));
  }

  lemma DecisionStep(s: System, call: ServiceCall, now: Time)
    requires GoesAhead(s.row.fixed, call)
    ensures Step(s, Decides(call, now)) == Some(DecidesStep(s, call, now))
  {
    hide DecidesStep, GoesAhead;
  }

  lemma ReachReady(r: ActionStore.CreateRequest) returns (s: System)
    requires Creatable(r)
    ensures Between(r, s, ReadyToExecute, []) && GatesSatisfied(s.row) && s.wire == IDLE
  {
    hide Inv, Step, RowSound, GatesSatisfied, Transition, AsRequest, ExecutorRequest, Reached;
    s := ReachConfirmable(r);
    InvRowSound(s);
    ConfirmationGoesThrough(s.row, r.now);
    var call := Confirm(0, Freshness(s.row.fixed.fingerprint, ALLOW));
    DecisionStep(s, call, r.now);
    s := ReachStep(Begun(r), s, Decides(call, r.now));
    SameRequestSameEvidence(s.row, ActionStore.NewRow(r));
  }

  lemma ClaimGoesThrough(row: ActionRow, lease: Uuid, now: Time)
    requires RowSound(row) && row.state == ReadyToExecute && now < row.fixed.expiresAt
    ensures var service := ClaimExecution(row, row.fixed.fingerprint, lease, now, LEASE_SECONDS, now);
      service.reply.Claimed? && service.change.Written? && service.change.row == service.reply.row
      && service.change.row.state == Executing && service.change.row.leaseOwner == Some(lease)
  {
  }

  /** An executor refreshed a ready action and is about to claim it. */
  lemma ReachClaiming(r: ActionStore.CreateRequest) returns (s: System)
    requires Creatable(r)
    ensures Reached(Begun(r), s) && Inv(s) && s.row.state == ReadyToExecute && s.grants == [] && s.wire == IDLE
    ensures s.row.fixed == ActionStore.NewRow(r).fixed && !s.row.approvalRequired
    ensures s.workers.Keys == {0} && s.workers[0].role == Executor && s.workers[0].place == Claiming
    ensures s.workers[0].record == s.row && s.workers[0].lease == None && s.workers[0].read == None
    ensures ExecutorRequest(s.row) == ExecutorRequest(ActionStore.NewRow(r))
  {
    hide Inv, GatesSatisfied, ExecutorRequest, Reached, DecidesStep;
    s := ReachReady(r);
    s := ReachStep(Begun(r), s, StartExecutor(0));
    s := ReachStep(Begun(r), s, Refreshed(0, Freshness(s.row.fixed.fingerprint, ALLOW), r.now));
  }

  /** An executor holds lease 1 and is about to dispatch. */
  lemma ReachDispatching(r: ActionStore.CreateRequest) returns (s: System)
    requires Creatable(r)
    ensures Reached(Begun(r), s) && Inv(s) && s.row.state == Executing && s.grants == [1] && s.wire == IDLE
    ensures s.row.fixed == ActionStore.NewRow(r).fixed && s.row.leaseOwner == Some(1) && !s.row.approvalRequired
    ensures At(s, 0) && s.workers.Keys == {0}
    ensures s.workers[0] == Worker(Executor, s.row, s.workers[0].facts, Some(1), None, Dispatching(0))
    ensures ExecutorRequest(s.row) == ExecutorRequest(ActionStore.NewRow(r))
  {
    hide Inv, RowSound, GatesSatisfied, ClaimExecution, ExecutorRequest, Reached;
    s := ReachClaiming(r);
    InvRowSound(s);
    ClaimGoesThrough(s.row, 1, r.now);
    ClaimGrants(s.row, s.row.fixed.fingerprint, 1, r.now, LEASE_SECONDS, r.now);
    var next := ReachStep(Begun(r), s, ClaimForExecution(0, 1, r.now, r.now));
    SameRequestSameEvidence(s.row, next.row);
    s := next;
  }

  lemma InvRowSound(s: System)
    requires Inv(s)
    ensures RowSound(s.row)
  {
    hide Crew, Mail, Trail, Ended;
    SoundLedger(s);
  }

  /** The network right after the first request was posted. */
  function Posted(call: WriteCall): Wire {
    IDLE.(sent := map[0 := call], live := {0})
  }

  const DONE := Answer(0, Executed(CREATED, false), Recorded)

  /** What becomes of the first request: it is still on its way, is written, recorded and answered, or is lost. */
  datatype Fate = Underway | WrittenDown | Lost

  function FirstWire(call: WriteCall, fate: Fate): Wire {
    match fate
    case WrittenDown =>
      Posted(call).(live := {}, db := Committed(IDLE.db, call, CREATED), committer := map[call.key := 0],
                    answers := {DONE})
    case Underway => Posted(call)
    case Lost => Posted(call).(live := {})
  }

  /** And after a second request, on its way or answered. */
  function SecondWire(call: WriteCall, fate: Fate, answer: Option<Answer>): Wire {
    var first := FirstWire(call, fate);
    first.(sent := map[0 := call, 1 := call],
           live := if answer.None? then first.live + {1} else first.live,
           answers := if answer.None? then first.answers else first.answers + {answer.value})
  }

  ghost predicate Sendable(r: ActionStore.CreateRequest)
    requires r.customer.Some?
  {
    ExecutorRequest(ActionStore.NewRow(r)).Call?
  }

  function CallOf(r: ActionStore.CreateRequest): WriteCall
    requires r.customer.Some? && Sendable(r)
  {
    ExecutorRequest(ActionStore.NewRow(r)).call
  }

  /** The executor's request is on its way and nobody has answered. */
  lemma ReachAwaiting(r: ActionStore.CreateRequest) returns (s: System)
    requires Creatable(r) && Sendable(r)
    ensures Reached(Begun(r), s) && Inv(s) && s.row.state == Executing && s.grants == [1] && s.wire == Posted(CallOf(r))
    ensures s.row.fixed == ActionStore.NewRow(r).fixed && s.row.leaseOwner == Some(1) && !s.row.approvalRequired
    ensures At(s, 0) && s.workers.Keys == {0}
    ensures s.workers[0] == Worker(Executor, s.row, s.workers[0].facts, Some(1), None, Awaiting(0))
    ensures ExecutorRequest(s.row) == ExecutorRequest(ActionStore.NewRow(r))
  {
    hide Step, Inv, ExecutorRequest, Reached;
    s := ReachDispatching(r);
    var l := Send(0, 0);
    SendingStep(s, 0, 0);
    s := ReachStep(Begun(r), s, l);
  }

  /** The write was executed, recorded and answered. */
  lemma ReachWritten(r: ActionStore.CreateRequest) returns (s: System)
    requires Creatable(r) && Sendable(r)
    ensures Listening(r, s, WrittenDown)
  {
    hide Inv, ExecutorRequest, Reached, Step;
    s := ReachAwaiting(r);
    NetworkStep(s, Begin(0));
    s := ReachStep(Begun(r), s, Network(Begin(0)));
    NetworkStep(s, Operate(0, Returned(CREATED)));
    s := ReachStep(Begun(r), s, Network(Operate(0, Returned(CREATED))));
    NetworkStep(s, Commit(0, CommitOk));
    s := ReachStep(Begun(r), s, Network(Commit(0, CommitOk)));
  }

  /** The request never arrives. */
  lemma ReachLost(r: ActionStore.CreateRequest) returns (s: System)
    requires Creatable(r) && Sendable(r)
    ensures Listening(r, s, Lost)
  {
    hide Inv, ExecutorRequest, Reached, Step;
    s := ReachAwaiting(r);
    NetworkStep(s, Vanish(0));
    s := ReachStep(Begun(r), s, Network(Vanish(0)));
  }

  /** The executor listens for the answer to its request. */
  ghost predicate Listening(r: ActionStore.CreateRequest, s: System, fate: Fate)
    requires Creatable(r) && Sendable(r)
  {
    && Reached(Begun(r), s) && Inv(s)
    && s.row.state == Executing && s.grants == [1] && s.wire == FirstWire(CallOf(r), fate)
    && s.row.fixed == ActionStore.NewRow(r).fixed && s.row.leaseOwner == Some(1) && !s.row.approvalRequired
    && s.workers.Keys == {0}
    && s.workers[0] == Worker(Executor, s.row, s.workers[0].facts, Some(1), None, Awaiting(0))
    && ExecutorRequest(s.row) == ExecutorRequest(ActionStore.NewRow(r))
  }

  lemma ReachListening(r: ActionStore.CreateRequest, fate: Fate) returns (s: System)
    requires Creatable(r) && Sendable(r)
    ensures Listening(r, s, fate)
  {
    hide Inv, ExecutorRequest, Reached;
    match fate
    case WrittenDown => s := ReachWritten(r);
    case Underway => s := ReachAwaiting(r);
    case Lost => s := ReachLost(r);
  }

  lemma AmbiguousSettles(row: ActionRow, lease: Uuid, o: Outcome, now: Time)
    requires RowSound(row) && row.state == Executing && row.leaseOwner == Some(lease)
    requires o == Unsettled("ambiguous_write_outcome", NO_COMMERCE, None)
    ensures RecordOutcome(row, Executing, row.fixed.fingerprint, lease, o, now).change.Written?
  {
    AmbiguousReason();
  }

  lemma ReachGivenUp(r: ActionStore.CreateRequest, fate: Fate) returns (s: System, o: Outcome)
    requires Creatable(r) && Sendable(r)
    ensures Reached(Begun(r), s) && Inv(s)
    ensures s.row.state == Executing && s.grants == [1] && s.wire == FirstWire(CallOf(r), fate)
    ensures s.row.fixed == ActionStore.NewRow(r).fixed && s.row.leaseOwner == Some(1) && !s.row.approvalRequired
    ensures o == Unsettled("ambiguous_write_outcome", NO_COMMERCE, None)
    ensures At(s, 0) && s.workers.Keys == {0}
    ensures s.workers[0] == Worker(Executor, s.row, s.workers[0].facts, Some(1), None, Settling(o, NoEvidence))
    ensures ExecutorRequest(s.row) == ExecutorRequest(ActionStore.NewRow(r))
  {
    hide Inv, ExecutorRequest, Reached, FirstWire;
    s := ReachListening(r, fate);
    s := ReachStep(Begun(r), s, LoseAnswer(0));
    o := s.workers[0].place.outcome;
  }

  /** The executor gave up listening; its request is still on its way, or its answer was lost. */
  lemma ReachUnresolved(r: ActionStore.CreateRequest, fate: Fate) returns (s: System)
    requires Creatable(r) && Sendable(r)
    ensures Between(r, s, Unresolved, [1]) && s.row.leaseOwner == None && s.wire == FirstWire(CallOf(r), fate)
  {
    hide Inv, Step, ExecutorRequest, Reached, RecordOutcome, FirstWire;
    var o;
    s, o := ReachGivenUp(r, fate);
    InvRowSound(s);
    AmbiguousSettles(s.row, 1, o, r.now);
    OutcomesSettle(s.row, Executing, s.row.fixed.fingerprint, 1, o, r.now);
    SettlingStep(s, 0, r.now);
    var next := ReachStep(Begun(r), s, SettleOutcome(0, r.now));
    SameRequestSameEvidence(s.row, next.row);
    s := next;
  }

  lemma ReclaimGoesThrough(row: ActionRow, lease: Uuid, now: Time)
    requires RowSound(row) && row.state == Unresolved && row.leaseOwner == None
    ensures var service := ClaimReconciliation(row, row.fixed.fingerprint, lease, LEASE_SECONDS, now);
      service.reply.Claimed? && service.change.Written? && service.change.row == service.reply.row
      && service.change.row.commerce == row.commerce
  {
    ClaimedReason();
  }

  lemma GatedWithoutApproval(s: System)
    requires Inv(s) && Dispatched(s.row.state) && !s.row.approvalRequired
    ensures GatesSatisfied(s.row) && !RefundEvidence(s.row).InvalidApproval?
  {
    hide Crew, Mail, Trail, Ended;
    DispatchedRowsAreGated(s);
  }

  /** A reconciler looked at the unresolved action and is about to claim it. */
  lemma ReachLooked(r: ActionStore.CreateRequest, fate: Fate) returns (s: System)
    requires Creatable(r) && Sendable(r)
    ensures Reached(Begun(r), s) && Inv(s)
    ensures s.row.state == Unresolved && s.grants == [1] && s.wire == FirstWire(CallOf(r), fate)
    ensures s.row.fixed == ActionStore.NewRow(r).fixed && s.row.leaseOwner == None && !s.row.approvalRequired
    ensures ExecutorRequest(s.row) == ExecutorRequest(ActionStore.NewRow(r))
    ensures s.workers.Keys == {1} && s.workers[1] == Worker(Reconciler, s.row, None, None, None, Claiming)
  {
    hide Inv, ExecutorRequest, Reached, GatesSatisfied, RefundEvidence, FirstWire;
    s := ReachUnresolved(r, fate);
    s := ReachStep(Begun(r), s, StartReconciler(1));
    GatedWithoutApproval(s);
    s := ReachStep(Begun(r), s, Recover(1, r.now));
  }

  /** A reconciler holds lease 2 and has not sent anything yet. */
  ghost predicate Reconciling(r: ActionStore.CreateRequest, s: System, fate: Fate)
    requires Creatable(r) && Sendable(r)
  {
    && Inv(s) && s.row.state == Unresolved && s.grants == [1, 2] && s.wire == FirstWire(CallOf(r), fate)
    && s.row.fixed == ActionStore.NewRow(r).fixed && s.row.leaseOwner == Some(2) && !s.row.approvalRequired
    && ExecutorRequest(s.row) == ExecutorRequest(ActionStore.NewRow(r))
    && s.workers.Keys == {1}
    && var me := s.workers[1];
    && me.role == Reconciler && me.record == s.row && me.lease == Some(2) && me.read == None
    && (me.place == ReadingFirst || me.place == Dispatching(0))
  }

  lemma ReachReconciling(r: ActionStore.CreateRequest, fate: Fate) returns (s: System)
    requires Creatable(r) && Sendable(r)
    ensures Reached(Begun(r), s) && Reconciling(r, s, fate)
  {
    hide Inv, RowSound, ExecutorRequest, Reached, GatesSatisfied, ClaimReconciliation, CanReadFirst, FirstWire;
    s := ReachLooked(r, fate);
    InvRowSound(s);
    ReclaimGoesThrough(s.row, 2, r.now);
    ReclaimGrants(s.row, s.row.fixed.fingerprint, 2, LEASE_SECONDS, r.now);
    var next := ReachStep(Begun(r), s, ClaimForReconciliation(1, 2, r.now));
    SameRequestSameEvidence(s.row, next.row);
    s := next;
  }

  /** The reconciler's request is out, answered or not, and the reconciler listens. */
  ghost predicate Replayed(r: ActionStore.CreateRequest, s: System, fate: Fate, answer: Option<Answer>)
    requires Creatable(r) && Sendable(r)
  {
    && Inv(s) && s.row.state == Unresolved && s.grants == [1, 2]
    && s.wire == SecondWire(CallOf(r), fate, answer)
    && s.row.fixed == ActionStore.NewRow(r).fixed && s.row.leaseOwner == Some(2)
    && s.workers.Keys == {1}
    && var me := s.workers[1];
    && me.role == Reconciler && me.record == s.row && me.lease == Some(2) && me.place == Awaiting(1)
    && me.read in {None, Some(Unavailable)}
  }

  /** The reconciler, after its look at the target if it takes one, is about to send. */
  lemma ReachSending(r: ActionStore.CreateRequest, s0: System, fate: Fate) returns (s: System)
    requires Creatable(r) && Sendable(r) && Reconciling(r, s0, fate)
    ensures Reached(s0, s) && Inv(s)
    ensures s.row == s0.row && s.grants == s0.grants && s.wire == s0.wire && s.workers.Keys == {1}
    ensures s.workers[1] == s0.workers[1].(place := Dispatching(0), read := s.workers[1].read)
    ensures s.workers[1].read in {None, Some(Unavailable)}
  {
    hide Inv, ExecutorRequest, ReconcilerRequest, Reached, GatesSatisfied, FirstWire;
    ReachedAtOnce(s0);
    s := s0;
    if s.workers[1].place == ReadingFirst {
      s := ReachStep(s0, s, ReadFirst(1, ReadResult(Unavailable, None, "read_back_unavailable")));
    }
  }

  lemma ReachReplayed(r: ActionStore.CreateRequest, s0: System, fate: Fate) returns (s: System)
    requires Creatable(r) && Sendable(r) && Reconciling(r, s0, fate)
    ensures Reached(s0, s) && Replayed(r, s, fate, None)
  {
    hide Step, Inv, ExecutorRequest, ReconcilerRequest, Reached, GatesSatisfied;
    s := ReachSending(r, s0, fate);
    GatedWithoutApproval(s);
    RequestsAreIdentical(s.row, s.row);
    SendingStep(s, 1, 1);
    s := ReachStep(s0, s, Send(1, 1));
  }

  /** An answer that says nothing about the other request: from before the transaction, or from one rolled back. */
  function Refusal(origin: Origin): Answer {
    Answer(1, ApiError(if origin == Early then 401 else 409, "unauthorized"), origin)
  }

  /** Only a key without a record gets as far as an operation that is rolled back. */
  predicate Refusable(origin: Origin, fate: Fate) {
    origin == Early || (origin == Inside && fate != WrittenDown)
  }

  lemma ReachRefused(r: ActionStore.CreateRequest, s0: System, origin: Origin, fate: Fate) returns (s: System)
    requires Creatable(r) && Sendable(r) && Refusable(origin, fate) && Reconciling(r, s0, fate)
    ensures Reached(s0, s) && Replayed(r, s, fate, Some(Refusal(origin)))
  {
    hide Step, Inv, ExecutorRequest, Reached;
    s := ReachReplayed(r, s0, fate);
    if origin == Early {
      NetworkStep(s, AnswerEarly(1, 401, "unauthorized"));
      s := ReachStep(s0, s, Network(AnswerEarly(1, 401, "unauthorized")));
    } else {
      NetworkStep(s, Begin(1));
      s := ReachStep(s0, s, Network(Begin(1)));
      NetworkStep(s, Operate(1, RaisedApi(409, "unauthorized")));
      s := ReachStep(s0, s, Network(Operate(1, RaisedApi(409, "unauthorized"))));
    }
  }

  lemma RefusalSettles(
    row: ActionRow, lease: Uuid, o: Outcome, status: int, read: Option<VerificationStatus>, now: Time)
    requires RowSound(row) && row.state == Unresolved && row.leaseOwner == Some(lease)
    requires 400 <= status < 500 && read in {None, Some(Unavailable)}
    requires o == SettleFailed(StateTransition, "unauthorized",
                               CommerceColumns(Some(status), Some("unauthorized"), row.commerce.resource), read)
    ensures RecordOutcome(row, Unresolved, row.fixed.fingerprint, lease, o, now).change.Written?
  {
    RefusedReason();
  }

  function RefusedOutcome(row: ActionRow, origin: Origin, read: Option<VerificationStatus>): Outcome {
    SettleFailed(StateTransition, "unauthorized",
                 CommerceColumns(Some(StatusOf(Refusal(origin).reply)), Some("unauthorized"), row.commerce.resource),
                 read)
  }

  lemma ReachHeard(r: ActionStore.CreateRequest, s0: System, origin: Origin, fate: Fate)
    returns (s: System, o: Outcome, read: Option<VerificationStatus>)
    requires Creatable(r) && Sendable(r) && Refusable(origin, fate) && Reconciling(r, s0, fate)
    ensures Reached(s0, s) && Inv(s) && s.row.state == Unresolved && s.row.leaseOwner == Some(2) && s.grants == [1, 2]
    ensures s.wire == SecondWire(CallOf(r), fate, Some(Refusal(origin)))
    ensures s.row.fixed == ActionStore.NewRow(r).fixed
    ensures 1 in s.workers && read in {None, Some(Unavailable)} && o == RefusedOutcome(s.row, origin, read)
    ensures var place := Settling(o, Heard(Refusal(origin)));
      s.workers[1] == Worker(Reconciler, s.row, s.workers[1].facts, Some(2), read, place)
  {
    hide Step, Inv, ExecutorRequest, Reached, FirstWire;
    RefusedReason();
    s := ReachRefused(r, s0, origin, fate);
    read := s.workers[1].read;
    var l := Hear(1, Refusal(origin), Some("unauthorized"), true, None);
    HearingStep(s, 1, Refusal(origin), Some("unauthorized"), true, None);
    s := ReachStep(s0, s, l);
    o := s.workers[1].place.outcome;
  }

  /** The reconciler records FAILED on that answer, whatever became of the executor's request. */
  lemma ReachFailed(r: ActionStore.CreateRequest, s0: System, origin: Origin, fate: Fate) returns (s: System)
    requires Creatable(r) && Sendable(r) && Refusable(origin, fate) && Reconciling(r, s0, fate)
    ensures Reached(s0, s) && Inv(s) && FailedBy(s, Reconciler) && s.ending.value.evidence == Heard(Refusal(origin))
    ensures s.row.fixed == ActionStore.NewRow(r).fixed && s.settled != [] && Last(s.settled) == 2
    ensures s.wire == SecondWire(CallOf(r), fate, Some(Refusal(origin)))
  {
    hide Step, Inv, ExecutorRequest, Reached, RecordOutcome, SecondWire;
    var o, read;
    s, o, read := ReachHeard(r, s0, origin, fate);
    InvRowSound(s);
    RefusalSettles(s.row, 2, o, StatusOf(Refusal(origin).reply), read, r.now);
    OutcomesSettle(s.row, Unresolved, s.row.fixed.fingerprint, 2, o, r.now);
    SettlingStep(s, 1, r.now);
    s := ReachStep(s0, s, SettleOutcome(1, r.now));
  }

  /** The end of an action no longer changes once it is recorded. */
  lemma {:induction false} EndingsStay(s: System, more: seq<Label>)
    requires Inv(s) && s.row.state == Failed
    ensures Continue(s, more).row == s.row && Continue(s, more).ending == s.ending
  {
    hide Inv, Step, MoveOf;
    if more != [] {
      var before := Continue(s, more[..|more| - 1]);
      var l := more[|more| - 1];
      EndingsStay(s, more[..|more| - 1]);
      ContinueKeepsInv(s, more[..|more| - 1]);
      if Step(before, l).Some? {
        StepOfSound(before, l, Step(before, l).value);
        FailedIsForever(before, MoveOf(before, l, Step(before, l).value), Step(before, l).value);
      }
    }
  }

  /** Some run without duplicated delivery ends FAILED by the reconciler on an answer of this origin, with an effect. */
  ghost predicate UndoneFailure(r: ActionStore.CreateRequest, origin: Origin)
    requires r.customer.Some?
  {
    exists run :: NoDuplicates(run) && FailedYetDone(ActionProtocol.After(r, run), origin)
  }

  ghost predicate FailedYetDone(s: System, origin: Origin) {
    && FailedBy(s, Reconciler)
    && s.ending.value.evidence.Heard? && s.ending.value.evidence.answer.origin == origin
    && !EffectFree(s)
  }

  lemma FailureIsUndone(r: ActionStore.CreateRequest, origin: Origin)
    requires Creatable(r) && Sendable(r) && (origin == Early || origin == Inside)
    ensures UndoneFailure(r, origin)
  {
    hide Inv, ExecutorRequest, Step, EffectFree, MayYield, Reconciling, Reached;
    var s0 := ReachReconciling(r, Underway);
    var s := ReachFailed(r, s0, origin, Underway);
    RequestsCarryTheKey(ActionStore.NewRow(r));
    assert Mine(BoxOf(s), 0);
    LiveYields(s, 0);
    var run := RunTo(Begun(r), s0);
    var more := RunTo(s0, s);
    var rest := Yielding(s);
    ContinueJoins(Begun(r), run, more);
    ContinueJoins(Begun(r), run + more, rest);
    EndingsStay(s, rest);
    assert NoDuplicates(run + more + rest);
  }

  /**
    For every action whose request can be built: a reconciler's FAILED can coexist with the
    effect exactly when the rejection it heard came from before the transaction or from one
    that was rolled back; a rejection from the key's record is final.
   */
  lemma ReconcilerFailureIsUndoneExactlyByOrigin(r: ActionStore.CreateRequest, origin: Origin)
    requires Creatable(r) && Sendable(r)
    ensures UndoneFailure(r, origin) <==> origin == Early || origin == Inside
  {
    if origin == Early || origin == Inside {
      FailureIsUndone(r, origin);
    } else if UndoneFailure(r, origin) {
      var run :| NoDuplicates(run) && FailedYetDone(ActionProtocol.After(r, run), origin);
      RunsKeepInv(r, run);
      OtherOriginsAreFinal(ActionProtocol.After(r, run), origin);
    }
  }

  lemma OtherOriginsAreFinal(s: System, origin: Origin)
    requires Inv(s) && origin != Early && origin != Inside
    ensures !FailedYetDone(s, origin)
  {
    hide Ledger, Crew, Trail;
    if FailedYetDone(s, origin) {
      var a := s.ending.value.evidence.answer;
      assert AnswerSound(s.wire, a);
      OneRequestPerKey(s);
      RecordedAnswersTell(BoxOf(s), a);
    }
  }

  // ---- The last writer's failure ----

  /** Some run ends with a last writer's FAILED, on an answer of this origin, that is not final. */
  ghost predicate UndoneLast(r: ActionStore.CreateRequest, origin: Origin)
    requires r.customer.Some?
  {
    exists run, more, w ::
      && NoDuplicates(run + more)
      && OverruledLast(ActionProtocol.After(r, run), w, ActionProtocol.After(r, run + more), origin)
  }

  ghost predicate OverruledLast(s0: System, w: WorkerId, s: System, origin: Origin) {
    LastWriterFailed(s0, w, s) && s.ending.value.evidence.answer.origin == origin && !Final(s)
  }

  lemma WrittenMeansEffect(r: ActionStore.CreateRequest, s: System)
    requires Creatable(r) && Sendable(r) && Reconciling(r, s, WrittenDown)
    ensures SoleWriter(s, 1) && !EffectFree(s)
  {
    hide Inv, ExecutorRequest, ReconcilerRequest;
    RequestsCarryTheKey(ActionStore.NewRow(r));
    assert s.wire.db.effects[0].key == KeyOf(s);
  }

  /**
    For every action whose request can be built: with no earlier request left to write, the
    FAILED of the one worker left to send can be wrong exactly when the answer it heard came
    from before the idempotent transaction.
   */
  lemma LastWriterIsUndoneExactlyByEarly(r: ActionStore.CreateRequest, origin: Origin)
    requires Creatable(r) && Sendable(r)
    ensures UndoneLast(r, origin) <==> origin == Early
  {
    hide Inv, ExecutorRequest, Final, EffectFree, SoleWriter, Reconciling, Reached, NoDuplicates;
    if origin == Early {
      EarlyUndoesTheLast(r);
    } else if UndoneLast(r, origin) {
      var run, more, w :| NoDuplicates(run + more)
        && OverruledLast(ActionProtocol.After(r, run), w, ActionProtocol.After(r, run + more), origin);
      LaterLabels(run, more);
      LastWritersFailureIsFinalExactly(r, run, w, more);
    }
  }

  lemma LaterLabels(run: seq<Label>, more: seq<Label>)
    requires NoDuplicates(run + more)
    ensures NoDuplicates(more)
  {
    forall i | 0 <= i < |more|
      ensures !Duplicates(more[i])
    {
      assert more[i] == (run + more)[|run| + i];
    }
  }

  /** The write took hold and its answer was lost; the replay is turned away before the record is read. */
  lemma EarlyUndoesTheLast(r: ActionStore.CreateRequest)
    requires Creatable(r) && Sendable(r)
    ensures UndoneLast(r, Early)
  {
    hide Inv, ExecutorRequest, Step, EffectFree, Final, SoleWriter, Reached;
    var s0 := ReachReconciling(r, WrittenDown);
    WrittenMeansEffect(r, s0);
    var s := ReachFailed(r, s0, Early, WrittenDown);
    var run := RunTo(Begun(r), s0);
    var more := RunTo(s0, s);
    ContinueJoins(Begun(r), run, more);
    LastWritersFailureIsFinalExactly(r, run, 1, more);
    assert NoDuplicates(run + more);
    assert OverruledLast(ActionProtocol.After(r, run), 1, ActionProtocol.After(r, run + more), Early);
  }

  // ---- The executor's failure, and the happy end ----

  const DENIED := Answer(0, ApiError(401, "unauthorized"), Early)
  const REFUSED_COLUMNS := CommerceColumns(Some(401), Some("unauthorized"), None)

  lemma ReachExecutorHeard(r: ActionStore.CreateRequest) returns (s: System, o: Outcome)
    requires Creatable(r) && Sendable(r)
    ensures Reached(Begun(r), s) && Inv(s) && s.row.state == Executing && s.row.leaseOwner == Some(1)
    ensures s.wire == Posted(CallOf(r)).(live := {}, answers := {DENIED})
    ensures s.row.fixed == ActionStore.NewRow(r).fixed
    ensures o == SettleFailed(CommerceResponse, "unauthorized", REFUSED_COLUMNS, None)
    ensures At(s, 0) && s.workers.Keys == {0}
    ensures s.workers[0] == Worker(Executor, s.row, s.workers[0].facts, Some(1), None, Settling(o, Heard(DENIED)))
  {
    hide Step, Inv, ExecutorRequest, Reached;
    RefusedReason();
    s := ReachAwaiting(r);
    var l := Network(AnswerEarly(0, 401, "unauthorized"));
    NetworkStep(s, AnswerEarly(0, 401, "unauthorized"));
    s := ReachStep(Begun(r), s, l);
    l := Hear(0, DENIED, Some("unauthorized"), true, None);
    HearingStep(s, 0, DENIED, Some("unauthorized"), true, None);
    s := ReachStep(Begun(r), s, l);
    o := s.workers[0].place.outcome;
  }

  lemma RejectionSettles(row: ActionRow, lease: Uuid, o: Outcome, now: Time)
    requires RowSound(row) && row.state == Executing && row.leaseOwner == Some(lease)
    requires o == SettleFailed(CommerceResponse, "unauthorized", REFUSED_COLUMNS, None)
    ensures RecordOutcome(row, Executing, row.fixed.fingerprint, lease, o, now).change.Written?
  {
    RefusedReason();
  }

  lemma ReachExecutorFailed(r: ActionStore.CreateRequest) returns (s: System)
    requires Creatable(r) && Sendable(r)
    ensures Reached(Begun(r), s) && Inv(s) && FailedBy(s, Executor)
    ensures s.wire == Posted(CallOf(r)).(live := {}, answers := {DENIED})
    ensures s.row.fixed == ActionStore.NewRow(r).fixed
  {
    hide Step, Inv, ExecutorRequest, Reached, RecordOutcome, Posted;
    var o;
    s, o := ReachExecutorHeard(r);
    InvRowSound(s);
    RejectionSettles(s.row, 1, o, r.now);
    OutcomesSettle(s.row, Executing, s.row.fixed.fingerprint, 1, o, r.now);
    var l := SettleOutcome(0, r.now);
    SettlingStep(s, 0, r.now);
    s := ReachStep(Begun(r), s, l);
  }

  /** An executor's FAILED can coexist with the effect, and only a duplicated delivery brings that about. */
  lemma ExecutorFailureIsUndoneOnlyByDuplication(r: ActionStore.CreateRequest)
    requires Creatable(r) && Sendable(r)
    ensures exists run ::
      FailedBy(ActionProtocol.After(r, run), Executor) && !EffectFree(ActionProtocol.After(r, run))
    ensures forall run ::
      FailedBy(ActionProtocol.After(r, run), Executor) && !EffectFree(ActionProtocol.After(r, run)) ==>
        ActionProtocol.After(r, run).wire.duplicated
  {
    hide Inv, ExecutorRequest, EffectFree, FailedBy;
    forall run
      ensures FailedBy(ActionProtocol.After(r, run), Executor) && !EffectFree(ActionProtocol.After(r, run)) ==>
                ActionProtocol.After(r, run).wire.duplicated
    {
      ExecutorFailureMeansNoEffect(r, run);
    }
    DuplicationUndoes(r);
  }

  lemma DuplicationUndoes(r: ActionStore.CreateRequest)
    requires Creatable(r) && Sendable(r)
    ensures exists run ::
      FailedBy(ActionProtocol.After(r, run), Executor) && !EffectFree(ActionProtocol.After(r, run))
  {
    hide Step, Inv, ExecutorRequest, EffectFree, MayYield;
    var s := ReachExecutorFailed(r);
    var l := Network(Duplicate(0));
    NetworkStep(s, Duplicate(0));
    RequestsCarryTheKey(ActionStore.NewRow(r));
    var again := Step(s, l).value;
    StepKeepsInv(s, l, again);
    assert Mine(BoxOf(again), 0);
    LiveYields(again, 0);
    var run := RunTo(Begun(r), s);
    var more := Yielding(again);
    ContinueFromStep(s, l, again, more);
    ContinueJoins(Begun(r), run, [l] + more);
    EndingsStay(s, [l] + more);
    assert FailedBy(ActionProtocol.After(r, run + ([l] + more)), Executor);
  }

  lemma Yielding(s: System) returns (more: seq<Label>)
    requires MayYield(s)
    ensures NoDuplicates(more) && !EffectFree(Continue(s, more))
  {
    more :| NoDuplicates(more) && !EffectFree(Continue(s, more));
  }

  lemma ReachAccepted(r: ActionStore.CreateRequest) returns (s: System)
    requires Creatable(r) && Sendable(r)
    ensures Reached(Begun(r), s) && Inv(s) && s.row.state == Executing && s.row.leaseOwner == Some(1)
    ensures s.row.fixed == ActionStore.NewRow(r).fixed
    ensures At(s, 0) && s.workers.Keys == {0}
    ensures s.workers[0] == Worker(Executor, s.row, s.workers[0].facts, Some(1), None, Responding(DONE, Some(9)))
  {
    hide Inv, ExecutorRequest, Reached, Step;
    s := ReachWritten(r);
    HearingStep(s, 0, DONE, None, true, Some(9));
    s := ReachStep(Begun(r), s, Hear(0, DONE, None, true, Some(9)));
  }

  lemma ResponseNoted(row: ActionRow, lease: Uuid, now: Time)
    requires RowSound(row) && row.state == Executing && row.leaseOwner == Some(lease)
    ensures RecordCommerceResponse(row, row.fixed.fingerprint, lease, 201, Some(9), now).change.Written?
    ensures RecordCommerceResponse(row, row.fixed.fingerprint, lease, 201, Some(9), now).reply.Answered?
  {
    ReceivedReason();
  }

  lemma VerifiedSettles(row: ActionRow, lease: Uuid, now: Time)
    requires RowSound(row) && row.state == Executing && row.leaseOwner == Some(lease)
    ensures RecordOutcome(row, Executing, row.fixed.fingerprint, lease,
                          SettleVerified(ReadResult(Verified, Some(9), "verified"), Some(201), Some(9)),
                          now).change.Written?
  {
    VerifiedReason();
  }

  lemma ReachNoted(r: ActionStore.CreateRequest) returns (s: System)
    requires Creatable(r) && Sendable(r)
    ensures Reached(Begun(r), s) && Inv(s) && s.row.state == Executing && s.row.leaseOwner == Some(1)
    ensures s.row.fixed == ActionStore.NewRow(r).fixed
    ensures 0 in s.workers && s.workers[0].role == Executor && s.workers[0].record.fixed == s.row.fixed
    ensures s.workers[0].lease == Some(1) && s.workers[0].place == ReadingBack(DONE, Some(9))
  {
    hide Inv, ExecutorRequest, RecordCommerceResponse, Reached;
    s := ReachAccepted(r);
    InvRowSound(s);
    ResponseNoted(s.row, 1, r.now);
    ResponsesAreNoted(s.row, s.row.fixed.fingerprint, 1, 201, Some(9), r.now);
    s := ReachStep(Begun(r), s, RecordResponse(0, r.now));
  }

  lemma ReachVerified(r: ActionStore.CreateRequest) returns (s: System, o: Outcome)
    requires Creatable(r) && Sendable(r)
    ensures Reached(Begun(r), s) && Inv(s) && s.row.state == Executing && s.row.leaseOwner == Some(1)
    ensures s.row.fixed == ActionStore.NewRow(r).fixed
    ensures o == SettleVerified(ReadResult(Verified, Some(9), "verified"), Some(201), Some(9))
    ensures 0 in s.workers && s.workers[0].role == Executor && s.workers[0].record.fixed == s.row.fixed
    ensures s.workers[0].lease == Some(1) && s.workers[0].place == Settling(o, Heard(DONE))
  {
    hide Inv, ExecutorRequest, Reached;
    s := ReachNoted(r);
    s := ReachStep(Begun(r), s, ReadBack(0, ReadResult(Verified, Some(9), "verified")));
    o := s.workers[0].place.outcome;
  }

  ghost predicate SucceededWithEffect(s: System) {
    s.row.state == Succeeded && !EffectFree(s)
  }

  /** Every action whose request can be built has a run that executes it, verifies it and leaves its effect. */
  lemma EveryActionCanSucceed(r: ActionStore.CreateRequest)
    requires Creatable(r) && Sendable(r)
    ensures exists run :: NoDuplicates(run) && SucceededWithEffect(ActionProtocol.After(r, run))
  {
    hide Step, Inv, ExecutorRequest, RecordOutcome, HasEffect, Reached;
    var s, o := ReachVerified(r);
    InvRowSound(s);
    VerifiedSettles(s.row, 1, r.now);
    OutcomesSettle(s.row, Executing, s.row.fixed.fingerprint, 1, o, r.now);
    var l := SettleOutcome(0, r.now);
    SettlingStep(s, 0, r.now);
    s := ReachStep(Begun(r), s, l);
    var run := RunTo(Begun(r), s);
    SucceededMeansEffect(r, run);
  }

  // ---- A lost request is made good ----

  const REPLAYED := Answer(1, Executed(CREATED, false), Recorded)

  /** The reconciler's replay of a lost request was executed, recorded and answered. */
  lemma ReachReplayWritten(r: ActionStore.CreateRequest, s0: System) returns (s: System)
    requires Creatable(r) && Sendable(r) && Reconciling(r, s0, Lost)
    ensures Reached(s0, s) && Inv(s) && s.row.state == Unresolved && s.row.leaseOwner == Some(2)
    ensures s.row.fixed == ActionStore.NewRow(r).fixed && s.wire.answers == {REPLAYED}
    ensures s.wire.committer == map[CallOf(r).key := 1] && 0 in s.wire.sent
    ensures 1 in s.workers && s.workers[1].role == Reconciler && s.workers[1].lease == Some(2)
    ensures s.workers[1].place == Awaiting(1) && s.workers[1].read in {None, Some(Unavailable)}
  {
    hide Inv, ExecutorRequest, Reached, Step;
    s := ReachReplayed(r, s0, Lost);
    NetworkStep(s, Begin(1));
    s := ReachStep(s0, s, Network(Begin(1)));
    NetworkStep(s, Operate(1, Returned(CREATED)));
    s := ReachStep(s0, s, Network(Operate(1, Returned(CREATED))));
    NetworkStep(s, Commit(1, CommitOk));
    s := ReachStep(s0, s, Network(Commit(1, CommitOk)));
  }

  /** Succeeded by the second request alone; the first was never answered. */
  ghost predicate MadeGood(s: System) {
    && s.row.state == Succeeded && s.row.verifiedResource == Some(9) && !EffectFree(s)
    && 0 in s.wire.sent && (forall a | a in s.wire.answers :: a.dispatch == 1)
    && KeyOf(s) in s.wire.committer && s.wire.committer[KeyOf(s)] == 1
  }

  lemma ReachMadeGood(r: ActionStore.CreateRequest, s0: System) returns (s: System)
    requires Creatable(r) && Sendable(r) && Reached(Begun(r), s0) && Reconciling(r, s0, Lost)
    ensures Reached(s0, s) && Inv(s) && s.row.state == Succeeded && s.row.verifiedResource == Some(9)
    ensures s.wire.answers == {REPLAYED} && s.wire.committer == map[CallOf(r).key := 1] && 0 in s.wire.sent
    ensures s.row.fixed == ActionStore.NewRow(r).fixed
  {
    hide Step, Inv, ExecutorRequest, Reached, RecordOutcome, HearStep, RowReads, Reconciling, ReasonCode;
    VerifiedReason();
    var s1 := ReachReplayWritten(r, s0);
    HearingStep(s1, 1, REPLAYED, None, true, Some(9));
    var s2 := ReachStep(s0, s1, Hear(1, REPLAYED, None, true, Some(9)));
    HearingAccepts(s1, 1, REPLAYED, None, true, Some(9));
    var read := ReadResult(Verified, Some(9), "verified");
    ReadingBackIsEnabled(s2, 1, read);
    var s3 := ReachStep(s0, s2, ReadBack(1, read));
    ReadingBackSettles(s2, 1, read);
    SettlingStep(s3, 1, r.now);
    s := ReachStep(s0, s3, SettleOutcome(1, r.now));
    AcceptedReplaysEndByReadBack(s1, 1, REPLAYED, None, true, Some(9), read, r.now, s2, s3, s);
    SucceededReads(s.row, CommerceColumns(Some(201), None, Some(9)), Some(9));
    SameWire(s2, s3, s, read, r.now);
  }

  lemma ReadingBackIsEnabled(s: System, w: WorkerId, read: ReadResult)
    requires w in s.workers && s.workers[w].place.ReadingBack?
    ensures Step(s, ReadBack(w, read)).Some?
  {
    hide ReadBackStep;
  }

  lemma SucceededReads(row: ActionRow, commerce: CommerceColumns, resource: Option<Uuid>)
    requires RowReads(row, Succeeded, commerce, Some(Verified), resource)
    ensures row.state == Succeeded && row.verifiedResource == resource
  {
  }

  lemma SameWire(s2: System, s3: System, s: System, read: ReadResult, now: Time)
    requires Step(s2, ReadBack(1, read)) == Some(s3) && Step(s3, SettleOutcome(1, now)) == Some(s)
    ensures s.wire == s2.wire
  {
    hide Step;
    WireUntouched(s2, ReadBack(1, read), s3);
    WireUntouched(s3, SettleOutcome(1, now), s);
  }

  /**
    For every action whose request can be built: a run in which the executor's request is lost
    and the reconciler's replay, the one request that arrives, makes the action succeed.
   */
  lemma EveryLostRequestCanBeMadeGood(r: ActionStore.CreateRequest)
    requires Creatable(r) && Sendable(r)
    ensures exists run :: NoDuplicates(run) && MadeGood(ActionProtocol.After(r, run))
  {
    hide Step, Inv, ExecutorRequest, Reached, EffectFree, Reconciling;
    var s0 := ReachReconciling(r, Lost);
    var s := ReachMadeGood(r, s0);
    var run := RunTo(Begun(r), s0);
    var more := RunTo(s0, s);
    ContinueJoins(Begun(r), run, more);
    CommittedIsSent(s, r);
    assert NoDuplicates(run + more);
    assert MadeGood(ActionProtocol.After(r, run + more));
  }

  lemma CommittedIsSent(s: System, r: ActionStore.CreateRequest)
    requires Creatable(r) && Sendable(r) && Inv(s) && s.row.fixed == ActionStore.NewRow(r).fixed
    requires s.wire.answers == {REPLAYED} && s.wire.committer == map[CallOf(r).key := 1]
    ensures KeyOf(s) == CallOf(r).key && !EffectFree(s)
  {
    hide Ledger, Crew, Trail, Ended, ExecutorRequest, HasEffect, TakenOnce;
    RequestsCarryTheKey(ActionStore.NewRow(r));
    assert REPLAYED in s.wire.answers && AnswerSound(s.wire, REPLAYED);
    EffectMatchesRecord(s.wire.db, KeyOf(s));
  }

  // ---- A crashed execution is recovered ----

  /** A label leads on whether it is enabled or skipped. */
  lemma ReachNext(from: System, s: System, l: Label) returns (s': System)
    requires Reached(from, s) && Inv(s) && !Duplicates(l)
    ensures s' == Next(s, l) && Reached(from, s') && Inv(s')
  {
    hide Inv, Step;
    s' := Next(s, l);
    NextKeepsInv(s, l);
    var more := RunTo(from, s);
    ContinueSnoc(from, more, l);
    assert NoDuplicates(more + [l]);
  }

  /** The write took hold, but its executor is gone and nobody heard the answer. */
  lemma ReachCrashed(r: ActionStore.CreateRequest) returns (s: System)
    requires Creatable(r) && Sendable(r)
    ensures Between(r, s, Executing, [1]) && s.row.leaseOwner == Some(1) && s.row.leaseExpiresAt.Some?
    ensures s.wire == FirstWire(CallOf(r), WrittenDown)
  {
    hide Inv, ExecutorRequest, Reached, FirstWire;
    s := ReachListening(r, WrittenDown);
    LeasesHaveAnEnd(s);
    s := ReachStep(Begun(r), s, Crash(0));
  }

  lemma LeasesHaveAnEnd(s: System)
    requires Inv(s)
    ensures s.row.leaseOwner.Some? <==> s.row.leaseExpiresAt.Some?
  {
    hide Crew, Mail, Trail, Ended;
    SoundLedger(s);
  }

  /** Once the lease has run out, a reconciler recovers the execution and holds a lease of its own. */
  lemma ReachRecovered(r: ActionStore.CreateRequest) returns (s: System)
    requires Creatable(r) && Sendable(r)
    ensures Reached(Begun(r), s) && Reconciling(r, s, WrittenDown)
  {
    hide Inv, ExecutorRequest, Reached, FirstWire, Next, Step;
    var s0 := ReachCrashed(r);
    var late := s0.row.leaseExpiresAt.value;
    var s1 := ReachNext(Begun(r), s0, StartReconciler(1));
    var s2 := ReachNext(Begun(r), s1, Recover(1, late));
    s := ReachNext(Begun(r), s2, ClaimForReconciliation(1, 2, late));
    ReconcilersClaimExactly(s0, 1, late, 2, late, s1, s2, s);
    ClaimingLeavesTheWire(s0, s1, s2, s, late);
    SameRequestSameEvidence(s0.row, s.row);
  }

  lemma ClaimingLeavesTheWire(s0: System, s1: System, s2: System, s: System, late: Time)
    requires s1 == Next(s0, StartReconciler(1)) && s2 == Next(s1, Recover(1, late))
    requires s == Next(s2, ClaimForReconciliation(1, 2, late))
    ensures s.wire == s0.wire && s.workers.Keys <= s0.workers.Keys + {1}
  {
    hide Step;
    QuietStep(s0, StartReconciler(1));
    QuietStep(s1, Recover(1, late));
    QuietStep(s2, ClaimForReconciliation(1, 2, late));
  }

  lemma QuietStep(s: System, l: Label)
    requires l.StartReconciler? || l.Recover? || l.ClaimForReconciliation?
    ensures Next(s, l).wire == s.wire && Next(s, l).workers.Keys <= s.workers.Keys + {l.w}
  {
    hide RecoverExpiredExecution, ClaimReconciliation, GatesSatisfied, RefundEvidence, CanReadFirst;
  }

  const RECALLED := Answer(1, Executed(CREATED, true), Recorded)

  /** The reconciler's replay is answered from the record of the first write. */
  lemma ReachRecalled(r: ActionStore.CreateRequest, s0: System) returns (s: System)
    requires Creatable(r) && Sendable(r) && Reconciling(r, s0, WrittenDown)
    ensures Reached(s0, s) && Inv(s) && s.row.state == Unresolved && s.row.leaseOwner == Some(2)
    ensures s.row.fixed == ActionStore.NewRow(r).fixed && RECALLED in s.wire.answers && 1 in s.wire.sent
    ensures s.wire.committer == map[CallOf(r).key := 0]
    ensures 1 in s.workers && s.workers[1].role == Reconciler && s.workers[1].lease == Some(2)
    ensures s.workers[1].place == Awaiting(1) && s.workers[1].read in {None, Some(Unavailable)}
  {
    hide Inv, ExecutorRequest, Reached, Step;
    s := ReachReplayed(r, s0, WrittenDown);
    NetworkStep(s, Begin(1));
    s := ReachStep(s0, s, Network(Begin(1)));
  }

  /** Succeeded through the record of the one write, though it was asked for twice. */
  ghost predicate Recalled(s: System) {
    && s.row.state == Succeeded && s.row.verifiedResource == Some(9) && !EffectFree(s)
    && 1 in s.wire.sent && KeyOf(s) in s.wire.committer && s.wire.committer[KeyOf(s)] == 0
  }

  lemma ReachRecalledEnd(r: ActionStore.CreateRequest, s0: System) returns (s: System)
    requires Creatable(r) && Sendable(r) && Reconciling(r, s0, WrittenDown)
    ensures Reached(s0, s) && Inv(s) && Recalled(s)
  {
    hide Step, Inv, ExecutorRequest, Reached, RecordOutcome, HearStep, RowReads, Reconciling, ReasonCode, EffectFree;
    VerifiedReason();
    var s1 := ReachRecalled(r, s0);
    HearingStep(s1, 1, RECALLED, None, true, Some(9));
    var s2 := ReachStep(s0, s1, Hear(1, RECALLED, None, true, Some(9)));
    HearingAccepts(s1, 1, RECALLED, None, true, Some(9));
    var read := ReadResult(Verified, Some(9), "verified");
    ReadingBackIsEnabled(s2, 1, read);
    var s3 := ReachStep(s0, s2, ReadBack(1, read));
    ReadingBackSettles(s2, 1, read);
    SettlingStep(s3, 1, r.now);
    s := ReachStep(s0, s3, SettleOutcome(1, r.now));
    AcceptedReplaysEndByReadBack(s1, 1, RECALLED, None, true, Some(9), read, r.now, s2, s3, s);
    SucceededReads(s.row, CommerceColumns(Some(201), None, Some(9)), Some(9));
    SameWire(s2, s3, s, read, r.now);
    RecalledHasEffect(s, r);
  }

  lemma RecalledHasEffect(s: System, r: ActionStore.CreateRequest)
    requires Creatable(r) && Sendable(r) && Inv(s) && s.row.fixed == ActionStore.NewRow(r).fixed
    requires RECALLED in s.wire.answers && s.wire.committer == map[CallOf(r).key := 0]
    ensures KeyOf(s) == CallOf(r).key && !EffectFree(s)
  {
    hide Ledger, Crew, Trail, Ended, ExecutorRequest, HasEffect, TakenOnce;
    RequestsCarryTheKey(ActionStore.NewRow(r));
    assert AnswerSound(s.wire, RECALLED);
    assert s.wire.committer.Keys == {CallOf(r).key};
    EffectMatchesRecord(s.wire.db, KeyOf(s));
  }

  /**
    For every action whose request can be built: a run in which the executor crashes after its
    write took hold, and a reconciler, asking again, is answered from the record and ends the
    action as succeeded with that one effect.
   */
  lemma EveryCrashedExecutionCanBeRecovered(r: ActionStore.CreateRequest)
    requires Creatable(r) && Sendable(r)
    ensures exists run :: NoDuplicates(run) && Recalled(ActionProtocol.After(r, run))
  {
    hide Step, Inv, ExecutorRequest, Reached, EffectFree, Reconciling;
    var s0 := ReachRecovered(r);
    var s := ReachRecalledEnd(r, s0);
    var run := RunTo(Begun(r), s0);
    var more := RunTo(s0, s);
    ContinueJoins(Begun(r), run, more);
    assert NoDuplicates(run + more);
    assert Recalled(ActionProtocol.After(r, run + more));
  }
}
