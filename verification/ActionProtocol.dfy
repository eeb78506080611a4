/**
  One action among many concurrent workers: the decision services, executors and reconcilers
  that share its row, their crashes and leases, and the network between them and NovaCommerce.
  Every source of chance (who moves, when, what a read returns, what the network does) is a
  label of the step, so a run is a sequence of labels.
 */
module ActionProtocol {
  import opened Options
  import opened ActionModel
  import opened ActionLifecycle
  import opened ActionServices
  import ActionStore
  import opened CommerceRequests
  import opened IdempotentWrites
  import opened CommerceWire

  /** What a refresh of the current Commerce facts returned. */
  datatype Freshness = Freshness(fingerprint: Fingerprint, decision: PolicyDecision)

  /** What the services other than executor and reconciler ask of the row. */
  datatype ServiceCall =
    | RecordPolicy(principal: Uuid, decision: PolicyDecision)
    | Approve(supervisor: Uuid, facts: Freshness)
    | RejectApproval(supervisor: Uuid, facts: Freshness)
    | Confirm(customer: Uuid, facts: Freshness)
    | Withdraw(customer: Uuid)
    | ExpireStale
    | Supersede(principal: Uuid)
    | DenyReady(decision: PolicyDecision)

  datatype Role = Executor | Reconciler

  /** What stands behind an outcome a worker is about to record. */
  datatype Evidence = NothingSent | Heard(answer: Answer) | ReadBackOnly | NoEvidence

  datatype ReadResult = ReadResult(status: VerificationStatus, resource: Option<Uuid>, reason: string)

  /** Where a worker is. Everything from Dispatching on happens under a lease. */
  datatype Place =
    | Refreshing
    | Recovering
    | Claiming
    | ReadingFirst
    | Dispatching(attempt: nat)
    | Awaiting(dispatch: Dispatch)
    | Responding(accepted: Answer, resource: Option<Uuid>)
    | ReadingBack(answered: Answer, written: Option<Uuid>)
    | Settling(outcome: Outcome, evidence: Evidence)

  /** A worker remembers its own snapshot of the row, its own refresh and the lease it was granted. */
  datatype Worker = Worker(
    role: Role, record: ActionRow, facts: Option<Freshness>, lease: Option<Uuid>, read: Option<VerificationStatus>,
    place: Place)

  type WorkerId = nat

  datatype Ending = Ending(role: Role, evidence: Evidence)

  /** The refreshes on which the three stages after the proposal went ahead; the last is that of the claim that won. */
  datatype Seen = Seen(approval: Option<Freshness>, confirmation: Option<Freshness>, dispatch: Option<Freshness>)

  /**
    The row with its log, the leases granted and settled so far in order, the workers, the
    wire, and, once the action has ended, who ended it on what evidence.
   */
  datatype System = System(
    row: ActionRow,
    log: seq<ActionEvent>,
    grants: seq<Uuid>,
    settled: seq<Uuid>,
    workers: map<WorkerId, Worker>,
    wire: Wire,
    ending: Option<Ending>,
    seen: Seen)

  datatype Label =
    | Decides(call: ServiceCall, now: Time)
    | StartExecutor(w: WorkerId)
    | Refreshed(w: WorkerId, facts: Freshness, now: Time)
    | ClaimForExecution(w: WorkerId, lease: Uuid, claimedAt: Time, now: Time)
    | StartReconciler(w: WorkerId)
    | Recover(w: WorkerId, now: Time)
    | ClaimForReconciliation(w: WorkerId, lease: Uuid, now: Time)
    | ReadFirst(w: WorkerId, read: ReadResult)
    | Send(w: WorkerId, d: Dispatch)
    | FailToConnect(w: WorkerId)
    | Hear(w: WorkerId, answer: Answer, code: Option<string>, parses: bool, resource: Option<Uuid>)
    | LoseAnswer(w: WorkerId)
    | RecordResponse(w: WorkerId, now: Time)
    | ReadBack(w: WorkerId, read: ReadResult)
    | SettleOutcome(w: WorkerId, now: Time)
    | Crash(w: WorkerId)
    | Network(a: WireAction)

  const LEASE_SECONDS := 120

  // ---- The decision services ----

  function PolicyTarget(d: PolicyDecision): ActionState {
    if !d.allowed then PolicyDenied else if d.approvalRequired then AwaitingApproval else AwaitingConfirmation
  }

  function AsRequest(call: ServiceCall, now: Time): TransitionRequest {
    match call
    case RecordPolicy(p, d) =>
      Plain(PolicyTarget(d), Some(p), if d.allowed then PolicyAllowedEvent else PolicyDeniedEvent, Some(d.reason), now)
      .(policy := Some(d))
    case Approve(p, _) => Plain(AwaitingConfirmation, Some(p), SupervisorApproved, Some("supervisor_approved"), now)
    case RejectApproval(p, _) => Plain(Rejected, Some(p), SupervisorRejected, Some("supervisor_rejected"), now)
    case Confirm(p, _) => Plain(ReadyToExecute, Some(p), CustomerConfirmed, None, now)
    case Withdraw(p) => Plain(Rejected, Some(p), CustomerRejected, None, now)
    case ExpireStale => Plain(Expired, None, ExpiredEvent, Some("stale"), now)
    case Supersede(p) => Supersession(p, now)
    case DenyReady(d) => Plain(PolicyDenied, None, PolicyDeniedEvent, Some(d.reason), now).(policy := Some(d))
  }

  predicate Current(fixed: ActionIdentity, facts: Freshness) {
    facts.fingerprint == fixed.fingerprint && facts.decision.allowed && facts.decision.confirmationRequired
  }

  /**
    A service goes ahead only on facts that still match. Its conditions on the snapshot it
    read, which the locked transition checks again, are left out: that only adds behaviour.
   */
  predicate GoesAhead(fixed: ActionIdentity, call: ServiceCall) {
    match call
    case Approve(_, facts) => Current(fixed, facts) && facts.decision.approvalRequired
    case RejectApproval(_, facts) => Current(fixed, facts) && facts.decision.approvalRequired
    case Confirm(_, facts) => Current(fixed, facts)
    case DenyReady(d) => !d.allowed
    case _ => true
  }

  function Witnessed(seen: Seen, call: ServiceCall, change: Change): Seen {
    if change.Kept? then seen
    else if call.Approve? && change.event.kind == SupervisorApproved then seen.(approval := Some(call.facts))
    else if call.Confirm? && change.event.kind == CustomerConfirmed then seen.(confirmation := Some(call.facts))
    else seen
  }

  function Store(s: System, change: Change): System {
    match change
    case Kept => s
    case Written(row, event) => s.(row := row, log := s.log + [event])
  }

  function DecidesStep(s: System, call: ServiceCall, now: Time): System {
    var change := Transition(s.row, s.row.fixed.fingerprint, AsRequest(call, now)).change;
    Store(s, change).(seen := Witnessed(s.seen, call, change))
  }

  // ---- Workers ----

  predicate At(s: System, w: WorkerId) { w in s.workers }

  function Goes(s: System, w: WorkerId, worker: Worker): System {
    s.(workers := s.workers[w := worker])
  }

  function Leaves(s: System, w: WorkerId): System {
    s.(workers := s.workers - {w})
  }

  /** The executor's last look before it claims: stale facts or a refused policy end in a service call. */
  function RefreshedStep(s: System, w: WorkerId, facts: Freshness, now: Time): System
    requires At(s, w)
  {
    var me := s.workers[w];
    var d := facts.decision;
    if facts.fingerprint != me.record.fixed.fingerprint then Leaves(DecidesStep(s, ExpireStale, now), w)
    else if !d.allowed then Leaves(DecidesStep(s, DenyReady(d), now), w)
    else if !d.confirmationRequired || d.approvalRequired != me.record.approvalRequired
    then Leaves(DecidesStep(s, ExpireStale, now), w)
    else Goes(s, w, me.(facts := Some(facts), place := Claiming))
  }

  /** A claim stores what the service wrote, and the worker goes on only under the lease it won. */
  function Claims(s: System, w: WorkerId, service: Service, lease: Uuid, next: Place): System
    requires At(s, w)
  {
    var stored, me := Store(s, service.change), s.workers[w];
    if service.reply.Claimed? then
      Goes(stored, w, me.(record := service.reply.row, lease := Some(lease), place := next)).(
        grants := s.grants + [lease],
        seen := if me.role == Executor then s.seen.(dispatch := me.facts) else s.seen)
    else Leaves(stored, w)
  }

  predicate CanReadFirst(row: ActionRow) {
    row.fixed.proposal.CancelProposal? || row.fixed.proposal.RescheduleProposal? || row.commerce.resource.Some?
  }

  predicate CreatesResource(row: ActionRow) {
    row.fixed.proposal.ReturnProposal? || row.fixed.proposal.TicketProposal? || row.fixed.proposal.RefundProposal?
  }

  /** After the look, and the recovery of an expired execution, only a fully gated unresolved row is claimed. */
  function RecoverStep(s: System, w: WorkerId, now: Time): System
    requires At(s, w)
  {
    var me := s.workers[w];
    var service := if me.record.state == Executing
                   then RecoverExpiredExecution(s.row, me.record.fixed.fingerprint, now)
                   else Service(Kept, Answered(me.record));
    var stored := Store(s, service.change);
    if !service.reply.Answered? then Leaves(stored, w)
    else
      var record := service.reply.row;
      if record.state != Unresolved || !GatesSatisfied(record) then Leaves(stored, w)
      else if record.fixed.proposal.RefundProposal? && RefundEvidence(record).InvalidApproval? then Leaves(stored, w)
      else Goes(stored, w, me.(record := record, place := Claiming))
  }

  function Unsettled(reason: string, commerce: CommerceColumns, read: Option<VerificationStatus>): Outcome {
    Outcome(Unresolved, UnresolvedEvent, Some(reason), commerce, None, read)
  }

  function SettleVerified(read: ReadResult, status: Option<int>, resource: Option<Uuid>): Outcome {
    Outcome(Succeeded, VerificationSucceeded, Some("verified"), CommerceColumns(status, None, resource),
            read.resource, Some(Verified))
  }

  /** The reconciler reads the known target before it considers a replay. */
  function ReadFirstStep(s: System, w: WorkerId, read: ReadResult): System
    requires At(s, w)
  {
    var me := s.workers[w];
    var c := me.record.commerce;
    if read.status == Verified then
      Goes(s, w, me.(place := Settling(SettleVerified(read, c.statusCode, read.resource), ReadBackOnly)))
    else if CreatesResource(me.record) && c.resource.Some? && read.status == Mismatched then
      Goes(s, w, me.(place := Settling(Unsettled(read.reason, c, Some(read.status)), NoEvidence)))
    else Goes(s, w, me.(read := Some(read.status), place := Dispatching(0)))
  }

  function RequestOf(worker: Worker): Built {
    if worker.role == Executor then ExecutorRequest(worker.record) else ReconcilerRequest(worker.record)
  }

  function SettleFailed(
    kind: EventType, reason: string, columns: CommerceColumns, read: Option<VerificationStatus>): Outcome
  {
    Outcome(Failed, kind, Some(reason), columns, None, read)
  }

  /** An invalid request fails the execution; in the reconciler the exception ends the run. */
  function DispatchStep(s: System, w: WorkerId, d: Dispatch): Option<System>
    requires At(s, w)
  {
    var me := s.workers[w];
    match RequestOf(me)
    case Call(call) =>
      (match WireStep(s.wire, Post(d, call))
       case None => None
       case Some(wire) => Some(Goes(s, w, me.(place := Awaiting(d))).(wire := wire)))
    case bad =>
      if me.role == Reconciler then Some(Leaves(s, w))
      else
        var reason := if bad.InvalidRequest? then "request_validation_rejected" else "approval_evidence_invalid";
        Some(Goes(s, w, me.(place := Settling(SettleFailed(StateTransition, reason, NO_COMMERCE, None), NothingSent))))
  }

  /** One more attempt after a connection that provably was not made, then the worker gives up. */
  function FailToConnectStep(s: System, w: WorkerId): System
    requires At(s, w) && s.workers[w].place.Dispatching?
  {
    var me := s.workers[w];
    if me.place.attempt == 0 then Goes(s, w, me.(place := Dispatching(1)))
    else if me.role == Executor then
      Goes(s, w, me.(place :=
        Settling(SettleFailed(StateTransition, "pre_dispatch_retry_exhausted", NO_COMMERCE, None), NothingSent)))
    else Goes(s, w, me.(place := Settling(GivesUp(me, None, None), NoEvidence)))
  }

  function OrDefault(code: Option<string>, text: string): string {
    if code.Some? && code.value != "" then code.value else text
  }

  function KnownResource(worker: Worker): Option<Uuid> {
    if worker.role == Executor then None else worker.record.commerce.resource
  }

  function GivesUp(worker: Worker, status: Option<int>, code: Option<string>): Outcome {
    Unsettled(OrDefault(code, "ambiguous_write_outcome"), CommerceColumns(status, code, KnownResource(worker)),
              worker.read)
  }

  /** The error code the client finds in the body of an answer. */
  predicate CodeOf(reply: ServerReply, code: Option<string>) {
    reply.ApiError? ==> code == (if |reply.code| <= 128 then Some(reply.code) else None)
  }

  function HearStep(
    s: System, w: WorkerId, a: Answer, code: Option<string>, parses: bool, resource: Option<Uuid>): System
    requires At(s, w)
  {
    var me := s.workers[w];
    match Classify(StatusOf(a.reply), code, parses)
    case RejectedWrite(status, c) =>
      var kind := if me.role == Executor then CommerceResponse else StateTransition;
      var columns := CommerceColumns(status, c, KnownResource(me));
      Goes(s, w, me.(place :=
        Settling(SettleFailed(kind, OrDefault(c, "commerce_rejected"), columns, me.read), Heard(a))))
    case Ambiguous(status, c) => Goes(s, w, me.(place := Settling(GivesUp(me, status, c), NoEvidence)))
    case Accepted(_) =>
      Goes(s, w, me.(place := if me.role == Executor then Responding(a, resource) else ReadingBack(a, resource)))
  }

  /** The executor stores what the write answered while it keeps its lease. */
  function RecordResponseStep(s: System, w: WorkerId, now: Time): System
    requires At(s, w) && s.workers[w].place.Responding? && s.workers[w].lease.Some?
  {
    var me := s.workers[w];
    var a, resource := me.place.accepted, me.place.resource;
    var service := RecordCommerceResponse(
      s.row, me.record.fixed.fingerprint, me.lease.value, StatusOf(a.reply), resource, now);
    if service.reply.Raised? then Leaves(Store(s, service.change), w)
    else Goes(Store(s, service.change), w, me.(place := ReadingBack(a, resource)))
  }

  function ReadBackStep(s: System, w: WorkerId, read: ReadResult): System
    requires At(s, w) && s.workers[w].place.ReadingBack?
  {
    var me := s.workers[w];
    var a, resource := me.place.answered, me.place.written;
    var status := Some(StatusOf(a.reply));
    var kept := if resource.None? then KnownResource(me) else resource;
    if read.status == Verified then
      Goes(s, w, me.(place := Settling(SettleVerified(read, status, resource), Heard(a))))
    else
      Goes(s, w, me.(place :=
        Settling(Unsettled(read.reason, CommerceColumns(status, None, kept), Some(read.status)), NoEvidence)))
  }

  predicate Terminal(state: ActionState) { state == Succeeded || state == Failed }

  /** The state a worker settles from, by its role. */
  function StateOf(role: Role): ActionState {
    if role == Executor then Executing else Unresolved
  }

  /** The settlement commits under the worker's lease or raises; either way the worker is done. */
  function SettleStep(s: System, w: WorkerId, now: Time): System
    requires At(s, w) && s.workers[w].place.Settling? && s.workers[w].lease.Some?
  {
    var me := s.workers[w];
    var fp := me.record.fixed.fingerprint;
    var change := RecordOutcome(s.row, StateOf(me.role), fp, me.lease.value, me.place.outcome, now).change;
    var left := Leaves(Store(s, change), w);
    if change.Kept? then left
    else
      left.(settled := s.settled + [me.lease.value],
            ending := if Terminal(change.row.state) then Some(Ending(me.role, me.place.evidence)) else s.ending)
  }

  predicate Is(s: System, w: WorkerId, role: Role, place: Place) {
    At(s, w) && s.workers[w].role == role && s.workers[w].place == place
  }

  /** The system after a step, or None when the step is not enabled. */
  function Step(s: System, l: Label): Option<System> {
    match l
    case Decides(call, now) => if GoesAhead(s.row.fixed, call) then Some(DecidesStep(s, call, now)) else None
    case StartExecutor(w) =>
      if At(s, w) then None
      else if s.row.state != ReadyToExecute || !GatesSatisfied(s.row) then Some(s)
      else Some(Goes(s, w, Worker(Executor, s.row, None, None, None, Refreshing)))
    case Refreshed(w, facts, now) =>
      if !Is(s, w, Executor, Refreshing) then None else Some(RefreshedStep(s, w, facts, now))
    case ClaimForExecution(w, lease, claimedAt, now) =>
      if !Is(s, w, Executor, Claiming) || lease in s.grants then None
      else
        var fp := s.workers[w].record.fixed.fingerprint;
        Some(Claims(s, w, ClaimExecution(s.row, fp, lease, claimedAt, LEASE_SECONDS, now), lease, Dispatching(0)))
    case StartReconciler(w) =>
      if At(s, w) then None else Some(Goes(s, w, Worker(Reconciler, s.row, None, None, None, Recovering)))
    case Recover(w, now) =>
      if !Is(s, w, Reconciler, Recovering) then None else Some(RecoverStep(s, w, now))
    case ClaimForReconciliation(w, lease, now) =>
      if !Is(s, w, Reconciler, Claiming) || lease in s.grants then None
      else
        var fp := s.workers[w].record.fixed.fingerprint;
        var service := ClaimReconciliation(s.row, fp, lease, LEASE_SECONDS, now);
        var next := if CanReadFirst(s.row) then ReadingFirst else Dispatching(0);
        Some(Claims(s, w, service, lease, next))
    case ReadFirst(w, read) =>
      if !Is(s, w, Reconciler, ReadingFirst) then None else Some(ReadFirstStep(s, w, read))
    case Send(w, d) =>
      if !At(s, w) || !s.workers[w].place.Dispatching? then None else DispatchStep(s, w, d)
    case FailToConnect(w) =>
      if !At(s, w) || !s.workers[w].place.Dispatching? || !RequestOf(s.workers[w]).Call? then None
      else Some(FailToConnectStep(s, w))
    case Hear(w, a, code, parses, resource) =>
      if !At(s, w) || s.workers[w].place != Awaiting(a.dispatch) || a !in s.wire.answers || !CodeOf(a.reply, code)
      then None
      else Some(HearStep(s, w, a, code, parses, resource))
    case LoseAnswer(w) =>
      if !At(s, w) || !s.workers[w].place.Awaiting? then None
      else Some(Goes(s, w, s.workers[w].(place := Settling(GivesUp(s.workers[w], None, None), NoEvidence))))
    case RecordResponse(w, now) =>
      if !At(s, w) || !s.workers[w].place.Responding? || s.workers[w].lease.None? then None
      else Some(RecordResponseStep(s, w, now))
    case ReadBack(w, read) =>
      if !At(s, w) || !s.workers[w].place.ReadingBack? then None else Some(ReadBackStep(s, w, read))
    case SettleOutcome(w, now) =>
      if !At(s, w) || !s.workers[w].place.Settling? || s.workers[w].lease.None? then None
      else Some(SettleStep(s, w, now))
    case Crash(w) => if !At(s, w) then None else Some(Leaves(s, w))
    case Network(a) =>
      if a.Post? && a.call.key == s.row.fixed.idempotencyKey then None
      else
        match WireStep(s.wire, a)
        case None => None
        case Some(wire) => Some(s.(wire := wire))
  }

  /** A freshly created action, before anything else has happened. */
  function Begun(r: ActionStore.CreateRequest): System
    requires r.customer.Some?
  {
    System(ActionStore.NewRow(r), [ActionStore.CreatedEntry(r)], [], [], map[], IDLE, None, Seen(None, None, None))
  }

  /** What creation demands of its request. */
  predicate Creatable(r: ActionStore.CreateRequest) {
    r.customer.Some? && HexDigest(r.fingerprint) && r.now < r.expiresAt
  }

  /** A label that is not enabled is skipped. */
  function Next(s: System, l: Label): System {
    var after := Step(s, l);
    if after.Some? then after.value else s
  }

  /** The system after more labels, from any point of a run. */
  function Continue(s: System, more: seq<Label>): System {
    if more == [] then s else Next(Continue(s, more[..|more| - 1]), more[|more| - 1])
  }

  /** The system after a run. */
  function After(r: ActionStore.CreateRequest, run: seq<Label>): System
    requires r.customer.Some?
  {
    Continue(Begun(r), run)
  }

  lemma ContinueSnoc(s: System, more: seq<Label>, l: Label)
    ensures Continue(s, more + [l]) == Next(Continue(s, more), l)
  {
    hide Next;
    assert (more + [l])[..|more + [l]| - 1] == more;
  }

  lemma {:induction false} ContinueJoins(s: System, more: seq<Label>, rest: seq<Label>)
    ensures Continue(s, more + rest) == Continue(Continue(s, more), rest)
  {
    hide Next;
    if rest == [] {
      assert more + rest == more;
    } else {
      var init, l := rest[..|rest| - 1], rest[|rest| - 1];
      assert rest == init + [l] && more + rest == (more + init) + [l];
      ContinueJoins(s, more, init);
      hide Continue;
      ContinueSnoc(s, more + init, l);
      ContinueSnoc(Continue(s, more), init, l);
    }
  }

  // ---- A step, label by label ----

  lemma ClaimingStep(s: System, l: Label, s': System)
    requires Step(s, l) == Some(s') && l.ClaimForExecution?
    ensures Is(s, l.w, Executor, Claiming) && l.lease !in s.grants
    ensures var fp := s.workers[l.w].record.fixed.fingerprint;
      s'
        == Claims(s, l.w, ClaimExecution(s.row, fp, l.lease, l.claimedAt, LEASE_SECONDS, l.now), l.lease,
                  Dispatching(0))
  {
    hide DecidesStep, RefreshedStep, Claims, RecoverStep, ReadFirstStep, DispatchStep, FailToConnectStep, HearStep,
      RecordResponseStep, ReadBackStep, SettleStep, WireStep, RequestOf, CanReadFirst, ClaimExecution,
      ClaimReconciliation, GatesSatisfied, GoesAhead, CodeOf;
  }

  lemma ReclaimingStep(s: System, l: Label, s': System)
    requires Step(s, l) == Some(s') && l.ClaimForReconciliation?
    ensures Is(s, l.w, Reconciler, Claiming) && l.lease !in s.grants
    ensures var fp := s.workers[l.w].record.fixed.fingerprint;
      s'
        == Claims(s, l.w, ClaimReconciliation(s.row, fp, l.lease, LEASE_SECONDS, l.now), l.lease,
                  if CanReadFirst(s.row) then ReadingFirst else Dispatching(0))
  {
    hide DecidesStep, RefreshedStep, Claims, RecoverStep, ReadFirstStep, DispatchStep, FailToConnectStep, HearStep,
      RecordResponseStep, ReadBackStep, SettleStep, WireStep, RequestOf, CanReadFirst, ClaimExecution,
      ClaimReconciliation, GatesSatisfied, GoesAhead, CodeOf;
  }

  lemma DecidingStep(s: System, l: Label, s': System)
    requires Step(s, l) == Some(s') && l.Decides?
    ensures GoesAhead(s.row.fixed, l.call) && s' == DecidesStep(s, l.call, l.now)
  {
    hide DecidesStep, RefreshedStep, Claims, RecoverStep, ReadFirstStep, DispatchStep, FailToConnectStep, HearStep,
      RecordResponseStep, ReadBackStep, SettleStep, WireStep, RequestOf, CanReadFirst, ClaimExecution,
      ClaimReconciliation, GatesSatisfied, GoesAhead, CodeOf;
  }

  lemma RefreshingStep(s: System, l: Label, s': System)
    requires Step(s, l) == Some(s') && l.Refreshed?
    ensures Is(s, l.w, Executor, Refreshing) && s' == RefreshedStep(s, l.w, l.facts, l.now)
  {
    hide DecidesStep, RefreshedStep, Claims, RecoverStep, ReadFirstStep, DispatchStep, FailToConnectStep, HearStep,
      RecordResponseStep, ReadBackStep, SettleStep, WireStep, RequestOf, CanReadFirst, ClaimExecution,
      ClaimReconciliation, GatesSatisfied, GoesAhead, CodeOf;
  }

  lemma RecoveringStep(s: System, l: Label, s': System)
    requires Step(s, l) == Some(s') && l.Recover?
    ensures Is(s, l.w, Reconciler, Recovering) && s' == RecoverStep(s, l.w, l.now)
  {
    hide DecidesStep, RefreshedStep, Claims, RecoverStep, ReadFirstStep, DispatchStep, FailToConnectStep, HearStep,
      RecordResponseStep, ReadBackStep, SettleStep, WireStep, RequestOf, CanReadFirst, ClaimExecution,
      ClaimReconciliation, GatesSatisfied, GoesAhead, CodeOf;
  }

  lemma RespondingStep(s: System, l: Label, s': System)
    requires Step(s, l) == Some(s') && l.RecordResponse?
    ensures l.w in s.workers && s.workers[l.w].place.Responding? && s.workers[l.w].lease.Some?
    ensures s' == RecordResponseStep(s, l.w, l.now)
  {
    hide DecidesStep, RefreshedStep, Claims, RecoverStep, ReadFirstStep, DispatchStep, FailToConnectStep, HearStep,
      RecordResponseStep, ReadBackStep, SettleStep, WireStep, RequestOf, CanReadFirst, ClaimExecution,
      ClaimReconciliation, GatesSatisfied, GoesAhead, CodeOf;
  }

  lemma OutcomeStep(s: System, l: Label, s': System)
    requires Step(s, l) == Some(s') && l.SettleOutcome?
    ensures l.w in s.workers && s.workers[l.w].place.Settling? && s.workers[l.w].lease.Some?
    ensures s' == SettleStep(s, l.w, l.now)
  {
    hide DecidesStep, RefreshedStep, Claims, RecoverStep, ReadFirstStep, DispatchStep, FailToConnectStep, HearStep,
      RecordResponseStep, ReadBackStep, SettleStep, WireStep, RequestOf, CanReadFirst, ClaimExecution,
      ClaimReconciliation, GatesSatisfied, GoesAhead, CodeOf;
  }

  lemma NetworkStep(s: System, a: WireAction)
    requires WireStep(s.wire, a).Some? && !a.Post?
    ensures Step(s, Network(a)) == Some(s.(wire := WireStep(s.wire, a).value))
  {
    hide WireStep;
  }

  lemma SettlingStep(s: System, w: WorkerId, now: Time)
    requires w in s.workers && s.workers[w].place.Settling? && s.workers[w].lease.Some?
    ensures Step(s, SettleOutcome(w, now)) == Some(SettleStep(s, w, now))
  {
    hide SettleStep;
  }

  lemma HearingStep(s: System, w: WorkerId, a: Answer, code: Option<string>, parses: bool, resource: Option<Uuid>)
    requires w in s.workers && s.workers[w].place == Awaiting(a.dispatch)
    requires a in s.wire.answers && CodeOf(a.reply, code)
    ensures Step(s, Hear(w, a, code, parses, resource)) == Some(HearStep(s, w, a, code, parses, resource))
  {
    hide HearStep, CodeOf;
  }

  lemma SendingStep(s: System, w: WorkerId, d: Dispatch)
    requires w in s.workers && s.workers[w].place.Dispatching?
    ensures Step(s, Send(w, d)) == DispatchStep(s, w, d)
  {
    hide DispatchStep;
  }
}
