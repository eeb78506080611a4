/**
  The decision every action mutation goes through: which requested transition of one locked
  row is accepted, what the row becomes and what the audit log gains. Around it, the row
  and log invariants that hold over any sequence of accepted transitions.
 */
module ActionLifecycle {
  import opened Options
  import opened ActionModel

  datatype ActionError =
    | InvalidTransition | InvalidValue | PolicyDecisionRequired | ConcurrentUpdate
    | NotFound | FingerprintMismatch | ActionExpired | IntegrityViolation
    | ScopeError | OriginConflict | FingerprintCollision | InFlight | RecordConflict

  /** The arguments of one call of the row mutator. */
  datatype TransitionRequest = TransitionRequest(
    target: ActionState,
    actor: Option<Uuid>,
    kind: EventType,
    reason: Option<string>,
    policy: Option<PolicyDecision>,
    verifiedResource: Option<Uuid>,
    executionLease: Option<Lease>,
    reconciliationLease: Option<Lease>,
    clearLease: bool,
    outcome: Option<CommerceColumns>,
    verification: Option<VerificationStatus>,
    now: Time)

  datatype Lease = Lease(owner: Uuid, expiresAt: Time)

  /** A request with only its mandatory arguments. */
  function Plain(target: ActionState, actor: Option<Uuid>, kind: EventType, reason: Option<string>, now: Time)
    : TransitionRequest
  {
    TransitionRequest(target, actor, kind, reason, None, None, None, None, false, None, None, now)
  }

  /** The approved lifecycle graph. */
  function Successors(state: ActionState): set<ActionState> {
    match state
    case Proposed => {PolicyDenied, AwaitingApproval, AwaitingConfirmation, ReadyToExecute, Failed, Expired}
    case AwaitingApproval => {AwaitingConfirmation, ReadyToExecute, Rejected, Expired}
    case AwaitingConfirmation => {ReadyToExecute, Rejected, Expired}
    case ReadyToExecute => {Executing, PolicyDenied, Expired}
    case Executing => {Succeeded, Failed, ReadyToExecute, Unresolved}
    case Unresolved => {Executing, Succeeded, Failed, Unresolved}
    case _ => {}
  }

  predicate GateState(state: ActionState) {
    state == AwaitingApproval || state == AwaitingConfirmation || state == ReadyToExecute
  }

  /** Every durably required human gate is bound to the row's own fingerprint. */
  predicate GatesSatisfied(row: ActionRow) {
    && row.policy.allowed == Some(true)
    && row.confirmationRequired
    && row.customer.verdict == Some(Granted)
    && row.customer.fingerprint == Some(row.fixed.fingerprint)
    && (row.approvalRequired ==>
          && row.supervisor.verdict == Some(Granted)
          && row.supervisor.actor.Some?
          && row.supervisor.fingerprint == Some(row.fixed.fingerprint))
  }

  // ---- The decision ----

  predicate Lapsed(row: ActionRow, now: Time) {
    Undispatched(row.state) && row.fixed.expiresAt <= now
  }

  /** An undispatched row past its expiry turns every request into its expiry. */
  function Effective(row: ActionRow, req: TransitionRequest): TransitionRequest {
    if Lapsed(row, req.now) then
      req.(target := Expired, kind := ExpiredEvent, reason := Some("expired"), policy := None,
           executionLease := None, reconciliationLease := None)
    else req
  }

  predicate SelfLoop(row: ActionRow, eff: TransitionRequest) {
    row.state == eff.target && eff.kind == CommerceResponse
  }

  predicate EdgeApproved(row: ActionRow, eff: TransitionRequest) {
    Lapsed(row, eff.now) || SelfLoop(row, eff) || eff.target in Successors(row.state)
  }

  function EdgeRefusal(row: ActionRow, eff: TransitionRequest): Option<ActionError> {
    if !EdgeApproved(row, eff) then Some(InvalidTransition)
    else if row.state == Executing && eff.target == ReadyToExecute && eff.reason != Some("proven_non_dispatch")
    then Some(InvalidTransition)
    else None
  }

  /** Which event types the target state insists on. */
  function EventRefusal(eff: TransitionRequest): Option<ActionError> {
    if eff.reason.Some? && !ReasonCode(eff.reason.value) then Some(InvalidValue)
    else if eff.kind == CreatedEvent then Some(InvalidValue)
    else if eff.target == Expired && eff.kind != ExpiredEvent then Some(InvalidValue)
    else if eff.target == PolicyDenied && eff.kind != PolicyDeniedEvent then Some(InvalidValue)
    else if eff.target == Unresolved && eff.kind != UnresolvedEvent then Some(InvalidValue)
    else if eff.target == Succeeded && (eff.kind != VerificationSucceeded || eff.verifiedResource.None?)
    then Some(InvalidTransition)
    else if eff.target != Succeeded && eff.verifiedResource.Some? then Some(InvalidValue)
    else if eff.kind == VerificationSucceeded && eff.target != Succeeded then Some(InvalidTransition)
    else None
  }

  function PolicyRefusal(row: ActionRow, eff: TransitionRequest): Option<ActionError> {
    if eff.policy.Some? then
      var d := eff.policy.value;
      if eff.kind != (if d.allowed then PolicyAllowedEvent else PolicyDeniedEvent) then Some(InvalidValue)
      else if d.allowed && !GateState(eff.target) then Some(InvalidValue)
      else if !d.allowed && eff.target != PolicyDenied then Some(InvalidValue)
      else if d.allowed && !d.confirmationRequired then Some(InvalidTransition)
      else if d.allowed && eff.target != (if d.approvalRequired then AwaitingApproval else AwaitingConfirmation)
      then Some(InvalidValue)
      else None
    else if eff.kind == PolicyAllowedEvent || eff.kind == PolicyDeniedEvent then Some(InvalidValue)
    else if row.policy.allowed.None? && GateState(eff.target) then Some(PolicyDecisionRequired)
    else None
  }

  function LeaseRefusal(row: ActionRow, eff: TransitionRequest): Option<ActionError> {
    if eff.executionLease.Some? && !(row.state == ReadyToExecute && eff.target == Executing)
    then Some(InvalidTransition)
    else if eff.executionLease.Some? && eff.executionLease.value.expiresAt <= eff.now then Some(InvalidValue)
    else if eff.reconciliationLease.Some? && !(row.state == Unresolved && eff.target == Unresolved)
    then Some(InvalidTransition)
    else if eff.reconciliationLease.Some? && eff.reconciliationLease.value.expiresAt <= eff.now then Some(InvalidValue)
    else None
  }

  function OutcomeRefusal(eff: TransitionRequest): Option<ActionError> {
    if eff.outcome.Some? && eff.outcome.value.statusCode.Some? && !(100 <= eff.outcome.value.statusCode.value <= 599)
    then Some(InvalidValue)
    else if eff.outcome.Some? && eff.outcome.value.errorCode.Some? && !ReasonCode(eff.outcome.value.errorCode.value)
    then Some(InvalidValue)
    else if !VerificationAllowed(eff.verification) then Some(InvalidValue)
    else None
  }

  predicate CustomerWithdrawal(row: ActionRow, eff: TransitionRequest) {
    row.state == AwaitingApproval && eff.target == Rejected && eff.kind == CustomerRejected
  }

  /** The edges that record a supervisor decision. */
  predicate SupervisorDecides(row: ActionRow, eff: TransitionRequest) {
    && row.state == AwaitingApproval
    && eff.target in {AwaitingConfirmation, ReadyToExecute, Rejected}
    && !CustomerWithdrawal(row, eff)
  }

  /** The edges that record a customer decision. */
  predicate CustomerDecides(row: ActionRow, eff: TransitionRequest) {
    || (row.state == AwaitingConfirmation && eff.target in {ReadyToExecute, Rejected})
    || CustomerWithdrawal(row, eff)
  }

  function SupervisorRefusal(row: ActionRow, eff: TransitionRequest): Option<ActionError> {
    if !SupervisorDecides(row, eff) then None
    else if !row.approvalRequired then Some(InvalidTransition)
    else if eff.target != Rejected
         && eff.target != (if row.confirmationRequired then AwaitingConfirmation else ReadyToExecute)
    then Some(InvalidTransition)
    else if eff.kind != (if eff.target == Rejected then SupervisorRejected else SupervisorApproved) || eff.actor.None?
    then Some(InvalidTransition)
    else None
  }

  function CustomerRefusal(row: ActionRow, eff: TransitionRequest): Option<ActionError> {
    if !CustomerDecides(row, eff) then None
    else if !row.confirmationRequired then Some(InvalidTransition)
    else if eff.kind != (if eff.target == Rejected then CustomerRejected else CustomerConfirmed) || eff.actor.None?
    then Some(InvalidTransition)
    else None
  }

  /** Human decision events appear only on the edges that record that decision. */
  function DetachedEventRefusal(row: ActionRow, eff: TransitionRequest): Option<ActionError> {
    if eff.kind in {SupervisorApproved, SupervisorRejected}
       && !(row.state == AwaitingApproval && eff.target in {AwaitingConfirmation, ReadyToExecute, Rejected})
    then Some(InvalidTransition)
    else if eff.kind in {CustomerConfirmed, CustomerRejected} && !CustomerDecides(row, eff)
    then Some(InvalidTransition)
    else None
  }

  function OrElse(first: Option<ActionError>, second: Option<ActionError>): Option<ActionError> {
    if first.Some? then first else second
  }

  /** The first guard that refuses, in the order the mutator checks them. */
  function FirstRefusal(row: ActionRow, eff: TransitionRequest): Option<ActionError> {
    OrElse(EdgeRefusal(row, eff),
    OrElse(EventRefusal(eff),
    OrElse(PolicyRefusal(row, eff),
    OrElse(LeaseRefusal(row, eff),
    OrElse(OutcomeRefusal(eff),
    OrElse(SupervisorRefusal(row, eff),
    OrElse(CustomerRefusal(row, eff),
           DetachedEventRefusal(row, eff))))))))
  }

  function Decided(granted: bool, eff: TransitionRequest, fingerprint: Fingerprint): HumanDecision {
    HumanDecision(Some(if granted then Granted else Refused), eff.actor, Some(eff.now), Some(fingerprint))
  }

  function PolicyOf(d: PolicyDecision, now: Time): PolicyColumns {
    PolicyColumns(Some(d.allowed), Some(d.reason), Some(d.policyVersion), Some(now))
  }

  function LeaseOwnerAfter(row: ActionRow, eff: TransitionRequest): (Option<Uuid>, Option<Time>) {
    if eff.reconciliationLease.Some? then
      (Some(eff.reconciliationLease.value.owner), Some(eff.reconciliationLease.value.expiresAt))
    else if eff.clearLease then (None, None)
    else if eff.executionLease.Some? then
      (Some(eff.executionLease.value.owner), Some(eff.executionLease.value.expiresAt))
    else (row.leaseOwner, row.leaseExpiresAt)
  }

  /** State, version, policy, attempt and lease columns. */
  function Stamped(row: ActionRow, eff: TransitionRequest): ActionRow {
    var lease := LeaseOwnerAfter(row, eff);
    row.(
      state := eff.target,
      version := row.version + 1,
      updatedAt := eff.now,
      policy := if eff.policy.Some? then PolicyOf(eff.policy.value, eff.now) else row.policy,
      confirmationRequired :=
        if eff.policy.Some? then eff.policy.value.confirmationRequired else row.confirmationRequired,
      approvalRequired := if eff.policy.Some? then eff.policy.value.approvalRequired else row.approvalRequired,
      attempts := if eff.executionLease.Some? then row.attempts + 1 else row.attempts,
      leaseOwner := lease.0,
      leaseExpiresAt := lease.1)
  }

  /** Commerce and verification columns. */
  function Evidenced(row: ActionRow, eff: TransitionRequest): ActionRow {
    var succeeded := eff.target == Succeeded;
    row.(
      commerce := if eff.outcome.Some? then eff.outcome.value else row.commerce,
      verification := if succeeded then Some(Verified)
                      else if eff.verification.Some? then eff.verification else row.verification,
      verifiedResource := if succeeded then eff.verifiedResource else row.verifiedResource,
      verifiedAt := if succeeded || eff.verification.Some? then Some(eff.now) else row.verifiedAt)
  }

  /** The row an accepted request leaves behind. */
  function Applied(row: ActionRow, eff: TransitionRequest): ActionRow {
    var granted := eff.target != Rejected;
    Evidenced(Stamped(row, eff), eff).(
      supervisor :=
        if SupervisorDecides(row, eff) then Decided(granted, eff, row.fixed.fingerprint) else row.supervisor,
      customer := if CustomerDecides(row, eff) then Decided(granted, eff, row.fixed.fingerprint) else row.customer)
  }

  function AuditEntry(row: ActionRow, eff: TransitionRequest): ActionEvent {
    ActionEvent(row.version + 1, eff.kind, eff.actor, Some(row.state), eff.target,
                row.fixed.fingerprint, None, eff.reason)
  }

  /** What the mutator's own guards say; `lapsed` reports that expiry overrode the request. */
  datatype Decision =
    | AlreadyExpired
    | Declined(error: ActionError)
    | Moved(row: ActionRow, event: ActionEvent, lapsed: bool)

  function Decide(row: ActionRow, req: TransitionRequest): Decision {
    if row.state == Expired then AlreadyExpired
    else
      var eff := Effective(row, req);
      var refusal := FirstRefusal(row, eff);
      if refusal.Some? then Declined(refusal.value)
      else Moved(Applied(row, eff), AuditEntry(row, eff), Lapsed(row, req.now))
  }

  /** The decision with the table's CHECK constraints as a commit guard. */
  function Settle(row: ActionRow, req: TransitionRequest): Decision {
    var d := Decide(row, req);
    if d.Moved? && !RowChecks(d.row) then Declined(IntegrityViolation) else d
  }

  // ---- What every reachable row satisfies ----

  predicate Untouched(row: ActionRow) {
    && row.policy.allowed.None?
    && !row.confirmationRequired && !row.approvalRequired
    && row.customer == NO_DECISION && row.supervisor == NO_DECISION
  }

  predicate AllowedWithGate(row: ActionRow) {
    row.policy.allowed == Some(true) && row.confirmationRequired
  }

  /** The supervisor's part is over: approved where required, absent where not. */
  predicate SupervisorSettled(row: ActionRow) {
    if row.approvalRequired then row.supervisor.verdict == Some(Granted) else row.supervisor == NO_DECISION
  }

  /** What each state says about the policy and the two human decisions. */
  predicate StateFacts(row: ActionRow) {
    match row.state
    case Proposed => Untouched(row)
    case PolicyDenied =>
      && row.policy.allowed == Some(false) && !row.confirmationRequired && !row.approvalRequired
      && row.customer == NO_DECISION && row.supervisor == NO_DECISION
    case AwaitingApproval =>
      AllowedWithGate(row) && row.approvalRequired && row.customer == NO_DECISION && row.supervisor == NO_DECISION
    case AwaitingConfirmation => AllowedWithGate(row) && row.customer == NO_DECISION && SupervisorSettled(row)
    case Rejected =>
      && AllowedWithGate(row)
      && (|| (row.customer.verdict == Some(Refused) && (SupervisorSettled(row) || row.supervisor == NO_DECISION))
          || (row.customer == NO_DECISION && row.approvalRequired && row.supervisor.verdict == Some(Refused)))
    case Failed => Untouched(row) || (GatesSatisfied(row) && SupervisorSettled(row))
    case Expired =>
      || Untouched(row)
      || (&& AllowedWithGate(row)
          && row.customer.verdict != Some(Refused)
          && (SupervisorSettled(row) || (row.supervisor == NO_DECISION && row.customer == NO_DECISION)))
    case _ => GatesSatisfied(row) && SupervisorSettled(row)
  }

  /** Success is exactly the state with a verified resource; lease and verification columns come in pairs. */
  predicate EvidenceFacts(row: ActionRow) {
    && (row.state == Succeeded <==> row.verifiedResource.Some?)
    && (row.state == Succeeded ==> row.verification == Some(Verified))
    && (row.verifiedAt.Some? <==> row.verification.Some?)
    && (row.leaseOwner.Some? <==> row.leaseExpiresAt.Some?)
  }

  predicate RowSound(row: ActionRow) {
    RowChecks(row) && StateFacts(row) && EvidenceFacts(row)
  }

  // ---- Single transitions of a sound row ----

  predicate DeniedAfterReady(before: ActionState, after: ActionState) {
    before == ReadyToExecute && after == PolicyDenied
  }

  /**
    The CHECK constraints reject exactly one accepted edge, and always: ready to policy_denied,
    which clears confirmation_required under a recorded customer decision.
   */
  lemma ChecksRejectExactlyDenialAfterReady(row: ActionRow, req: TransitionRequest)
    requires RowSound(row)
    requires Decide(row, req).Moved?
    ensures RowChecks(Decide(row, req).row) <==> !DeniedAfterReady(row.state, Decide(row, req).row.state)
  {
  }

  /** The Commerce and verification columns leave the rest of the row alone. */
  lemma EvidencedKeepsState(row: ActionRow, eff: TransitionRequest)
    ensures var row' := Evidenced(row, eff);
      row' == row.(commerce := row'.commerce, verification := row'.verification,
                   verifiedResource := row'.verifiedResource, verifiedAt := row'.verifiedAt)
  {
  }

  lemma SettleKeepsState(row: ActionRow, req: TransitionRequest)
    requires RowSound(row)
    requires Settle(row, req).Moved?
    ensures StateFacts(Settle(row, req).row)
  {
    hide ReasonCode, HexDigest, EvidenceFacts, OutcomeRefusal, Evidenced;
    EvidencedKeepsState(Stamped(row, Effective(row, req)), Effective(row, req));
  }

  lemma SettleKeepsIdentity(row: ActionRow, req: TransitionRequest)
    requires Settle(row, req).Moved?
    ensures RowChecks(Settle(row, req).row)
    ensures Settle(row, req).row.fixed == row.fixed
    ensures Settle(row, req).row.version == row.version + 1
  {
    hide RowChecks, FirstRefusal;
  }

  lemma SettleKeepsEvidence(row: ActionRow, req: TransitionRequest)
    requires RowSound(row)
    requires Settle(row, req).Moved?
    ensures EvidenceFacts(Settle(row, req).row)
  {
    hide ReasonCode, HexDigest, StateFacts;
  }

  /** Whatever the arguments, a committed transition of a sound row leaves a sound row. */
  lemma SettleKeepsRow(row: ActionRow, req: TransitionRequest)
    requires RowSound(row)
    requires Settle(row, req).Moved?
    ensures RowSound(Settle(row, req).row)
    ensures Settle(row, req).row.fixed == row.fixed
    ensures Settle(row, req).row.version == row.version + 1
  {
    hide Settle, RowChecks, StateFacts, EvidenceFacts;
    SettleKeepsState(row, req);
    SettleKeepsIdentity(row, req);
    SettleKeepsEvidence(row, req);
  }

  /** Three edges of the approved graph never commit from a sound row, whatever is asked. */
  lemma DeadEdges(row: ActionRow, req: TransitionRequest)
    requires RowSound(row)
    requires Settle(row, req).Moved?
    ensures Settle(row, req).row.state == ReadyToExecute ==>
              row.state in {AwaitingConfirmation, Executing, ReadyToExecute}
    ensures Settle(row, req).row.state == PolicyDenied ==> row.state == Proposed
  {
  }

  predicate Executable(state: ActionState) {
    state in {ReadyToExecute, Executing, Unresolved, Succeeded}
  }

  lemma ExecutableRowsHoldEveryGate(row: ActionRow)
    requires RowSound(row) && Executable(row.state)
    ensures GatesSatisfied(row)
    ensures row.customer
              == HumanDecision(Some(Granted), row.customer.actor, row.customer.at, Some(row.fixed.fingerprint))
    ensures row.approvalRequired ==> row.supervisor.verdict == Some(Granted) && row.supervisor.actor.Some?
    ensures !row.approvalRequired ==> row.supervisor == NO_DECISION
  {
  }

  /** What the refund evidence and the dispatched request read never changes once a row is executable. */
  lemma EvidenceIsFrozen(row: ActionRow, req: TransitionRequest)
    requires RowSound(row) && Executable(row.state)
    requires Settle(row, req).Moved?
    ensures var row' := Settle(row, req).row;
      && row'.fixed == row.fixed
      && row'.approvalRequired == row.approvalRequired
      && row'.customer == row.customer
      && row'.supervisor == row.supervisor
  {
  }
}
