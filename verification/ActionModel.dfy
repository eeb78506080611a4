/**
  The values of the durable action lifecycle: states, audit events, proposals and the
  columns of one action-request row, with the table's CHECK constraints as predicates.
 */
module ActionModel {
  import opened Options

  type Uuid = nat
  type Time = int
  type Fingerprint = string

  datatype ActionState =
    | Proposed | PolicyDenied | AwaitingApproval | AwaitingConfirmation | ReadyToExecute
    | Executing | Succeeded | Rejected | Failed | Unresolved | Expired

  datatype EventType =
    | CreatedEvent | PolicyAllowedEvent | PolicyDeniedEvent
    | CustomerConfirmed | CustomerRejected | SupervisorApproved | SupervisorRejected
    | ExecutionStarted | CommerceResponse | VerificationSucceeded | VerificationFailed
    | UnresolvedEvent | ExpiredEvent | StateTransition

  datatype ActionType = CancelOrder | RescheduleDelivery | InitiateReturn | CreateSupportTicket | RequestRefund

  /** One line of a return proposal. */
  datatype ReturnItem = ReturnItem(orderItem: Uuid, quantity: int)

  /** The validated proposal; money is integer cents. */
  datatype ActionProposal =
    | CancelProposal(order: Uuid)
    | RescheduleProposal(order: Uuid, slot: Uuid)
    | ReturnProposal(order: Uuid, items: seq<ReturnItem>, reason: string)
    | TicketProposal(ticketOrder: Option<Uuid>, category: string, subject: string, description: string)
    | RefundProposal(order: Uuid, amountCents: int, reason: string)
  {
    function Kind(): ActionType {
      match this
      case CancelProposal(_) => CancelOrder
      case RescheduleProposal(_, _) => RescheduleDelivery
      case ReturnProposal(_, _, _) => InitiateReturn
      case TicketProposal(_, _, _, _) => CreateSupportTicket
      case RefundProposal(_, _, _) => RequestRefund
    }

    /** The business resources the proposal is about, which scope supersession. */
    function Targets(): seq<Uuid> {
      match this
      case TicketProposal(order, _, _, _) => if order.Some? then [order.value] else []
      case _ => [this.order]
    }
  }

  datatype Verdict = Granted | Refused

  /** The four nullable columns that hold one human decision. */
  datatype HumanDecision = HumanDecision(
    verdict: Option<Verdict>,
    actor: Option<Uuid>,
    at: Option<Time>,
    fingerprint: Option<Fingerprint>)

  const NO_DECISION := HumanDecision(None, None, None, None)

  /** The four nullable columns that hold the policy decision. */
  datatype PolicyColumns = PolicyColumns(
    allowed: Option<bool>,
    reason: Option<string>,
    version: Option<string>,
    observedAt: Option<Time>)

  const NO_POLICY := PolicyColumns(None, None, None, None)

  /** The columns no lifecycle mutation ever writes. */
  datatype ActionIdentity = ActionIdentity(
    id: Uuid,
    tenant: Uuid,
    customer: Uuid,
    principal: Uuid,
    conversation: Uuid,
    agentRun: Uuid,
    origin: Uuid,
    proposal: ActionProposal,
    schemaVersion: string,
    fingerprint: Fingerprint,
    idempotencyKey: Uuid,
    expiresAt: Time,
    createdAt: Time)

  /** The bounded allowlist for verification_status, and any other text. */
  datatype VerificationStatus = Verified | Mismatched | Unavailable | OtherText(text: string)

  datatype CommerceColumns = CommerceColumns(
    statusCode: Option<int>,
    errorCode: Option<string>,
    resource: Option<Uuid>)

  const NO_COMMERCE := CommerceColumns(None, None, None)

  /** One action_requests row. */
  datatype ActionRow = ActionRow(
    fixed: ActionIdentity,
    state: ActionState,
    policy: PolicyColumns,
    confirmationRequired: bool,
    approvalRequired: bool,
    customer: HumanDecision,
    supervisor: HumanDecision,
    attempts: nat,
    leaseOwner: Option<Uuid>,
    leaseExpiresAt: Option<Time>,
    commerce: CommerceColumns,
    verification: Option<VerificationStatus>,
    verifiedResource: Option<Uuid>,
    verifiedAt: Option<Time>,
    version: nat,
    updatedAt: Time)

  /** One action_events row; the action it belongs to is the log that holds it. */
  datatype ActionEvent = ActionEvent(
    sequence: nat,
    kind: EventType,
    actor: Option<Uuid>,
    previous: Option<ActionState>,
    next: ActionState,
    fingerprint: Fingerprint,
    correlation: Option<Uuid>,
    reason: Option<string>)

  /** The validated policy outcome: denied proposals carry no gates, approval implies confirmation. */
  type PolicyDecision = d: PolicyOutcome | d.Consistent() witness PolicyOutcome(false, "denied", false, false, "v1")

  datatype PolicyOutcome = PolicyOutcome(
    allowed: bool,
    reason: string,
    confirmationRequired: bool,
    approvalRequired: bool,
    policyVersion: string)
  {
    predicate Consistent() {
      && (!allowed ==> !confirmationRequired && !approvalRequired)
      && (approvalRequired ==> confirmationRequired)
    }
  }

  predicate Undispatched(state: ActionState) {
    state in {Proposed, AwaitingApproval, AwaitingConfirmation, ReadyToExecute}
  }

  predicate Active(state: ActionState) {
    Undispatched(state) || state == Executing || state == Unresolved
  }

  predicate LowerAlpha(c: char) { 'a' <= c <= 'z' }

  predicate Digit(c: char) { '0' <= c <= '9' }

  /** The bounded reason code: a lower-case letter, then at most 127 of a-z, 0-9, '_', '.', '-'. */
  predicate ReasonCode(s: string) {
    && 1 <= |s| <= 128
    && LowerAlpha(s[0])
    && forall i | 0 <= i < |s| :: ReasonChar(s[i])
  }

  predicate ReasonChar(c: char) {
    LowerAlpha(c) || Digit(c) || c == '_' || c == '.' || c == '-'
  }

  /**
    Which texts are reason codes, letter by letter: one lower-case letter is one, and a longer
    text is one exactly when it adds a letter, a digit, '_', '.' or '-' to one of at most 127.
   */
  lemma ReasonCodesGrow(s: string, c: char)
    ensures !ReasonCode("")
    ensures ReasonCode([c]) <==> 'a' <= c <= 'z'
    ensures s != [] ==>
              (ReasonCode(s + [c])
               <==> ReasonCode(s) && |s| <= 127 && ('a' <= c <= 'z' || '0' <= c <= '9' || c in {'_', '.', '-'}))
  {
    var t := s + [c];
    assert forall i | 0 <= i < |s| :: t[i] == s[i];
    assert t[|s|] == c;
  }

  /** Lower-case SHA-256 hex. */
  predicate HexDigest(s: string) {
    |s| == 64 && forall i | 0 <= i < |s| :: Digit(s[i]) || 'a' <= s[i] <= 'f'
  }

  // ---- CHECK constraints of action_requests ----

  predicate PolicyConsistent(row: ActionRow) {
    var p := row.policy;
    || p == NO_POLICY
    || (p.allowed.Some? && p.reason.Some? && p.version.Some? && p.observedAt.Some?)
  }

  predicate DecisionConsistent(d: HumanDecision, required: bool, fingerprint: Fingerprint) {
    || d == NO_DECISION
    || (required && d.verdict.Some? && d.actor.Some? && d.at.Some? && d.fingerprint == Some(fingerprint))
  }

  predicate VerificationAllowed(status: Option<VerificationStatus>) {
    status.Some? ==> !status.value.OtherText?
  }

  predicate RowChecks(row: ActionRow) {
    && HexDigest(row.fixed.fingerprint)
    && row.version > 0
    && row.fixed.createdAt < row.fixed.expiresAt
    && PolicyConsistent(row)
    && DecisionConsistent(row.customer, row.confirmationRequired, row.fixed.fingerprint)
    && DecisionConsistent(row.supervisor, row.approvalRequired, row.fixed.fingerprint)
    && VerificationAllowed(row.verification)
  }
}
