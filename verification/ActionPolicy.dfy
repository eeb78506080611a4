/**
  The policy over a proposal and the current Commerce facts, and what becomes of its verdict
  when it is recorded on a row.
 */
module ActionPolicy {
  import opened Options
  import opened ActionModel
  import opened ActionLifecycle
  import opened ActionServices
  import opened ActionProtocol
  import opened ActionDecisions

  /** The Commerce facts the policy looks at. */
  datatype Snapshot = Snapshot(
    customer: Uuid, order: Option<Uuid>, current: bool, eligible: bool, processing: bool, labelCreated: bool)

  /** The caller: may it propose, and for which customer is it bound. */
  datatype Caller = Caller(mayPropose: bool, customer: Option<Uuid>)

  const REFUND_APPROVAL_CENTS := 50000

  function Deny(version: string, reason: string): PolicyDecision {
    PolicyOutcome(false, reason, false, false, version)
  }

  function Allow(version: string, approval: bool): PolicyDecision {
    PolicyOutcome(true, "allowed", true, approval, version)
  }

  function OrderOf(p: ActionProposal): Option<Uuid> {
    if p.TicketProposal? then p.ticketOrder else Some(p.order)
  }

  predicate Space(c: char) { c == ' ' || c == '\t' || c == '\n' || c == '\r' }

  predicate Blank(currency: Option<string>) {
    currency.None? || forall i | 0 <= i < |currency.value| :: Space(currency.value[i])
  }

  function NeedsApproval(p: ActionProposal, snapshot: Snapshot): bool {
    match p
    case CancelProposal(_) => snapshot.processing || snapshot.labelCreated
    case RefundProposal(_, amount, _) => amount > REFUND_APPROVAL_CENTS
    case _ => false
  }

  function Evaluate(caller: Caller, p: ActionProposal, snapshot: Snapshot, currency: Option<string>, version: string)
    : PolicyDecision
  {
    if !caller.mayPropose then Deny(version, "proposal_role_not_allowed")
    else if caller.customer.None? then Deny(version, "customer_binding_required")
    else if caller.customer.value != snapshot.customer then Deny(version, "customer_scope_mismatch")
    else if OrderOf(p).Some? && OrderOf(p) != snapshot.order then Deny(version, "proposal_resource_mismatch")
    else if !snapshot.current then Deny(version, "stale_snapshot")
    else if !snapshot.eligible then Deny(version, "commerce_ineligible")
    else if p.RefundProposal? && Blank(currency) then Deny(version, "canonical_currency_unavailable")
    else Allow(version, NeedsApproval(p, snapshot))
  }

  lemma CallerReasons()
    ensures ReasonCode("proposal_role_not_allowed") && ReasonCode("customer_binding_required")
  {
  }

  lemma ScopeReasons()
    ensures ReasonCode("customer_scope_mismatch") && ReasonCode("proposal_resource_mismatch")
  {
  }

  lemma FactReasons()
    ensures ReasonCode("stale_snapshot") && ReasonCode("commerce_ineligible")
  {
  }

  lemma CurrencyReasons()
    ensures ReasonCode("canonical_currency_unavailable") && ReasonCode("allowed")
  {
  }

  lemma ReasonsAreBounded(
    caller: Caller, p: ActionProposal, snapshot: Snapshot, currency: Option<string>, version: string)
    ensures ReasonCode(Evaluate(caller, p, snapshot, currency, version).reason)
  {
    hide ReasonCode;
    CallerReasons();
    ScopeReasons();
    FactReasons();
    CurrencyReasons();
  }

  // ---- What the policy asks ----

  /** The proposal is about the order whose facts were read; a ticket may be about none. */
  predicate AboutTheOrder(p: ActionProposal, snapshot: Snapshot) {
    match p
    case TicketProposal(order, _, _, _) => order.Some? ==> snapshot.order == order
    case _ => snapshot.order == Some(p.order)
  }

  predicate NamesACurrency(currency: Option<string>) {
    currency.Some? && exists i :: 0 <= i < |currency.value| && currency.value[i] !in {' ', '\t', '\n', '\r'}
  }

  /** A refund of more than 500.00, or the cancellation of an order that is being prepared or labelled. */
  predicate ForASupervisor(p: ActionProposal, snapshot: Snapshot) {
    || (p.RefundProposal? && p.amountCents > 50000)
    || (p.CancelProposal? && (snapshot.processing || snapshot.labelCreated))
  }

  /** The first of the policy's demands that is not met, by its reason code. */
  function FirstObjection(caller: Caller, p: ActionProposal, snapshot: Snapshot, currency: Option<string>): string {
    if !caller.mayPropose then "proposal_role_not_allowed"
    else if caller.customer == None then "customer_binding_required"
    else if caller.customer != Some(snapshot.customer) then "customer_scope_mismatch"
    else if !AboutTheOrder(p, snapshot) then "proposal_resource_mismatch"
    else if !snapshot.current then "stale_snapshot"
    else if !snapshot.eligible then "commerce_ineligible"
    else "canonical_currency_unavailable"
  }

  predicate InOrder(caller: Caller, p: ActionProposal, snapshot: Snapshot, currency: Option<string>) {
    && caller.mayPropose && caller.customer == Some(snapshot.customer)
    && AboutTheOrder(p, snapshot) && snapshot.current && snapshot.eligible
    && (p.RefundProposal? ==> NamesACurrency(currency))
  }

  lemma BlankNamesNone(currency: Option<string>)
    ensures Blank(currency) <==> !NamesACurrency(currency)
  {
  }

  lemma SameOrder(p: ActionProposal, snapshot: Snapshot)
    ensures AboutTheOrder(p, snapshot) <==> !(OrderOf(p).Some? && OrderOf(p) != snapshot.order)
  {
  }

  lemma PolicyVerdict(
    caller: Caller, p: ActionProposal, snapshot: Snapshot, currency: Option<string>, version: string)
    ensures var d := Evaluate(caller, p, snapshot, currency, version);
      && d.policyVersion == version
      && (d.allowed <==> InOrder(caller, p, snapshot, currency))
      && (d.confirmationRequired <==> d.allowed)
      && (d.approvalRequired <==> d.allowed && ForASupervisor(p, snapshot))
  {
    hide Blank, NamesACurrency, AboutTheOrder, OrderOf;
    BlankNamesNone(currency);
    SameOrder(p, snapshot);
  }

  lemma PolicyReason(
    caller: Caller, p: ActionProposal, snapshot: Snapshot, currency: Option<string>, version: string)
    ensures var d := Evaluate(caller, p, snapshot, currency, version);
      d.reason
        == if InOrder(caller, p, snapshot, currency) then "allowed" else FirstObjection(caller, p, snapshot, currency)
  {
    hide Blank, NamesACurrency, AboutTheOrder, OrderOf, NeedsApproval;
    BlankNamesNone(currency);
    SameOrder(p, snapshot);
  }

  /**
    The policy allows exactly a proposal by a caller who may propose, bound to the customer of
    the facts, about their order, on current and eligible facts, with a currency for a refund;
    it asks for a supervisor exactly as said above, and denies with the first unmet demand.
   */
  lemma PolicyAllowsExactly(
    caller: Caller, p: ActionProposal, snapshot: Snapshot, currency: Option<string>, version: string)
    ensures var d := Evaluate(caller, p, snapshot, currency, version);
      && d.policyVersion == version
      && (d.allowed <==> InOrder(caller, p, snapshot, currency))
      && (d.confirmationRequired <==> d.allowed)
      && (d.approvalRequired <==> d.allowed && ForASupervisor(p, snapshot))
      && d.reason == if d.allowed then "allowed" else FirstObjection(caller, p, snapshot, currency)
  {
    hide Evaluate, InOrder, FirstObjection;
    PolicyVerdict(caller, p, snapshot, currency, version);
    PolicyReason(caller, p, snapshot, currency, version);
  }

  /**
    What the policy decides about a fresh proposal is always recorded: no guard and no CHECK
    refuses it, and the row waits for a supervisor, for its customer or for nobody exactly as
    the proposal, the facts and the caller demand.
   */
  lemma EveryEvaluationIsRecorded(
    row: ActionRow, caller: Caller, snapshot: Snapshot, currency: Option<string>, version: string, principal: Uuid,
    now: Time)
    requires RowSound(row) && row.state == Proposed && now < row.fixed.expiresAt
    ensures var d := Evaluate(caller, row.fixed.proposal, snapshot, currency, version);
      var change := Transition(row, row.fixed.fingerprint, AsRequest(RecordPolicy(principal, d), now)).change;
      var allowed := InOrder(caller, row.fixed.proposal, snapshot, currency);
      && change.Written?
      && change.row.state == (if !allowed then PolicyDenied
                              else if ForASupervisor(row.fixed.proposal, snapshot) then AwaitingApproval
                              else AwaitingConfirmation)
      && change.row.policy.allowed == Some(allowed) && change.row.confirmationRequired == allowed
      && change.row.approvalRequired == (allowed && ForASupervisor(row.fixed.proposal, snapshot))
      && change.row.policy.reason
         == Some(if allowed then "allowed" else FirstObjection(caller, row.fixed.proposal, snapshot, currency))
  {
    hide ReasonCode, RowSound, Transition, Evaluate, InOrder, ForASupervisor, FirstObjection, AsRequest;
    var d := Evaluate(caller, row.fixed.proposal, snapshot, currency, version);
    ReasonsAreBounded(caller, row.fixed.proposal, snapshot, currency, version);
    PolicyAllowsExactly(caller, row.fixed.proposal, snapshot, currency, version);
    DecisionsCommitExactly(row, RecordPolicy(principal, d), now);
  }

  lemma LiveDenialIsRefused(row: ActionRow, d: PolicyDecision, now: Time)
    requires RowSound(row) && row.state == ReadyToExecute && now < row.fixed.expiresAt
    requires !d.allowed && ReasonCode(d.reason)
    ensures Transition(row, row.fixed.fingerprint, AsRequest(DenyReady(d), now)) == Refuse(IntegrityViolation)
  {
    hide ReasonCode, HexDigest;
  }

  /**
    The executor's denial of a ready action never commits, whatever the verdict says. On a live
    row the confirmation CHECK refuses it, the row stays ready and the call ends in an integrity
    error; a row that has lapsed expires instead, and the call ends in an expiry.
   */
  lemma ExecutorDenialNeverCommits(row: ActionRow, d: PolicyDecision, now: Time)
    requires RowSound(row) && row.state == ReadyToExecute
    requires !d.allowed && ReasonCode(d.reason)
    ensures var service := Transition(row, row.fixed.fingerprint, AsRequest(DenyReady(d), now));
      if now < row.fixed.expiresAt then service == Refuse(IntegrityViolation)
      else
        && service.reply == Raised(ActionExpired)
        && service.change.Written? && service.change.row.state == Expired && service.change.event.kind == ExpiredEvent
  {
    hide Transition, AsRequest, RowSound, ReasonCode;
    if now < row.fixed.expiresAt {
      LiveDenialIsRefused(row, d, now);
    } else {
      DecisionsCommitExactly(row, DenyReady(d), now);
    }
  }
}
