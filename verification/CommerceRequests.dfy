/**
  The client side of a write: how executor and reconciler build the request from the durable
  record, and how an answer is classified.
 */
module CommerceRequests {
  import opened Options
  import opened ActionModel
  import opened ActionLifecycle
  import opened IdempotentWrites

  datatype Built = Call(call: WriteCall) | InvalidRequest | InvalidEvidence

  /** The body limits of the typed request models; text fields are already stripped. */
  predicate ValidReturn(p: ActionProposal)
    requires p.ReturnProposal?
  {
    && 1 <= |p.reason| <= 500
    && 1 <= |p.items| <= 50
    && (forall i | 0 <= i < |p.items| :: 0 < p.items[i].quantity <= 99)
    && (forall i, j | 0 <= i < j < |p.items| :: p.items[i].orderItem != p.items[j].orderItem)
  }

  predicate ValidTicket(p: ActionProposal)
    requires p.TicketProposal?
  {
    1 <= |p.subject| <= 300 && 1 <= |p.description| <= 5000
  }

  predicate ValidRefund(p: ActionProposal)
    requires p.RefundProposal?
  {
    p.amountCents > 0 && 1 <= |p.reason| <= 500
  }

  function Keyed(row: ActionRow, operation: Operation, targets: seq<Uuid>, body: WriteBody): Built {
    Call(WriteCall(row.fixed.idempotencyKey, Envelope(operation, row.fixed.customer, targets, body)))
  }

  datatype ApprovalEvidence = Reference(reference: Option<ApprovalReference>) | InvalidApproval

  /** The supervisor evidence of a refund, taken from the durable approval columns alone. */
  function RefundEvidence(row: ActionRow): ApprovalEvidence {
    if !row.approvalRequired then Reference(None)
    else if row.supervisor.verdict != Some(Granted) || row.supervisor.actor.None?
         || row.supervisor.fingerprint != Some(row.fixed.fingerprint)
    then InvalidApproval
    else Reference(Some(ApprovalReference(row.fixed.id, row.fixed.fingerprint)))
  }

  function Listed(order: Option<Uuid>): seq<Uuid> {
    if order.Some? then [order.value] else []
  }

  /** The executor's five dispatchers; a refund reads its evidence before its amount and reason. */
  function ExecutorRequest(row: ActionRow): Built {
    match row.fixed.proposal
    case CancelProposal(order) => Keyed(row, CancelOperation, [order], NoBody)
    case RescheduleProposal(order, slot) => Keyed(row, RescheduleOperation, [order, slot], SlotBody(slot))
    case ReturnProposal(order, items, reason) =>
      if !ValidReturn(row.fixed.proposal) then InvalidRequest
      else Keyed(row, ReturnOperation, [order], ReturnBody(order, reason, items))
    case TicketProposal(order, category, subject, description) =>
      if !ValidTicket(row.fixed.proposal) then InvalidRequest
      else Keyed(row, TicketOperation, Listed(order), TicketBody(order, category, subject, description))
    case RefundProposal(order, amount, reason) =>
      match RefundEvidence(row)
      case InvalidApproval => InvalidEvidence
      case Reference(approval) =>
        if !ValidRefund(row.fixed.proposal) then InvalidRequest
        else Keyed(row, RefundOperation, [order], RefundBody(amount, reason, approval))
  }

  /** The reconciler's replay; a refund validates its amount and reason before its evidence. */
  function ReconcilerRequest(row: ActionRow): Built {
    var p := row.fixed.proposal;
    if p.CancelProposal? then Keyed(row, CancelOperation, [p.order], NoBody)
    else if p.RescheduleProposal? then Keyed(row, RescheduleOperation, [p.order, p.slot], SlotBody(p.slot))
    else if p.ReturnProposal? then
      if !ValidReturn(p) then InvalidRequest
      else Keyed(row, ReturnOperation, [p.order], ReturnBody(p.order, p.reason, p.items))
    else if p.TicketProposal? then
      if !ValidTicket(p) then InvalidRequest
      else
        Keyed(row, TicketOperation, Listed(p.ticketOrder),
              TicketBody(p.ticketOrder, p.category, p.subject, p.description))
    else if !ValidRefund(p) then InvalidRequest
    else
      match RefundEvidence(row)
      case InvalidApproval => InvalidEvidence
      case Reference(approval) =>
        Keyed(row, RefundOperation, [p.order], RefundBody(p.amountCents, p.reason, approval))
  }

  /** The columns a request is built from. */
  predicate SameEvidence(a: ActionRow, b: ActionRow) {
    a.fixed == b.fixed && a.approvalRequired == b.approvalRequired && a.supervisor == b.supervisor
  }

  /**
    Executor and reconciler build one and the same request from any two snapshots of a row
    whose gates hold, and never miss the approval evidence.
   */
  lemma RequestsAreIdentical(a: ActionRow, b: ActionRow)
    requires GatesSatisfied(a) && SameEvidence(a, b)
    ensures ExecutorRequest(a) == ReconcilerRequest(b)
    ensures !ExecutorRequest(a).InvalidEvidence?
  {
  }

  lemma RequestsCarryTheKey(row: ActionRow)
    ensures ExecutorRequest(row).Call? ==> ExecutorRequest(row).call.key == row.fixed.idempotencyKey
  {
  }

  // ---- What a request says ----

  /**
    The evidence of a refund, on any row at all: none where no approval was required, this row's
    own where a supervisor granted it on the row's fingerprint, and invalid otherwise.
   */
  lemma EvidenceIsTheApproval(row: ActionRow)
    ensures RefundEvidence(row) == Reference(None) <==> !row.approvalRequired
    ensures RefundEvidence(row).InvalidApproval? <==>
              && row.approvalRequired
              && !(exists who :: row.supervisor == HumanDecision(Some(Granted), Some(who), row.supervisor.at,
                                                                 Some(row.fixed.fingerprint)))
    ensures RefundEvidence(row).Reference? && row.approvalRequired ==>
              RefundEvidence(row).reference == Some(ApprovalReference(row.fixed.id, row.fixed.fingerprint))
  {
    if row.supervisor.actor.Some? {
      var who := row.supervisor.actor.value;
      assert row.supervisor == HumanDecision(row.supervisor.verdict, Some(who), row.supervisor.at,
                                             row.supervisor.fingerprint);
    }
  }

  /** A proposal that the typed request models take. */
  predicate Expressible(p: ActionProposal) {
    match p
    case ReturnProposal(_, items, reason) =>
      && 1 <= |reason| <= 500 && 1 <= |items| <= 50
      && (forall i | 0 <= i < |items| :: 1 <= items[i].quantity <= 99)
      && (forall i, j | 0 <= i < |items| && 0 <= j < |items| && items[i].orderItem == items[j].orderItem :: i == j)
    case TicketProposal(_, _, subject, description) => 1 <= |subject| <= 300 && 1 <= |description| <= 5000
    case RefundProposal(_, amount, reason) => amount >= 1 && 1 <= |reason| <= 500
    case _ => true
  }

  /** The call is this proposal's: its operation, its resources and, field by field, its body. */
  predicate Says(e: Envelope, p: ActionProposal) {
    match p
    case CancelProposal(order) => e.operation == CancelOperation && e.targets == [order] && e.body == NoBody
    case RescheduleProposal(order, slot) =>
      e.operation == RescheduleOperation && e.targets == [order, slot] && e.body.SlotBody? && e.body.slot == slot
    case ReturnProposal(order, items, reason) =>
      && e.operation == ReturnOperation && e.targets == [order]
      && e.body.ReturnBody? && e.body.order == order && e.body.reason == reason && e.body.items == items
    case TicketProposal(order, category, subject, description) =>
      && e.operation == TicketOperation
      && |e.targets| == (if order.Some? then 1 else 0) && (order.Some? ==> e.targets[0] == order.value)
      && e.body.TicketBody? && e.body.ticketOrder == order
      && e.body.category == category && e.body.subject == subject && e.body.description == description
    case RefundProposal(order, amount, reason) =>
      && e.operation == RefundOperation && e.targets == [order]
      && e.body.RefundBody? && e.body.amountCents == amount && e.body.refundReason == reason
  }

  /** A refund names its approval exactly when the row needed one, and then this action's. */
  predicate NamesItsApproval(row: ActionRow, e: Envelope) {
    e.body.RefundBody? ==>
      && (e.body.approval.Some? <==> row.approvalRequired)
      && (e.body.approval.Some? ==>
            e.body.approval.value.action == row.fixed.id && e.body.approval.value.fingerprint == row.fixed.fingerprint)
  }

  /**
    Once the gates hold, a request is built exactly for an expressible proposal, and it carries
    the row's key and customer, the proposal and, for an approved refund, the approval.
   */
  lemma RequestsSayTheProposal(row: ActionRow)
    requires GatesSatisfied(row)
    ensures ExecutorRequest(row).Call? <==> Expressible(row.fixed.proposal)
    ensures ReconcilerRequest(row) == ExecutorRequest(row)
    ensures ExecutorRequest(row).Call? ==>
              var call := ExecutorRequest(row).call;
              && call.key == row.fixed.idempotencyKey && call.envelope.customer == row.fixed.customer
              && Says(call.envelope, row.fixed.proposal) && NamesItsApproval(row, call.envelope)
  {
    RequestsAreIdentical(row, row);
  }

  lemma SayingTellsTheProposal(e: Envelope, p: ActionProposal, q: ActionProposal)
    requires Says(e, p) && Says(e, q)
    ensures p == q
  {
  }

  /** Two gated rows with one envelope are about one customer and one proposal, under the same approval if any. */
  lemma EnvelopesTellTheAction(a: ActionRow, b: ActionRow)
    requires GatesSatisfied(a) && GatesSatisfied(b)
    requires ExecutorRequest(a).Call? && ExecutorRequest(b).Call?
    requires ExecutorRequest(a).call.envelope == ExecutorRequest(b).call.envelope
    ensures a.fixed.customer == b.fixed.customer && a.fixed.proposal == b.fixed.proposal
    ensures a.fixed.proposal.RefundProposal? ==>
              && a.approvalRequired == b.approvalRequired
              && (a.approvalRequired ==> a.fixed.id == b.fixed.id && a.fixed.fingerprint == b.fixed.fingerprint)
  {
    hide ExecutorRequest, ReconcilerRequest, GatesSatisfied, Expressible;
    RequestsSayTheProposal(a);
    RequestsSayTheProposal(b);
    SayingTellsTheProposal(ExecutorRequest(a).call.envelope, a.fixed.proposal, b.fixed.proposal);
  }

  // ---- Classification of what came back ----

  datatype WriteResult =
    | Accepted(httpStatus: int)
    | RejectedWrite(status: Option<int>, code: Option<string>)
    | Ambiguous(status: Option<int>, code: Option<string>)

  function StatusOf(reply: ServerReply): int {
    match reply
    case Executed(o, _) => o.status
    case ApiError(status, _) => status
  }

  function BoundedStatus(status: int): Option<int> {
    if 100 <= status <= 599 then Some(status) else None
  }

  function BoundedCode(code: Option<string>): Option<string> {
    if code.Some? && ReasonCode(code.value) then code else None
  }

  /** `code` is the error code found in the body, if any; `parses` says the body is the typed response. */
  function Classify(status: int, code: Option<string>, parses: bool): WriteResult {
    if status == 503 && code == Some("write_outcome_unknown") then Ambiguous(BoundedStatus(status), BoundedCode(code))
    else if 400 <= status < 500 && status != 408 && status != 429
    then RejectedWrite(BoundedStatus(status), BoundedCode(code))
    else if !Success(status) then Ambiguous(BoundedStatus(status), BoundedCode(code))
    else if !parses then Ambiguous(BoundedStatus(status), None)
    else Accepted(status)
  }

  /**
    Which answers count as what: a definite rejection is a 4xx but 408 and 429, an acceptance a
    2xx whose body parses, and everything else, each 5xx and 3xx included, leaves it open. A
    status outside 100 to 599 and an unbounded code are dropped.
   */
  lemma AnswersClassifyExactly(status: int, code: Option<string>, parses: bool)
    ensures var result := Classify(status, code, parses);
      && (result.RejectedWrite? <==> 400 <= status <= 499 && status != 408 && status != 429)
      && (result.Accepted? <==> 200 <= status <= 299 && parses)
      && (result.Accepted? ==> result.httpStatus == status)
      && (!result.Accepted? ==>
            && result.status == (if status < 100 || status > 599 then None else Some(status))
            && (result.code.Some? ==> result.code == code && ReasonCode(code.value))
            && (result.code.None? ==>
                  code.None? || !ReasonCode(code.value) || (200 <= status <= 299 && !parses)))
  {
  }
}
