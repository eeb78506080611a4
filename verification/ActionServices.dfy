/**
  The service mutators over one locked row: what each of them asks of the row mutator and
  what it answers. Looking the row up and storing the change is the store's part.
 */
module ActionServices {
  import opened Options
  import opened ActionModel
  import opened ActionLifecycle

  /** What a transaction leaves behind for one row. */
  datatype Change = Kept | Written(row: ActionRow, event: ActionEvent)

  datatype Reply =
    | Answered(row: ActionRow)
    | Claimed(row: ActionRow, owner: Uuid)
    | NotClaimed(row: ActionRow)
    | Created(row: ActionRow)
    | Raised(error: ActionError)

  datatype Service = Service(change: Change, reply: Reply)

  function Refuse(error: ActionError): Service {
    Service(Kept, Raised(error))
  }

  predicate LeaseLength(seconds: int) {
    1 <= seconds <= 600
  }

  /** The service result that simply reports the mutator's decision. */
  function Report(row: ActionRow, d: Decision): Service {
    match d
    case AlreadyExpired => Service(Kept, Answered(row))
    case Declined(error) => Refuse(error)
    case Moved(row', event, _) => Service(Written(row', event), Answered(row'))
  }

  function ClaimExecution(
    row: ActionRow, expected: Fingerprint, owner: Uuid, claimedAt: Time, seconds: int, now: Time): Service
  {
    if row.fixed.fingerprint != expected then Refuse(FingerprintMismatch)
    else if row.state != ReadyToExecute || !GatesSatisfied(row) then Service(Kept, NotClaimed(row))
    else
      var lease := Lease(owner, claimedAt + seconds);
      match Settle(row, Plain(Executing, None, ExecutionStarted, None, now).(executionLease := Some(lease)))
      case AlreadyExpired => Service(Kept, NotClaimed(row))
      case Declined(error) => Refuse(error)
      case Moved(row', event, lapsed) =>
        Service(Written(row', event),
                if !lapsed && row'.state == Executing then Claimed(row', owner) else NotClaimed(row'))
  }

  predicate LeaseRunOut(row: ActionRow, now: Time) {
    row.leaseOwner.Some? && row.leaseExpiresAt.Some? && row.leaseExpiresAt.value <= now
  }

  predicate LeaseHeld(row: ActionRow, now: Time) {
    row.leaseOwner.Some? && row.leaseExpiresAt.Some? && row.leaseExpiresAt.value > now
  }

  function RecoverExpiredExecution(row: ActionRow, expected: Fingerprint, now: Time): Service {
    if row.fixed.fingerprint != expected then Refuse(FingerprintMismatch)
    else if row.state == Executing && LeaseRunOut(row, now) then
      Report(row, Settle(row,
        Plain(Unresolved, None, UnresolvedEvent, Some("execution_lease_expired"), now).(clearLease := true)))
    else Service(Kept, Answered(row))
  }

  /** The arguments with which a worker settles the lease it holds. */
  datatype Outcome = Outcome(
    target: ActionState,
    kind: EventType,
    reason: Option<string>,
    commerce: CommerceColumns,
    verifiedResource: Option<Uuid>,
    verification: Option<VerificationStatus>)

  function Settlement(o: Outcome, now: Time): TransitionRequest {
    Plain(o.target, None, o.kind, o.reason, now).(
      verifiedResource := o.verifiedResource, clearLease := true,
      outcome := Some(o.commerce), verification := o.verification)
  }

  /** Settles the lease held in `under`: executing for an execution, unresolved for a reconciliation. */
  function RecordOutcome(
    row: ActionRow, under: ActionState, expected: Fingerprint, owner: Uuid, o: Outcome, now: Time): Service
  {
    if row.fixed.fingerprint != expected then Refuse(FingerprintMismatch)
    else if row.state != under || row.leaseOwner != Some(owner) then Refuse(ConcurrentUpdate)
    else Report(row, Settle(row, Settlement(o, now)))
  }

  function RecordCommerceResponse(
    row: ActionRow, expected: Fingerprint, owner: Uuid, status: int, resource: Option<Uuid>, now: Time): Service
  {
    if row.fixed.fingerprint != expected then Refuse(FingerprintMismatch)
    else if row.state != Executing || row.leaseOwner != Some(owner) then Refuse(ConcurrentUpdate)
    else
      Report(row, Settle(row,
        Plain(Executing, None, CommerceResponse, Some("write_response_received"), now).(
          outcome := Some(CommerceColumns(Some(status), None, resource)))))
  }

  function ClaimReconciliation(row: ActionRow, expected: Fingerprint, owner: Uuid, seconds: int, now: Time): Service {
    if row.fixed.fingerprint != expected then Refuse(FingerprintMismatch)
    else if row.state != Unresolved || LeaseHeld(row, now) then Service(Kept, NotClaimed(row))
    else
      match Settle(row,
        Plain(Unresolved, None, UnresolvedEvent, Some("reconciliation_claimed"), now).(
          reconciliationLease := Some(Lease(owner, now + seconds))))
      case AlreadyExpired => Service(Kept, NotClaimed(row))
      case Declined(error) => Refuse(error)
      case Moved(row', event, _) => Service(Written(row', event), Claimed(row', owner))
  }

  /** The general entry point: any target, event, actor, reason, policy and evidence. */
  function Transition(row: ActionRow, expected: Fingerprint, req: TransitionRequest): Service {
    if row.fixed.fingerprint != expected then Refuse(FingerprintMismatch)
    else
      match Settle(row, req)
      case AlreadyExpired => Refuse(ActionExpired)
      case Declined(error) => Refuse(error)
      case Moved(row', event, lapsed) =>
        Service(Written(row', event), if lapsed then Raised(ActionExpired) else Answered(row'))
  }

  /** The arguments `transition` exposes; leases and Commerce columns are not among them. */
  predicate Exposed(req: TransitionRequest) {
    && req.executionLease.None? && req.reconciliationLease.None? && !req.clearLease
    && req.outcome.None? && req.verification.None?
  }

  function Supersession(principal: Uuid, now: Time): TransitionRequest {
    Plain(Expired, Some(principal), ExpiredEvent, Some("superseded"), now)
  }
}
