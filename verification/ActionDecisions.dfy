/**
  Which decisions go through: for every call of a decision service on every sound row, whether
  it commits, the whole row and audit event it leaves, and the error it raises otherwise.
 */
module ActionDecisions {
  import opened Options
  import opened ActionModel
  import opened ActionLifecycle
  import opened ActionServices
  import opened ActionProtocol

  /** The states from which each call is accepted. */
  predicate Acceptable(row: ActionRow, call: ServiceCall) {
    match call
    case RecordPolicy(_, d) => row.state == Proposed && ReasonCode(d.reason) && (d.allowed ==> d.confirmationRequired)
    case Approve(_, _) => row.state == AwaitingApproval
    case RejectApproval(_, _) => row.state == AwaitingApproval
    case Confirm(_, _) => row.state == AwaitingConfirmation
    case Withdraw(_) => row.state == AwaitingConfirmation || row.state == AwaitingApproval
    case ExpireStale => row.state in {Proposed, AwaitingApproval, AwaitingConfirmation, ReadyToExecute}
    case Supersede(_) => row.state in {Proposed, AwaitingApproval, AwaitingConfirmation, ReadyToExecute}
    case DenyReady(d) => row.state == Proposed && !d.allowed && ReasonCode(d.reason)
  }

  /** A decision by this person now, on the row's own fingerprint. */
  function DecisionBy(row: ActionRow, verdict: Verdict, person: Uuid, now: Time): HumanDecision {
    HumanDecision(Some(verdict), Some(person), Some(now), Some(row.fixed.fingerprint))
  }

  /** The row as the policy leaves it: its verdict, its gates and the state that waits for them. */
  function RowAfterPolicy(row: ActionRow, d: PolicyDecision, now: Time): ActionRow {
    row.(
      state := if !d.allowed then PolicyDenied
               else if d.approvalRequired then AwaitingApproval
               else AwaitingConfirmation,
      policy := PolicyColumns(Some(d.allowed), Some(d.reason), Some(d.policyVersion), Some(now)),
      confirmationRequired := d.confirmationRequired,
      approvalRequired := d.approvalRequired)
  }

  /** The columns an accepted call writes. */
  function RowAfter(row: ActionRow, call: ServiceCall, now: Time): ActionRow {
    match call
    case RecordPolicy(_, d) => RowAfterPolicy(row, d, now)
    case Approve(p, _) => row.(state := AwaitingConfirmation, supervisor := DecisionBy(row, Granted, p, now))
    case RejectApproval(p, _) => row.(state := Rejected, supervisor := DecisionBy(row, Refused, p, now))
    case Confirm(p, _) => row.(state := ReadyToExecute, customer := DecisionBy(row, Granted, p, now))
    case Withdraw(p) => row.(state := Rejected, customer := DecisionBy(row, Refused, p, now))
    case ExpireStale => row.(state := Expired)
    case Supersede(_) => row.(state := Expired)
    case DenyReady(d) => RowAfterPolicy(row, d, now)
  }

  /** Who asked for what, and why, as the audit log tells it. */
  datatype Entry = Entry(kind: EventType, actor: Option<Uuid>, reason: Option<string>)

  function EntryFor(call: ServiceCall): Entry {
    match call
    case RecordPolicy(p, d) =>
      Entry(if d.allowed then PolicyAllowedEvent else PolicyDeniedEvent, Some(p), Some(d.reason))
    case Approve(p, _) => Entry(SupervisorApproved, Some(p), Some("supervisor_approved"))
    case RejectApproval(p, _) => Entry(SupervisorRejected, Some(p), Some("supervisor_rejected"))
    case Confirm(p, _) => Entry(CustomerConfirmed, Some(p), None)
    case Withdraw(p) => Entry(CustomerRejected, Some(p), None)
    case ExpireStale => Entry(ExpiredEvent, None, Some("stale"))
    case Supersede(p) => Entry(ExpiredEvent, Some(p), Some("superseded"))
    case DenyReady(d) => Entry(PolicyDeniedEvent, None, Some(d.reason))
  }

  /** These columns, one version on, with the one event that tells of it. */
  function Committed(row: ActionRow, after: ActionRow, entry: Entry, now: Time): Change {
    Written(after.(version := row.version + 1, updatedAt := now),
            ActionEvent(row.version + 1, entry.kind, entry.actor, Some(row.state), after.state,
                        row.fixed.fingerprint, None, entry.reason))
  }

  /** The expiry of a lapsed row, on whatever this person asked. */
  function Expires(row: ActionRow, actor: Option<Uuid>, now: Time): Change {
    Committed(row, row.(state := Expired), Entry(ExpiredEvent, actor, Some("expired")), now)
  }

  predicate Live(row: ActionRow, now: Time) {
    row.state in {Proposed, AwaitingApproval, AwaitingConfirmation, ReadyToExecute} ==> now < row.fixed.expiresAt
  }

  /** The error of a decision or expiry that is not accepted. */
  function RefusalOf(row: ActionRow, call: ServiceCall): ActionError {
    if row.state == Expired then ActionExpired
    else if row.state == Proposed && (call.Approve? || call.Confirm?) then PolicyDecisionRequired
    else InvalidTransition
  }

  lemma GivenReasons()
    ensures ReasonCode("supervisor_approved") && ReasonCode("supervisor_rejected")
    ensures ReasonCode("stale") && ReasonCode("superseded")
  {
    assert ReasonCode("supervisor_approved");
    assert ReasonCode("supervisor_rejected");
  }

  lemma ExpiryReason()
    ensures ReasonCode("expired")
  {
  }

  /** The CHECKs of the decision, policy and verification columns do not look at the state. */
  lemma StateIsUnchecked(row: ActionRow, state: ActionState, now: Time)
    requires RowChecks(row)
    ensures RowChecks(row.(state := state, version := row.version + 1, updatedAt := now))
  {
  }

  lemma SoundRowsAreChecked(row: ActionRow)
    requires RowSound(row)
    ensures RowChecks(row)
  {
  }

  /** A request no guard and no CHECK refuses leaves the row it applies to and one event. */
  lemma Passes(row: ActionRow, req: TransitionRequest, after: ActionRow)
    requires row.state != Expired && !Lapsed(row, req.now) && FirstRefusal(row, req).None?
    requires Applied(row, req) == after && RowChecks(after)
    ensures Transition(row, row.fixed.fingerprint, req)
         == Service(Written(after, AuditEntry(row, req)), Answered(after))
  {
    hide FirstRefusal, Applied, AuditEntry, RowChecks;
  }

  lemma Stops(row: ActionRow, req: TransitionRequest, error: ActionError)
    requires row.state != Expired && !Lapsed(row, req.now) && FirstRefusal(row, req) == Some(error)
    ensures Transition(row, row.fixed.fingerprint, req) == Refuse(error)
  {
    hide FirstRefusal, Applied, AuditEntry, RowChecks;
  }

  lemma ExpiryIsUnopposed(row: ActionRow, call: ServiceCall, now: Time)
    requires RowSound(row) && Acceptable(row, call) && (call.ExpireStale? || call.Supersede?)
    ensures FirstRefusal(row, AsRequest(call, now)).None?
  {
    hide ReasonCode, RowSound, GatesSatisfied;
    GivenReasons();
  }

  lemma ExpiryOnlyExpires(row: ActionRow, call: ServiceCall, now: Time)
    requires Acceptable(row, call) && (call.ExpireStale? || call.Supersede?)
    ensures Applied(row, AsRequest(call, now))
         == row.(state := Expired, version := row.version + 1, updatedAt := now)
  {
    hide ReasonCode;
  }

  lemma SupervisorsDecide(row: ActionRow, call: ServiceCall, now: Time)
    requires RowSound(row) && Live(row, now) && Acceptable(row, call) && (call.Approve? || call.RejectApproval?)
    ensures Answers(row, call, now)
  {
    hide ReasonCode, HexDigest;
    GivenReasons();
  }

  lemma CustomersAreUnopposed(row: ActionRow, call: ServiceCall, now: Time)
    requires RowSound(row) && Acceptable(row, call) && (call.Confirm? || call.Withdraw?)
    ensures FirstRefusal(row, AsRequest(call, now)).None?
  {
    hide ReasonCode, RowChecks;
  }

  lemma CustomersDecideOnly(row: ActionRow, call: ServiceCall, now: Time)
    requires RowSound(row) && Acceptable(row, call) && (call.Confirm? || call.Withdraw?)
    ensures var after := RowAfter(row, call, now).(version := row.version + 1, updatedAt := now);
      Applied(row, AsRequest(call, now)) == after && RowChecks(after)
  {
    hide ReasonCode, HexDigest;
  }

  lemma CustomersDecide(row: ActionRow, call: ServiceCall, now: Time)
    requires RowSound(row) && Live(row, now) && Acceptable(row, call) && (call.Confirm? || call.Withdraw?)
    ensures Answers(row, call, now)
  {
    hide FirstRefusal, Applied, RowChecks, Transition, ReasonCode, RowSound;
    CustomersAreUnopposed(row, call, now);
    CustomersDecideOnly(row, call, now);
    Passes(row, AsRequest(call, now), RowAfter(row, call, now).(version := row.version + 1, updatedAt := now));
  }

  lemma ExpiriesGoThrough(row: ActionRow, call: ServiceCall, now: Time)
    requires RowSound(row) && Live(row, now) && Acceptable(row, call) && (call.ExpireStale? || call.Supersede?)
    ensures Answers(row, call, now)
  {
    hide FirstRefusal, Applied, RowChecks, Transition, ReasonCode, RowSound;
    SoundRowsAreChecked(row);
    ExpiryIsUnopposed(row, call, now);
    ExpiryOnlyExpires(row, call, now);
    StateIsUnchecked(row, Expired, now);
    Passes(row, AsRequest(call, now), row.(state := Expired, version := row.version + 1, updatedAt := now));
  }

  lemma PoliciesAreRecorded(row: ActionRow, call: ServiceCall, now: Time)
    requires RowSound(row) && Live(row, now) && Acceptable(row, call) && (call.RecordPolicy? || call.DenyReady?)
    ensures Answers(row, call, now)
  {
    hide ReasonCode, HexDigest;
  }

  /** The answer to an accepted call on a live row. */
  ghost predicate Answers(row: ActionRow, call: ServiceCall, now: Time) {
    var service := Transition(row, row.fixed.fingerprint, AsRequest(call, now));
    && service.change == Committed(row, RowAfter(row, call, now), EntryFor(call), now)
    && service.reply == Answered(service.change.row)
  }

  lemma HumansAreOpposed(row: ActionRow, call: ServiceCall, now: Time)
    requires RowSound(row) && !Acceptable(row, call) && row.state != Expired
    requires !call.RecordPolicy? && !call.DenyReady?
    ensures FirstRefusal(row, AsRequest(call, now)) == Some(RefusalOf(row, call))
  {
    hide ReasonCode, RowChecks;
    GivenReasons();
  }

  lemma HumansAreRefused(row: ActionRow, call: ServiceCall, now: Time)
    requires RowSound(row) && Live(row, now) && !Acceptable(row, call)
    requires !call.RecordPolicy? && !call.DenyReady?
    ensures Transition(row, row.fixed.fingerprint, AsRequest(call, now)) == Refuse(RefusalOf(row, call))
  {
    hide FirstRefusal, Applied, RowChecks, ReasonCode, RowSound;
    if row.state != Expired {
      hide Transition;
      HumansAreOpposed(row, call, now);
      Stops(row, AsRequest(call, now), RefusalOf(row, call));
    }
  }

  lemma PoliciesAreRefused(row: ActionRow, call: ServiceCall, now: Time)
    requires RowSound(row) && Live(row, now) && !Acceptable(row, call) && (call.RecordPolicy? || call.DenyReady?)
    ensures var service := Transition(row, row.fixed.fingerprint, AsRequest(call, now));
      service.change.Kept? && service.reply.Raised?
  {
    hide ReasonCode, HexDigest;
  }

  lemma ActorOf(call: ServiceCall, now: Time)
    ensures var req := AsRequest(call, now);
      req.actor == EntryFor(call).actor && req.now == now && Exposed(req) && req.verifiedResource.None?
  {
  }

  lemma LapsedIsUnopposed(row: ActionRow, req: TransitionRequest)
    requires Lapsed(row, req.now) && Exposed(req) && req.verifiedResource.None?
    ensures FirstRefusal(row, Effective(row, req)).None?
  {
    hide ReasonCode;
    ExpiryReason();
  }

  lemma LapsedOnlyExpires(row: ActionRow, req: TransitionRequest)
    requires Lapsed(row, req.now) && Exposed(req) && req.verifiedResource.None?
    ensures Applied(row, Effective(row, req))
         == row.(state := Expired, version := row.version + 1, updatedAt := req.now)
  {
  }

  /** A lapsed row expires on any request of the general entry point. */
  lemma LapsedRequestsExpire(row: ActionRow, req: TransitionRequest)
    requires RowSound(row) && Lapsed(row, req.now) && Exposed(req) && req.verifiedResource.None?
    ensures Transition(row, row.fixed.fingerprint, req)
         == Service(Expires(row, req.actor, req.now), Raised(ActionExpired))
  {
    hide FirstRefusal, Applied, RowSound, RowChecks;
    SoundRowsAreChecked(row);
    LapsedIsUnopposed(row, req);
    LapsedOnlyExpires(row, req);
    StateIsUnchecked(row, Expired, req.now);
  }

  lemma LapsedRowsExpire(row: ActionRow, call: ServiceCall, now: Time)
    requires RowSound(row) && !Live(row, now)
    ensures var service := Transition(row, row.fixed.fingerprint, AsRequest(call, now));
      && service.change == Expires(row, EntryFor(call).actor, now)
      && service.reply == Raised(ActionExpired)
  {
    hide Transition, RowSound, EntryFor, AsRequest, Exposed;
    ActorOf(call, now);
    LapsedRequestsExpire(row, AsRequest(call, now));
  }

  /**
    Every decision on every sound row: an undispatched row past its expiry expires, whatever was
    asked. Otherwise the call commits exactly in the states named above, with its own columns,
    the version and the audit event as the only change, and anything else is refused and keeps
    the row; a human decision or an expiry is refused with the error named.
   */
  lemma DecisionsCommitExactly(row: ActionRow, call: ServiceCall, now: Time)
    requires RowSound(row)
    ensures var service := Transition(row, row.fixed.fingerprint, AsRequest(call, now));
      if !Live(row, now) then
        && service.change == Expires(row, EntryFor(call).actor, now)
        && service.reply == Raised(ActionExpired)
      else if Acceptable(row, call) then
        && service.change == Committed(row, RowAfter(row, call, now), EntryFor(call), now)
        && service.reply == Answered(service.change.row)
      else
        && service.change.Kept? && service.reply.Raised?
        && (!call.RecordPolicy? && !call.DenyReady? ==> service.reply.error == RefusalOf(row, call))
  {
    hide RowSound, Transition, AsRequest, Acceptable, RowAfter, Committed, Expires, Live;
    if !Live(row, now) {
      LapsedRowsExpire(row, call, now);
    } else if Acceptable(row, call) {
      match call
      case RecordPolicy(_, _) => PoliciesAreRecorded(row, call, now);
      case DenyReady(_) => PoliciesAreRecorded(row, call, now);
      case Approve(_, _) => SupervisorsDecide(row, call, now);
      case RejectApproval(_, _) => SupervisorsDecide(row, call, now);
      case Confirm(_, _) => CustomersDecide(row, call, now);
      case Withdraw(_) => CustomersDecide(row, call, now);
      case _ => ExpiriesGoThrough(row, call, now);
    } else if call.RecordPolicy? || call.DenyReady? {
      PoliciesAreRefused(row, call, now);
    } else {
      HumansAreRefused(row, call, now);
    }
  }
}
