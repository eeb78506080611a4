/**
  The imperative side: the transactions as the services run them, one locked row at a time,
  each proved against what `ActionStore` says the command does.
 */
module ActionDatabase {
  import opened Options
  import opened ActionModel
  import opened ActionLifecycle
  import opened ActionLog
  import opened ActionServices
  import opened ActionStore

  class ActionDatabase {
    var rows: map<Uuid, ActionRow>
    var logs: map<Uuid, seq<ActionEvent>>

    ghost function Contents(): Store
      reads this
    {
      Store(rows, logs)
    }

    ghost predicate Valid()
      reads this
    {
      StoreSound(Contents())
    }

    constructor ()
      ensures Valid() && Contents() == EMPTY_STORE
    {
      rows, logs := map[], map[];
    }

    /** `request` was read from this database, so an equal version means an unchanged row. */
    ghost predicate Snapshot(request: ActionRow)
      reads this
    {
      var id := request.fixed.id;
      id in rows && id in logs && (rows[id].version == request.version ==> rows[id] == request)
    }

    ghost predicate Stale(request: ActionRow)
      requires request.fixed.id in rows
      reads this
    {
      rows[request.fixed.id].version != request.version || rows[request.fixed.id].state != request.state
    }

    /** The compare-and-set update of one row and the append of its audit event. */
    method TransitionLocked(request: ActionRow, req: TransitionRequest) returns (d: Decision)
      requires Snapshot(request)
      modifies this
      ensures d == if Decide(request, req).Moved? && old(Stale(request)) then Declined(ConcurrentUpdate)
                   else Settle(request, req)
      ensures Contents() == Saved(old(Contents()), request.fixed.id,
                                  if d.Moved? then Written(d.row, d.event) else Kept)
      ensures old(rows)[request.fixed.id] != request ==> !d.Moved? && Contents() == old(Contents())
    {
      hide EdgeRefusal, EventRefusal, PolicyRefusal, LeaseRefusal, OutcomeRefusal, SupervisorRefusal, CustomerRefusal,
        DetachedEventRefusal, Applied, Stamped, Evidenced, RowChecks;
      var current := request.state;
      if current == Expired {
        return AlreadyExpired;
      }
      var eff := req;
      var lapsed := false;
      if Undispatched(current) && request.fixed.expiresAt <= req.now {
        eff := eff.(target := Expired, kind := ExpiredEvent, reason := Some("expired"), policy := None,
                    executionLease := None, reconciliationLease := None);
        lapsed := true;
      }
      var refusal := CheckRequest(request, eff);
      if refusal.Some? {
        return Declined(refusal.value);
      }
      var next;
      refusal, next := StampValues(request, eff);
      if refusal.Some? {
        return Declined(refusal.value);
      }
      refusal, next := EvidenceValues(next, eff);
      if refusal.Some? {
        return Declined(refusal.value);
      }
      refusal, next := BindDecisions(request, eff, next);
      if refusal.Some? {
        return Declined(refusal.value);
      }

      var stored := rows[request.fixed.id];
      if stored.version != request.version || stored.state != current {
        return Declined(ConcurrentUpdate);
      }
      if !RowChecks(next) {
        return Declined(IntegrityViolation);
      }
      var event := ActionEvent(request.version + 1, eff.kind, eff.actor, Some(current), eff.target,
                               request.fixed.fingerprint, None, eff.reason);
      rows := rows[request.fixed.id := next];
      logs := logs[request.fixed.id := logs[request.fixed.id] + [event]];
      return Moved(next, event, lapsed);
    }

    /** The ready-to-executing claim before any Commerce write. */
    method ClaimExecution(id: Uuid, tenant: Uuid, expected: Fingerprint, owner: Uuid,
                          claimedAt: Time, seconds: int, now: Time)
      returns (reply: Reply)
      requires Valid()
      modifies this
      ensures Valid()
      ensures (Contents(), reply)
           == Perform(old(Contents()), ClaimExecutionCommand(id, tenant, expected, owner, claimedAt, seconds, now))
    {
      hide Settle, Decide, Compatible, Sound, GatesSatisfied;
      PerformKeepsStoreSound(Contents(), ClaimExecutionCommand(id, tenant, expected, owner, claimedAt, seconds, now));
      if seconds < 1 || seconds > 600 { return Raised(InvalidValue); }
      if id !in rows || rows[id].fixed.tenant != tenant { return Raised(NotFound); }
      var request := rows[id];
      if request.fixed.fingerprint != expected { return Raised(FingerprintMismatch); }
      if request.state != ReadyToExecute || !GatesSatisfied(request) { return NotClaimed(request); }
      var lease := Lease(owner, claimedAt + seconds);
      var d := TransitionLocked(request,
        Plain(Executing, None, ExecutionStarted, None, now).(executionLease := Some(lease)));
      match d
      case AlreadyExpired => reply := NotClaimed(request);
      case Declined(error) => reply := Raised(error);
      case Moved(row, _, lapsed) =>
        reply := if !lapsed && row.state == Executing then Claimed(row, owner) else NotClaimed(row);
    }

    /** Moves an orphaned execution to unresolved once its lease has run out. */
    method RecoverExpiredExecution(id: Uuid, tenant: Uuid, customer: Uuid, expected: Fingerprint, now: Time)
      returns (reply: Reply)
      requires Valid()
      modifies this
      ensures Valid()
      ensures (Contents(), reply) == Perform(old(Contents()), RecoverCommand(id, tenant, customer, expected, now))
    {
      hide Settle, Decide, Compatible, Sound;
      PerformKeepsStoreSound(Contents(), RecoverCommand(id, tenant, customer, expected, now));
      if id !in rows || rows[id].fixed.tenant != tenant || rows[id].fixed.customer != customer {
        return Raised(NotFound);
      }
      var request := rows[id];
      if request.fixed.fingerprint != expected { return Raised(FingerprintMismatch); }
      if !(request.state == Executing && LeaseRunOut(request, now)) { return Answered(request); }
      var d := TransitionLocked(request,
        Plain(Unresolved, None, UnresolvedEvent, Some("execution_lease_expired"), now).(clearLease := true));
      reply := Report(request, d).reply;
    }

    /** Settles an execution lease with one bounded Commerce result. */
    method RecordExecutionOutcome(id: Uuid, tenant: Uuid, expected: Fingerprint, owner: Uuid, o: Outcome, now: Time)
      returns (reply: Reply)
      requires Valid()
      modifies this
      ensures Valid()
      ensures (Contents(), reply)
           == Perform(old(Contents()), ExecutionOutcomeCommand(id, tenant, expected, owner, o, now))
    {
      hide Settle, Decide, Compatible, Sound;
      PerformKeepsStoreSound(Contents(), ExecutionOutcomeCommand(id, tenant, expected, owner, o, now));
      if id !in rows || rows[id].fixed.tenant != tenant { return Raised(NotFound); }
      var request := rows[id];
      if request.fixed.fingerprint != expected { return Raised(FingerprintMismatch); }
      if request.state != Executing || request.leaseOwner != Some(owner) { return Raised(ConcurrentUpdate); }
      var d := TransitionLocked(request, Settlement(o, now));
      reply := Report(request, d).reply;
    }

    /** Commits the write's metadata while keeping the execution lease. */
    method RecordExecutionCommerceResponse(id: Uuid, tenant: Uuid, expected: Fingerprint, owner: Uuid,
                                           status: int, resource: Option<Uuid>, now: Time)
      returns (reply: Reply)
      requires Valid()
      modifies this
      ensures Valid()
      ensures (Contents(), reply)
           == Perform(old(Contents()), CommerceResponseCommand(id, tenant, expected, owner, status, resource, now))
    {
      hide Settle, Decide, Compatible, Sound;
      PerformKeepsStoreSound(Contents(), CommerceResponseCommand(id, tenant, expected, owner, status, resource, now));
      if id !in rows || rows[id].fixed.tenant != tenant { return Raised(NotFound); }
      var request := rows[id];
      if request.fixed.fingerprint != expected { return Raised(FingerprintMismatch); }
      if request.state != Executing || request.leaseOwner != Some(owner) { return Raised(ConcurrentUpdate); }
      var d := TransitionLocked(request,
        Plain(Executing, None, CommerceResponse, Some("write_response_received"), now).(
          outcome := Some(CommerceColumns(Some(status), None, resource))));
      reply := Report(request, d).reply;
    }

    /** Claims an unresolved action whose previous lease, if any, no longer runs. */
    method ClaimReconciliation(id: Uuid, tenant: Uuid, customer: Uuid, expected: Fingerprint, owner: Uuid,
                               seconds: int, now: Time)
      returns (reply: Reply)
      requires Valid()
      modifies this
      ensures Valid()
      ensures (Contents(), reply)
           == Perform(old(Contents()), ClaimReconciliationCommand(id, tenant, customer, expected, owner, seconds, now))
    {
      hide Settle, Decide, Compatible, Sound;
      PerformKeepsStoreSound(
        Contents(), ClaimReconciliationCommand(id, tenant, customer, expected, owner, seconds, now));
      if seconds < 1 || seconds > 600 { return Raised(InvalidValue); }
      if id !in rows || rows[id].fixed.tenant != tenant || rows[id].fixed.customer != customer {
        return Raised(NotFound);
      }
      var request := rows[id];
      if request.fixed.fingerprint != expected { return Raised(FingerprintMismatch); }
      if request.state != Unresolved || LeaseHeld(request, now) { return NotClaimed(request); }
      var d := TransitionLocked(request,
        Plain(Unresolved, None, UnresolvedEvent, Some("reconciliation_claimed"), now).(
          reconciliationLease := Some(Lease(owner, now + seconds))));
      match d
      case AlreadyExpired => reply := NotClaimed(request);
      case Declined(error) => reply := Raised(error);
      case Moved(row, _, _) => reply := Claimed(row, owner);
    }

    /** Settles a reconciliation lease. */
    method RecordReconciliationOutcome(id: Uuid, tenant: Uuid, customer: Uuid, expected: Fingerprint, owner: Uuid,
                                       o: Outcome, now: Time)
      returns (reply: Reply)
      requires Valid()
      modifies this
      ensures Valid()
      ensures (Contents(), reply)
           == Perform(old(Contents()), ReconciliationOutcomeCommand(id, tenant, customer, expected, owner, o, now))
    {
      hide Settle, Decide, Compatible, Sound;
      PerformKeepsStoreSound(Contents(), ReconciliationOutcomeCommand(id, tenant, customer, expected, owner, o, now));
      if id !in rows || rows[id].fixed.tenant != tenant || rows[id].fixed.customer != customer {
        return Raised(NotFound);
      }
      var request := rows[id];
      if request.fixed.fingerprint != expected { return Raised(FingerprintMismatch); }
      if request.state != Unresolved || request.leaseOwner != Some(owner) { return Raised(ConcurrentUpdate); }
      var d := TransitionLocked(request, Settlement(o, now));
      reply := Report(request, d).reply;
    }

    /** The general entry point; an expiry it caused is committed and then raised. */
    method Transition(id: Uuid, tenant: Uuid, expected: Fingerprint, req: TransitionRequest) returns (reply: Reply)
      requires Valid()
      modifies this
      ensures Valid()
      ensures (Contents(), reply) == Perform(old(Contents()), TransitionCommand(id, tenant, expected, req))
    {
      hide Settle, Decide, Compatible, Sound;
      PerformKeepsStoreSound(Contents(), TransitionCommand(id, tenant, expected, req));
      if id !in rows || rows[id].fixed.tenant != tenant { return Raised(NotFound); }
      var request := rows[id];
      if request.fixed.fingerprint != expected { return Raised(FingerprintMismatch); }
      var d := TransitionLocked(request, req);
      match d
      case AlreadyExpired => reply := Raised(ActionExpired);
      case Declined(error) => reply := Raised(error);
      case Moved(row, _, lapsed) => reply := if lapsed then Raised(ActionExpired) else Answered(row);
    }

    /** Expires the active predecessors one by one, rolling back when one has been dispatched. */
    method SupersedePriors(r: CreateRequest) returns (refused: bool)
      requires Valid()
      requires forall id | id in rows :: !IsDuplicate(rows[id], r)
      modifies this
      ensures refused == AnyDispatched(old(rows), Priors(old(rows), r))
      ensures Contents() == if refused then old(Contents())
                            else Superseded(old(Contents()), Priors(old(rows), r), r)
    {
      hide Settle, Decide, StoreSound, Superseded, Saved, HexDigest, RowChecks, SameConversation;
      ghost var before := Contents();
      SoundStoresArePaired(before);
      var rowsBefore, logsBefore := rows, logs;
      var todo := Priors(rows, r);
      ghost var done := {};
      SupersededStart(before, r);
      while todo != {}
        invariant todo + done == Priors(before.rows, r) && todo !! done
        invariant Contents() == Superseded(before, done, r)
        invariant !AnyDispatched(before.rows, done)
      {
        var id :| id in todo;
        SupersededStep(before, done, id, r);
        var prior := rows[id];
        assert prior.fixed.fingerprint != r.fingerprint;
        if !Undispatched(prior.state) {
          rows, logs := rowsBefore, logsBefore;
          return true;
        }
        var d := TransitionLocked(prior, Supersession(r.principal, r.now));
        todo, done := todo - {id}, done + {id};
      }
      assert done == Priors(before.rows, r);
      return false;
    }

    /** The lookup by origin and then by fingerprint, before the insert and again when it clashed. */
    method LoadStanding(r: CreateRequest) returns (standing: Option<Reply>)
      requires Valid()
      ensures standing == Standing(rows, r)
    {
      hide StoreSound, HexDigest, OriginReply, DuplicateReply, IsOrigin, IsDuplicate;
      OriginIsUnique(Contents(), r);
      DuplicateIsUnique(Contents(), r);
      if exists id :: id in rows && IsOrigin(rows[id], r) {
        var id :| id in rows && IsOrigin(rows[id], r);
        return Some(OriginReply(rows[id], r));
      }
      if exists id :: id in rows && IsDuplicate(rows[id], r) {
        var id :| id in rows && IsDuplicate(rows[id], r);
        return Some(DuplicateReply(rows[id], r));
      }
      return None;
    }

    /**
      Inserts a proposed request, or answers with the one that already stands for it. Every
      undispatched predecessor about the same subject expires first; a dispatched one refuses
      the creation and rolls the expiries back.
     */
    method CreateOrGet(r: CreateRequest) returns (reply: Reply)
      requires Valid()
      modifies this
      ensures Valid()
      ensures (Contents(), reply) == Perform(old(Contents()), CreateCommand(r))
    {
      hide StoreSound, Superseded, HexDigest, Standing, NewRow, IsDuplicate, Perform, IsPrior;
      var rowsBefore, logsBefore := rows, logs;
      ghost var before := Contents();
      SoundStoresArePaired(before);
      CreationIsSound(before, r);
      PerformCreates(before, r);
      if r.customer.None? { return Raised(ScopeError); }
      if !HexDigest(r.fingerprint) { return Raised(InvalidValue); }
      if !r.conversationInScope || !r.runInConversation || !r.invocationInRun { return Raised(ScopeError); }
      var standing := LoadStanding(r);
      if standing.Some? { return standing.value; }
      NothingStands(rows, r);
      if r.expiresAt <= r.now { return Raised(InvalidValue); }
      var refused := SupersedePriors(r);
      if refused { return Raised(InFlight); }
      SupersessionKeepsKeys(before, Priors(before.rows, r), r);
      if r.newId in rows || exists id :: id in rows && rows[id].fixed.idempotencyKey == r.newKey {
        rows, logs := rowsBefore, logsBefore;
        var winner := LoadStanding(r);
        return match winner case Some(found) => found case None => Raised(RecordConflict);
      }
      rows := rows[r.newId := NewRow(r)];
      logs := logs[r.newId := [CreatedEntry(r)]];
      return Created(NewRow(r));
    }
  }

  /** The guards on edge, event and policy, in order. */
  method CheckRequest(request: ActionRow, eff: TransitionRequest) returns (refusal: Option<ActionError>)
    ensures refusal == OrElse(EdgeRefusal(request, eff), OrElse(EventRefusal(eff), PolicyRefusal(request, eff)))
  {
    var current, target, kind := request.state, eff.target, eff.kind;
    if !Lapsed(request, eff.now) && !(current == target && kind == CommerceResponse) && target !in Successors(current) {
      return Some(InvalidTransition);
    }
    if current == Executing && target == ReadyToExecute && eff.reason != Some("proven_non_dispatch") {
      return Some(InvalidTransition);
    }
    refusal := CheckEvent(eff);
    if refusal.None? {
      refusal := CheckPolicy(request, eff);
    }
  }

  method CheckEvent(eff: TransitionRequest) returns (refusal: Option<ActionError>)
    ensures refusal == EventRefusal(eff)
  {
    var target, kind := eff.target, eff.kind;
    if eff.reason.Some? && !ReasonCode(eff.reason.value) { return Some(InvalidValue); }
    if kind == CreatedEvent { return Some(InvalidValue); }
    if target == Expired && kind != ExpiredEvent { return Some(InvalidValue); }
    if target == PolicyDenied && kind != PolicyDeniedEvent { return Some(InvalidValue); }
    if target == Unresolved && kind != UnresolvedEvent { return Some(InvalidValue); }
    if target == Succeeded {
      if kind != VerificationSucceeded || eff.verifiedResource.None? { return Some(InvalidTransition); }
    } else if eff.verifiedResource.Some? {
      return Some(InvalidValue);
    }
    if kind == VerificationSucceeded && target != Succeeded { return Some(InvalidTransition); }
    return None;
  }

  method CheckPolicy(request: ActionRow, eff: TransitionRequest) returns (refusal: Option<ActionError>)
    ensures refusal == PolicyRefusal(request, eff)
  {
    var target, kind := eff.target, eff.kind;
    if eff.policy.Some? {
      var decision := eff.policy.value;
      var expected := if decision.allowed then PolicyAllowedEvent else PolicyDeniedEvent;
      if kind != expected { return Some(InvalidValue); }
      if decision.allowed && !GateState(target) { return Some(InvalidValue); }
      if !decision.allowed && target != PolicyDenied { return Some(InvalidValue); }
      if decision.allowed {
        if !decision.confirmationRequired { return Some(InvalidTransition); }
        var gate := if decision.approvalRequired then AwaitingApproval else AwaitingConfirmation;
        if target != gate { return Some(InvalidValue); }
      }
    } else if kind == PolicyAllowedEvent || kind == PolicyDeniedEvent {
      return Some(InvalidValue);
    }
    if request.policy.allowed.None? && GateState(target) && eff.policy.None? { return Some(PolicyDecisionRequired); }
    return None;
  }

  /** State, policy and lease columns of the next row. */
  method StampValues(request: ActionRow, eff: TransitionRequest)
    returns (refusal: Option<ActionError>, next: ActionRow)
    ensures refusal == LeaseRefusal(request, eff)
    ensures refusal.None? ==> next == Stamped(request, eff)
  {
    var current, target := request.state, eff.target;
    next := request.(state := target, version := request.version + 1, updatedAt := eff.now);
    if eff.policy.Some? {
      next := next.(policy := PolicyOf(eff.policy.value, eff.now),
                    confirmationRequired := eff.policy.value.confirmationRequired,
                    approvalRequired := eff.policy.value.approvalRequired);
    }
    if eff.executionLease.Some? {
      if current != ReadyToExecute || target != Executing { return Some(InvalidTransition), next; }
      if eff.executionLease.value.expiresAt <= eff.now { return Some(InvalidValue), next; }
      next := next.(attempts := request.attempts + 1,
                    leaseOwner := Some(eff.executionLease.value.owner),
                    leaseExpiresAt := Some(eff.executionLease.value.expiresAt));
    }
    if eff.reconciliationLease.Some? {
      if current != Unresolved || target != Unresolved { return Some(InvalidTransition), next; }
      if eff.reconciliationLease.value.expiresAt <= eff.now { return Some(InvalidValue), next; }
      next := next.(leaseOwner := Some(eff.reconciliationLease.value.owner),
                    leaseExpiresAt := Some(eff.reconciliationLease.value.expiresAt));
    } else if eff.clearLease {
      next := next.(leaseOwner := None, leaseExpiresAt := None);
    }
    return None, next;
  }

  /** Commerce and verification columns of the next row. */
  method EvidenceValues(values: ActionRow, eff: TransitionRequest)
    returns (refusal: Option<ActionError>, next: ActionRow)
    ensures refusal == OutcomeRefusal(eff)
    ensures refusal.None? ==> next == Evidenced(values, eff)
  {
    next := values;
    if eff.outcome.Some? {
      var status, code := eff.outcome.value.statusCode, eff.outcome.value.errorCode;
      if status.Some? && !(100 <= status.value <= 599) { return Some(InvalidValue), next; }
      if code.Some? && !ReasonCode(code.value) { return Some(InvalidValue), next; }
      next := next.(commerce := eff.outcome.value);
    }
    if eff.verification.Some? {
      if eff.verification.value.OtherText? { return Some(InvalidValue), next; }
      next := next.(verification := eff.verification, verifiedAt := Some(eff.now));
    }
    if eff.target == Succeeded {
      next := next.(verification := Some(Verified), verifiedResource := eff.verifiedResource,
                    verifiedAt := Some(eff.now));
    }
    return None, next;
  }

  /** The columns of the human decision that the edge records, if it records one. */
  method BindDecisions(request: ActionRow, eff: TransitionRequest, values: ActionRow)
    returns (refusal: Option<ActionError>, next: ActionRow)
    requires values == Evidenced(Stamped(request, eff), eff)
    ensures refusal == OrElse(SupervisorRefusal(request, eff),
                       OrElse(CustomerRefusal(request, eff), DetachedEventRefusal(request, eff)))
    ensures refusal.None? ==> next == Applied(request, eff)
  {
    hide Stamped, Evidenced;
    assert values.customer == request.customer && values.supervisor == request.supervisor by {
      HumanColumnsKept(request, eff);
    }
    var current, target, kind := request.state, eff.target, eff.kind;
    next := values;
    var withdrawal := current == AwaitingApproval && target == Rejected && kind == CustomerRejected;
    if current == AwaitingApproval && target in {AwaitingConfirmation, ReadyToExecute, Rejected} && !withdrawal {
      if !request.approvalRequired { return Some(InvalidTransition), next; }
      var expected, verdict := SupervisorRejected, Refused;
      if target != Rejected {
        expected, verdict := SupervisorApproved, Granted;
        var gate := if request.confirmationRequired then AwaitingConfirmation else ReadyToExecute;
        if target != gate { return Some(InvalidTransition), next; }
      }
      if kind != expected || eff.actor.None? { return Some(InvalidTransition), next; }
      next := next.(
        supervisor := HumanDecision(Some(verdict), eff.actor, Some(eff.now), Some(request.fixed.fingerprint)));
    }
    var confirmation := current == AwaitingConfirmation && target in {ReadyToExecute, Rejected};
    if confirmation || withdrawal {
      if !request.confirmationRequired { return Some(InvalidTransition), next; }
      var expected, verdict := CustomerConfirmed, Granted;
      if target == Rejected {
        expected, verdict := CustomerRejected, Refused;
      }
      if kind != expected || eff.actor.None? { return Some(InvalidTransition), next; }
      next := next.(
        customer := HumanDecision(Some(verdict), eff.actor, Some(eff.now), Some(request.fixed.fingerprint)));
    }
    if kind in {SupervisorApproved, SupervisorRejected}
       && !(current == AwaitingApproval && target in {AwaitingConfirmation, ReadyToExecute, Rejected}) {
      return Some(InvalidTransition), next;
    }
    if kind in {CustomerConfirmed, CustomerRejected} && !(confirmation || withdrawal) {
      return Some(InvalidTransition), next;
    }
    return None, next;
  }

  lemma HumanColumnsKept(row: ActionRow, eff: TransitionRequest)
    ensures Evidenced(Stamped(row, eff), eff).customer == row.customer
    ensures Evidenced(Stamped(row, eff), eff).supervisor == row.supervisor
  {
  }

  lemma SupersededStart(store: Store, r: CreateRequest)
    requires StoreSound(store)
    ensures Superseded(store, {}, r) == store
  {
    hide Sound, Compatible;
    assert Superseded(store, {}, r).rows == store.rows;
    assert Superseded(store, {}, r).logs == store.logs;
  }

  /** Superseding one more row is one settled request on a row the earlier ones left alone. */
  lemma SupersededStep(store: Store, done: set<Uuid>, id: Uuid, r: CreateRequest)
    requires StoreSound(store) && done <= store.rows.Keys
    requires id in store.rows && id !in done && IsPrior(store.rows[id], r)
    requires !IsDuplicate(store.rows[id], r)
    ensures var now := Superseded(store, done, r);
      && id in now.rows && id in now.logs && now.rows[id] == store.rows[id]
      && store.rows[id].fixed.id == id && store.rows[id].fixed.fingerprint != r.fingerprint
      && (var d := Settle(store.rows[id], Supersession(r.principal, r.now));
          Superseded(store, done + {id}, r) == Saved(now, id, if d.Moved? then Written(d.row, d.event) else Kept))
  {
    hide Settle, Sound, Compatible;
    var now, later := Superseded(store, done, r), Superseded(store, done + {id}, r);
    var d := Settle(store.rows[id], Supersession(r.principal, r.now));
    var saved := Saved(now, id, if d.Moved? then Written(d.row, d.event) else Kept);
    assert later.rows == saved.rows;
    assert later.logs == saved.logs;
  }

  lemma NothingStands(rows: map<Uuid, ActionRow>, r: CreateRequest)
    requires Standing(rows, r).None?
    ensures forall id | id in rows :: !IsDuplicate(rows[id], r)
  {
  }

  lemma PerformCreates(store: Store, r: CreateRequest)
    requires store.logs.Keys == store.rows.Keys
    ensures Perform(store, CreateCommand(r)) == CreateOrGet(store, r)
  {
    hide CreateOrGet;
  }

  lemma SupersessionKeepsKeys(store: Store, ids: set<Uuid>, r: CreateRequest)
    requires StoreSound(store) && ids <= store.rows.Keys
    ensures var later := Superseded(store, ids, r);
      && later.rows.Keys == store.rows.Keys
      && forall id | id in store.rows :: later.rows[id].fixed.idempotencyKey == store.rows[id].fixed.idempotencyKey
  {
    hide Sound, Compatible;
    forall id | id in store.rows
      ensures SupersededRow(store.rows[id], r).fixed == store.rows[id].fixed
    {
    }
  }
}
