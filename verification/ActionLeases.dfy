/**
  What every lease service answers, for every sound row and all arguments: when a lease is
  granted, recovered, used and settled, and the whole row and audit event that this leaves.
 */
module ActionLeases {
  import opened Options
  import opened ActionModel
  import opened ActionLifecycle
  import opened ActionServices
  import opened ActionDecisions

  lemma ServiceReasons()
    ensures ReasonCode("execution_lease_expired") && ReasonCode("reconciliation_claimed")
    ensures ReasonCode("write_response_received")
  {
    assert ReasonCode("execution_lease_expired");
    assert ReasonCode("reconciliation_claimed");
  }

  /** A request no guard and no CHECK refuses. */
  lemma Moves(row: ActionRow, req: TransitionRequest, after: ActionRow)
    requires row.state != Expired && !Lapsed(row, req.now) && FirstRefusal(row, req).None?
    requires Applied(row, req) == after && RowChecks(after)
    ensures Settle(row, req) == Moved(after, AuditEntry(row, req), false)
  {
    hide FirstRefusal, Applied, AuditEntry, RowChecks;
  }

  lemma SoundRowsAreSound(row: ActionRow)
    requires RowSound(row)
    ensures RowChecks(row) && VerificationAllowed(row.verification)
    ensures row.leaseOwner.Some? <==> row.leaseExpiresAt.Some?
  {
  }

  /** The CHECKs look at none of these columns but the verification, and at that for its text alone. */
  lemma EvidenceIsUnchecked(row: ActionRow, after: ActionRow)
    requires RowChecks(row) && after.version > 0
    requires after == row.(state := after.state, version := after.version, updatedAt := after.updatedAt,
                           attempts := after.attempts, leaseOwner := after.leaseOwner,
                           leaseExpiresAt := after.leaseExpiresAt, commerce := after.commerce,
                           verification := after.verification, verifiedResource := after.verifiedResource,
                           verifiedAt := after.verifiedAt)
    requires VerificationAllowed(after.verification)
    ensures RowChecks(after)
  {
  }

  // ---- The execution lease ----

  function ClaimedRow(row: ActionRow, owner: Uuid, until: Time): ActionRow {
    row.(state := Executing, attempts := row.attempts + 1, leaseOwner := Some(owner), leaseExpiresAt := Some(until))
  }

  function ClaimRequest(owner: Uuid, until: Time, now: Time): TransitionRequest {
    Plain(Executing, None, ExecutionStarted, None, now).(executionLease := Some(Lease(owner, until)))
  }

  lemma ClaimIsUnopposed(row: ActionRow, owner: Uuid, until: Time, now: Time)
    requires RowSound(row) && row.state == ReadyToExecute && now < row.fixed.expiresAt
    ensures FirstRefusal(row, ClaimRequest(owner, until, now)) == if until <= now then Some(InvalidValue) else None
  {
    hide RowChecks;
  }

  lemma ClaimApplies(row: ActionRow, owner: Uuid, until: Time, now: Time)
    requires row.state == ReadyToExecute
    ensures Applied(row, ClaimRequest(owner, until, now))
         == ClaimedRow(row, owner, until).(version := row.version + 1, updatedAt := now)
  {
  }

  lemma LiveClaims(row: ActionRow, owner: Uuid, until: Time, now: Time)
    requires RowSound(row) && row.state == ReadyToExecute && now < row.fixed.expiresAt && now < until
    ensures var after := ClaimedRow(row, owner, until).(version := row.version + 1, updatedAt := now);
      Settle(row, ClaimRequest(owner, until, now))
        == Moved(after, AuditEntry(row, ClaimRequest(owner, until, now)), false)
  {
    hide FirstRefusal, Applied, RowChecks, Settle;
    SoundRowsAreSound(row);
    ClaimIsUnopposed(row, owner, until, now);
    ClaimApplies(row, owner, until, now);
    var after := ClaimedRow(row, owner, until).(version := row.version + 1, updatedAt := now);
    EvidenceIsUnchecked(row, after);
    Moves(row, ClaimRequest(owner, until, now), after);
  }

  lemma ShortClaims(row: ActionRow, owner: Uuid, until: Time, now: Time)
    requires RowSound(row) && row.state == ReadyToExecute && now < row.fixed.expiresAt && until <= now
    ensures Settle(row, ClaimRequest(owner, until, now)) == Declined(InvalidValue)
  {
    hide FirstRefusal, Applied, RowChecks, RowSound;
    ClaimIsUnopposed(row, owner, until, now);
  }

  lemma LapsedClaims(row: ActionRow, owner: Uuid, until: Time, now: Time)
    requires RowSound(row) && row.state == ReadyToExecute && row.fixed.expiresAt <= now
    ensures var change := Expires(row, None, now);
      Settle(row, ClaimRequest(owner, until, now)) == Moved(change.row, change.event, true)
  {
    hide ReasonCode, RowChecks, RowSound;
    ExpiryReason();
    SoundRowsAreChecked(row);
    StateIsUnchecked(row, Expired, now);
  }

  /**
    A ready action is claimed exactly when it has not lapsed and the lease outlasts the moment it
    is written; its row then executes under that lease, one attempt on. A lapsed one expires.
   */
  lemma ClaimsExactly(row: ActionRow, fp: Fingerprint, owner: Uuid, claimedAt: Time, seconds: int, now: Time)
    requires RowSound(row)
    ensures var service := ClaimExecution(row, fp, owner, claimedAt, seconds, now);
      if fp != row.fixed.fingerprint then service == Service(Kept, Raised(FingerprintMismatch))
      else if row.state != ReadyToExecute then service == Service(Kept, NotClaimed(row))
      else if row.fixed.expiresAt <= now then
        service.change == Expires(row, None, now) && service.reply == NotClaimed(service.change.row)
      else if claimedAt + seconds <= now then service == Service(Kept, Raised(InvalidValue))
      else
        && service.change == Committed(row, ClaimedRow(row, owner, claimedAt + seconds),
                                       Entry(ExecutionStarted, None, None), now)
        && service.reply == Claimed(service.change.row, owner)
  {
    hide Settle, RowSound, GatesSatisfied;
    if row.state == ReadyToExecute {
      ExecutableRowsHoldEveryGate(row);
      if row.fixed.expiresAt <= now {
        LapsedClaims(row, owner, claimedAt + seconds, now);
      } else if claimedAt + seconds <= now {
        ShortClaims(row, owner, claimedAt + seconds, now);
      } else {
        LiveClaims(row, owner, claimedAt + seconds, now);
      }
    }
  }

  function Released(row: ActionRow): ActionRow {
    row.(leaseOwner := None, leaseExpiresAt := None)
  }

  lemma RecoveryMoves(row: ActionRow, now: Time)
    requires RowSound(row) && row.state == Executing
    ensures var req := Plain(Unresolved, None, UnresolvedEvent, Some("execution_lease_expired"), now)
                         .(clearLease := true);
      var after := Released(row).(state := Unresolved, version := row.version + 1, updatedAt := now);
      Settle(row, req) == Moved(after, AuditEntry(row, req), false)
  {
    hide ReasonCode, RowChecks, RowSound, GatesSatisfied;
    ServiceReasons();
    SoundRowsAreSound(row);
    EvidenceIsUnchecked(row, Released(row).(state := Unresolved, version := row.version + 1, updatedAt := now));
  }

  /** An execution is recovered exactly from the moment its lease has run out, and then waits, unleased, unresolved. */
  lemma RecoversExactly(row: ActionRow, fp: Fingerprint, now: Time)
    requires RowSound(row)
    ensures var service := RecoverExpiredExecution(row, fp, now);
      if fp != row.fixed.fingerprint then service == Service(Kept, Raised(FingerprintMismatch))
      else if row.state == Executing && row.leaseExpiresAt.Some? && row.leaseExpiresAt.value <= now then
        && service.change == Committed(row, Released(row).(state := Unresolved),
                                       Entry(UnresolvedEvent, None, Some("execution_lease_expired")), now)
        && service.reply == Answered(service.change.row)
      else service == Service(Kept, Answered(row))
  {
    hide Settle, RowSound;
    SoundRowsAreSound(row);
    if row.state == Executing { RecoveryMoves(row, now); }
  }

  // ---- The reconciliation lease ----

  function ReclaimRequest(owner: Uuid, until: Time, now: Time): TransitionRequest {
    Plain(Unresolved, None, UnresolvedEvent, Some("reconciliation_claimed"), now)
      .(reconciliationLease := Some(Lease(owner, until)))
  }

  lemma ReclaimMoves(row: ActionRow, owner: Uuid, until: Time, now: Time)
    requires RowSound(row) && row.state == Unresolved
    ensures var req := ReclaimRequest(owner, until, now);
      var after := row.(leaseOwner := Some(owner), leaseExpiresAt := Some(until),
                        version := row.version + 1, updatedAt := now);
      Settle(row, req) == if until <= now then Declined(InvalidValue) else Moved(after, AuditEntry(row, req), false)
  {
    hide ReasonCode, RowChecks, RowSound, GatesSatisfied;
    ServiceReasons();
    SoundRowsAreSound(row);
    EvidenceIsUnchecked(row, row.(leaseOwner := Some(owner), leaseExpiresAt := Some(until),
                                  version := row.version + 1, updatedAt := now));
  }

  /** An unresolved action is leased for reconciliation exactly when no lease on it still runs. */
  lemma ReclaimsExactly(row: ActionRow, fp: Fingerprint, owner: Uuid, seconds: int, now: Time)
    requires RowSound(row)
    ensures var service := ClaimReconciliation(row, fp, owner, seconds, now);
      if fp != row.fixed.fingerprint then service == Service(Kept, Raised(FingerprintMismatch))
      else if row.state != Unresolved || (row.leaseExpiresAt.Some? && now < row.leaseExpiresAt.value) then
        service == Service(Kept, NotClaimed(row))
      else if seconds <= 0 then service == Service(Kept, Raised(InvalidValue))
      else
        && service.change == Committed(row, row.(leaseOwner := Some(owner), leaseExpiresAt := Some(now + seconds)),
                                       Entry(UnresolvedEvent, None, Some("reconciliation_claimed")), now)
        && service.reply == Claimed(service.change.row, owner)
  {
    hide Settle, RowSound;
    SoundRowsAreSound(row);
    if row.state == Unresolved { ReclaimMoves(row, owner, now + seconds, now); }
  }

  // ---- Under a lease ----

  predicate InHttpRange(status: Option<int>) {
    status.Some? ==> 100 <= status.value <= 599
  }

  predicate Bounded(code: Option<string>) {
    code.Some? ==> ReasonCode(code.value)
  }

  /** What an outcome must be to be stored: bounded texts, and the event and resource its target demands. */
  predicate Storable(o: Outcome) {
    && Bounded(o.reason) && InHttpRange(o.commerce.statusCode) && Bounded(o.commerce.errorCode)
    && (o.verification.Some? ==> !o.verification.value.OtherText?)
    && match o.target
       case Succeeded => o.kind == VerificationSucceeded && o.verifiedResource.Some?
       case Unresolved => o.kind == UnresolvedEvent && o.verifiedResource.None?
       case Failed => o.kind != VerificationSucceeded && o.verifiedResource.None?
       case _ => false
  }

  /** The row an outcome leaves: the lease is gone, the columns of the write and of its check are the outcome's. */
  function RowAfterOutcome(row: ActionRow, o: Outcome, now: Time): ActionRow {
    Released(row).(
      state := o.target,
      commerce := o.commerce,
      verification := if o.target == Succeeded then Some(Verified)
                      else if o.verification.Some? then o.verification else row.verification,
      verifiedResource := if o.target == Succeeded then o.verifiedResource else row.verifiedResource,
      verifiedAt := if o.target == Succeeded || o.verification.Some? then Some(now) else row.verifiedAt)
  }

  predicate WorkerOutcome(o: Outcome) {
    && o.target in {Succeeded, Failed, Unresolved}
    && o.kind in {VerificationSucceeded, UnresolvedEvent, CommerceResponse, StateTransition}
  }

  lemma OutcomeIsUnopposed(row: ActionRow, o: Outcome, now: Time)
    requires row.state in {Executing, Unresolved} && WorkerOutcome(o)
    ensures FirstRefusal(row, Settlement(o, now)).None? <==> Storable(o)
  {
    hide ReasonCode;
  }

  lemma OutcomeApplies(row: ActionRow, o: Outcome, now: Time)
    requires row.state in {Executing, Unresolved} && WorkerOutcome(o)
    ensures Applied(row, Settlement(o, now))
         == RowAfterOutcome(row, o, now).(version := row.version + 1, updatedAt := now)
  {
  }

  lemma OutcomeMoves(row: ActionRow, o: Outcome, now: Time)
    requires RowSound(row) && row.state in {Executing, Unresolved} && WorkerOutcome(o) && Storable(o)
    ensures var after := RowAfterOutcome(row, o, now).(version := row.version + 1, updatedAt := now);
      Settle(row, Settlement(o, now)) == Moved(after, AuditEntry(row, Settlement(o, now)), false)
  {
    hide FirstRefusal, Applied, RowChecks, ReasonCode, RowSound, Settle;
    SoundRowsAreSound(row);
    OutcomeIsUnopposed(row, o, now);
    OutcomeApplies(row, o, now);
    var after := RowAfterOutcome(row, o, now).(version := row.version + 1, updatedAt := now);
    EvidenceIsUnchecked(row, after);
    Moves(row, Settlement(o, now), after);
  }

  lemma OutcomeStops(row: ActionRow, o: Outcome, now: Time)
    requires row.state in {Executing, Unresolved} && WorkerOutcome(o) && !Storable(o)
    ensures Settle(row, Settlement(o, now)).Declined?
  {
    hide FirstRefusal, Applied, RowChecks, Storable;
    OutcomeIsUnopposed(row, o, now);
  }

  /** An outcome is stored exactly under the lease, from the state it settles, and when it is storable. */
  lemma OutcomesSettleExactly(row: ActionRow, under: ActionState, fp: Fingerprint, owner: Uuid, o: Outcome, now: Time)
    requires RowSound(row) && under in {Executing, Unresolved} && WorkerOutcome(o)
    ensures var service := RecordOutcome(row, under, fp, owner, o, now);
      if fp != row.fixed.fingerprint then service == Service(Kept, Raised(FingerprintMismatch))
      else if row.state != under || row.leaseOwner != Some(owner) then
        service == Service(Kept, Raised(ConcurrentUpdate))
      else if !Storable(o) then service.change.Kept? && service.reply.Raised?
      else
        && service.change == Committed(row, RowAfterOutcome(row, o, now), Entry(o.kind, None, o.reason), now)
        && service.reply == Answered(service.change.row)
  {
    hide Settle, RowSound, Storable, WorkerOutcome;
    if row.state == under {
      if Storable(o) { OutcomeMoves(row, o, now); } else { OutcomeStops(row, o, now); }
    }
  }

  lemma ResponseMoves(row: ActionRow, status: int, resource: Option<Uuid>, now: Time)
    requires RowSound(row) && row.state == Executing
    ensures var req := Plain(Executing, None, CommerceResponse, Some("write_response_received"), now)
                         .(outcome := Some(CommerceColumns(Some(status), None, resource)));
      var after := row.(commerce := CommerceColumns(Some(status), None, resource),
                        version := row.version + 1, updatedAt := now);
      Settle(row, req)
        == if 100 <= status <= 599 then Moved(after, AuditEntry(row, req), false) else Declined(InvalidValue)
  {
    hide ReasonCode, RowChecks, RowSound, GatesSatisfied;
    ServiceReasons();
    SoundRowsAreSound(row);
    EvidenceIsUnchecked(row, row.(commerce := CommerceColumns(Some(status), None, resource),
                                  version := row.version + 1, updatedAt := now));
  }

  /** An executor's answer is stored exactly under the execution lease; the row keeps its lease. */
  lemma ResponsesStoreExactly(
    row: ActionRow, fp: Fingerprint, owner: Uuid, status: int, resource: Option<Uuid>, now: Time)
    requires RowSound(row)
    ensures var service := RecordCommerceResponse(row, fp, owner, status, resource, now);
      if fp != row.fixed.fingerprint then service == Service(Kept, Raised(FingerprintMismatch))
      else if row.state != Executing || row.leaseOwner != Some(owner) then
        service == Service(Kept, Raised(ConcurrentUpdate))
      else if !(100 <= status <= 599) then service == Service(Kept, Raised(InvalidValue))
      else
        && service.change == Committed(row, row.(commerce := CommerceColumns(Some(status), None, resource)),
                                       Entry(CommerceResponse, None, Some("write_response_received")), now)
        && service.reply == Answered(service.change.row)
  {
    hide Settle, RowSound;
    if row.state == Executing { ResponseMoves(row, status, resource, now); }
  }
}
