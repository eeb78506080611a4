/**
  What holds over every run of the protocol: at most one effect per action, leases settled
  once and in order, one execution per action, one material throughout.
 */
module ProtocolSafety {
  import opened Options
  import opened ActionModel
  import opened ActionLifecycle
  import opened ActionLog
  import opened ActionServices
  import ActionStore
  import opened CommerceRequests
  import opened IdempotentWrites
  import opened CommerceWire
  import opened ActionProtocol
  import opened ProtocolMoves
  import opened ProtocolInvariant
  import opened ProtocolTrail
  import Fingerprints

  lemma BegunIsSound(r: ActionStore.CreateRequest)
    requires Creatable(r)
    ensures Inv(Begun(r))
  {
    hide Sound;
    ActionStore.NewRowIsSound(r);
    assert Starts([ActionStore.CreatedEntry(r)]) == 0;
  }

  lemma {:induction false} ContinueKeepsInv(s: System, more: seq<Label>)
    requires Inv(s)
    ensures Inv(Continue(s, more))
  {
    hide Inv, Step;
    if more != [] {
      ContinueKeepsInv(s, more[..|more| - 1]);
      var before := Continue(s, more[..|more| - 1]);
      if Step(before, more[|more| - 1]).Some? {
        StepKeepsInv(before, more[|more| - 1], Step(before, more[|more| - 1]).value);
      }
    }
  }

  lemma RunsKeepInv(r: ActionStore.CreateRequest, run: seq<Label>)
    requires Creatable(r)
    ensures Inv(ActionProtocol.After(r, run))
  {
    hide Inv;
    BegunIsSound(r);
    ContinueKeepsInv(Begun(r), run);
  }

  // ---- At most one effect ----

  lemma EffectsAreSent(w: Wire, i: nat)
    requires WireSound(w) && i < |w.db.effects|
    ensures exists d :: d in w.sent && w.sent[d] == w.db.effects[i]
  {
    hide AnswerSound, TakenOnce;
    var call := w.db.effects[i];
    assert w.committer[call.key] in w.sent;
  }

  /**
    Over every interleaving of attempts, retries, crashes, lease expiry, recovery, replays and
    late or duplicated delivery: the action's key has at most one effect, that effect is the
    one request built from the gated record, and the key never clashes.
   */
  lemma AtMostOneEffect(r: ActionStore.CreateRequest, run: seq<Label>)
    requires Creatable(r)
    ensures var s := ActionProtocol.After(r, run);
      var effects := s.wire.db.effects;
      && (forall i, j |
            0 <= i < |effects| && 0 <= j < |effects| && effects[i].key == r.newKey && effects[j].key == r.newKey ::
            i == j)
      && (forall i | 0 <= i < |effects| && effects[i].key == r.newKey ::
            ExecutorRequest(s.row) == Call(effects[i]) && GatesSatisfied(s.row) && Dispatched(s.row.state))
      && (forall a | a in s.wire.answers && Mine(BoxOf(s), a.dispatch) :: a.origin != Conflict)
  {
    RunsKeepInv(r, run);
    IdentityIsForever(r, run);
    var s := ActionProtocol.After(r, run);
    OneRequestPerKey(s);
  }

  lemma {:induction false} IdentityIsForever(r: ActionStore.CreateRequest, run: seq<Label>)
    requires Creatable(r)
    ensures ActionProtocol.After(r, run).row.fixed == ActionStore.NewRow(r).fixed
  {
    hide Step, Inv;
    if run != [] {
      var before := ActionProtocol.After(r, run[..|run| - 1]);
      IdentityIsForever(r, run[..|run| - 1]);
      RunsKeepInv(r, run[..|run| - 1]);
      if Step(before, run[|run| - 1]).Some? {
        StepOfSound(before, run[|run| - 1], Step(before, run[|run| - 1]).value);
      }
    }
  }

  /** Every step from a sound system is a move. */
  lemma StepOfSound(s: System, l: Label, s': System)
    requires Inv(s) && Step(s, l) == Some(s')
    ensures MovesBy(s, MoveOf(s, l, s'), s')
    ensures s'.row.fixed == s.row.fixed
    ensures Inv(s')
  {
    hide Step, MoveOf, MovesBy, Mail, Trail, Ended, Sound;
    LedgerIsSound(s);
    OutcomesAreKnown(s);
    StepMoves(s, l, s');
    FixedForGood(s, MoveOf(s, l, s'), s');
    StepKeepsInv(s, l, s');
  }

  lemma OneRequestPerKey(s: System)
    requires Inv(s)
    ensures var effects := s.wire.db.effects;
      && (forall i, j |
            0 <= i < |effects| && 0 <= j < |effects| && effects[i].key == KeyOf(s) && effects[j].key == KeyOf(s) ::
            i == j)
      && (forall i | 0 <= i < |effects| && effects[i].key == KeyOf(s) ::
            ExecutorRequest(s.row) == Call(effects[i]) && GatesSatisfied(s.row) && Dispatched(s.row.state))
      && (forall a | a in s.wire.answers && Mine(BoxOf(s), a.dispatch) :: a.origin != Conflict)
  {
    hide Ledger, Crew, Trail, Ended, ExecutorRequest, GatesSatisfied, TakenOnce;
    var effects := s.wire.db.effects;
    forall i | 0 <= i < |effects| && effects[i].key == KeyOf(s)
      ensures ExecutorRequest(s.row) == Call(effects[i]) && GatesSatisfied(s.row) && Dispatched(s.row.state)
    {
      EffectsAreSent(s.wire, i);
      var d :| d in s.wire.sent && s.wire.sent[d] == effects[i];
      assert Mine(BoxOf(s), d);
      DispatchedRowsAreGated(s);
    }
    forall a | a in s.wire.answers && Mine(BoxOf(s), a.dispatch)
      ensures a.origin != Conflict
    {
      assert AnswerSound(s.wire, a);
      if KeyOf(s) in s.wire.committer {
        assert Mine(BoxOf(s), s.wire.committer[KeyOf(s)]);
      }
    }
  }

  lemma DispatchedRowsAreGated(s: System)
    requires Ledger(s)
    ensures s.grants != [] <==> Dispatched(s.row.state)
    ensures Dispatched(s.row.state) ==> GatesSatisfied(s.row)
  {
    hide Sound, GatesSatisfied, Distinct, Starts;
  }

  // ---- Lease linearity ----

  /** Every settlement uses up a different granted lease, and the one it commits under is the newest. */
  lemma SettlementsUseTheNewestLease(r: ActionStore.CreateRequest, run: seq<Label>, l: Label, s: System, s': System)
    requires Creatable(r) && s == ActionProtocol.After(r, run) && Step(s, l) == Some(s')
    ensures Distinct(s.grants) && Distinct(s.settled) && (forall lease | lease in s.settled :: lease in s.grants)
    ensures s'.settled == s.settled || (s.grants != [] && s'.settled == s.settled + [Last(s.grants)])
    ensures Terminal(s'.row.state) && !Terminal(s.row.state) ==> s'.settled != s.settled
  {
    hide Inv, Step, MoveOf, MovesBy, ActionProtocol.After;
    RunsKeepInv(r, run);
    StepOfSound(s, l, s');
    InvIsLedger(s);
    MovesSettleTheNewest(s, MoveOf(s, l, s'), s');
  }

  lemma InvIsLedger(s: System)
    requires Inv(s)
    ensures Ledger(s)
  {
  }

  lemma InvIsMail(s: System)
    requires Inv(s)
    ensures Mail(s)
  {
    hide Ledger, Crew, Mail, Trail, Ended;
  }

  lemma InvIsCrew(s: System)
    requires Inv(s)
    ensures Crew(s) && WireSound(s.wire)
  {
    hide Ledger, Crew, Trail, Ended, WireSound;
  }

  lemma MovesSettleTheNewest(s: System, m: Move, s': System)
    requires Ledger(s) && MovesBy(s, m, s')
    ensures Distinct(s.grants) && Distinct(s.settled) && (forall lease | lease in s.settled :: lease in s.grants)
    ensures s'.settled == s.settled || (s.grants != [] && s'.settled == s.settled + [Last(s.grants)])
    ensures Terminal(s'.row.state) && !Terminal(s.row.state) ==> s'.settled != s.settled
  {
    hide Sound, SameEvidence, GatesSatisfied, Starts, Distinct;
  }

  /** The lease was granted and no longer owns the row: recovered, re-granted or settled. */
  predicate Lost(s: System, lease: Uuid) {
    lease in s.grants && s.row.leaseOwner != Some(lease)
  }

  lemma LostStaysLost(s: System, l: Label, s': System, lease: Uuid)
    requires Inv(s) && Lost(s, lease) && Step(s, l) == Some(s')
    ensures Lost(s', lease)
    ensures lease in s'.settled <==> lease in s.settled
  {
    hide Inv, Step, MoveOf, MovesBy, Lost;
    StepOfSound(s, l, s');
    InvIsLedger(s);
    MovesKeepLost(s, MoveOf(s, l, s'), s', lease);
  }

  lemma MovesKeepLost(s: System, m: Move, s': System, lease: Uuid)
    requires Ledger(s) && MovesBy(s, m, s') && Lost(s, lease)
    ensures Lost(s', lease)
    ensures lease in s'.settled <==> lease in s.settled
  {
    hide Sound, SameEvidence, GatesSatisfied, Starts, Distinct;
  }

  lemma {:induction false} LostOnwards(s: System, more: seq<Label>, lease: Uuid)
    requires Inv(s) && Lost(s, lease)
    ensures Lost(Continue(s, more), lease)
    ensures lease in Continue(s, more).settled <==> lease in s.settled
  {
    hide Inv, Step, Lost;
    if more != [] {
      var before, l := Continue(s, more[..|more| - 1]), more[|more| - 1];
      LostOnwards(s, more[..|more| - 1], lease);
      ContinueKeepsInv(s, more[..|more| - 1]);
      if Step(before, l).Some? {
        LostStaysLost(before, l, Step(before, l).value, lease);
      }
    }
  }

  /** A lease that lost the row never owns it again and never settles, however the run goes on. */
  lemma LostLeasesNeverSettle(r: ActionStore.CreateRequest, run: seq<Label>, more: seq<Label>, lease: Uuid)
    requires Creatable(r)
    ensures var (s, s') := (ActionProtocol.After(r, run), ActionProtocol.After(r, run + more));
      Lost(s, lease) ==> Lost(s', lease) && (lease in s'.settled <==> lease in s.settled)
  {
    hide Inv, Lost;
    RunsKeepInv(r, run);
    ContinueJoins(Begun(r), run, more);
    if Lost(ActionProtocol.After(r, run), lease) {
      LostOnwards(ActionProtocol.After(r, run), more, lease);
    }
  }

  /** A worker that returns with a lost lease changes neither row nor log. */
  lemma StaleWorkersChangeNothing(s: System, l: Label, s': System)
    requires Inv(s) && Step(s, l) == Some(s') && (l.SettleOutcome? || l.RecordResponse?)
    requires Lost(s, s.workers[l.w].lease.value)
    ensures s'.row == s.row && s'.log == s.log
    ensures l.w !in s'.workers
  {
    hide Inv, GatesSatisfied, ActionLifecycle.Settle, WireStep, DecidesStep, RefreshedStep, Claims, RecoverStep,
      ReadFirstStep, DispatchStep, FailToConnectStep, HearStep, ReadBackStep;
  }

  // ---- Live leases ----

  /** The clock a step reads for its transaction on the row, if it has one. */
  function ClockOf(l: Label): Option<Time> {
    match l
    case Decides(_, now) => Some(now)
    case Refreshed(_, _, now) => Some(now)
    case ClaimForExecution(_, _, _, now) => Some(now)
    case Recover(_, now) => Some(now)
    case ClaimForReconciliation(_, _, now) => Some(now)
    case RecordResponse(_, now) => Some(now)
    case SettleOutcome(_, now) => Some(now)
    case _ => None
  }

  /** The lease owns the row until then. */
  predicate Holds(s: System, lease: Uuid, until: Time) {
    && s.row.state in {Executing, Unresolved}
    && s.row.leaseOwner == Some(lease) && s.row.leaseExpiresAt == Some(until)
  }

  /** Every clock read lies before the lease runs out. */
  ghost predicate InTime(more: seq<Label>, until: Time) {
    forall i | 0 <= i < |more| :: ClockOf(more[i]).Some? ==> ClockOf(more[i]).value < until
  }

  /** The lease still owns the row, in the state it had, or it was settled. */
  predicate HoldsOrSettled(s: System, lease: Uuid, until: Time, state: ActionState) {
    (Holds(s, lease, until) && s.row.state == state && lease !in s.settled) || lease in s.settled
  }

  lemma LiveLeasesAreKept(s: System, l: Label, s': System, lease: Uuid, until: Time)
    requires Holds(s, lease, until) && Step(s, l) == Some(s')
    requires (l.Recover? || l.ClaimForReconciliation?) && ClockOf(l).value < until
    ensures s'.row == s.row && s'.settled == s.settled
  {
    hide Step, ActionLifecycle.Settle, GatesSatisfied, RefundEvidence, CanReadFirst;
    if l.Recover? { RecoveringStep(s, l, s'); } else { ReclaimingStep(s, l, s'); }
  }

  lemma ResponsesKeepTheLease(s: System, l: Label, s': System)
    requires Step(s, l) == Some(s') && l.RecordResponse?
    ensures s'.row.leaseOwner == s.row.leaseOwner && s'.row.leaseExpiresAt == s.row.leaseExpiresAt
    ensures s'.row.state == s.row.state && s'.settled == s.settled
  {
    hide Step;
    RespondingStep(s, l, s');
  }

  /** What the other steps make of a held lease: nothing, or its settlement. */
  lemma OthersLeaveTheLease(s: System, l: Label, s': System, lease: Uuid, until: Time)
    requires Holds(s, lease, until) && MovesBy(s, MoveOf(s, l, s'), s')
    requires !l.Recover? && !l.ClaimForReconciliation? && !l.RecordResponse?
    ensures (s'.row == s.row && s'.settled == s.settled) || lease in s'.settled
  {
    hide Sound, SameEvidence, GatesSatisfied;
  }

  lemma HeldUntilSettled(s: System, l: Label, s': System, lease: Uuid, until: Time, state: ActionState)
    requires Inv(s) && Step(s, l) == Some(s') && HoldsOrSettled(s, lease, until, state)
    requires ClockOf(l).Some? ==> ClockOf(l).value < until
    ensures HoldsOrSettled(s', lease, until, state)
  {
    hide Inv, Step, MovesBy, MoveOf;
    StepOfSound(s, l, s');
    InvIsLedger(s);
    MovesSettleTheNewest(s, MoveOf(s, l, s'), s');
    if lease !in s.settled {
      if l.Recover? || l.ClaimForReconciliation? {
        LiveLeasesAreKept(s, l, s', lease, until);
      } else if l.RecordResponse? {
        ResponsesKeepTheLease(s, l, s');
      } else {
        OthersLeaveTheLease(s, l, s', lease, until);
      }
    }
  }

  lemma {:induction false} HeldOnwards(s: System, more: seq<Label>, lease: Uuid, until: Time)
    requires Inv(s) && Holds(s, lease, until) && lease !in s.settled && InTime(more, until)
    ensures HoldsOrSettled(Continue(s, more), lease, until, s.row.state)
  {
    hide Inv, Step;
    if more != [] {
      var before, l := Continue(s, more[..|more| - 1]), more[|more| - 1];
      HeldOnwards(s, more[..|more| - 1], lease, until);
      ContinueKeepsInv(s, more[..|more| - 1]);
      if Step(before, l).Some? {
        HeldUntilSettled(before, l, Step(before, l).value, lease, until, s.row.state);
      }
    }
  }

  lemma HeldIsUnsettled(s: System, lease: Uuid, until: Time)
    requires Ledger(s) && Holds(s, lease, until)
    ensures lease !in s.settled && lease in s.grants
  {
    hide Sound, GatesSatisfied, Starts;
  }

  lemma HolderMaySettle(s: System, w: WorkerId, lease: Uuid, until: Time)
    requires Inv(s) && Holds(s, lease, until)
    requires w in s.workers && s.workers[w].lease == Some(lease)
    ensures s.row.state == StateOf(s.workers[w].role)
    ensures s.workers[w].record.fixed.fingerprint == s.row.fixed.fingerprint
  {
    hide Mail, Trail, Ended, Sound, SameEvidence, GatesSatisfied, Starts, Recordable;
    assert WorkerOk(s.row, s.grants, s.settled, s.workers[w]);
  }

  lemma HoldersAreUnsettled(s: System, w: WorkerId)
    requires Crew(s) && w in s.workers && s.workers[w].lease.Some?
    ensures s.workers[w].lease.value !in s.settled
  {
  }

  /**
    While every clock that is read lies before a lease's expiry, only its holder's own settlement
    takes the row from it: whoever else decides, recovers, claims or crashes in between. So the
    holder, as long as it is there, gets through to the row mutator with whatever it settles.
   */
  lemma LiveLeasesLastUntilSettled(
    r: ActionStore.CreateRequest, run: seq<Label>, more: seq<Label>, lease: Uuid, until: Time)
    requires Creatable(r) && InTime(more, until)
    ensures var (s0, s) := (ActionProtocol.After(r, run), ActionProtocol.After(r, run + more));
      Holds(s0, lease, until) ==>
        && (lease in s.settled || (Holds(s, lease, until) && s.row.state == s0.row.state))
        && (forall w, o, now | w in s.workers && s.workers[w].lease == Some(lease) ::
              RecordOutcome(s.row, StateOf(s.workers[w].role), s.workers[w].record.fixed.fingerprint, lease, o, now)
                == Report(s.row, ActionLifecycle.Settle(s.row, Settlement(o, now))))
  {
    hide Inv, Holds, ActionLifecycle.Settle, Report, StateOf;
    RunsKeepInv(r, run);
    RunsKeepInv(r, run + more);
    ContinueJoins(Begun(r), run, more);
    var s0, s := ActionProtocol.After(r, run), ActionProtocol.After(r, run + more);
    if Holds(s0, lease, until) {
      InvIsLedger(s0);
      HeldIsUnsettled(s0, lease, until);
      HeldOnwards(s0, more, lease, until);
      forall w, o, now | w in s.workers && s.workers[w].lease == Some(lease)
        ensures RecordOutcome(
                  s.row, StateOf(s.workers[w].role), s.workers[w].record.fixed.fingerprint, lease, o, now)
                == Report(s.row, ActionLifecycle.Settle(s.row, Settlement(o, now)))
      {
        InvIsCrew(s);
        HoldersAreUnsettled(s, w);
        HolderMaySettle(s, w, lease, until);
        HeldOwner(s, lease, until);
      }
    }
  }

  lemma HeldOwner(s: System, lease: Uuid, until: Time)
    requires Holds(s, lease, until)
    ensures s.row.leaseOwner == Some(lease)
  {
  }

  // ---- One execution ----

  /**
    However often and concurrently it is confirmed, rejected, started and reconciled: an action
    has at most one customer decision and at most one execution start, attempts count the starts,
    and what was dispatched ends succeeded or failed, or stays open, but never undone.
   */
  lemma OneExecution(r: ActionStore.CreateRequest, run: seq<Label>)
    requires Creatable(r)
    ensures var s := ActionProtocol.After(r, run);
      && s.row.attempts == Starts(s.log) <= 1
      && (forall i, j |
            0 <= i < |s.log| && 0 <= j < |s.log| && CustomerEvent(s.log[i].kind) && CustomerEvent(s.log[j].kind) ::
            i == j)
      && (Starts(s.log) == 1 <==> s.row.state in {Executing, Unresolved, Succeeded, Failed})
      && (!NoneSent(BoxOf(s)) ==> Starts(s.log) == 1)
  {
    hide Crew, Trail, Ended, RowSound, WellFormed, GatesSatisfied, ExecutorRequest, Distinct, Starts, WireSound, Step;
    RunsKeepInv(r, run);
    var s := ActionProtocol.After(r, run);
    DispatchedRowsAreGated(s);
    assert DecisionsOrderly(s.log);
  }

  // ---- Same material ----

  predicate Matches(row: ActionRow, seen: Option<Freshness>) {
    seen.Some? && Current(row.fixed, seen.value)
  }

  /** Each stage that was passed was passed on facts with the row's own fingerprint. */
  ghost predicate SeenSound(s: System) {
    && (s.row.supervisor.verdict == Some(Granted) ==> Matches(s.row, s.seen.approval))
    && (s.row.customer.verdict == Some(Granted) ==> Matches(s.row, s.seen.confirmation))
    && (s.grants != [] ==> Matches(s.row, s.seen.dispatch))
    && (forall w | w in s.workers && s.workers[w].role == Executor && s.workers[w].place == Claiming ::
          Matches(s.row, s.workers[w].facts))
  }

  /** The part of it about the row. */
  predicate SeenRow(row: ActionRow, grants: seq<Uuid>, seen: Seen) {
    && (row.supervisor.verdict == Some(Granted) ==> Matches(row, seen.approval))
    && (row.customer.verdict == Some(Granted) ==> Matches(row, seen.confirmation))
    && (grants != [] ==> Matches(row, seen.dispatch))
  }

  lemma DecisionIsSeen(s: System, call: ServiceCall, now: Time)
    requires RowSound(s.row) && SeenRow(s.row, s.grants, s.seen) && GoesAhead(s.row.fixed, call)
    ensures var s' := DecidesStep(s, call, now);
      && SeenRow(s'.row, s'.grants, s'.seen) && s'.row.fixed == s.row.fixed
      && s'.workers == s.workers && s'.grants == s.grants
  {
    hide Transition, AsRequest, RowSound, Current;
    DecisionsAreGates(s.row, call, now);
  }

  /** No executor is newly at its claim, or there on another refresh. */
  ghost predicate ClaimersStay(s: System, s': System) {
    forall w | w in s'.workers && s'.workers[w].role == Executor && s'.workers[w].place == Claiming ::
      w in s.workers && s.workers[w] == s'.workers[w]
  }

  lemma ClaimIsSeen(s: System, l: Label, s': System)
    requires RowSound(s.row) && SeenSound(s) && Step(s, l) == Some(s') && l.ClaimForExecution?
    ensures SeenRow(s'.row, s'.grants, s'.seen) && s'.row.fixed == s.row.fixed && ClaimersStay(s, s')
  {
    hide Step, ClaimExecution, RowSound, Current, GatesSatisfied;
    ClaimingStep(s, l, s');
    ClaimGrants(s.row, s.workers[l.w].record.fixed.fingerprint, l.lease, l.claimedAt, LEASE_SECONDS, l.now);
  }

  lemma RefreshIsSeen(s: System, l: Label, s': System)
    requires RowSound(s.row) && SeenSound(s) && Step(s, l) == Some(s') && l.Refreshed?
    requires s.workers[l.w].record.fixed == s.row.fixed
    ensures SeenSound(s')
  {
    hide DecidesStep, Claims, RecoverStep, ReadFirstStep, DispatchStep, FailToConnectStep, HearStep, RowSound,
      RecordResponseStep, ReadBackStep, SettleStep, WireStep, RequestOf;
    DecisionIsSeen(s, ExpireStale, l.now);
    if !l.facts.decision.allowed {
      DecisionIsSeen(s, DenyReady(l.facts.decision), l.now);
    }
  }

  /** Nothing is newly seen. */
  ghost predicate KeepsSeen(s: System, s': System) {
    s'.seen == s.seen && ClaimersStay(s, s')
  }

  lemma RecoveryKeepsSeen(s: System, l: Label, s': System)
    requires Step(s, l) == Some(s') && (l.Recover? || l.RecordResponse? || l.SettleOutcome?)
    ensures KeepsSeen(s, s')
  {
    hide Step, RecoverExpiredExecution, RecordOutcome, RecordCommerceResponse, GatesSatisfied, RefundEvidence;
    if l.Recover? { RecoveringStep(s, l, s'); }
    else if l.RecordResponse? { RespondingStep(s, l, s'); }
    else { OutcomeStep(s, l, s'); }
  }

  lemma ClaimKeepsSeen(s: System, l: Label, s': System)
    requires Step(s, l) == Some(s') && l.ClaimForReconciliation?
    ensures KeepsSeen(s, s')
  {
    hide Step, ClaimReconciliation, CanReadFirst;
    ReclaimingStep(s, l, s');
  }

  lemma BystandersKeepSeen(s: System, l: Label, s': System)
    requires Step(s, l) == Some(s') && (l.StartExecutor? || l.StartReconciler? || l.Crash? || l.Network?)
    ensures KeepsSeen(s, s')
  {
    hide DecidesStep, RefreshedStep, Claims, RecoverStep, ReadFirstStep, DispatchStep, FailToConnectStep, HearStep,
      RecordResponseStep, ReadBackStep, SettleStep, WireStep, RequestOf, CanReadFirst, GoesAhead, GatesSatisfied,
      CodeOf;
  }

  /** No step but a refresh moves an executor to its claim. */
  lemma OthersKeepSeen(s: System, l: Label, s': System)
    requires Step(s, l) == Some(s') && !l.Decides? && !l.Refreshed? && !l.ClaimForExecution?
    ensures KeepsSeen(s, s')
  {
    hide Step;
    if Local(l) {
      LocalAdvances(s, l, s');
    } else {
      match l
      case ClaimForReconciliation(_, _, _) => ClaimKeepsSeen(s, l, s');
      case Recover(_, _) => RecoveryKeepsSeen(s, l, s');
      case RecordResponse(_, _) => RecoveryKeepsSeen(s, l, s');
      case SettleOutcome(_, _) => RecoveryKeepsSeen(s, l, s');
      case _ => BystandersKeepSeen(s, l, s');
    }
  }

  lemma SeenKept(s: System, l: Label, s': System)
    requires Inv(s) && SeenSound(s) && Step(s, l) == Some(s')
    ensures SeenSound(s')
  {
    hide Step, Sound, GatesSatisfied, Mail, Trail, Ended, Current, Distinct, Starts, Crew, MoveOf;
    LedgerIsSound(s);
    SoundRows(s.row, s.log);
    StepOfSound(s, l, s');
    match l
    case Decides(call, now) => DecisionLabel(s, l, s');
    case Refreshed(w, _, _) => RefreshLabel(s, l, s');
    case ClaimForExecution(_, _, _, _) => ClaimIsSeen(s, l, s');
    case _ => OthersKeepSeen(s, l, s'); NoGateElsewhere(s, l, s');
  }

  lemma NoGateElsewhere(s: System, l: Label, s': System)
    requires Step(s, l) == Some(s') && !l.Decides? && !l.Refreshed? && !l.ClaimForExecution?
    requires Inv(s)
    ensures var m := MoveOf(s, l, s'); !m.Gate? && !m.GrantFirst?
  {
    hide Inv, WireStep, RequestOf, ClaimReconciliation, RecoverExpiredExecution, RecordOutcome,
      RecordCommerceResponse, GatesSatisfied, RefundEvidence, CanReadFirst, CreatesResource, Classify, Claims,
      DecidesStep, RefreshedStep;
  }

  lemma DecisionLabel(s: System, l: Label, s': System)
    requires RowSound(s.row) && SeenSound(s) && Step(s, l) == Some(s') && l.Decides?
    ensures SeenSound(s')
  {
    hide DecidesStep, RowSound, GoesAhead, Current;
    DecisionIsSeen(s, l.call, l.now);
  }

  lemma RefreshLabel(s: System, l: Label, s': System)
    requires Inv(s) && SeenSound(s) && Step(s, l) == Some(s') && l.Refreshed?
    ensures SeenSound(s')
  {
    hide RefreshedStep, Ledger, Mail, Trail, Ended, Current, SameEvidence, GatesSatisfied, Sound, RowSound, SeenSound;
    LedgerIsSound(s);
    SoundRows(s.row, s.log);
    RefreshIsSeen(s, l, s');
  }

  /**
    At every dispatched action the refresh of the approval (where one is required), of the
    confirmation and of the executor whose claim won had the fingerprint the proposal was made on.
   */
  lemma {:induction false} OneMaterialThroughout(r: ActionStore.CreateRequest, run: seq<Label>)
    requires Creatable(r)
    ensures SeenSound(ActionProtocol.After(r, run))
    ensures var s := ActionProtocol.After(r, run);
      Dispatched(s.row.state) ==>
        && s.row.fixed.fingerprint == r.fingerprint
        && s.seen.confirmation.Some? && s.seen.confirmation.value.fingerprint == r.fingerprint
        && s.seen.dispatch.Some? && s.seen.dispatch.value.fingerprint == r.fingerprint
        && (s.row.approvalRequired ==> s.seen.approval.Some? && s.seen.approval.value.fingerprint == r.fingerprint)
  {
    hide Inv, Step, SeenSound;
    if run == [] {
      NothingSeenYet(r);
    } else {
      var before := ActionProtocol.After(r, run[..|run| - 1]);
      OneMaterialThroughout(r, run[..|run| - 1]);
      RunsKeepInv(r, run[..|run| - 1]);
      if Step(before, run[|run| - 1]).Some? {
        SeenKept(before, run[|run| - 1], Step(before, run[|run| - 1]).value);
      }
    }
    RunsKeepInv(r, run);
    IdentityIsForever(r, run);
    if Dispatched(ActionProtocol.After(r, run).row.state) {
      SeenWhenDispatched(ActionProtocol.After(r, run));
    }
  }

  lemma NothingSeenYet(r: ActionStore.CreateRequest)
    requires Creatable(r)
    ensures SeenSound(Begun(r))
  {
  }

  lemma SeenWhenDispatched(s: System)
    requires Inv(s) && SeenSound(s) && Dispatched(s.row.state)
    ensures Matches(s.row, s.seen.confirmation) && Matches(s.row, s.seen.dispatch)
    ensures s.row.approvalRequired ==> Matches(s.row, s.seen.approval)
  {
    hide Crew, Mail, Trail, Ended, Sound, Distinct, Starts, Matches;
    DispatchedRowsAreGated(s);
  }

  /** Whatever material the stages' fingerprints were taken of, it is one material. */
  lemma StagesSawOneMaterial(
    r: ActionStore.CreateRequest, run: seq<Label>, hash: Fingerprints.Envelope -> Fingerprint,
    payload: Fingerprints.Value, proposed: Fingerprints.Value, seen: Fingerprints.Value, stage: Option<Freshness>)
    requires Creatable(r) && Fingerprints.Injective(hash)
    requires Fingerprints.TakenOf(r.fingerprint, hash, ActionStore.NewRow(r).fixed, payload, proposed)
    requires stage.Some?
    requires Fingerprints.TakenOf(stage.value.fingerprint, hash, ActionStore.NewRow(r).fixed, payload, seen)
    ensures var s := ActionProtocol.After(r, run);
      && Dispatched(s.row.state)
      && (|| stage == s.seen.confirmation || stage == s.seen.dispatch
          || (s.row.approvalRequired && stage == s.seen.approval))
      ==> Fingerprints.SameMaterial(proposed, seen)
  {
    hide Inv, SeenSound;
    OneMaterialThroughout(r, run);
    if stage.value.fingerprint == r.fingerprint {
      Fingerprints.OneFingerprintOneMaterial(r.fingerprint, hash, ActionStore.NewRow(r).fixed, payload, proposed, seen);
    }
  }
}
