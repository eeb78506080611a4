/**
  The invariant of every run: the lease ledger, what each worker holds, what the wire carries
  for the action's key, and on what evidence an action ended.
 */
module ProtocolInvariant {
  import opened Options
  import opened ActionModel
  import opened ActionLifecycle
  import opened ActionLog
  import opened ActionServices
  import ActionStore
  import opened CommerceRequests
  import opened IdempotentWrites
  import opened CommerceWire
  import opened ActionProtocol
  import opened ProtocolMoves

  // ---- The ledger ----

  ghost predicate Distinct(leases: seq<Uuid>) {
    forall i, j | 0 <= i < j < |leases| :: leases[i] != leases[j]
  }

  function Starts(log: seq<ActionEvent>): nat {
    if log == [] then 0
    else Starts(log[..|log| - 1]) + if log[|log| - 1].kind == ExecutionStarted then 1 else 0
  }

  function Last(leases: seq<Uuid>): Uuid
    requires leases != []
  {
    leases[|leases| - 1]
  }

  /** What the state says about the leases; only the last granted one is ever live. */
  predicate StateLedger(row: ActionRow, grants: seq<Uuid>, settled: seq<Uuid>) {
    match row.state
    case Executing => |grants| == 1 && row.leaseOwner == Some(grants[0]) && settled == []
    case Unresolved =>
      && grants != []
      && (row.leaseOwner.Some? ==> |grants| >= 2 && row.leaseOwner.value == Last(grants) && Last(grants) !in settled)
    case Succeeded => grants != [] && settled != [] && Last(settled) == Last(grants)
    case Failed => grants != [] && settled != [] && Last(settled) == Last(grants)
    case _ => grants == []
  }

  ghost predicate Ledger(s: System) {
    && Sound(s.row, s.log)
    && Distinct(s.grants) && Distinct(s.settled)
    && (forall lease | lease in s.settled :: lease in s.grants)
    && s.row.attempts == Starts(s.log) == (if s.grants == [] then 0 else 1)
    && (s.grants != [] ==> GatesSatisfied(s.row))
    && StateLedger(s.row, s.grants, s.settled)
  }

  lemma StartsCounted(s: System, m: Move, s': System)
    requires MovesBy(s, m, s')
    ensures Starts(s'.log) == Starts(s.log) + if m.GrantFirst? then 1 else 0
  {
    hide Sound, RowMove;
    if !m.Idle? {
      assert s'.log[..|s'.log| - 1] == s.log;
    }
  }

  /** Grants stay distinct because a claim takes a new lease, settlements because only a live lease settles. */
  lemma LeasesKept(s: System, m: Move, s': System)
    requires Ledger(s) && MovesBy(s, m, s')
    ensures Distinct(s'.grants) && Distinct(s'.settled)
    ensures forall lease | lease in s'.settled :: lease in s'.grants
  {
    hide Sound, SameEvidence, GatesSatisfied, Starts;
  }

  lemma StateKept(s: System, m: Move, s': System)
    requires Ledger(s) && MovesBy(s, m, s')
    ensures StateLedger(s'.row, s'.grants, s'.settled)
    ensures s'.grants != [] ==> GatesSatisfied(s'.row)
    ensures s'.row.attempts == if s'.grants == [] then 0 else 1
  {
    hide Sound, SameEvidence, GatesSatisfied, Distinct, Starts;
    assert s.settled == [] || s.settled[0] in s.grants;
  }

  lemma LedgerKept(s: System, m: Move, s': System)
    requires Ledger(s) && MovesBy(s, m, s')
    ensures Ledger(s')
  {
    hide Sound, RowMove, Distinct, Starts, StateLedger, GatesSatisfied;
    LeasesKept(s, m, s');
    StateKept(s, m, s');
    StartsCounted(s, m, s');
    StartsFollow(s, m, s');
  }

  lemma StartsFollow(s: System, m: Move, s': System)
    requires Ledger(s) && MovesBy(s, m, s')
    ensures m.GrantFirst? ==> s.grants == []
    ensures m.GrantNext? ==> s.grants != []
  {
    hide Sound, SameEvidence, GatesSatisfied, Distinct, Starts;
  }

  // ---- The crew ----

  /** Each worker holds its own granted, unsettled lease; executors hold the first, reconcilers later ones. */
  predicate WorkerOk(row: ActionRow, grants: seq<Uuid>, settled: seq<Uuid>, me: Worker) {
    && me.record.fixed == row.fixed
    && (Holding(me.place) <==> me.lease.Some?)
    && (me.place.Settling? ==> Recordable(me.place.outcome))
    && (me.lease.Some? ==>
          && me.lease.value in grants && me.lease.value !in settled
          && (me.role == Executor <==> me.lease.value == grants[0])
          && SameEvidence(me.record, row) && GatesSatisfied(me.record))
  }

  ghost predicate Crew(s: System) {
    && (forall w | w in s.workers :: WorkerOk(s.row, s.grants, s.settled, s.workers[w]))
    && (forall v, w | v in s.workers && w in s.workers && v != w && s.workers[v].lease.Some? ::
          s.workers[v].lease != s.workers[w].lease)
  }

  function WhoOf(l: Label): Option<WorkerId> {
    match l
    case Decides(_, _) => None
    case Network(_) => None
    case _ => Some(l.w)
  }

  /** The one worker a step concerns: it leaves, goes on with what it holds, or starts on a new lease. */
  ghost predicate WorkerMoves(s: System, w: WorkerId, m: Move, s': System) {
    && (m.Settles? ==> w in s.workers && w !in s'.workers && s.workers[w].lease == Some(m.lease))
    && (w in s'.workers ==>
          var me' := s'.workers[w];
          && (Holding(me'.place) <==> me'.lease.Some?)
          && (me'.place.Settling? ==> Recordable(me'.place.outcome))
          && me'.record.fixed == s.row.fixed
          && (me'.lease.Some? ==>
                && w in s.workers && me'.role == s.workers[w].role
                && if m.GrantFirst? || m.GrantNext?
                   then me'.lease == Some(m.lease) && me'.record == s'.row && (me'.role == Executor <==> m.GrantFirst?)
                   else me'.lease == s.workers[w].lease && me'.record == s.workers[w].record))
  }

  ghost predicate CrewMoves(s: System, l: Label, m: Move, s': System) {
    && (forall v | Some(v) != WhoOf(l) :: v in s'.workers <==> v in s.workers)
    && (forall v | Some(v) != WhoOf(l) && v in s.workers :: s'.workers[v] == s.workers[v])
    && (WhoOf(l).Some? ==> WorkerMoves(s, WhoOf(l).value, m, s'))
    && (WhoOf(l).None? ==> m.Idle? || m.Gate?)
  }

  /** A worker that does not move stays sound, whatever the others do. */
  lemma BystanderKept(s: System, m: Move, s': System, me: Worker)
    requires Ledger(s) && MovesBy(s, m, s')
    requires WorkerOk(s.row, s.grants, s.settled, me)
    requires m.Settles? ==> me.lease != Some(m.lease)
    ensures WorkerOk(s'.row, s'.grants, s'.settled, me)
  {
    hide Sound, GatesSatisfied, Distinct, Recordable, Holding, Starts;
  }

  lemma MoverKept(s: System, w: WorkerId, m: Move, s': System)
    requires Ledger(s) && MovesBy(s, m, s') && WorkerMoves(s, w, m, s')
    requires w in s.workers ==> WorkerOk(s.row, s.grants, s.settled, s.workers[w])
    requires w in s'.workers
    ensures WorkerOk(s'.row, s'.grants, s'.settled, s'.workers[w])
  {
    hide Sound, GatesSatisfied, Distinct, Recordable, Holding, Starts;
    if m.GrantFirst? || m.GrantNext? {
      GrantsAreGated(s, m, s');
    }
  }

  lemma GrantsAreGated(s: System, m: Move, s': System)
    requires MovesBy(s, m, s') && (m.GrantFirst? || m.GrantNext?)
    ensures GatesSatisfied(s'.row) && SameEvidence(s'.row, s'.row)
  {
  }

  lemma CrewKept(s: System, l: Label, m: Move, s': System)
    requires Ledger(s) && Crew(s) && MovesBy(s, m, s') && CrewMoves(s, l, m, s')
    ensures Crew(s')
  {
    hide Ledger, RowMove, WorkerOk;
    forall v | v in s'.workers
      ensures WorkerOk(s'.row, s'.grants, s'.settled, s'.workers[v])
    {
      if Some(v) == WhoOf(l) { MoverKept(s, v, m, s'); } else { BystanderKept(s, m, s', s'.workers[v]); }
    }
    LeasesAreGranted(s);
  }

  lemma LeasesAreGranted(s: System)
    requires Crew(s)
    ensures forall w | w in s.workers && s.workers[w].lease.Some? :: s.workers[w].lease.value in s.grants
  {
  }

  /** What the crew invariant says of one worker, without the row. */
  lemma CrewMember(s: System, w: WorkerId)
    requires Crew(s)
    ensures OutcomesKnown(s)
    ensures w in s.workers ==>
              var me := s.workers[w];
              && me.record.fixed == s.row.fixed
              && (Holding(me.place) <==> me.lease.Some?)
              && (me.place.Settling? ==> Recordable(me.place.outcome))
  {
  }

  /** A claim that went through puts its worker on the new lease; one that did not sends it away. */
  lemma ClaimsMoveWorker(s: System, w: WorkerId, service: Service, lease: Uuid, next: Place, m: Move, s': System)
    requires At(s, w) && s' == Claims(s, w, service, lease, next) && Holding(next) && !next.Settling?
    requires service.reply.Claimed? ==>
               && service.change.Written? && service.reply.row == service.change.row
               && service.change.row.fixed == s.row.fixed
               && m == if s.workers[w].role == Executor then GrantFirst(lease) else GrantNext(lease)
    requires !service.reply.Claimed? ==> m.Idle? || m.Gate?
    ensures WorkerMoves(s, w, m, s')
    ensures forall v | v != w :: v in s'.workers <==> v in s.workers
    ensures forall v | v != w && v in s.workers :: s'.workers[v] == s.workers[v]
  {
    hide Recordable;
  }

  lemma ClaimMovesCrew(s: System, l: Label, s': System)
    requires Ledger(s) && Crew(s) && Step(s, l) == Some(s') && l.ClaimForExecution?
    ensures CrewMoves(s, l, MoveOf(s, l, s'), s')
  {
    hide Step, WorkerMoves, Recordable, Sound, Crew, Ledger, RowMove, ClaimExecution;
    SoundLedger(s);
    ClaimMoves(s, l, s');
    ClaimingStep(s, l, s');
    var fp := s.workers[l.w].record.fixed.fingerprint;
    ClaimGrants(s.row, fp, l.lease, l.claimedAt, LEASE_SECONDS, l.now);
    FixedForGood(s, MoveOf(s, l, s'), s');
    ClaimsMoveWorker(s, l.w, ClaimExecution(s.row, fp, l.lease, l.claimedAt, LEASE_SECONDS, l.now), l.lease,
                     Dispatching(0),
                     MoveOf(s, l, s'), s');
  }

  lemma ReclaimMovesCrew(s: System, l: Label, s': System)
    requires Ledger(s) && Crew(s) && Step(s, l) == Some(s') && l.ClaimForReconciliation?
    ensures CrewMoves(s, l, MoveOf(s, l, s'), s')
  {
    hide Step, WorkerMoves, Recordable, CanReadFirst, Sound, Crew, Ledger, RowMove, ClaimReconciliation;
    SoundLedger(s);
    ClaimMoves(s, l, s');
    ReclaimingStep(s, l, s');
    var fp := s.workers[l.w].record.fixed.fingerprint;
    ReclaimGrants(s.row, fp, l.lease, LEASE_SECONDS, l.now);
    FixedForGood(s, MoveOf(s, l, s'), s');
    ClaimsMoveWorker(s, l.w, ClaimReconciliation(s.row, fp, l.lease, LEASE_SECONDS, l.now), l.lease,
                     if CanReadFirst(s.row) then ReadingFirst else Dispatching(0), MoveOf(s, l, s'), s');
  }

  lemma SoundLedger(s: System)
    requires Ledger(s)
    ensures Sound(s.row, s.log) && RowSound(s.row)
  {
  }

  lemma FixedForGood(s: System, m: Move, s': System)
    requires MovesBy(s, m, s')
    ensures s'.row.fixed == s.row.fixed
  {
  }

  lemma ResponseMovesCrew(s: System, l: Label, s': System)
    requires Ledger(s) && Crew(s) && Step(s, l) == Some(s') && l.RecordResponse?
    ensures CrewMoves(s, l, MoveOf(s, l, s'), s')
  {
    hide Step, Recordable, Sound, RecordCommerceResponse, Crew, Ledger, RowMove;
    SoundLedger(s);
    CrewMember(s, l.w);
    RespondingStep(s, l, s');
    ResponseMoves(s, l, s');
  }

  lemma OutcomeMovesCrew(s: System, l: Label, s': System)
    requires Ledger(s) && Crew(s) && Step(s, l) == Some(s') && l.SettleOutcome?
    ensures CrewMoves(s, l, MoveOf(s, l, s'), s')
  {
    hide Step, Recordable, Sound, RecordOutcome, Crew, Ledger, RowMove, OutcomesKnown;
    SoundLedger(s);
    CrewMember(s, l.w);
    OutcomeStep(s, l, s');
    OutcomeMoves(s, l, s');
  }

  lemma RecoveryMovesCrew(s: System, l: Label, s': System)
    requires Ledger(s) && Crew(s) && Step(s, l) == Some(s') && l.Recover?
    ensures CrewMoves(s, l, MoveOf(s, l, s'), s')
  {
    hide Step, Recordable, Sound, RefundEvidence, Crew, Ledger, RowMove, RecoverExpiredExecution, GatesSatisfied;
    SoundLedger(s);
    CrewMember(s, l.w);
    RecoveringStep(s, l, s');
    RecoveryMoves(s, l, s');
    FixedForGood(s, MoveOf(s, l, s'), s');
    RecoveryReleases(s.row, s.workers[l.w].record.fixed.fingerprint, l.now);
  }

  lemma DecisionMovesCrew(s: System, l: Label, s': System)
    requires Ledger(s) && Step(s, l) == Some(s') && l.Decides?
    ensures CrewMoves(s, l, MoveOf(s, l, s'), s')
  {
    hide Step, DecidesStep, Sound, Ledger, RowMove;
    SoundLedger(s);
    DecidingStep(s, l, s');
    DecidesMoves(s, l.call, l.now);
  }

  lemma RefreshMovesCrew(s: System, l: Label, s': System)
    requires Ledger(s) && Crew(s) && Step(s, l) == Some(s') && l.Refreshed?
    ensures CrewMoves(s, l, MoveOf(s, l, s'), s')
  {
    hide Step, DecidesStep, Recordable, Sound, Crew, Ledger, RowMove;
    SoundLedger(s);
    CrewMember(s, l.w);
    RefreshingStep(s, l, s');
    DecidesMoves(s, ExpireStale, l.now);
    DecidesMoves(s, DenyReady(l.facts.decision), l.now);
  }

  /** A worker that sends, listens or reads keeps its lease and its snapshot, and stores nothing. */
  lemma LocalMovesCrew(s: System, l: Label, s': System)
    requires Crew(s) && Step(s, l) == Some(s') && Local(l)
    ensures CrewMoves(s, l, MoveOf(s, l, s'), s')
  {
    hide Step, Crew, Recordable, Holding;
    CrewMember(s, l.w);
    LocalAdvances(s, l, s');
  }

  lemma StepMovesCrew(s: System, l: Label, s': System)
    requires Ledger(s) && Crew(s) && Step(s, l) == Some(s')
    ensures CrewMoves(s, l, MoveOf(s, l, s'), s')
  {
    hide Step, Ledger, Crew, CrewMoves, MoveOf;
    if Local(l) {
      LocalMovesCrew(s, l, s');
    } else {
      match l
      case Decides(_, _) => DecisionMovesCrew(s, l, s');
      case Refreshed(_, _, _) => RefreshMovesCrew(s, l, s');
      case ClaimForExecution(_, _, _, _) => ClaimMovesCrew(s, l, s');
      case ClaimForReconciliation(_, _, _) => ReclaimMovesCrew(s, l, s');
      case Recover(_, _) => RecoveryMovesCrew(s, l, s');
      case RecordResponse(_, _) => ResponseMovesCrew(s, l, s');
      case SettleOutcome(_, _) => OutcomeMovesCrew(s, l, s');
      case _ => BystandersMoveCrew(s, l, s');
    }
  }

  /** Arrivals, crashes and the network. */
  lemma BystandersMoveCrew(s: System, l: Label, s': System)
    requires Crew(s) && Step(s, l) == Some(s') && (l.StartExecutor? || l.StartReconciler? || l.Crash? || l.Network?)
    ensures CrewMoves(s, l, MoveOf(s, l, s'), s')
  {
    hide DecidesStep, RefreshedStep, Claims, RecoverStep, ReadFirstStep, DispatchStep, FailToConnectStep, HearStep,
      RecordResponseStep, ReadBackStep, SettleStep, WireStep, RequestOf, CanReadFirst, GoesAhead, GatesSatisfied,
      Crew, Recordable;
  }
}
