/**
  What the steps of the protocol do to the row, the log and the leases: seven kinds of move.
  The invariant is proved about the moves, so the row mutator is opened only here.
 */
module ProtocolMoves {
  import opened Options
  import opened ActionModel
  import opened ActionLifecycle
  import opened ActionLog
  import opened ActionServices
  import ActionStore
  import opened CommerceRequests
  import opened ActionProtocol
  import opened CommerceWire

  predicate Dispatched(state: ActionState) {
    state in {Executing, Unresolved, Succeeded, Failed}
  }

  datatype Move =
    | Idle                  // row and log as they were
    | Gate                  // a decision or an expiry before any dispatch
    | GrantFirst(lease: Uuid)
    | Recovered
    | GrantNext(lease: Uuid)
    | Noted                 // the write's answer stored under the lease
    | Settles(lease: Uuid)

  /** What a move does to the row; evidence columns change only at the gates. */
  predicate RowMove(row: ActionRow, m: Move, row': ActionRow) {
    && row'.fixed == row.fixed
    && row'.attempts == (if m.GrantFirst? then row.attempts + 1 else row.attempts)
    && (!m.Gate? ==>
          && SameEvidence(row, row') && row'.customer == row.customer
          && (GatesSatisfied(row) ==> GatesSatisfied(row')))
    && match m
       case Idle => row' == row
       case Gate => Undispatched(row.state) && !Dispatched(row'.state)
       case GrantFirst(lease) =>
         && row.state == ReadyToExecute && row'.state == Executing
         && row'.leaseOwner == Some(lease) && GatesSatisfied(row')
       case Recovered => row.state == Executing && row'.state == Unresolved && row'.leaseOwner == None
       case GrantNext(lease) =>
         row.state == Unresolved && row'.state == Unresolved && row'.leaseOwner == Some(lease) && GatesSatisfied(row')
       case Noted => row.state == Executing && row'.state == Executing && row'.leaseOwner == row.leaseOwner
       case Settles(lease) =>
         && row.state in {Executing, Unresolved} && row.leaseOwner == Some(lease)
         && row'.state in {Succeeded, Failed, Unresolved} && row'.leaseOwner == None
  }

  predicate ChangeMoves(row: ActionRow, m: Move, change: Change) {
    match change
    case Kept => m == Idle
    case Written(row', event) =>
      m != Idle && RowMove(row, m, row') && (event.kind == ExecutionStarted <==> m.GrantFirst?)
  }

  function Unless(kept: bool, m: Move): Move { if kept then Idle else m }

  /** A decision is written at a gate, and only the matching decision event grants anything. */
  ghost predicate GateFacts(row: ActionRow, call: ServiceCall, now: Time) {
    var change := Transition(row, row.fixed.fingerprint, AsRequest(call, now)).change;
    && ChangeMoves(row, Unless(change.Kept?, Gate), change)
    && (change.Written? ==>
          && (change.row.supervisor.verdict == Some(Granted) ==>
                row.supervisor.verdict == Some(Granted) || (call.Approve? && change.event.kind == SupervisorApproved))
          && (change.row.customer.verdict == Some(Granted) ==>
                row.customer.verdict == Some(Granted) || (call.Confirm? && change.event.kind == CustomerConfirmed)))
  }

  /** Whatever a decision service asks, it moves only rows that were never dispatched. */
  lemma GateMoves(row: ActionRow, req: TransitionRequest)
    requires RowSound(row) && ActionLifecycle.Settle(row, req).Moved? && Exposed(req)
    requires req.target in {PolicyDenied, AwaitingApproval, AwaitingConfirmation, ReadyToExecute, Rejected, Expired}
    requires req.target == ReadyToExecute ==> req.reason != Some("proven_non_dispatch")
    requires req.kind != CommerceResponse && req.kind != ExecutionStarted
    ensures var d := ActionLifecycle.Settle(row, req);
      && RowMove(row, Gate, d.row) && d.event.kind != ExecutionStarted
      && (d.row.supervisor.verdict == Some(Granted) ==>
            || row.supervisor.verdict == Some(Granted)
            || (req.kind == SupervisorApproved && d.event.kind == SupervisorApproved))
      && (d.row.customer.verdict == Some(Granted) ==>
            || row.customer.verdict == Some(Granted)
            || (req.kind == CustomerConfirmed && d.event.kind == CustomerConfirmed))
  {
    hide ReasonCode, HexDigest, RowChecks, GatesSatisfied;
  }

  lemma DecisionsAreGates(row: ActionRow, call: ServiceCall, now: Time)
    requires RowSound(row)
    ensures GateFacts(row, call, now)
  {
    hide RowSound, ActionLifecycle.Settle, RowMove;
    var req := AsRequest(call, now);
    if ActionLifecycle.Settle(row, req).Moved? {
      GateMoves(row, req);
    }
  }

  lemma ClaimGrants(row: ActionRow, fp: Fingerprint, lease: Uuid, claimedAt: Time, seconds: int, now: Time)
    requires RowSound(row)
    ensures var service := ClaimExecution(row, fp, lease, claimedAt, seconds, now);
      if service.reply.Claimed? then
        && service.change.Written? && service.reply.row == service.change.row
        && ChangeMoves(row, GrantFirst(lease), service.change)
      else ChangeMoves(row, Unless(service.change.Kept?, Gate), service.change)
           && (service.change.Written? ==>
                 service.change.row.supervisor == row.supervisor && service.change.row.customer == row.customer)
  {
  }

  lemma RecoveryReleases(row: ActionRow, fp: Fingerprint, now: Time)
    requires RowSound(row)
    ensures var service := RecoverExpiredExecution(row, fp, now);
      && ChangeMoves(row, Unless(service.change.Kept?, Recovered), service.change)
      && (service.reply.Answered? ==> service.reply.row == if service.change.Kept? then row else service.change.row)
  {
  }

  lemma ReclaimGrants(row: ActionRow, fp: Fingerprint, lease: Uuid, seconds: int, now: Time)
    requires RowSound(row)
    ensures var service := ClaimReconciliation(row, fp, lease, seconds, now);
      if service.reply.Claimed? then
        && service.change.Written? && service.reply.row == service.change.row
        && ChangeMoves(row, GrantNext(lease), service.change)
      else service.change.Kept?
  {
  }

  lemma ResponsesAreNoted(row: ActionRow, fp: Fingerprint, lease: Uuid, status: int, resource: Option<Uuid>, now: Time)
    requires RowSound(row)
    ensures var change := RecordCommerceResponse(row, fp, lease, status, resource, now).change;
      ChangeMoves(row, Unless(change.Kept?, Noted), change)
  {
  }

  predicate Recordable(o: Outcome) {
    o.target in {Succeeded, Failed, Unresolved} && o.kind != ExecutionStarted
  }

  lemma OutcomesSettle(row: ActionRow, under: ActionState, fp: Fingerprint, lease: Uuid, o: Outcome, now: Time)
    requires RowSound(row) && under in {Executing, Unresolved} && Recordable(o)
    ensures var change := RecordOutcome(row, under, fp, lease, o, now).change;
      && ChangeMoves(row, Unless(change.Kept?, Settles(lease)), change)
      && (change.Written? ==> row.state == under && change.row.state == o.target && row.fixed.fingerprint == fp)
  {
  }

  // ---- The whole system ----

  /** The move a step makes, told apart by what it stored. */
  function MoveOf(s: System, l: Label, s': System): Move {
    if s'.log == s.log then Idle
    else
      match l
      case ClaimForExecution(_, lease, _, _) => if s'.grants == s.grants then Gate else GrantFirst(lease)
      case Recover(_, _) => Recovered
      case ClaimForReconciliation(_, lease, _) => GrantNext(lease)
      case RecordResponse(_, _) => Noted
      case SettleOutcome(w, _) =>
        if At(s, w) && s.workers[w].lease.Some? then Settles(s.workers[w].lease.value) else Idle
      case _ => Gate
  }

  /** Row and log move together, leases are granted and settled exactly by the moves that say so. */
  ghost predicate MovesBy(s: System, m: Move, s': System) {
    && RowMove(s.row, m, s'.row)
    && Sound(s'.row, s'.log)
    && s'.grants == (if m.GrantFirst? || m.GrantNext? then s.grants + [m.lease] else s.grants)
    && (m.GrantFirst? || m.GrantNext? ==> m.lease !in s.grants)
    && s'.settled == (if m.Settles? then s.settled + [m.lease] else s.settled)
    && (!m.Settles? ==> s'.ending == s.ending)
    && if m.Idle? then s'.log == s.log
       else |s'.log| == |s.log| + 1 && s'.log[..|s.log|] == s.log
            && (s'.log[|s.log|].kind == ExecutionStarted <==> m.GrantFirst?)
  }

  predicate Holding(place: Place) {
    !place.Refreshing? && !place.Recovering? && !place.Claiming?
  }

  // ---- Steps that store nothing ----

  /** The labels of a worker that sends, listens or reads under its lease. */
  predicate Local(l: Label) {
    l.ReadFirst? || l.Send? || l.FailToConnect? || l.Hear? || l.LoseAnswer? || l.ReadBack?
  }

  predicate SameRecord(s: System, s': System) {
    && s'.row == s.row && s'.log == s.log && s'.grants == s.grants && s'.settled == s.settled
    && s'.ending == s.ending && s'.seen == s.seen
  }

  predicate AboutToSend(place: Place) { place.Dispatching? || place.ReadingFirst? }

  predicate AdvancesTo(me: Worker, me': Worker) {
    && me'.role == me.role && me'.record == me.record && me'.lease == me.lease
    && Holding(me.place) && Holding(me'.place)
    && (me'.place.Settling? ==> Recordable(me'.place.outcome))
    && (AboutToSend(me'.place) ==> AboutToSend(me.place))
  }

  /** One worker goes on, or leaves, with what it holds; nothing is stored. */
  ghost predicate Advances(s: System, w: WorkerId, s': System) {
    && w in s.workers && SameRecord(s, s')
    && (forall v | v != w :: v in s'.workers <==> v in s.workers)
    && (forall v | v != w && v in s.workers :: s'.workers[v] == s.workers[v])
    && (w in s'.workers ==> AdvancesTo(s.workers[w], s'.workers[w]))
  }

  lemma ReadingAdvances(s: System, l: Label, s': System)
    requires Step(s, l) == Some(s') && (l.ReadFirst? || l.ReadBack?)
    ensures Advances(s, l.w, s')
  {
    hide DecidesStep, RefreshedStep, Claims, RecoverStep, DispatchStep, FailToConnectStep, HearStep,
      RecordResponseStep, SettleStep, WireStep, RequestOf, GatesSatisfied, GoesAhead, CreatesResource, KnownResource;
  }

  lemma SendAdvances(s: System, l: Label, s': System)
    requires Step(s, l) == Some(s') && l.Send?
    ensures Advances(s, l.w, s')
  {
    hide DecidesStep, RefreshedStep, Claims, RecoverStep, ReadFirstStep, FailToConnectStep, HearStep,
      RecordResponseStep, ReadBackStep, SettleStep, WireStep, RequestOf, GatesSatisfied, GoesAhead;
  }

  lemma FailureAdvances(s: System, l: Label, s': System)
    requires Step(s, l) == Some(s') && (l.FailToConnect? || l.LoseAnswer?)
    ensures Advances(s, l.w, s')
  {
    hide DecidesStep, RefreshedStep, Claims, RecoverStep, ReadFirstStep, DispatchStep, HearStep, RecordResponseStep,
      ReadBackStep, SettleStep, WireStep, RequestOf, GatesSatisfied, GoesAhead, OrDefault, KnownResource;
  }

  lemma HearingAdvances(s: System, l: Label, s': System)
    requires Step(s, l) == Some(s') && l.Hear?
    ensures Advances(s, l.w, s')
  {
    hide DecidesStep, RefreshedStep, Claims, RecoverStep, ReadFirstStep, DispatchStep, FailToConnectStep,
      RecordResponseStep, ReadBackStep, SettleStep, WireStep, RequestOf, GatesSatisfied, GoesAhead, OrDefault,
      KnownResource, Classify, CodeOf;
  }

  lemma LocalAdvances(s: System, l: Label, s': System)
    requires Step(s, l) == Some(s') && Local(l)
    ensures Advances(s, l.w, s')
  {
    hide Step, Advances;
    match l
    case Send(_, _) => SendAdvances(s, l, s');
    case Hear(_, _, _, _, _) => HearingAdvances(s, l, s');
    case FailToConnect(_) => FailureAdvances(s, l, s');
    case LoseAnswer(_) => FailureAdvances(s, l, s');
    case _ => ReadingAdvances(s, l, s');
  }

  // ---- Every step is a move ----

  /** Settling workers record one of the three outcomes. */
  ghost predicate OutcomesKnown(s: System) {
    forall w | w in s.workers && s.workers[w].place.Settling? ::
      Recordable(s.workers[w].place.outcome)
  }

  lemma StoreMoves(s: System, m: Move, change: Change)
    requires Sound(s.row, s.log) && ChangeMoves(s.row, m, change)
    requires ActionStore.ChangeSound(s.row, s.log, change)
    requires !m.GrantFirst? && !m.GrantNext? && !m.Settles?
    ensures MovesBy(s, m, Store(s, change))
  {
    hide Sound, RowMove;
    IdleMove(s.row);
  }

  lemma IdleMove(row: ActionRow)
    ensures RowMove(row, Idle, row)
  {
  }

  lemma DecidesMoves(s: System, call: ServiceCall, now: Time)
    requires Sound(s.row, s.log)
    ensures var s' := DecidesStep(s, call, now);
      MovesBy(s, if s'.log == s.log then Idle else Gate, s') && s'.workers == s.workers && s'.wire == s.wire
  {
    hide Sound, RowMove, Transition, AsRequest, ActionStore.ChangeSound;
    SoundRows(s.row, s.log);
    DecisionsAreGates(s.row, call, now);
    ActionStore.ServicesAreSound(s.row, s.log, s.row.fixed.fingerprint, now);
    var change := Transition(s.row, s.row.fixed.fingerprint, AsRequest(call, now)).change;
    StoreMoves(s, Unless(change.Kept?, Gate), change);
  }

  lemma SoundRows(row: ActionRow, log: seq<ActionEvent>)
    requires Sound(row, log)
    ensures RowSound(row)
  {
  }

  lemma ClaimMoves(s: System, l: Label, s': System)
    requires Sound(s.row, s.log)
    requires Step(s, l) == Some(s') && (l.ClaimForExecution? || l.ClaimForReconciliation?)
    ensures MovesBy(s, MoveOf(s, l, s'), s')
  {
    hide Sound, RowMove, ClaimExecution, ClaimReconciliation, ActionStore.ChangeSound, GatesSatisfied;
    SoundRows(s.row, s.log);
    IdleMove(s.row);
    var fp := s.workers[l.w].record.fixed.fingerprint;
    ActionStore.ServicesAreSound(s.row, s.log, fp, l.now);
    ChangesKeepSound(s.row, s.log);
    match l
    case ClaimForExecution(w, lease, claimedAt, now) =>
      ClaimGrants(s.row, fp, lease, claimedAt, LEASE_SECONDS, now);
    case ClaimForReconciliation(w, lease, now) =>
      ReclaimGrants(s.row, fp, lease, LEASE_SECONDS, now);
  }

  lemma ChangesKeepSound(row: ActionRow, log: seq<ActionEvent>)
    requires Sound(row, log)
    ensures forall change: Change | ActionStore.ChangeSound(row, log, change) && change.Written? ::
              Sound(change.row, log + [change.event])
  {
    hide Sound;
  }

  lemma RecoveryMoves(s: System, l: Label, s': System)
    requires Sound(s.row, s.log) && Step(s, l) == Some(s') && l.Recover?
    ensures MovesBy(s, MoveOf(s, l, s'), s')
  {
    hide Step, Sound, RowMove, RecoverExpiredExecution, ActionStore.ChangeSound, GatesSatisfied, RefundEvidence;
    RecoveringStep(s, l, s');
    SoundRows(s.row, s.log);
    IdleMove(s.row);
    var fp := s.workers[l.w].record.fixed.fingerprint;
    ActionStore.ServicesAreSound(s.row, s.log, fp, l.now);
    ChangesKeepSound(s.row, s.log);
    RecoveryReleases(s.row, fp, l.now);
  }

  lemma ResponseMoves(s: System, l: Label, s': System)
    requires Sound(s.row, s.log) && Step(s, l) == Some(s') && l.RecordResponse?
    ensures MovesBy(s, MoveOf(s, l, s'), s')
  {
    hide Step, Sound, RowMove, RecordCommerceResponse, ActionStore.ChangeSound;
    RespondingStep(s, l, s');
    SoundRows(s.row, s.log);
    IdleMove(s.row);
    var me := s.workers[l.w];
    var fp := me.record.fixed.fingerprint;
    ActionStore.ServicesAreSound(s.row, s.log, fp, l.now);
    ChangesKeepSound(s.row, s.log);
    ResponsesAreNoted(s.row, fp, me.lease.value, StatusOf(me.place.accepted.reply), me.place.resource, l.now);
  }

  lemma OutcomeMoves(s: System, l: Label, s': System)
    requires Sound(s.row, s.log) && OutcomesKnown(s) && Step(s, l) == Some(s') && l.SettleOutcome?
    ensures MovesBy(s, MoveOf(s, l, s'), s')
  {
    hide Step, Sound, RowMove, RecordOutcome, ActionStore.ChangeSound, Recordable;
    OutcomeStep(s, l, s');
    SoundRows(s.row, s.log);
    IdleMove(s.row);
    var me := s.workers[l.w];
    var fp := me.record.fixed.fingerprint;
    ActionStore.ServicesAreSound(s.row, s.log, fp, l.now);
    ChangesKeepSound(s.row, s.log);
    OutcomesSettle(s.row, StateOf(me.role), fp, me.lease.value, me.place.outcome, l.now);
  }

  lemma StillMoves(s: System, l: Label, s': System)
    requires Sound(s.row, s.log) && SameRecord(s, s')
    ensures MovesBy(s, MoveOf(s, l, s'), s')
  {
    hide Sound;
  }

  lemma BystandersStoreNothing(s: System, l: Label, s': System)
    requires Step(s, l) == Some(s') && (l.StartExecutor? || l.StartReconciler? || l.Crash? || l.Network?)
    ensures SameRecord(s, s')
  {
    hide DecidesStep, RefreshedStep, Claims, RecoverStep, ReadFirstStep, DispatchStep, FailToConnectStep, HearStep,
      RecordResponseStep, ReadBackStep, SettleStep, WireStep, RequestOf, CanReadFirst, GoesAhead, GatesSatisfied;
  }

  lemma RefreshMoves(s: System, l: Label, s': System)
    requires Sound(s.row, s.log) && Step(s, l) == Some(s') && l.Refreshed?
    ensures MovesBy(s, MoveOf(s, l, s'), s')
  {
    hide Step, Sound, RowMove, DecidesStep;
    RefreshingStep(s, l, s');
    IdleMove(s.row);
    DecidesMoves(s, ExpireStale, l.now);
    DecidesMoves(s, DenyReady(l.facts.decision), l.now);
  }

  lemma DecidesLabelMoves(s: System, l: Label, s': System)
    requires Sound(s.row, s.log) && Step(s, l) == Some(s') && l.Decides?
    ensures MovesBy(s, MoveOf(s, l, s'), s')
  {
    hide Step, Sound, RowMove, DecidesStep;
    DecidingStep(s, l, s');
    DecidesMoves(s, l.call, l.now);
  }

  /** Every step is one of the seven moves. */
  lemma StepMoves(s: System, l: Label, s': System)
    requires Sound(s.row, s.log) && OutcomesKnown(s)
    requires Step(s, l) == Some(s')
    ensures MovesBy(s, MoveOf(s, l, s'), s')
  {
    hide Step, Sound, MovesBy, MoveOf, OutcomesKnown, SameRecord;
    if Local(l) {
      LocalAdvances(s, l, s');
      StillMoves(s, l, s');
    } else {
      match l
      case Decides(_, _) => DecidesLabelMoves(s, l, s');
      case Refreshed(_, _, _) => RefreshMoves(s, l, s');
      case ClaimForExecution(_, _, _, _) => ClaimMoves(s, l, s');
      case ClaimForReconciliation(_, _, _) => ClaimMoves(s, l, s');
      case Recover(_, _) => RecoveryMoves(s, l, s');
      case RecordResponse(_, _) => ResponseMoves(s, l, s');
      case SettleOutcome(_, _) => OutcomeMoves(s, l, s');
      case _ =>
        BystandersStoreNothing(s, l, s');
        StillMoves(s, l, s');
    }
  }
}
