/**
  What the wire carries for the action's key, what evidence each worker holds, and on what
  evidence an action ended: the second half of the invariant of every run.
 */
module ProtocolTrail {
  import opened Options
  import opened ActionModel
  import opened ActionLifecycle
  import opened ActionLog
  import opened ActionServices
  import opened CommerceRequests
  import opened IdempotentWrites
  import opened CommerceWire
  import opened ActionProtocol
  import opened ProtocolMoves
  import opened ProtocolInvariant

  function KeyOf(s: System): Key { s.row.fixed.idempotencyKey }

  /** The wire as seen from one action: its own requests are those under its key. */
  datatype Mailbox = Mailbox(wire: Wire, key: Key)

  function BoxOf(s: System): Mailbox { Mailbox(s.wire, KeyOf(s)) }

  predicate Mine(b: Mailbox, d: Dispatch) {
    d in b.wire.sent && b.wire.sent[d].key == b.key
  }

  /** Nothing was ever sent under the action's key. */
  ghost predicate NoneSent(b: Mailbox) {
    forall d :: !Mine(b, d)
  }

  /** At most this one request was ever sent under the action's key. */
  ghost predicate OnlySent(b: Mailbox, d: Dispatch) {
    forall e | Mine(b, e) :: e == d
  }

  /** Everything sent under the key is the one request built from the record. */
  ghost predicate Mail(s: System) {
    && WireSound(s.wire)
    && (forall d | Mine(BoxOf(s), d) :: ExecutorRequest(s.row) == Call(s.wire.sent[d]) && s.grants != [])
  }

  ghost predicate HeardOf(b: Mailbox, a: Answer) {
    a in b.wire.answers && Mine(b, a.dispatch)
  }

  /** The statuses the client takes for a definite rejection. */
  predicate Refusing(status: int) {
    400 <= status < 500 && status != 408 && status != 429
  }

  ghost predicate Backed(b: Mailbox, role: Role, target: ActionState, e: Evidence) {
    match e
    case NothingSent => role == Executor && target == Failed
    case Heard(a) =>
      && HeardOf(b, a)
      && ((target == Failed && Refusing(StatusOf(a.reply))) || (target == Succeeded && Success(StatusOf(a.reply))))
    case ReadBackOnly => role == Reconciler && target == Succeeded
    case NoEvidence => target == Unresolved
  }

  ghost predicate WorkerBacked(b: Mailbox, me: Worker) {
    match me.place
    case Awaiting(d) => Mine(b, d)
    case Responding(a, _) => HeardOf(b, a) && Success(StatusOf(a.reply))
    case ReadingBack(a, _) => HeardOf(b, a) && Success(StatusOf(a.reply))
    case Settling(o, e) => Backed(b, me.role, o.target, e)
    case ReadingFirst => me.role == Reconciler
    case _ => true
  }

  /** While only the execution lease was granted, the executor's own request is the only one. */
  ghost predicate FirstTrail(b: Mailbox, me: Worker) {
    match me.place
    case Dispatching(_) => NoneSent(b)
    case Awaiting(d) => OnlySent(b, d)
    case Responding(a, _) => OnlySent(b, a.dispatch)
    case ReadingBack(a, _) => OnlySent(b, a.dispatch)
    case Settling(_, e) => (e.NothingSent? ==> NoneSent(b)) && (e.Heard? ==> OnlySent(b, e.answer.dispatch))
    case _ => true
  }

  ghost predicate Trail(s: System) {
    forall w | w in s.workers ::
      && WorkerBacked(BoxOf(s), s.workers[w])
      && (|s.grants| == 1 && s.workers[w].lease.Some? ==> FirstTrail(BoxOf(s), s.workers[w]))
  }

  /** How an action ended. An executor only ever ends it on its own, single request. */
  ghost predicate Ended(s: System) {
    && (Terminal(s.row.state) <==> s.ending.Some?)
    && (s.ending.Some? ==>
          var end := s.ending.value;
          && Backed(BoxOf(s), end.role, s.row.state, end.evidence)
          && (end.role == Executor ==>
                && |s.grants| == 1
                && (end.evidence.NothingSent? ==> NoneSent(BoxOf(s)))
                && (end.evidence.Heard? ==> OnlySent(BoxOf(s), end.evidence.answer.dispatch))))
  }

  // ---- What a step does to the wire ----

  /** The wire is as it was, or made one sound step; only a sending worker posts under the key. */
  ghost predicate WireMoves(s: System, l: Label, s': System) {
    && WireSound(s'.wire)
    && s.wire.answers <= s'.wire.answers
    && KeyOf(s') == KeyOf(s)
    && (forall d | d in s.wire.sent :: d in s'.wire.sent && s'.wire.sent[d] == s.wire.sent[d])
    && (forall d | Mine(BoxOf(s'), d) && !Mine(BoxOf(s), d) ::
          && l.Send? && d == l.d && At(s, l.w) && At(s', l.w)
          && s.workers[l.w].place.Dispatching? && s'.workers[l.w].place == Awaiting(d)
          && RequestOf(s.workers[l.w]) == Call(s'.wire.sent[d]))
  }

  lemma SentOnlyByPost(w: Wire, a: WireAction)
    requires WireStep(w, a).Some?
    ensures var w' := WireStep(w, a).value;
      && w.answers <= w'.answers
      && w'.sent == (if a.Post? then w.sent[a.d := a.call] else w.sent)
      && (a.Post? ==> a.d !in w.sent)
  {
  }

  lemma StepMovesWire(s: System, l: Label, s': System)
    requires Mail(s) && Step(s, l) == Some(s') && KeyOf(s') == KeyOf(s)
    ensures WireMoves(s, l, s')
  {
    hide WireSound, WireStep, RequestOf;
    hide RefreshedStep, Claims, RecoverStep, ReadFirstStep, FailToConnectStep, HearStep, RecordResponseStep,
      ReadBackStep, SettleStep, GoesAhead, DecidesStep;
    if l.Network? {
      WireStepKeepsSound(s.wire, l.a);
      SentOnlyByPost(s.wire, l.a);
    } else if l.Send? && RequestOf(s.workers[l.w]).Call? {
      var post := Post(l.d, RequestOf(s.workers[l.w]).call);
      WireStepKeepsSound(s.wire, post);
      SentOnlyByPost(s.wire, post);
    } else {
      WireUntouched(s, l, s');
    }
  }

  lemma SenderLeavesWire(s: System, l: Label, s': System)
    requires Step(s, l) == Some(s') && l.Send? && !RequestOf(s.workers[l.w]).Call?
    ensures s'.wire == s.wire
  {
    hide DecidesStep, RefreshedStep, Claims, RecoverStep, ReadFirstStep, FailToConnectStep, HearStep,
      RecordResponseStep, ReadBackStep, SettleStep, WireStep, RequestOf, GoesAhead, CodeOf;
  }

  lemma RecordingLeavesWire(s: System, l: Label, s': System)
    requires Step(s, l) == Some(s')
    requires l.Recover? || l.RecordResponse? || l.SettleOutcome? || l.Decides? || l.Refreshed?
    ensures s'.wire == s.wire
  {
    hide Step, RecoverExpiredExecution, RecordOutcome, RecordCommerceResponse, RefundEvidence, GatesSatisfied,
      Transition, AsRequest, GoesAhead;
    if l.Recover? { RecoveringStep(s, l, s'); }
    else if l.RecordResponse? { RespondingStep(s, l, s'); }
    else if l.SettleOutcome? { OutcomeStep(s, l, s'); }
    else if l.Decides? { DecidingStep(s, l, s'); }
    else { RefreshingStep(s, l, s'); }
  }

  lemma WireUntouched(s: System, l: Label, s': System)
    requires Step(s, l) == Some(s') && !l.Network? && (l.Send? ==> !RequestOf(s.workers[l.w]).Call?)
    ensures s'.wire == s.wire
  {
    hide DecidesStep, RefreshedStep, RecoverStep, RecordResponseStep, SettleStep, DispatchStep, WireStep, RequestOf,
      Classify, GoesAhead, CodeOf, ClaimExecution, ClaimReconciliation, CanReadFirst, GatesSatisfied;
    match l
    case Send(_, _) => SenderLeavesWire(s, l, s');
    case Recover(_, _) => RecordingLeavesWire(s, l, s');
    case RecordResponse(_, _) => RecordingLeavesWire(s, l, s');
    case SettleOutcome(_, _) => RecordingLeavesWire(s, l, s');
    case Decides(_, _) => RecordingLeavesWire(s, l, s');
    case Refreshed(_, _, _) => RecordingLeavesWire(s, l, s');
    case _ =>
  }

  /** Once a lease was granted the request built from the row never changes. */
  lemma RequestIsStable(s: System, m: Move, s': System)
    requires Ledger(s) && MovesBy(s, m, s') && s.grants != []
    ensures ExecutorRequest(s'.row) == ExecutorRequest(s.row)
  {
    hide Sound;
  }

  /** Whoever sends, executor or reconciler, sends the request built from the row. */
  lemma SenderBuildsTheRequest(s: System, me: Worker)
    requires WorkerOk(s.row, s.grants, s.settled, me) && me.lease.Some?
    ensures RequestOf(me) == ExecutorRequest(s.row)
  {
    RequestsAreIdentical(me.record, me.record);
  }

  lemma MailKept(s: System, l: Label, m: Move, s': System)
    requires Ledger(s) && Crew(s) && Mail(s)
    requires MovesBy(s, m, s') && CrewMoves(s, l, m, s') && WireMoves(s, l, s')
    ensures Mail(s')
  {
    hide Ledger, RowMove, WireSound, GatesSatisfied, CrewMoves, Crew;
    GrantsGrow(s, m, s');
    forall d | Mine(BoxOf(s'), d)
      ensures ExecutorRequest(s'.row) == Call(s'.wire.sent[d]) && s'.grants != []
    {
      if !Mine(BoxOf(s), d) {
        Holder(s, l.w);
        SenderBuildsTheRequest(s, s.workers[l.w]);
      }
      RequestIsStable(s, m, s');
    }
  }

  lemma GrantsGrow(s: System, m: Move, s': System)
    requires MovesBy(s, m, s')
    ensures s.grants <= s'.grants
  {
  }

  /** A worker past its claim holds a granted lease. */
  lemma Holder(s: System, w: WorkerId)
    requires Crew(s) && w in s.workers && Holding(s.workers[w].place)
    ensures s.workers[w].lease.Some? && WorkerOk(s.row, s.grants, s.settled, s.workers[w])
    ensures s.workers[w].lease.value in s.grants && s.grants != []
  {
  }

  // ---- Evidence stays ----

  /** Answers and sent requests only accumulate. */
  ghost predicate WireGrows(s: System, s': System) {
    && KeyOf(s') == KeyOf(s)
    && s.wire.answers <= s'.wire.answers
    && (forall d | d in s.wire.sent :: d in s'.wire.sent && s'.wire.sent[d] == s.wire.sent[d])
  }

  lemma BackedStays(s: System, s': System, me: Worker)
    requires WireGrows(s, s') && WorkerBacked(BoxOf(s), me)
    ensures WorkerBacked(BoxOf(s'), me)
  {
  }

  /** Two workers never both hold the only lease. */
  lemma OnlyOneHolder(s: System, v: WorkerId, w: WorkerId)
    requires Crew(s) && |s.grants| == 1
    requires v in s.workers && w in s.workers && s.workers[v].lease.Some? && s.workers[w].lease.Some?
    ensures v == w
  {
    Holder(s, v);
    Holder(s, w);
  }

  lemma FirstStays(s: System, s': System, me: Worker)
    requires WireGrows(s, s') && FirstTrail(BoxOf(s), me)
    requires forall d | Mine(BoxOf(s'), d) :: Mine(BoxOf(s), d)
    ensures FirstTrail(BoxOf(s'), me)
  {
  }

  ghost predicate PlaceBacked(s: System, me: Worker) {
    WorkerBacked(BoxOf(s), me) && (|s.grants| == 1 && me.lease.Some? ==> FirstTrail(BoxOf(s), me))
  }

  lemma BystanderBacked(s: System, l: Label, m: Move, s': System, v: WorkerId)
    requires Crew(s) && Trail(s)
    requires MovesBy(s, m, s') && CrewMoves(s, l, m, s') && WireMoves(s, l, s')
    requires v in s.workers && Some(v) != WhoOf(l)
    ensures v in s'.workers && PlaceBacked(s', s'.workers[v])
  {
    hide WorkerBacked, FirstTrail, WireSound, RowMove, Sound, GatesSatisfied, Backed, WorkerMoves, WorkerOk, Crew;
    var me := s.workers[v];
    BackedStays(s, s', me);
    if |s'.grants| == 1 && me.lease.Some? {
      LeaseGranted(s, v);
      forall d | Mine(BoxOf(s'), d)
        ensures Mine(BoxOf(s), d)
      {
        if !Mine(BoxOf(s), d) {
          Holder(s, l.w);
          OnlyOneHolder(s, v, l.w);
        }
      }
      FirstStays(s, s', me);
    }
  }

  lemma LeaseGranted(s: System, v: WorkerId)
    requires Crew(s) && v in s.workers && s.workers[v].lease.Some?
    ensures s.workers[v].lease.value in s.grants && s.grants != []
    ensures |s.grants| == 1 ==> s.workers[v].role == Executor
  {
  }

  /** The step's own worker, if it stays, is where its evidence allows. */
  ghost predicate MoverBacked(l: Label, s': System) {
    WhoOf(l).Some? && WhoOf(l).value in s'.workers ==> PlaceBacked(s', s'.workers[WhoOf(l).value])
  }

  /** What is known of the worker a step concerns, before the step. */
  ghost predicate MoverReady(s: System, l: Label) {
    WhoOf(l).Some? && WhoOf(l).value in s.workers ==>
      var me := s.workers[WhoOf(l).value];
      && PlaceBacked(s, me)
      && (Holding(me.place) <==> me.lease.Some?)
      && (|s.grants| == 1 && me.lease.Some? ==> me.role == Executor)
  }

  lemma SendBacks(s: System, l: Label, s': System)
    requires l.Send? && MoverReady(s, l) && Step(s, l) == Some(s')
    requires RequestOf(s.workers[l.w]).Call? ==> RequestOf(s.workers[l.w]).call.key == KeyOf(s)
    ensures MoverBacked(l, s')
  {
    hide DecidesStep, RefreshedStep, Claims, RecoverStep, ReadFirstStep, FailToConnectStep, HearStep,
      RecordResponseStep, ReadBackStep, SettleStep, RequestOf, WireStep;
    if RequestOf(s.workers[l.w]).Call? {
      SentOnlyByPost(s.wire, Post(l.d, RequestOf(s.workers[l.w]).call));
      assert forall e | Mine(BoxOf(s'), e) :: e == l.d || Mine(BoxOf(s), e);
    }
  }

  lemma FailureBacks(s: System, l: Label, s': System)
    requires MoverReady(s, l) && Step(s, l) == Some(s') && (l.FailToConnect? || l.LoseAnswer?)
    ensures MoverBacked(l, s')
  {
    hide DecidesStep, RefreshedStep, Claims, RecoverStep, ReadFirstStep, DispatchStep, HearStep, RecordResponseStep,
      ReadBackStep, SettleStep, RequestOf, WireStep, OrDefault, KnownResource;
  }

  lemma HearingBacks(s: System, l: Label, s': System)
    requires MoverReady(s, l) && Step(s, l) == Some(s') && l.Hear?
    ensures MoverBacked(l, s')
  {
    hide DecidesStep, RefreshedStep, Claims, RecoverStep, ReadFirstStep, DispatchStep, FailToConnectStep,
      RecordResponseStep, ReadBackStep, SettleStep, RequestOf, WireStep, OrDefault, KnownResource, CodeOf,
      BoundedStatus, BoundedCode;
  }

  lemma ReadingBacks(s: System, l: Label, s': System)
    requires MoverReady(s, l) && Step(s, l) == Some(s') && (l.ReadFirst? || l.ReadBack?)
    ensures MoverBacked(l, s')
  {
    hide DecidesStep, RefreshedStep, Claims, RecoverStep, DispatchStep, FailToConnectStep, HearStep,
      RecordResponseStep, SettleStep, RequestOf, WireStep, KnownResource, CreatesResource;
  }

  lemma ResponseBacks(s: System, l: Label, s': System)
    requires MoverReady(s, l) && Step(s, l) == Some(s') && l.RecordResponse?
    requires WireGrows(s, s') && s'.grants == s.grants
    ensures MoverBacked(l, s')
  {
    hide DecidesStep, RefreshedStep, Claims, RecoverStep, ReadFirstStep, DispatchStep, FailToConnectStep, HearStep,
      ReadBackStep, SettleStep, RequestOf, WireStep, RecordCommerceResponse;
  }

  lemma ClaimBacks(s: System, l: Label, s': System, m: Move)
    requires Step(s, l) == Some(s') && (l.ClaimForExecution? || l.ClaimForReconciliation?)
    requires Mail(s) && MovesBy(s, m, s') && m == MoveOf(s, l, s')
    requires StateLedger(s.row, s.grants, s.settled)
    requires WorkerMoves(s, l.w, m, s')
    ensures MoverBacked(l, s')
  {
    hide DecidesStep, RefreshedStep, RecoverStep, ReadFirstStep, DispatchStep, FailToConnectStep, HearStep,
      RecordResponseStep, ReadBackStep, SettleStep, RequestOf, WireStep, WireSound, Sound, SameEvidence,
      GatesSatisfied, ExecutorRequest, CanReadFirst;
  }

  lemma IdlersAreBacked(s: System, l: Label, s': System)
    requires MoverReady(s, l) && Step(s, l) == Some(s')
    requires l.StartExecutor? || l.Refreshed? || l.StartReconciler? || l.Recover? || l.SettleOutcome? || l.Crash?
    ensures MoverBacked(l, s')
  {
    hide DecidesStep, Claims, ReadFirstStep, DispatchStep, FailToConnectStep, HearStep, RecordResponseStep,
      ReadBackStep, WireStep, RecordOutcome, RecoverExpiredExecution, RefundEvidence, GatesSatisfied;
  }

  lemma MoverIsReady(s: System, l: Label)
    requires Crew(s) && Trail(s)
    ensures MoverReady(s, l)
  {
    hide WorkerBacked, FirstTrail, SameEvidence, GatesSatisfied, Recordable;
    if WhoOf(l).Some? && WhoOf(l).value in s.workers && s.workers[WhoOf(l).value].lease.Some? {
      LeaseGranted(s, WhoOf(l).value);
    }
  }

  lemma TrailKept(s: System, l: Label, s': System)
    requires Ledger(s) && Crew(s) && Mail(s) && Trail(s) && Step(s, l) == Some(s')
    ensures Trail(s')
  {
    hide Ledger, Step, WorkerBacked, FirstTrail, RowMove, WireSound, Holding, MoverReady, WorkerMoves, Crew, WhoOf;
    var m := MoveOf(s, l, s');
    LedgerIsSound(s);
    OutcomesAreKnown(s);
    StepMoves(s, l, s');
    StepMovesCrew(s, l, s');
    FixedForGood(s, m, s');
    StepMovesWire(s, l, s');
    forall v | v in s'.workers
      ensures PlaceBacked(s', s'.workers[v])
    {
      if Some(v) == WhoOf(l) {
        MoverKeepsTrail(s, l, m, s');
      } else {
        BystanderBacked(s, l, m, s', v);
      }
    }
  }

  lemma LedgerIsSound(s: System)
    requires Ledger(s)
    ensures Sound(s.row, s.log) && StateLedger(s.row, s.grants, s.settled)
  {
  }

  lemma OutcomesAreKnown(s: System)
    requires Crew(s)
    ensures OutcomesKnown(s)
  {
  }

  lemma MoverKeepsTrail(s: System, l: Label, m: Move, s': System)
    requires Ledger(s) && Crew(s) && Mail(s) && Trail(s)
    requires Step(s, l) == Some(s') && m == MoveOf(s, l, s') && WhoOf(l).Some?
    requires MovesBy(s, m, s') && CrewMoves(s, l, m, s') && WireMoves(s, l, s')
    ensures MoverBacked(l, s')
  {
    hide Ledger, WireSound, RowMove, Step, MoverReady, MoverBacked, Crew, Trail, Holding, StateLedger, WorkerMoves,
      Mail, RequestOf;
    MoverIsReady(s, l);
    LedgerIsSound(s);
    match l
    case Send(w, _) => SenderKey(s, l, s'); SendBacks(s, l, s');
    case FailToConnect(_) => FailureBacks(s, l, s');
    case LoseAnswer(_) => FailureBacks(s, l, s');
    case Hear(_, _, _, _, _) => HearingBacks(s, l, s');
    case ReadFirst(_, _) => ReadingBacks(s, l, s');
    case ReadBack(_, _) => ReadingBacks(s, l, s');
    case RecordResponse(_, _) => ResponseBacks(s, l, s');
    case ClaimForExecution(_, _, _, _) => ClaimBacks(s, l, s', m);
    case ClaimForReconciliation(_, _, _) => ClaimBacks(s, l, s', m);
    case _ => IdlersAreBacked(s, l, s');
  }

  lemma SenderKey(s: System, l: Label, s': System)
    requires Crew(s) && l.Send? && Step(s, l) == Some(s')
    ensures RequestOf(s.workers[l.w]).Call? ==> RequestOf(s.workers[l.w]).call.key == KeyOf(s)
  {
    hide DispatchStep, WireStep, ExecutorRequest, ReconcilerRequest;
    Holder(s, l.w);
    SenderBuildsTheRequest(s, s.workers[l.w]);
    RequestsCarryTheKey(s.row);
  }

  // ---- How an action ends ----

  lemma EndingStays(b: Mailbox, b': Mailbox, role: Role, target: ActionState, e: Evidence)
    requires Backed(b, role, target, e)
    requires b'.key == b.key && b.wire.answers <= b'.wire.answers
    requires forall d | d in b.wire.sent :: d in b'.wire.sent && b'.wire.sent[d] == b.wire.sent[d]
    ensures Backed(b', role, target, e)
  {
  }

  /** Once an executor ended the action, nobody holds a lease under which to send again. */
  lemma NobodySendsAfter(s: System, l: Label, m: Move, s': System)
    requires Ledger(s) && Crew(s) && Terminal(s.row.state) && |s.grants| == 1
    requires MovesBy(s, m, s') && WireMoves(s, l, s')
    ensures forall d | Mine(BoxOf(s'), d) :: Mine(BoxOf(s), d)
  {
    hide RowMove, WireSound, Sound, SameEvidence, GatesSatisfied, RequestOf;
    assert Last(s.settled) in s.settled;
    forall d | Mine(BoxOf(s'), d)
      ensures Mine(BoxOf(s), d)
    {
      if !Mine(BoxOf(s), d) {
        Holder(s, l.w);
      }
    }
  }

  lemma EndingKept(s: System, l: Label, m: Move, s': System)
    requires Ledger(s) && Crew(s) && Ended(s)
    requires MovesBy(s, m, s') && WireMoves(s, l, s') && !m.Settles?
    ensures Ended(s')
  {
    hide WireSound, Sound, Backed, Crew, SameEvidence, GatesSatisfied;
    if s.ending.Some? {
      var end := s.ending.value;
      assert m.Idle?;
      EndingStays(BoxOf(s), BoxOf(s'), end.role, s.row.state, end.evidence);
      if |s.grants| == 1 {
        NobodySendsAfter(s, l, m, s');
      }
    }
  }

  lemma SettlingEnds(s: System, l: Label, m: Move, s': System)
    requires Ledger(s) && Crew(s) && Trail(s) && Ended(s)
    requires Step(s, l) == Some(s') && m == MoveOf(s, l, s') && m.Settles? && MovesBy(s, m, s')
    ensures Ended(s')
  {
    hide DecidesStep, RefreshedStep, Claims, RecoverStep, ReadFirstStep, DispatchStep, FailToConnectStep, HearStep,
      RecordResponseStep, ReadBackStep, RequestOf, WireStep, RecordOutcome, RowMove, Sound, Starts, Distinct,
      SameEvidence, GatesSatisfied, Backed;
    var me := s.workers[l.w];
    SoundRows(s.row, s.log);
    FixedForGood(s, m, s');
    assert PlaceBacked(s, me);
    OutcomesSettle(s.row, StateOf(me.role),
                   me.record.fixed.fingerprint, me.lease.value, me.place.outcome, l.now);
  }

  lemma EndedKept(s: System, l: Label, s': System)
    requires Ledger(s) && Crew(s) && Mail(s) && Trail(s) && Ended(s) && Step(s, l) == Some(s')
    ensures Ended(s')
  {
    hide Ledger, Crew, Trail, Step, RowMove, WireSound, MoveOf;
    var m := MoveOf(s, l, s');
    LedgerIsSound(s);
    OutcomesAreKnown(s);
    StepMoves(s, l, s');
    FixedForGood(s, m, s');
    StepMovesWire(s, l, s');
    if m.Settles? { SettlingEnds(s, l, m, s'); } else { EndingKept(s, l, m, s'); }
  }

  // ---- The whole invariant ----

  ghost predicate Inv(s: System) {
    Ledger(s) && Crew(s) && Mail(s) && Trail(s) && Ended(s)
  }

  lemma StepKeepsInv(s: System, l: Label, s': System)
    requires Inv(s) && Step(s, l) == Some(s')
    ensures Inv(s')
  {
    hide Ledger, Crew, Mail, Trail, Ended, Step, MoveOf, MovesBy, CrewMoves, WireMoves;
    var m := MoveOf(s, l, s');
    LedgerIsSound(s);
    OutcomesAreKnown(s);
    StepMoves(s, l, s');
    StepMovesCrew(s, l, s');
    FixedForGood(s, m, s');
    MailIsSound(s);
    StepMovesWire(s, l, s');
    LedgerKept(s, m, s');
    CrewKept(s, l, m, s');
    MailKept(s, l, m, s');
    TrailKept(s, l, s');
    EndedKept(s, l, s');
  }

  lemma MailIsSound(s: System)
    requires Mail(s)
    ensures WireSound(s.wire)
  {
  }
}
