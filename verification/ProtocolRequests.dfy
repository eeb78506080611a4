/**
  How often the action's request goes out: every granted lease sends it at most once, after at
  most two attempts to connect.
 */
module ProtocolRequests {
  import opened Options
  import opened Sets
  import opened ActionModel
  import opened ActionLifecycle
  import opened ActionServices
  import ActionStore
  import opened CommerceRequests
  import opened IdempotentWrites
  import opened CommerceWire
  import opened ActionProtocol
  import opened ProtocolMoves
  import opened ProtocolInvariant
  import opened ProtocolTrail
  import opened ProtocolSafety

  /** The requests sent under the action's key. */
  function Requests(b: Mailbox): set<Dispatch> {
    set d | d in b.wire.sent && Mine(b, d)
  }

  /** The workers that may still send one. */
  function Senders(s: System): set<WorkerId> {
    set w | w in s.workers && AboutToSend(s.workers[w].place)
  }

  ghost predicate RequestsCovered(s: System) {
    && |Requests(BoxOf(s))| + |Senders(s)| <= |s.grants|
    && (forall w | w in s.workers && s.workers[w].place.Dispatching? :: s.workers[w].place.attempt <= 1)
  }

  /** A step makes at most its own worker a sender, and only by a grant; no attempt is a third one. */
  ghost predicate SendersGrow(s: System, l: Label, s': System) {
    && Senders(s') <= Senders(s) + (if s'.grants == s.grants || WhoOf(l).None? then {} else {WhoOf(l).value})
    && (forall w | w in s'.workers && s'.workers[w].place.Dispatching? ::
          s'.workers[w].place.attempt <= 1 || (w in s.workers && s'.workers[w].place == s.workers[w].place))
  }

  lemma ReadingKeepsSenders(s: System, l: Label, s': System)
    requires Step(s, l) == Some(s') && (l.ReadFirst? || l.ReadBack?)
    ensures SendersGrow(s, l, s')
  {
    hide DecidesStep, RefreshedStep, Claims, RecoverStep, DispatchStep, FailToConnectStep, HearStep,
      RecordResponseStep, SettleStep, WireStep, RequestOf, GatesSatisfied, GoesAhead, CreatesResource, KnownResource,
      CodeOf;
  }

  lemma SpeakingKeepsSenders(s: System, l: Label, s': System)
    requires Step(s, l) == Some(s') && (l.Hear? || l.Send?)
    ensures SendersGrow(s, l, s')
  {
    hide DecidesStep, RefreshedStep, Claims, RecoverStep, ReadFirstStep, FailToConnectStep, RecordResponseStep,
      ReadBackStep, SettleStep, WireStep, RequestOf, GatesSatisfied, GoesAhead, KnownResource, Classify, CodeOf,
      OrDefault;
  }

  lemma FailingKeepsSenders(s: System, l: Label, s': System)
    requires Step(s, l) == Some(s') && (l.FailToConnect? || l.LoseAnswer?)
    ensures SendersGrow(s, l, s')
  {
    hide DecidesStep, RefreshedStep, Claims, RecoverStep, ReadFirstStep, DispatchStep, HearStep, RecordResponseStep,
      ReadBackStep, SettleStep, WireStep, RequestOf, GatesSatisfied, GoesAhead, OrDefault, KnownResource;
  }

  lemma ClaimingGrowsSenders(s: System, l: Label, s': System)
    requires Step(s, l) == Some(s') && (l.ClaimForExecution? || l.ClaimForReconciliation?)
    ensures SendersGrow(s, l, s')
  {
    hide Step, ClaimExecution, ClaimReconciliation, CanReadFirst;
    if l.ClaimForExecution? { ClaimingStep(s, l, s'); } else { ReclaimingStep(s, l, s'); }
  }

  lemma RecordingKeepsSenders(s: System, l: Label, s': System)
    requires Step(s, l) == Some(s') && (l.Recover? || l.RecordResponse? || l.SettleOutcome?)
    ensures SendersGrow(s, l, s')
  {
    hide Step, RecoverExpiredExecution, RecordOutcome, RecordCommerceResponse, GatesSatisfied, RefundEvidence;
    if l.Recover? { RecoveringStep(s, l, s'); }
    else if l.RecordResponse? { RespondingStep(s, l, s'); }
    else { OutcomeStep(s, l, s'); }
  }

  lemma DecidingKeepsSenders(s: System, l: Label, s': System)
    requires Step(s, l) == Some(s') && (l.Decides? || l.Refreshed?)
    ensures SendersGrow(s, l, s')
  {
    hide Step, Transition, AsRequest;
    if l.Decides? { DecidingStep(s, l, s'); } else { RefreshingStep(s, l, s'); }
  }

  lemma ArrivalsKeepSenders(s: System, l: Label, s': System)
    requires Step(s, l) == Some(s') && (l.StartExecutor? || l.StartReconciler? || l.Crash? || l.Network?)
    ensures SendersGrow(s, l, s')
  {
    hide DecidesStep, RefreshedStep, Claims, RecoverStep, ReadFirstStep, DispatchStep, FailToConnectStep, HearStep,
      RecordResponseStep, ReadBackStep, SettleStep, WireStep, RequestOf, CanReadFirst, GoesAhead, GatesSatisfied,
      CodeOf;
  }

  lemma StepGrowsSenders(s: System, l: Label, s': System)
    requires Step(s, l) == Some(s')
    ensures SendersGrow(s, l, s')
  {
    hide Step, SendersGrow;
    match l
    case Decides(_, _) => DecidingKeepsSenders(s, l, s');
    case Refreshed(_, _, _) => DecidingKeepsSenders(s, l, s');
    case ClaimForExecution(_, _, _, _) => ClaimingGrowsSenders(s, l, s');
    case ClaimForReconciliation(_, _, _) => ClaimingGrowsSenders(s, l, s');
    case Recover(_, _) => RecordingKeepsSenders(s, l, s');
    case RecordResponse(_, _) => RecordingKeepsSenders(s, l, s');
    case SettleOutcome(_, _) => RecordingKeepsSenders(s, l, s');
    case FailToConnect(_) => FailingKeepsSenders(s, l, s');
    case LoseAnswer(_) => FailingKeepsSenders(s, l, s');
    case ReadFirst(_, _) => ReadingKeepsSenders(s, l, s');
    case ReadBack(_, _) => ReadingKeepsSenders(s, l, s');
    case Hear(_, _, _, _, _) => SpeakingKeepsSenders(s, l, s');
    case Send(_, _) => SpeakingKeepsSenders(s, l, s');
    case _ => ArrivalsKeepSenders(s, l, s');
  }

  /** A new request is sent by a worker that stops being a sender, and grants nothing. */
  lemma SendingTradesASender(s: System, l: Label, s': System, d: Dispatch)
    requires WireMoves(s, l, s') && SendersGrow(s, l, s') && s'.grants == s.grants
    requires Mine(BoxOf(s'), d) && !Mine(BoxOf(s), d)
    ensures Requests(BoxOf(s')) <= Requests(BoxOf(s)) + {d}
    ensures l.w in Senders(s) && Senders(s') <= Senders(s) - {l.w}
  {
    hide WireSound, RequestOf;
  }

  lemma SendingGrantsNothing(s: System, l: Label, s': System)
    requires Step(s, l) == Some(s') && l.Send?
    ensures s'.grants == s.grants
  {
    hide Step, AdvancesTo;
    SendAdvances(s, l, s');
  }

  lemma CoverKept(s: System, l: Label, s': System)
    requires Inv(s) && RequestsCovered(s) && Step(s, l) == Some(s')
    ensures RequestsCovered(s')
  {
    hide Step, Inv, WireSound, RequestOf, MovesBy, MoveOf, WhoOf;
    StepGrowsSenders(s, l, s');
    StepOfSound(s, l, s');
    InvIsMail(s);
    StepMovesWire(s, l, s');
    GrantsByOne(s, MoveOf(s, l, s'), s');
    var before, after := Requests(BoxOf(s)), Requests(BoxOf(s'));
    if d :| d in after && d !in before {
      assert Mine(BoxOf(s'), d) && !Mine(BoxOf(s), d);
      SendingGrantsNothing(s, l, s');
      SendingTradesASender(s, l, s', d);
      SubsetSize(after, before + {d});
      SubsetSize(Senders(s'), Senders(s) - {l.w});
    } else {
      SubsetSize(after, before);
      var who := if s'.grants == s.grants || WhoOf(l).None? then {} else {WhoOf(l).value};
      SubsetSize(Senders(s'), Senders(s) + who);
      UnionSize(Senders(s), who);
    }
  }

  lemma UnionSize(a: set<WorkerId>, b: set<WorkerId>)
    ensures |a + b| <= |a| + |b|
  {
  }

  lemma GrantsByOne(s: System, m: Move, s': System)
    requires MovesBy(s, m, s')
    ensures s'.grants == s.grants || |s'.grants| == |s.grants| + 1
  {
  }

  /**
    Over every run, the action's request was sent at most once for every lease granted, and no
    worker ever makes a third attempt to connect.
   */
  lemma {:induction false} OneRequestPerLease(r: ActionStore.CreateRequest, run: seq<Label>)
    requires Creatable(r)
    ensures RequestsCovered(ActionProtocol.After(r, run))
    ensures |Requests(BoxOf(ActionProtocol.After(r, run)))| <= |ActionProtocol.After(r, run).grants|
  {
    hide Inv, Step, RequestsCovered;
    if run == [] {
      NothingSentYet(r);
    } else {
      var before, l := ActionProtocol.After(r, run[..|run| - 1]), run[|run| - 1];
      OneRequestPerLease(r, run[..|run| - 1]);
      RunsKeepInv(r, run[..|run| - 1]);
      if Step(before, l).Some? {
        CoverKept(before, l, Step(before, l).value);
      }
    }
    CoveredRequests(ActionProtocol.After(r, run));
  }

  lemma NothingSentYet(r: ActionStore.CreateRequest)
    requires Creatable(r)
    ensures RequestsCovered(Begun(r))
  {
    assert Requests(BoxOf(Begun(r))) == {} && Senders(Begun(r)) == {};
  }

  lemma CoveredRequests(s: System)
    requires RequestsCovered(s)
    ensures |Requests(BoxOf(s))| <= |s.grants|
  {
  }
}
