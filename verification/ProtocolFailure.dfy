/**
  What a recorded FAILED or SUCCEEDED says about the effect in NovaCommerce: when it is
  final, and exactly when it is not.
 */
module ProtocolFailure {
  import opened Options
  import opened ActionModel
  import opened ActionLifecycle
  import opened ActionServices
  import ActionStore
  import opened CommerceRequests
  import opened IdempotentWrites
  import opened CommerceWire
  import opened ActionProtocol
  import opened ProtocolMoves
  import opened ProtocolInvariant
  import opened ProtocolTrail
  import opened ProtocolSafety

  ghost predicate EffectFree(s: System) {
    !HasEffect(s.wire.db, KeyOf(s))
  }

  /** The key has a committed record, and it is a rejection. */
  ghost predicate RejectionRecorded(b: Mailbox) {
    && IdempotentWrites.Stored(b.wire.db, b.key).Some?
    && !Success(IdempotentWrites.Stored(b.wire.db, b.key).value.1.status)
  }

  lemma RejectionsHaveNoEffect(b: Mailbox)
    requires WireSound(b.wire) && RejectionRecorded(b)
    ensures !HasEffect(b.wire.db, b.key)
  {
    EffectMatchesRecord(b.wire.db, b.key);
  }

  lemma UnsentHasNoEffect(b: Mailbox)
    requires WireSound(b.wire) && NoneSent(b)
    ensures !HasEffect(b.wire.db, b.key)
  {
    if HasEffect(b.wire.db, b.key) {
      var i :| 0 <= i < |b.wire.db.effects| && b.wire.db.effects[i].key == b.key;
      EffectsAreSent(b.wire, i);
      var d :| d in b.wire.sent && b.wire.sent[d] == b.wire.db.effects[i];
      assert Mine(b, d);
    }
  }

  /** An answer from the key's record tells the effect: 2xx that there is one, anything else that there is none. */
  lemma RecordedAnswersTell(b: Mailbox, a: Answer)
    requires WireSound(b.wire) && HeardOf(b, a) && a.origin == Recorded
    ensures HasEffect(b.wire.db, b.key) <==> Success(StatusOf(a.reply))
    ensures !Success(StatusOf(a.reply)) ==> RejectionRecorded(b)
  {
    assert AnswerSound(b.wire, a);
    EffectMatchesRecord(b.wire.db, b.key);
  }

  lemma SuccessComesFromTheRecord(b: Mailbox, a: Answer)
    requires WireSound(b.wire) && HeardOf(b, a) && Success(StatusOf(a.reply))
    ensures a.origin == Recorded
  {
    assert AnswerSound(b.wire, a);
  }

  /** SUCCEEDED on an answered write: the effect is there, and it is the only one. */
  lemma SucceededMeansEffect(r: ActionStore.CreateRequest, run: seq<Label>)
    requires Creatable(r)
    ensures var s := ActionProtocol.After(r, run);
      s.row.state == Succeeded ==>
        && s.ending.Some?
        && (s.ending.value.evidence.Heard? || s.ending.value == Ending(Reconciler, ReadBackOnly))
        && (s.ending.value.evidence.Heard? ==> HasEffect(s.wire.db, KeyOf(s)))
  {
    hide Ledger, Crew, Trail, WireSound;
    RunsKeepInv(r, run);
    var s := ActionProtocol.After(r, run);
    if s.row.state == Succeeded && s.ending.value.evidence.Heard? {
      var a := s.ending.value.evidence.answer;
      SuccessComesFromTheRecord(BoxOf(s), a);
      RecordedAnswersTell(BoxOf(s), a);
    }
  }

  /** Without duplication, one request that was answered before or inside its transaction never takes hold. */
  lemma AnsweredOnceOnly(b: Mailbox, a: Answer)
    requires WireSound(b.wire) && !b.wire.duplicated
    requires HeardOf(b, a) && OnlySent(b, a.dispatch) && Refusing(StatusOf(a.reply))
    ensures !HasEffect(b.wire.db, b.key)
  {
    assert AnswerSound(b.wire, a);
    if a.origin == Recorded {
      RecordedAnswersTell(b, a);
    } else if HasEffect(b.wire.db, b.key) {
      EffectMatchesRecord(b.wire.db, b.key);
      assert b.key in b.wire.committer;
      assert Mine(b, b.wire.committer[b.key]);
    }
  }

  predicate FailedBy(s: System, role: Role) {
    s.row.state == Failed && s.ending.Some? && s.ending.value.role == role
  }

  /**
    An executor-recorded FAILED action has no effect, at any later point of any run in which
    the network never delivers a request twice. Where nothing was sent, or the rejection came
    from the key's record, it has none whatever the network does.
   */
  lemma ExecutorFailureMeansNoEffect(r: ActionStore.CreateRequest, run: seq<Label>)
    requires Creatable(r)
    ensures var s := ActionProtocol.After(r, run);
      FailedBy(s, Executor) ==>
        && |s.grants| == 1
        && (!s.wire.duplicated ==> EffectFree(s))
        && (s.ending.value.evidence.NothingSent? ==> NoneSent(BoxOf(s)) && EffectFree(s))
        && (s.ending.value.evidence.Heard? && s.ending.value.evidence.answer.origin == Recorded ==> EffectFree(s))
  {
    hide Ledger, Crew, Trail, WireSound;
    RunsKeepInv(r, run);
    var s := ActionProtocol.After(r, run);
    if FailedBy(s, Executor) {
      var e := s.ending.value.evidence;
      if e.NothingSent? {
        UnsentHasNoEffect(BoxOf(s));
      } else {
        if e.answer.origin == Recorded { RecordedAnswersTell(BoxOf(s), e.answer); }
        if !s.wire.duplicated { AnsweredOnceOnly(BoxOf(s), e.answer); }
      }
    }
  }

  // ---- When FAILED is final ----

  predicate NoDuplicates(more: seq<Label>) {
    forall i | 0 <= i < |more| :: !(more[i].Network? && more[i].a.Duplicate?)
  }

  /** The request may yet write: it is on its way in, or inside with nothing staged or a success staged. */
  predicate CanWrite(b: Mailbox, d: Dispatch) {
    && Mine(b, d)
    && (|| d in b.wire.live
        || (d in b.wire.open && (b.wire.open[d].staged.None? || Success(b.wire.open[d].staged.value.status))))
  }

  ghost predicate NoWritesLeft(b: Mailbox) {
    forall d :: !CanWrite(b, d)
  }

  /** A worker whose lease may be lost but who is still going to send. */
  predicate WillSend(me: Worker) {
    AboutToSend(me.place) && RequestOf(me).Call?
  }

  ghost predicate NoSendersLeft(s: System) {
    forall w | w in s.workers :: !WillSend(s.workers[w])
  }

  /** The key has no record, and no request that was sent can write one. */
  ghost predicate Spent(b: Mailbox) {
    b.key !in b.wire.db.records && NoWritesLeft(b)
  }

  /** The key's outcome is a recorded rejection, or it has none and nothing can write one any more. */
  ghost predicate Final(s: System) {
    RejectionRecorded(BoxOf(s)) || (Spent(BoxOf(s)) && NoSendersLeft(s))
  }

  ghost predicate QuietBox(b: Mailbox) {
    RejectionRecorded(b) || Spent(b)
  }

  /** Without duplication no step makes a request able to write that was not before. */
  lemma WritesOnlyShrink(b: Mailbox, a: WireAction)
    requires WireStep(b.wire, a).Some?
    requires !a.Duplicate? && (a.Post? ==> a.call.key != b.key)
    ensures forall d :: CanWrite(Mailbox(WireStep(b.wire, a).value, b.key), d) ==> CanWrite(b, d)
  {
    hide Replay, OriginOf, Committed, ErrorStatus, Locked;
  }

  lemma QuietBoxStays(b: Mailbox, a: WireAction)
    requires WireSound(b.wire) && QuietBox(b) && WireStep(b.wire, a).Some?
    requires !a.Duplicate? && (a.Post? ==> a.call.key != b.key)
    ensures QuietBox(Mailbox(WireStep(b.wire, a).value, b.key))
    ensures RejectionRecorded(b) ==> RejectionRecorded(Mailbox(WireStep(b.wire, a).value, b.key))
  {
    hide WireStep, CommittersSound, TakenOnce, AnswerSound, DatabaseSound, IdempotentWrites.Stored, HasEffect;
    var b' := Mailbox(WireStep(b.wire, a).value, b.key);
    WireStepKeepsSound(b.wire, a);
    StepStores(b.wire, a);
    WritesOnlyShrink(b, a);
    StoredIffRecorded(b.wire.db);
    StoredIffRecorded(b'.wire.db);
    if TakesHoldHere(a) && b.wire.sent[a.d].key == b.key {
      assert Mine(b, a.d);
      assert !RejectionRecorded(b) ==> !CanWrite(b, a.d);
    }
  }

  /** Only with a new lease does a worker newly get to send. */
  ghost predicate SendersShrink(s: System, s': System) {
    forall w | w in s'.workers && WillSend(s'.workers[w]) :: w in s.workers && WillSend(s.workers[w])
  }

  lemma AdvancingShrinks(s: System, w: WorkerId, s': System)
    requires Advances(s, w, s')
    ensures SendersShrink(s, s')
  {
    hide ExecutorRequest, ReconcilerRequest;
  }

  lemma ClaimsShrink(s: System, l: Label, s': System)
    requires Step(s, l) == Some(s') && s'.grants == s.grants
    requires l.ClaimForExecution? || l.ClaimForReconciliation?
    ensures SendersShrink(s, s')
  {
    hide Step, RequestOf, ActionLifecycle.Settle, GatesSatisfied;
    if l.ClaimForExecution? { ClaimingStep(s, l, s'); } else { ReclaimingStep(s, l, s'); }
  }

  lemma RecordingShrinks(s: System, l: Label, s': System)
    requires Step(s, l) == Some(s') && (l.Recover? || l.RecordResponse? || l.SettleOutcome?)
    ensures SendersShrink(s, s')
  {
    hide Step, RequestOf, RecoverExpiredExecution, RecordOutcome, RecordCommerceResponse, GatesSatisfied,
      RefundEvidence;
    if l.Recover? { RecoveringStep(s, l, s'); }
    else if l.RecordResponse? { RespondingStep(s, l, s'); }
    else { OutcomeStep(s, l, s'); }
  }

  lemma DecisionsShrink(s: System, l: Label, s': System)
    requires Step(s, l) == Some(s') && (l.Decides? || l.Refreshed?)
    ensures SendersShrink(s, s')
  {
    hide Step, RequestOf, Transition, AsRequest;
    if l.Decides? { DecidingStep(s, l, s'); } else { RefreshingStep(s, l, s'); }
  }

  lemma BystandersShrink(s: System, l: Label, s': System)
    requires Step(s, l) == Some(s') && (l.StartExecutor? || l.StartReconciler? || l.Crash? || l.Network?)
    ensures SendersShrink(s, s')
  {
    hide DecidesStep, RefreshedStep, Claims, RecoverStep, ReadFirstStep, DispatchStep, FailToConnectStep, HearStep,
      RecordResponseStep, ReadBackStep, SettleStep, WireStep, RequestOf, CanReadFirst, GoesAhead, GatesSatisfied,
      CodeOf;
  }

  lemma OthersShrink(s: System, l: Label, s': System)
    requires Step(s, l) == Some(s') && s'.grants == s.grants
    ensures SendersShrink(s, s')
  {
    hide Step, SendersShrink, Advances;
    if Local(l) {
      LocalAdvances(s, l, s');
      AdvancingShrinks(s, l.w, s');
    } else {
      match l
      case Decides(_, _) => DecisionsShrink(s, l, s');
      case Refreshed(_, _, _) => DecisionsShrink(s, l, s');
      case ClaimForExecution(_, _, _, _) => ClaimsShrink(s, l, s');
      case ClaimForReconciliation(_, _, _) => ClaimsShrink(s, l, s');
      case Recover(_, _) => RecordingShrinks(s, l, s');
      case RecordResponse(_, _) => RecordingShrinks(s, l, s');
      case SettleOutcome(_, _) => RecordingShrinks(s, l, s');
      case _ => BystandersShrink(s, l, s');
    }
  }

  predicate Duplicates(l: Label) {
    l.Network? && l.a.Duplicate?
  }

  /** Posting stores nothing. */
  lemma PostsStoreNothing(b: Mailbox, d: Dispatch, call: WriteCall)
    requires WireStep(b.wire, Post(d, call)).Some?
    ensures WireStep(b.wire, Post(d, call)).value.db == b.wire.db
  {
  }

  lemma FailedIsForever(s: System, m: Move, s': System)
    requires MovesBy(s, m, s') && s.row.state == Failed
    ensures s'.row == s.row && s'.grants == s.grants
  {
  }

  lemma SameRecordSameRejection(b: Mailbox, b': Mailbox)
    requires b'.wire.db == b.wire.db && b'.key == b.key && RejectionRecorded(b)
    ensures RejectionRecorded(b')
  {
  }

  /** A final failure stays final. */
  lemma FinalStays(s: System, l: Label, s': System)
    requires Inv(s) && s.row.state == Failed && Final(s)
    requires Step(s, l) == Some(s') && !Duplicates(l)
    ensures s'.row.state == Failed && Final(s')
  {
    hide Ledger, Crew, Trail, Ended, WireStep, RequestOf, HasEffect, RejectionRecorded, NoWritesLeft, MovesBy, MoveOf,
      WireSound;
    hide DecidesStep, RefreshedStep, Claims, RecoverStep, ReadFirstStep, FailToConnectStep, HearStep,
      RecordResponseStep, ReadBackStep, SettleStep, GoesAhead;
    StepOfSound(s, l, s');
    FailedIsForever(s, MoveOf(s, l, s'), s');
    OthersShrink(s, l, s');
    if l.Network? {
      QuietBoxStays(BoxOf(s), l.a);
      if NoWritesLeft(BoxOf(s)) {
        WritesStayGone(BoxOf(s), l.a);
      }
    } else if l.Send? && RequestOf(s.workers[l.w]).Call? {
      PostsStoreNothing(BoxOf(s), l.d, RequestOf(s.workers[l.w]).call);
      if RejectionRecorded(BoxOf(s)) {
        SameRecordSameRejection(BoxOf(s), BoxOf(s'));
      }
    } else {
      WireUntouched(s, l, s');
    }
  }

  lemma WritesStayGone(b: Mailbox, a: WireAction)
    requires WireStep(b.wire, a).Some? && NoWritesLeft(b)
    requires !a.Duplicate? && (a.Post? ==> a.call.key != b.key)
    ensures NoWritesLeft(Mailbox(WireStep(b.wire, a).value, b.key))
  {
    hide WireStep;
    WritesOnlyShrink(b, a);
  }

  lemma {:induction false} FinalForGood(s: System, more: seq<Label>)
    requires Inv(s) && s.row.state == Failed && Final(s) && NoDuplicates(more)
    ensures Inv(Continue(s, more)) && Continue(s, more).row.state == Failed && Final(Continue(s, more))
  {
    hide Inv, Step, Final;
    if more != [] {
      var before := Continue(s, more[..|more| - 1]);
      FinalForGood(s, more[..|more| - 1]);
      if Step(before, more[|more| - 1]).Some? {
        FinalStays(before, more[|more| - 1], Step(before, more[|more| - 1]).value);
        StepKeepsInv(before, more[|more| - 1], Step(before, more[|more| - 1]).value);
      }
    }
  }

  // ---- And when it is not ----

  /** Some continuation, without any duplicated delivery, leaves an effect. */
  ghost predicate MayYield(s: System) {
    exists more :: NoDuplicates(more) && !EffectFree(Continue(s, more))
  }

  lemma ContinueFromStep(s: System, l: Label, s': System, more: seq<Label>)
    requires Step(s, l) == Some(s')
    ensures Continue(s, [l] + more) == Continue(s', more)
  {
    hide Step;
    ContinueJoins(s, [l], more);
    ContinueSnoc(s, [], l);
    assert [] + [l] == [l];
  }

  lemma YieldsEarlier(s: System, l: Label, s': System)
    requires Step(s, l) == Some(s') && !Duplicates(l) && MayYield(s')
    ensures MayYield(s)
  {
    hide Step, EffectFree;
    var more :| NoDuplicates(more) && !EffectFree(Continue(s', more));
    ContinueFromStep(s, l, s', more);
    assert NoDuplicates([l] + more);
  }

  lemma EffectYields(s: System)
    requires !EffectFree(s)
    ensures MayYield(s)
  {
    hide EffectFree;
    assert Continue(s, []) == s;
  }

  const CREATED := WriteOutcome(201, "")

  lemma OpenKeysAreFree(s: System, d: Dispatch)
    requires Inv(s) && d in s.wire.open
    ensures DatabaseSound(s.wire.db) && d in s.wire.sent && s.wire.sent[d].key !in s.wire.db.records
  {
    hide Ledger, Crew, Trail, Ended, DatabaseSound, CommittersSound, TakenOnce, AnswerSound, ExecutorRequest;
  }

  lemma CommitTakesHold(w: Wire, d: Dispatch)
    requires d in w.open && d in w.sent && w.open[d].staged.Some?
    ensures WireStep(w, Commit(d, CommitOk)).Some?
    ensures WireStep(w, Commit(d, CommitOk)).value.db == Committed(w.db, w.sent[d], w.open[d].staged.value)
  {
    hide Committed;
  }

  /** A request whose operation already succeeded inside its transaction takes hold by committing. */
  lemma StagedYields(s: System, d: Dispatch)
    requires Inv(s) && Mine(BoxOf(s), d) && d in s.wire.open
    requires s.wire.open[d].staged.Some? && Success(s.wire.open[d].staged.value.status)
    ensures MayYield(s)
  {
    hide Inv, Step, WireStep, MayYield, Committed, HasEffect, DatabaseSound;
    var l := Network(Commit(d, CommitOk));
    OpenKeysAreFree(s, d);
    CommitTakesHold(s.wire, d);
    NetworkStep(s, Commit(d, CommitOk));
    var s' := Step(s, l).value;
    CommitKeepsSound(s.wire.db, s.wire.sent[d], s.wire.open[d].staged.value);
    EffectYields(s');
    YieldsEarlier(s, l, s');
  }

  lemma OpenYields(s: System, d: Dispatch)
    requires Inv(s) && Mine(BoxOf(s), d) && d in s.wire.open && s.wire.open[d].staged.None?
    ensures MayYield(s)
  {
    hide Ledger, Crew, Trail, Ended, MayYield, WireSound, Mail;
    var l := Network(Operate(d, Returned(CREATED)));
    NetworkStep(s, Operate(d, Returned(CREATED)));
    var s' := Step(s, l).value;
    StepKeepsInv(s, l, s');
    StagedYields(s', d);
    YieldsEarlier(s, l, s');
  }

  lemma FreeLiveYields(s: System, d: Dispatch)
    requires Inv(s) && Mine(BoxOf(s), d) && d in s.wire.live
    requires KeyOf(s) !in s.wire.db.records && !Locked(s.wire, KeyOf(s))
    ensures MayYield(s)
  {
    hide Ledger, Crew, Trail, Ended, MayYield, WireSound, Mail;
    var l := Network(Begin(d));
    NetworkStep(s, Begin(d));
    var s' := Step(s, l).value;
    StepKeepsInv(s, l, s');
    OpenYields(s', d);
    YieldsEarlier(s, l, s');
  }

  /** A request on its way in can wait until whoever holds its key gives up, and then write. */
  lemma LiveYields(s: System, d: Dispatch)
    requires Inv(s) && Mine(BoxOf(s), d) && d in s.wire.live && KeyOf(s) !in s.wire.db.records
    ensures MayYield(s)
  {
    hide Ledger, Crew, Trail, Ended, MayYield, WireSound, Mail;
    if Locked(s.wire, KeyOf(s)) {
      var e :| e in s.wire.open && e in s.wire.sent && s.wire.sent[e].key == KeyOf(s);
      var l := Network(Abort(e));
      NetworkStep(s, Abort(e));
      var s' := Step(s, l).value;
      StepKeepsInv(s, l, s');
      WireLocks(s);
      NoOtherLock(s.wire, e, KeyOf(s));
      FreeLiveYields(s', d);
      YieldsEarlier(s, l, s');
    } else {
      FreeLiveYields(s, d);
    }
  }

  lemma NoOtherLock(w: Wire, e: Dispatch, key: Key)
    requires LocksSound(w) && e in w.open && w.sent[e].key == key
    ensures !Locked(w.(open := w.open - {e}), key)
  {
  }

  lemma WireLocks(s: System)
    requires Inv(s)
    ensures LocksSound(s.wire)
  {
    hide Ledger, Crew, Trail, Ended, LocksSound;
  }

  lemma {:induction false} FreshDispatch(sent: set<Dispatch>) returns (d: Dispatch)
    ensures forall x | x in sent :: x < d
  {
    if sent == {} {
      d := 0;
    } else {
      var x :| x in sent;
      var e := FreshDispatch(sent - {x});
      d := e + x + 1;
      assert forall y | y in sent :: y == x || y in sent - {x};
    }
  }

  lemma SenderYields(s: System, w: WorkerId)
    requires Inv(s) && w in s.workers && WillSend(s.workers[w]) && s.workers[w].place.Dispatching?
    requires KeyOf(s) !in s.wire.db.records
    ensures MayYield(s)
  {
    hide Ledger, Crew, Trail, Ended, MayYield, WireSound, Mail, RequestOf;
    var d := FreshDispatch(s.wire.sent.Keys);
    var l := Send(w, d);
    var s' := Step(s, l).value;
    assert d !in s.wire.sent;
    var call := RequestOf(s.workers[w]).call;
    SenderKey(s, l, s');
    StepKeepsInv(s, l, s');
    KeyStays(s, l, s');
    LiveYields(s', d);
    YieldsEarlier(s, l, s');
  }

  lemma KeyStays(s: System, l: Label, s': System)
    requires Inv(s) && Step(s, l) == Some(s')
    ensures KeyOf(s') == KeyOf(s)
  {
    hide Step, Inv, MovesBy;
    StepOfSound(s, l, s');
  }

  lemma ReaderYields(s: System, w: WorkerId)
    requires Inv(s) && w in s.workers && WillSend(s.workers[w]) && s.workers[w].place.ReadingFirst?
    requires KeyOf(s) !in s.wire.db.records
    ensures MayYield(s)
  {
    hide Ledger, Crew, Ended, MayYield, WireSound, Mail, RequestOf;
    var l := ReadFirst(w, ReadResult(Unavailable, None, "read_back_unavailable"));
    var s' := Step(s, l).value;
    assert PlaceBacked(s, s.workers[w]);
    StepKeepsInv(s, l, s');
    SameRequest(s.workers[w]);
    SenderYields(s', w);
    YieldsEarlier(s, l, s');
  }

  lemma SameRequest(me: Worker)
    ensures RequestOf(me.(read := Some(Unavailable), place := Dispatching(0))) == RequestOf(me)
  {
  }

  lemma FinalExactly(s: System)
    requires Inv(s) && s.row.state == Failed
    ensures Final(s) <==> forall more | NoDuplicates(more) :: EffectFree(Continue(s, more))
  {
    hide Inv, Final, NoDuplicates, EffectFree;
    if Final(s) {
      forall more | NoDuplicates(more)
        ensures EffectFree(Continue(s, more))
      {
        FinalForGood(s, more);
        FinalIsFree(Continue(s, more));
      }
    } else {
      NotFinalYields(s);
    }
  }

  lemma FinalIsFree(s: System)
    requires Inv(s) && Final(s)
    ensures EffectFree(s)
  {
    hide Ledger, Crew, Trail, Ended, WireSound, RejectionRecorded, HasEffect;
    if RejectionRecorded(BoxOf(s)) {
      RejectionsHaveNoEffect(BoxOf(s));
    } else {
      UnrecordedHasNoEffect(BoxOf(s));
    }
  }

  lemma UnrecordedHasNoEffect(b: Mailbox)
    requires WireSound(b.wire) && b.key !in b.wire.db.records
    ensures !HasEffect(b.wire.db, b.key)
  {
    EffectMatchesRecord(b.wire.db, b.key);
  }

  /**
    A recorded FAILED rules out an effect for good (short of duplicated delivery) exactly when
    the key has a recorded rejection, or it has no record, no request of the action can still
    write one and no worker is still going to send one.
   */
  lemma FailureIsFinalExactly(r: ActionStore.CreateRequest, run: seq<Label>)
    requires Creatable(r)
    ensures var s := ActionProtocol.After(r, run);
      s.row.state == Failed ==>
        (Final(s) <==> forall more | NoDuplicates(more) :: EffectFree(ActionProtocol.After(r, run + more)))
  {
    hide Inv, Final, NoDuplicates, EffectFree;
    RunsKeepInv(r, run);
    var s := ActionProtocol.After(r, run);
    if s.row.state == Failed {
      FinalExactly(s);
      forall more
        ensures ActionProtocol.After(r, run + more) == Continue(s, more)
      {
        ContinueJoins(Begun(r), run, more);
      }
    }
  }

  predicate FailedOnRecord(s: System) {
    && s.row.state == Failed && s.ending.Some?
    && s.ending.value.evidence.Heard? && s.ending.value.evidence.answer.origin == Recorded
  }

  /** FAILED on a rejection from the key's record is final, whoever recorded it and whatever the network does. */
  lemma RecordedFailureIsFinal(r: ActionStore.CreateRequest, run: seq<Label>)
    requires Creatable(r)
    ensures var s := ActionProtocol.After(r, run);
      FailedOnRecord(s) ==> Final(s)
  {
    hide Ledger, Crew, Trail, WireSound, HasEffect, RejectionRecorded;
    RunsKeepInv(r, run);
    var s := ActionProtocol.After(r, run);
    if FailedOnRecord(s) {
      RecordedAnswersTell(BoxOf(s), s.ending.value.evidence.answer);
    }
  }

  lemma NotFinalYields(s: System)
    requires Inv(s) && !Final(s)
    ensures MayYield(s)
  {
    hide Ledger, Crew, Trail, Ended, WireSound, MayYield, RequestOf;
    if !EffectFree(s) {
      EffectYields(s);
    } else {
      MailIsSound(s);
      NoRecordYet(BoxOf(s));
      if !NoWritesLeft(BoxOf(s)) {
        var d :| CanWrite(BoxOf(s), d);
        if d in s.wire.live { LiveYields(s, d); }
        else if s.wire.open[d].staged.None? { OpenYields(s, d); }
        else { StagedYields(s, d); }
      } else {
        var w :| w in s.workers && WillSend(s.workers[w]);
        if s.workers[w].place.Dispatching? { SenderYields(s, w); } else { ReaderYields(s, w); }
      }
    }
  }

  lemma NoRecordYet(b: Mailbox)
    requires WireSound(b.wire) && !HasEffect(b.wire.db, b.key) && !RejectionRecorded(b)
    ensures b.key !in b.wire.db.records
  {
    EffectMatchesRecord(b.wire.db, b.key);
  }
}
