/**
  The last writer: once every earlier request is gone and one worker is left to send, the
  answer that worker records tells whether its FAILED is final.
 */
module ProtocolSoleWriter {
  import opened Options
  import opened ActionModel
  import opened ActionLifecycle
  import opened ActionLog
  import opened ActionServices
  import ActionStore
  import opened CommerceRequests
  import opened IdempotentWrites
  import opened CommerceWire
  import opened ActionProtocol
  import opened ProtocolMoves
  import opened ProtocolInvariant
  import opened ProtocolTrail
  import opened ProtocolSafety
  import opened ProtocolFailure

  // ---- The mailbox since an earlier point ----

  /** Sent under the key since the earlier mailbox. */
  predicate New(b0: Mailbox, b: Mailbox, d: Dispatch) {
    Mine(b, d) && d !in b0.wire.sent
  }

  /** Sent requests and records only accumulate. */
  ghost predicate Grown(b0: Mailbox, b: Mailbox) {
    && b.key == b0.key
    && (forall d | d in b0.wire.sent :: d in b.wire.sent && b.wire.sent[d] == b0.wire.sent[d])
    && b0.wire.db.records.Keys <= b.wire.db.records.Keys
    && (HasEffect(b0.wire.db, b0.key) ==> HasEffect(b.wire.db, b.key))
  }

  /** At most one request was sent since; only it can write, and once it is answered it no longer can. */
  ghost predicate OneMore(b0: Mailbox, b: Mailbox) {
    && (forall d | CanWrite(b, d) :: New(b0, b, d))
    && (forall d, e | New(b0, b, d) && New(b0, b, e) :: d == e)
    && (forall d | New(b0, b, d) :: !(d in b.wire.live && d in b.wire.open))
    && (forall a | a in b.wire.answers && New(b0, b, a.dispatch) ::
          !Pending(b.wire, a.dispatch) && (a.origin == Inside ==> b.key !in b0.wire.db.records))
  }

  /** Committed by a request that is done and was answered, if at all, from its record or with an unknown outcome. */
  ghost predicate CommittedBy(b: Mailbox, d: Dispatch) {
    && b.key in b.wire.committer && b.wire.committer[b.key] == d
    && !Pending(b.wire, d)
    && (forall a | a in b.wire.answers && a.dispatch == d :: a.origin == Recorded || a.origin == Unknown)
  }

  /** An effect that was not there before is the new request's. */
  ghost predicate EffectExplained(b0: Mailbox, b: Mailbox) {
    HasEffect(b.wire.db, b.key) && !HasEffect(b0.wire.db, b0.key) ==>
      exists d :: New(b0, b, d) && CommittedBy(b, d)
  }

  ghost predicate Since(b0: Mailbox, b: Mailbox) {
    Grown(b0, b) && OneMore(b0, b) && EffectExplained(b0, b)
  }

  /** A step of the network that neither duplicates a delivery nor posts under the key. */
  predicate Foreign(b: Mailbox, a: WireAction) {
    !a.Duplicate? && (a.Post? ==> a.call.key != b.key)
  }

  /** What a step does to one request: what is answered or committed was pending and no longer is. */
  ghost predicate TakesOne(b: Mailbox, a: WireAction, w': Wire, d: Dispatch) {
    && !(d in w'.live && d in w'.open)
    && (Pending(w', d) ==> Pending(b.wire, d))
    && (TakesHoldHere(a) && a.d == d ==> Pending(b.wire, d) && !Pending(w', d))
    && (forall x | x in w'.answers && x !in b.wire.answers && x.dispatch == d ::
          && Pending(b.wire, d) && !Pending(w', d)
          && (x.origin == Inside ==> b.key !in b.wire.db.records)
          && (TakesHoldHere(a) ==> x.origin == Recorded || x.origin == Unknown))
  }

  lemma StepTakesOne(b: Mailbox, a: WireAction, d: Dispatch)
    requires WireSound(b.wire) && WireStep(b.wire, a).Some? && Foreign(b, a)
    requires Mine(b, d) && !(d in b.wire.live && d in b.wire.open)
    ensures TakesOne(b, a, WireStep(b.wire, a).value, d)
  {
    hide AnswerSound, DatabaseSound, CommittersSound, TakenOnce, IdempotentWrites.Stored, IdempotentWrites.Replay,
      Committed, ErrorStatus, Locked;
  }

  lemma MineIsKept(b: Mailbox, a: WireAction)
    requires WireStep(b.wire, a).Some? && Foreign(b, a)
    ensures forall d :: Mine(Mailbox(WireStep(b.wire, a).value, b.key), d) <==> Mine(b, d)
  {
    hide WireStep;
    SentOnlyByPost(b.wire, a);
  }

  lemma GrownOn(b0: Mailbox, b: Mailbox, a: WireAction)
    requires WireSound(b.wire) && WireStep(b.wire, a).Some? && Grown(b0, b)
    ensures Grown(b0, Mailbox(WireStep(b.wire, a).value, b.key))
  {
    hide WireStep, LocksSound, CommittersSound, TakenOnce, AnswerSound, DatabaseSound, IdempotentWrites.Stored,
      HasEffect;
    var w' := WireStep(b.wire, a).value;
    StepStores(b.wire, a);
    EffectMatchesRecord(b.wire.db, b.key);
    EffectMatchesRecord(w'.db, b.key);
  }

  lemma OneMoreOn(b0: Mailbox, b: Mailbox, a: WireAction)
    requires WireSound(b.wire) && WireStep(b.wire, a).Some? && Foreign(b, a)
    requires Grown(b0, b) && OneMore(b0, b)
    ensures OneMore(b0, Mailbox(WireStep(b.wire, a).value, b.key))
  {
    hide WireStep, WireSound, HasEffect, Pending;
    var b' := Mailbox(WireStep(b.wire, a).value, b.key);
    MineIsKept(b, a);
    WritesOnlyShrink(b, a);
    forall d | New(b0, b', d)
      ensures New(b0, b, d) && TakesOne(b, a, b'.wire, d)
    {
      StepTakesOne(b, a, d);
    }
  }

  /** An effect that appears is committed by a request that could write. */
  lemma EffectAppears(b: Mailbox, a: WireAction)
    requires WireSound(b.wire) && WireStep(b.wire, a).Some?
    requires !HasEffect(b.wire.db, b.key) && HasEffect(WireStep(b.wire, a).value.db, b.key)
    ensures TakesHoldHere(a) && CanWrite(b, a.d) && a.d in b.wire.open
    ensures var w' := WireStep(b.wire, a).value;
      b.key in w'.committer && w'.committer[b.key] == a.d
  {
    hide WireStep, LocksSound, CommittersSound, TakenOnce, AnswerSound, DatabaseSound, IdempotentWrites.Stored,
      HasEffect;
    var w' := WireStep(b.wire, a).value;
    StepStores(b.wire, a);
    StoredIffRecorded(b.wire.db);
    StoredIffRecorded(w'.db);
    EffectMatchesRecord(b.wire.db, b.key);
    EffectMatchesRecord(w'.db, b.key);
  }

  lemma CommitterStays(b: Mailbox, a: WireAction)
    requires WireSound(b.wire) && WireStep(b.wire, a).Some? && b.key in b.wire.committer
    ensures b.key in WireStep(b.wire, a).value.committer
    ensures WireStep(b.wire, a).value.committer[b.key] == b.wire.committer[b.key]
  {
    hide WireStep, TakenOnce, AnswerSound, DatabaseSound, IdempotentWrites.Stored;
    StepStores(b.wire, a);
  }

  lemma CommittedByStays(b: Mailbox, a: WireAction, d: Dispatch)
    requires WireSound(b.wire) && WireStep(b.wire, a).Some? && Foreign(b, a)
    requires Mine(b, d) && CommittedBy(b, d)
    ensures CommittedBy(Mailbox(WireStep(b.wire, a).value, b.key), d)
  {
    hide WireStep, WireSound;
    StepTakesOne(b, a, d);
    CommitterStays(b, a);
  }

  lemma EffectExplainedOn(b0: Mailbox, b: Mailbox, a: WireAction)
    requires WireSound(b.wire) && WireStep(b.wire, a).Some? && Foreign(b, a) && Since(b0, b)
    ensures EffectExplained(b0, Mailbox(WireStep(b.wire, a).value, b.key))
  {
    hide WireStep, WireSound, HasEffect, Grown;
    var b' := Mailbox(WireStep(b.wire, a).value, b.key);
    if HasEffect(b'.wire.db, b'.key) && !HasEffect(b0.wire.db, b0.key) {
      MineIsKept(b, a);
      if HasEffect(b.wire.db, b.key) {
        var d :| New(b0, b, d) && CommittedBy(b, d);
        CommittedByStays(b, a, d);
        assert New(b0, b', d);
      } else {
        EffectAppears(b, a);
        StepTakesOne(b, a, a.d);
        assert New(b0, b', a.d) && CommittedBy(b', a.d);
      }
    }
  }

  lemma SinceOn(b0: Mailbox, b: Mailbox, a: WireAction)
    requires WireSound(b.wire) && WireStep(b.wire, a).Some? && Foreign(b, a) && Since(b0, b)
    ensures Since(b0, Mailbox(WireStep(b.wire, a).value, b.key))
  {
    hide WireStep, WireSound, Grown, OneMore, EffectExplained;
    GrownOn(b0, b, a);
    OneMoreOn(b0, b, a);
    EffectExplainedOn(b0, b, a);
  }

  /** The first request sent since. */
  lemma SinceSending(b0: Mailbox, b: Mailbox, d: Dispatch, call: WriteCall)
    requires WireSound(b.wire) && Since(b0, b) && (forall e :: !New(b0, b, e))
    requires WireStep(b.wire, Post(d, call)).Some? && call.key == b.key
    ensures var b' := Mailbox(WireStep(b.wire, Post(d, call)).value, b.key);
      Since(b0, b') && New(b0, b', d)
  {
    hide AnswerSound, DatabaseSound, CommittersSound, TakenOnce, HasEffect, IdempotentWrites.Replay, Committed;
    var b' := Mailbox(WireStep(b.wire, Post(d, call)).value, b.key);
    assert forall e | e != d :: Mine(b', e) <==> Mine(b, e);
    assert forall e | New(b0, b', e) :: e == d || New(b0, b, e);
    assert forall e | CanWrite(b', e) :: e == d || CanWrite(b, e);
    assert HasEffect(b'.wire.db, b'.key) <==> HasEffect(b.wire.db, b.key);
  }

  // ---- Which request a worker is after ----

  /** The request whose answer a worker awaits, holds or is about to record. */
  function Trace(place: Place): Option<Dispatch> {
    match place
    case Awaiting(d) => Some(d)
    case Responding(a, _) => Some(a.dispatch)
    case ReadingBack(a, _) => Some(a.dispatch)
    case Settling(_, Heard(a)) => Some(a.dispatch)
    case _ => None
  }

  /** The worker sends the request it builds. */
  predicate Posts(s: System, l: Label) {
    l.Send? && At(s, l.w) && RequestOf(s.workers[l.w]).Call?
  }

  /** A worker is after a request it was after before, under the same lease, or after the one it now sends. */
  ghost predicate Follows(s: System, l: Label, s': System) {
    forall v | v in s'.workers && Trace(s'.workers[v].place).Some? ::
      && v in s.workers && s'.workers[v].lease == s.workers[v].lease
      && (|| Trace(s'.workers[v].place) == Trace(s.workers[v].place)
          || (Posts(s, l) && l.w == v && Trace(s'.workers[v].place) == Some(l.d)))
  }

  lemma SendingFollows(s: System, l: Label, s': System)
    requires Step(s, l) == Some(s') && l.Send?
    ensures Follows(s, l, s')
  {
    hide DecidesStep, RefreshedStep, Claims, RecoverStep, ReadFirstStep, FailToConnectStep, HearStep,
      RecordResponseStep, ReadBackStep, SettleStep, WireStep, RequestOf, GatesSatisfied, GoesAhead;
  }

  lemma HearingFollows(s: System, l: Label, s': System)
    requires Step(s, l) == Some(s') && l.Hear?
    ensures Follows(s, l, s')
  {
    hide DecidesStep, RefreshedStep, Claims, RecoverStep, ReadFirstStep, DispatchStep, FailToConnectStep,
      RecordResponseStep, ReadBackStep, SettleStep, WireStep, RequestOf, GatesSatisfied, GoesAhead, OrDefault,
      KnownResource, Classify, CodeOf;
  }

  lemma FailingFollows(s: System, l: Label, s': System)
    requires Step(s, l) == Some(s') && (l.FailToConnect? || l.LoseAnswer?)
    ensures Follows(s, l, s')
  {
    hide DecidesStep, RefreshedStep, Claims, RecoverStep, ReadFirstStep, DispatchStep, HearStep, RecordResponseStep,
      ReadBackStep, SettleStep, WireStep, RequestOf, GatesSatisfied, GoesAhead, OrDefault, KnownResource;
  }

  lemma ReadingFollows(s: System, l: Label, s': System)
    requires Step(s, l) == Some(s') && (l.ReadFirst? || l.ReadBack?)
    ensures Follows(s, l, s')
  {
    hide DecidesStep, RefreshedStep, Claims, RecoverStep, DispatchStep, FailToConnectStep, HearStep,
      RecordResponseStep, SettleStep, WireStep, RequestOf, GatesSatisfied, GoesAhead, CreatesResource, KnownResource;
  }

  lemma ClaimingFollows(s: System, l: Label, s': System)
    requires Step(s, l) == Some(s') && (l.ClaimForExecution? || l.ClaimForReconciliation?)
    ensures Follows(s, l, s')
  {
    hide Step, RequestOf, ClaimExecution, ClaimReconciliation, CanReadFirst;
    if l.ClaimForExecution? { ClaimingStep(s, l, s'); } else { ReclaimingStep(s, l, s'); }
  }

  lemma RecordingFollows(s: System, l: Label, s': System)
    requires Step(s, l) == Some(s') && (l.Recover? || l.RecordResponse? || l.SettleOutcome?)
    ensures Follows(s, l, s')
  {
    hide Step, RequestOf, RecoverExpiredExecution, RecordOutcome, RecordCommerceResponse, GatesSatisfied,
      RefundEvidence;
    if l.Recover? { RecoveringStep(s, l, s'); }
    else if l.RecordResponse? { RespondingStep(s, l, s'); }
    else { OutcomeStep(s, l, s'); }
  }

  lemma DecidingFollows(s: System, l: Label, s': System)
    requires Step(s, l) == Some(s') && (l.Decides? || l.Refreshed?)
    ensures Follows(s, l, s')
  {
    hide Step, RequestOf, Transition, AsRequest;
    if l.Decides? { DecidingStep(s, l, s'); } else { RefreshingStep(s, l, s'); }
  }

  lemma BystandersFollow(s: System, l: Label, s': System)
    requires Step(s, l) == Some(s') && (l.StartExecutor? || l.StartReconciler? || l.Crash? || l.Network?)
    ensures Follows(s, l, s')
  {
    hide DecidesStep, RefreshedStep, Claims, RecoverStep, ReadFirstStep, DispatchStep, FailToConnectStep, HearStep,
      RecordResponseStep, ReadBackStep, SettleStep, WireStep, RequestOf, CanReadFirst, GoesAhead, GatesSatisfied,
      CodeOf;
  }

  lemma StepFollows(s: System, l: Label, s': System)
    requires Step(s, l) == Some(s')
    ensures Follows(s, l, s')
  {
    hide Step, Follows;
    match l
    case Decides(_, _) => DecidingFollows(s, l, s');
    case Refreshed(_, _, _) => DecidingFollows(s, l, s');
    case ClaimForExecution(_, _, _, _) => ClaimingFollows(s, l, s');
    case ClaimForReconciliation(_, _, _) => ClaimingFollows(s, l, s');
    case Recover(_, _) => RecordingFollows(s, l, s');
    case RecordResponse(_, _) => RecordingFollows(s, l, s');
    case SettleOutcome(_, _) => RecordingFollows(s, l, s');
    case FailToConnect(_) => FailingFollows(s, l, s');
    case LoseAnswer(_) => FailingFollows(s, l, s');
    case ReadFirst(_, _) => ReadingFollows(s, l, s');
    case ReadBack(_, _) => ReadingFollows(s, l, s');
    case Hear(_, _, _, _, _) => HearingFollows(s, l, s');
    case Send(_, _) => SendingFollows(s, l, s');
    case _ => BystandersFollow(s, l, s');
  }

  // ---- One writer left ----

  /** Earlier requests can no longer write, and of all workers only the holder of the newest lease may still send. */
  ghost predicate SoleWriter(s: System, w: WorkerId) {
    && w in s.workers && AboutToSend(s.workers[w].place)
    && s.grants != [] && s.workers[w].lease == Some(Last(s.grants))
    && NoWritesLeft(BoxOf(s))
    && (forall v | v in s.workers && v != w :: !WillSend(s.workers[v]))
  }

  /** Only the writer may still send, and only while nothing was sent since. */
  ghost predicate Unsent(s0: System, w: WorkerId, s: System) {
    forall v | v in s.workers && WillSend(s.workers[v]) ::
      v == w && forall d :: !New(BoxOf(s0), BoxOf(s), d)
  }

  /** What the newest lease's worker is after, and what ended the action, was sent since. */
  ghost predicate Traced(s0: System, s: System)
    requires s0.grants != []
  {
    && (forall v | v in s.workers && s.workers[v].lease == Some(Last(s0.grants)) && Trace(s.workers[v].place).Some? ::
          New(BoxOf(s0), BoxOf(s), Trace(s.workers[v].place).value))
    && (s.ending.Some? && s.ending.value.evidence.Heard? ==>
          New(BoxOf(s0), BoxOf(s), s.ending.value.evidence.answer.dispatch))
  }

  /** What holds from the sole writer on, until another lease is granted. */
  ghost predicate Alone(s0: System, w: WorkerId, s: System)
    requires s0.grants != []
  {
    && s.grants == s0.grants
    && Since(BoxOf(s0), BoxOf(s)) && Unsent(s0, w, s) && Traced(s0, s)
  }

  lemma AloneAtFirst(s: System, w: WorkerId)
    requires Inv(s) && SoleWriter(s, w)
    ensures Alone(s, w, s)
  {
    hide Mail, Trail, Sound, WireSound, SameEvidence, GatesSatisfied, Recordable, HasEffect, Backed, NoWritesLeft;
    assert WorkerOk(s.row, s.grants, s.settled, s.workers[w]);
    assert Terminal(s.row.state) ==> Last(s.settled) in s.settled;
    assert forall v | v in s.workers && s.workers[v].lease == Some(Last(s.grants)) :: v == w;
    NothingSince(BoxOf(s));
  }

  lemma NothingSince(b: Mailbox)
    requires NoWritesLeft(b)
    ensures Since(b, b)
  {
  }

  /** What a step does to the mailbox: nothing, a foreign step of the network, or the worker's own post. */
  lemma StepsOfTheBox(s: System, l: Label, s': System)
    requires Step(s, l) == Some(s') && !Duplicates(l)
    requires Posts(s, l) ==> RequestOf(s.workers[l.w]).call.key == KeyOf(s)
    ensures if l.Network? then Foreign(BoxOf(s), l.a) && WireStep(s.wire, l.a) == Some(s'.wire)
            else if Posts(s, l) then
              && s.workers[l.w].place.Dispatching?
              && WireStep(s.wire, Post(l.d, RequestOf(s.workers[l.w]).call)) == Some(s'.wire)
              && l.w in s'.workers && s'.workers[l.w].place == Awaiting(l.d)
            else s'.wire == s.wire
  {
    hide DecidesStep, RefreshedStep, Claims, RecoverStep, ReadFirstStep, FailToConnectStep, HearStep,
      RecordResponseStep, ReadBackStep, SettleStep, WireStep, RequestOf, GatesSatisfied, GoesAhead, CodeOf;
    if !l.Network? && !Posts(s, l) {
      WireUntouched(s, l, s');
    }
  }

  /** Requests that were new stay new. */
  lemma NewStaysNew(b0: Mailbox, b: Mailbox, b': Mailbox)
    requires b'.key == b.key
    requires forall d | d in b.wire.sent :: d in b'.wire.sent && b'.wire.sent[d] == b.wire.sent[d]
    ensures forall d | New(b0, b, d) :: New(b0, b', d)
  {
  }

  lemma BoxStays(s0: System, w: WorkerId, s: System, l: Label, s': System)
    requires Inv(s) && s0.grants != [] && Alone(s0, w, s)
    requires Step(s, l) == Some(s') && !Duplicates(l) && s'.grants == s.grants
    ensures Since(BoxOf(s0), BoxOf(s')) && Unsent(s0, w, s')
    ensures KeyOf(s') == KeyOf(s)
    ensures forall d | New(BoxOf(s0), BoxOf(s), d) :: New(BoxOf(s0), BoxOf(s'), d)
    ensures Posts(s, l) ==> New(BoxOf(s0), BoxOf(s'), l.d)
  {
    hide Step, Inv, RequestOf, WireStep, Since, New, WireSound, Traced;
    KeyStays(s, l, s');
    InvIsCrew(s);
    if l.Send? { SenderKey(s, l, s'); }
    StepsOfTheBox(s, l, s');
    OthersShrink(s, l, s');
    StepWire(s, l, s');
    NewStaysNew(BoxOf(s0), BoxOf(s), BoxOf(s'));
    if l.Network? {
      SinceOn(BoxOf(s0), BoxOf(s), l.a);
      NothingNew(BoxOf(s0), BoxOf(s), l.a);
    } else if Posts(s, l) {
      SinceSending(BoxOf(s0), BoxOf(s), l.d, RequestOf(s.workers[l.w]).call);
    }
  }

  lemma NothingNew(b0: Mailbox, b: Mailbox, a: WireAction)
    requires WireStep(b.wire, a).Some? && Foreign(b, a)
    ensures forall d :: New(b0, Mailbox(WireStep(b.wire, a).value, b.key), d) <==> New(b0, b, d)
  {
    hide WireStep;
    MineIsKept(b, a);
  }

  lemma StepWire(s: System, l: Label, s': System)
    requires Inv(s) && Step(s, l) == Some(s') && KeyOf(s') == KeyOf(s)
    ensures forall d | d in s.wire.sent :: d in s'.wire.sent && s'.wire.sent[d] == s.wire.sent[d]
  {
    hide Inv, Step, WireSound;
    InvIsMail(s);
    StepMovesWire(s, l, s');
  }

  /** A settlement records the evidence its worker holds. */
  predicate EndsBy(s: System, l: Label, s': System) {
    && l.SettleOutcome? && At(s, l.w) && s.workers[l.w].lease.Some? && s.workers[l.w].place.Settling?
    && s'.ending.Some? && s'.ending.value.evidence == s.workers[l.w].place.evidence
  }

  /** Only a settlement changes how the action ended. */
  lemma EndingFollows(s: System, l: Label, s': System)
    requires Inv(s) && Step(s, l) == Some(s')
    ensures s'.ending == s.ending
            || (s.grants != [] && EndsBy(s, l, s') && s.workers[l.w].lease == Some(Last(s.grants)))
  {
    hide Inv, Step, MovesBy;
    StepOfSound(s, l, s');
    InvIsLedger(s);
    MovesSettleTheNewest(s, MoveOf(s, l, s'), s');
    EndingMoves(s, l, s');
    if s'.ending != s.ending {
      assert s'.settled[|s.settled|] == s.workers[l.w].lease.value;
    }
  }

  lemma EndingMoves(s: System, l: Label, s': System)
    requires Step(s, l) == Some(s') && MovesBy(s, MoveOf(s, l, s'), s')
    ensures s'.ending == s.ending
            || (EndsBy(s, l, s') && s'.settled == s.settled + [s.workers[l.w].lease.value])
  {
    hide Step, RowMove, Sound, RecordOutcome;
    if l.SettleOutcome? { OutcomeStep(s, l, s'); }
  }

  lemma AloneStays(s0: System, w: WorkerId, s: System, l: Label, s': System)
    requires Inv(s) && s0.grants != [] && Alone(s0, w, s)
    requires Step(s, l) == Some(s') && !Duplicates(l) && s'.grants == s.grants
    ensures Alone(s0, w, s')
  {
    hide Step, Inv, RequestOf, Since, New, Unsent;
    BoxStays(s0, w, s, l, s');
    StepFollows(s, l, s');
    EndingFollows(s, l, s');
  }

  lemma StepGrants(s: System, l: Label, s': System)
    requires Inv(s) && Step(s, l) == Some(s')
    ensures s.grants <= s'.grants
  {
    hide Inv, Step, MovesBy;
    StepOfSound(s, l, s');
    GrantsGrow(s, MoveOf(s, l, s'), s');
  }

  lemma {:induction false} GrantsPrefix(s: System, more: seq<Label>)
    requires Inv(s)
    ensures s.grants <= Continue(s, more).grants
  {
    hide Inv, Step;
    if more != [] {
      var before, l := Continue(s, more[..|more| - 1]), more[|more| - 1];
      GrantsPrefix(s, more[..|more| - 1]);
      ContinueKeepsInv(s, more[..|more| - 1]);
      if Step(before, l).Some? { StepGrants(before, l, Step(before, l).value); }
    }
  }

  lemma {:induction false} AloneOnwards(s: System, w: WorkerId, more: seq<Label>)
    requires Inv(s) && SoleWriter(s, w) && NoDuplicates(more)
    requires Continue(s, more).grants == s.grants
    ensures Alone(s, w, Continue(s, more))
  {
    hide Inv, Step, Alone, SoleWriter;
    HasGrants(s, w);
    if more == [] {
      AloneAtFirst(s, w);
    } else {
      var before, l := Continue(s, more[..|more| - 1]), more[|more| - 1];
      ContinueKeepsInv(s, more[..|more| - 1]);
      GrantsPrefix(s, more[..|more| - 1]);
      if Step(before, l).Some? {
        StepGrants(before, l, Step(before, l).value);
        AloneOnwards(s, w, more[..|more| - 1]);
        AloneHasGrants(s, w, before);
        AloneStays(s, w, before, l, Step(before, l).value);
      } else {
        AloneOnwards(s, w, more[..|more| - 1]);
      }
    }
  }

  lemma HasGrants(s: System, w: WorkerId)
    requires SoleWriter(s, w)
    ensures s.grants != []
  {
  }

  lemma AloneHasGrants(s0: System, w: WorkerId, s: System)
    requires s0.grants != [] && Alone(s0, w, s)
    ensures s.grants == s0.grants
  {
  }

  // ---- The verdict of the last writer ----

  /** The action failed on an answer that was heard. */
  predicate FailedOnAnswer(s: System) {
    s.row.state == Failed && s.ending.Some? && s.ending.value.evidence.Heard?
  }

  /** The sole writer's own lease ended the action so. */
  ghost predicate LastWriterFailed(s0: System, w: WorkerId, s: System) {
    SoleWriter(s0, w) && FailedOnAnswer(s) && s.settled != [] && Last(s.settled) == Last(s0.grants)
  }

  /** An answered request is done; with it nothing under the key can write any more. */
  lemma AnsweredIsSpent(b0: Mailbox, b: Mailbox, a: Answer)
    requires Since(b0, b) && New(b0, b, a.dispatch) && a in b.wire.answers
    ensures NoWritesLeft(b)
  {
    hide HasEffect;
  }

  /** A refusal brings no effect: what took hold since would have been answered from its record. */
  lemma RefusalsBringNothing(b0: Mailbox, b: Mailbox, a: Answer)
    requires WireSound(b0.wire) && WireSound(b.wire) && Since(b0, b)
    requires New(b0, b, a.dispatch) && a in b.wire.answers && Refusing(StatusOf(a.reply))
    ensures HasEffect(b.wire.db, b.key) <==> HasEffect(b0.wire.db, b0.key)
    ensures a.origin == Early || a.origin == Conflict || !HasEffect(b.wire.db, b.key)
  {
    hide HasEffect, LocksSound, CommittersSound, TakenOnce;
    assert AnswerSound(b.wire, a);
    EffectMatchesRecord(b0.wire.db, b0.key);
    EffectMatchesRecord(b.wire.db, b.key);
    if a.origin == Recorded { RecordedAnswersTell(b, a); }
  }

  lemma SoleWriterDecides(s0: System, w: WorkerId, s: System)
    requires Inv(s0) && Inv(s) && s0.grants != [] && Alone(s0, w, s) && FailedOnAnswer(s)
    ensures Final(s) <==> EffectFree(s0)
    ensures s.ending.value.evidence.answer.origin != Early ==> Final(s)
  {
    hide Ledger, Crew, Trail, WireSound, Since, New, HasEffect, RejectionRecorded, NoWritesLeft;
    var b0, b, a := BoxOf(s0), BoxOf(s), s.ending.value.evidence.answer;
    OneRequestPerKey(s);
    AnsweredIsSpent(b0, b, a);
    RefusalsBringNothing(b0, b, a);
    SameKeySince(b0, b);
    if !HasEffect(b.wire.db, b.key) && !RejectionRecorded(b) {
      NoRecordYet(b);
    }
    if Final(s) { FinalIsFree(s); }
  }

  lemma SameKeySince(b0: Mailbox, b: Mailbox)
    requires Since(b0, b)
    ensures b.key == b0.key
  {
  }

  lemma NewestGrantsOnly(s0: System, s: System)
    requires Ledger(s) && s0.grants != [] && s0.grants <= s.grants
    requires s.row.state == Failed && s.settled != [] && Last(s.settled) == Last(s0.grants)
    ensures s.grants == s0.grants
  {
    hide Sound, GatesSatisfied, Starts;
    assert s.grants[|s0.grants| - 1] == Last(s0.grants);
  }

  /**
    When no earlier request can write any more and one worker, holding the newest lease, is left
    to send: a FAILED it records on the answer it heard is final exactly when there was no
    effect at that point, and it always is on an answer from the idempotent transaction, be it
    the key's record or a rejection that was rolled back.
   */
  lemma LastWritersFailureIsFinalExactly(r: ActionStore.CreateRequest, run: seq<Label>, w: WorkerId, more: seq<Label>)
    requires Creatable(r) && NoDuplicates(more)
    ensures var (s0, s) := (ActionProtocol.After(r, run), ActionProtocol.After(r, run + more));
      LastWriterFailed(s0, w, s) ==>
        && (Final(s) <==> EffectFree(s0))
        && (s.ending.value.evidence.answer.origin != Early ==> Final(s))
  {
    hide Inv, Step, NoDuplicates, SoleWriter, Final, EffectFree, Alone;
    RunsKeepInv(r, run);
    RunsKeepInv(r, run + more);
    ContinueJoins(Begun(r), run, more);
    var s0, s := ActionProtocol.After(r, run), ActionProtocol.After(r, run + more);
    if LastWriterFailed(s0, w, s) {
      HasGrants(s0, w);
      GrantsPrefix(s0, more);
      InvIsLedger(s);
      NewestGrantsOnly(s0, s);
      AloneOnwards(s0, w, more);
      SoleWriterDecides(s0, w, s);
    }
  }
}
