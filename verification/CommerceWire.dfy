/**
  Many write requests at once: the network between the client and NovaCommerce, and the
  server's transactions split into insert, operation and commit. Every interleaving is
  equivalent to the whole transactions run one after another in commit order.
 */
module CommerceWire {
  import opened Options
  import opened ActionModel
  import opened IdempotentWrites

  type Dispatch = nat

  /** Where an answer comes from. */
  datatype Origin =
    | Early      // answered before the idempotent transaction: authentication, validation, unknown customer
    | Inside     // the operation raised an API error and the transaction rolled back
    | Recorded   // the outcome of the key's committed record
    | Conflict   // the key belongs to a different request
    | Unknown    // outcome unknown

  datatype Answer = Answer(dispatch: Dispatch, reply: ServerReply, origin: Origin)

  /** An open transaction: it holds the uncommitted insert of its key, then a staged outcome. */
  datatype Txn = Txn(staged: Option<WriteOutcome>)

  datatype Wire = Wire(
    db: Database,
    sent: map<Dispatch, WriteCall>,
    live: set<Dispatch>,
    open: map<Dispatch, Txn>,
    answers: set<Answer>,
    committer: map<Key, Dispatch>,
    duplicated: bool)

  const IDLE := Wire(Database(map[], []), map[], {}, map[], {}, map[], false)

  datatype WireAction =
    | Post(d: Dispatch, call: WriteCall)
    | Vanish(d: Dispatch)
    | Duplicate(d: Dispatch)
    | AnswerEarly(d: Dispatch, status: int, code: string)
    | Begin(d: Dispatch)
    | Operate(d: Dispatch, result: OperationResult)
    | Commit(d: Dispatch, commit: CommitResult)
    | Abort(d: Dispatch)

  function Answered(w: Wire, d: Dispatch, reply: ServerReply, origin: Origin): Wire {
    w.(answers := w.answers + {Answer(d, reply, origin)})
  }

  function OriginOf(reply: ServerReply): Origin {
    if reply.Executed? then Recorded else if reply == KEY_REUSED then Conflict else Unknown
  }

  /** Some open transaction holds the uncommitted insert of this key; another insert of it waits. */
  predicate Locked(w: Wire, key: Key) {
    exists e :: e in w.open && e in w.sent && w.sent[e].key == key
  }

  predicate ErrorStatus(status: int) { 400 <= status <= 599 }

  /** The wire after one step, or None when the step is not enabled. */
  function WireStep(w: Wire, a: WireAction): Option<Wire> {
    match a
    case Post(d, call) =>
      if d in w.sent then None else Some(w.(sent := w.sent[d := call], live := w.live + {d}))
    case Vanish(d) =>
      if d !in w.live then None else Some(w.(live := w.live - {d}))
    case Duplicate(d) =>
      if d !in w.sent then None else Some(w.(live := w.live + {d}, duplicated := true))
    case AnswerEarly(d, status, code) =>
      if d !in w.live || !ErrorStatus(status) then None
      else Some(Answered(w.(live := w.live - {d}), d, ApiError(status, code), Early))
    case Begin(d) =>
      if d !in w.live || d !in w.sent || d in w.open || Locked(w, w.sent[d].key) then None
      else if w.sent[d].key in w.db.records then
        var reply := Replay(w.db.records[w.sent[d].key], w.sent[d]);
        Some(Answered(w.(live := w.live - {d}), d, reply, OriginOf(reply)))
      else Some(w.(live := w.live - {d}, open := w.open[d := Txn(None)]))
    case Operate(d, result) =>
      if d !in w.open || w.open[d].staged.Some? || (result.RaisedApi? && !ErrorStatus(result.status)) then None
      else
        (match result
         case Returned(o) => Some(w.(open := w.open[d := Txn(Some(o))]))
         case RaisedApi(status, code) => Some(Answered(w.(open := w.open - {d}), d, ApiError(status, code), Inside))
         case RaisedOther => Some(Answered(w.(open := w.open - {d}), d, OUTCOME_UNKNOWN, Unknown)))
    case Commit(d, commit) =>
      if d !in w.open || d !in w.sent || w.open[d].staged.None? then None
      else
        var o, call := w.open[d].staged.value, w.sent[d];
        var closed := w.(open := w.open - {d});
        var held := closed.(db := Committed(w.db, call, o), committer := w.committer[call.key := d]);
        (match commit
         case CommitOk => Some(Answered(held, d, Executed(o, false), Recorded))
         case CommitFailed => Some(Answered(closed, d, OUTCOME_UNKNOWN, Unknown))
         case CommitLost => Some(Answered(held, d, OUTCOME_UNKNOWN, Unknown)))
    case Abort(d) =>
      if d !in w.open then None else Some(w.(open := w.open - {d}))
  }

  // ---- The invariant ----

  ghost predicate AnswerSound(w: Wire, a: Answer) {
    && a.dispatch in w.sent
    && var stored := Stored(w.db, w.sent[a.dispatch].key);
      match a.origin
      case Early => a.reply.ApiError? && ErrorStatus(a.reply.status)
      case Inside => a.reply.ApiError? && ErrorStatus(a.reply.status)
      case Recorded => stored.Some? && stored.value.0 == w.sent[a.dispatch] && Echoes(a.reply, stored.value.1)
      case Conflict => a.reply == KEY_REUSED && stored.Some? && stored.value.0 != w.sent[a.dispatch]
      case Unknown => a.reply == OUTCOME_UNKNOWN
  }

  /** Open transactions hold distinct keys that have no record yet. */
  ghost predicate LocksSound(w: Wire) {
    && w.live <= w.sent.Keys
    && w.open.Keys <= w.sent.Keys
    && (forall a | a in w.answers :: a.dispatch in w.sent)
    && (forall d | d in w.open :: w.sent[d].key !in w.db.records)
    && (forall d, e | d in w.open && e in w.open && d != e :: w.sent[d].key != w.sent[e].key)
  }

  /** Every record was committed by a dispatch of exactly that call. */
  ghost predicate CommittersSound(w: Wire) {
    && w.committer.Keys == w.db.records.Keys
    && (forall k | k in w.committer ::
          w.committer[k] in w.sent && Stored(w.db, k).value.0 == w.sent[w.committer[k]])
  }

  /** Without duplication each dispatch is taken by the server at most once. */
  ghost predicate TakenOnce(w: Wire) {
    !w.duplicated ==>
      && w.live !! w.open.Keys
      && (forall a | a in w.answers :: a.dispatch !in w.live && a.dispatch !in w.open)
      && (forall k | k in w.committer :: w.committer[k] !in w.live && w.committer[k] !in w.open)
      && (forall k, a | k in w.committer && a in w.answers && a.dispatch == w.committer[k] ::
            a.origin == Recorded || a.origin == Unknown)
  }

  ghost predicate WireSound(w: Wire) {
    && DatabaseSound(w.db)
    && LocksSound(w)
    && CommittersSound(w)
    && (forall a | a in w.answers :: AnswerSound(w, a))
    && TakenOnce(w)
  }

  lemma ReplayIsSound(w: Wire, d: Dispatch)
    requires WireSound(w) && d in w.sent && w.sent[d].key in w.db.records
    ensures var reply := Replay(w.db.records[w.sent[d].key], w.sent[d]);
      AnswerSound(w, Answer(d, reply, OriginOf(reply))) && (OriginOf(reply) == Recorded || OriginOf(reply) == Conflict)
  {
    KnownKeysReplayTheirOutcome(w.db, w.sent[d], RaisedOther, CommitOk);
  }

  lemma AnswersSurvive(w: Wire, w': Wire)
    requires forall a | a in w.answers :: AnswerSound(w, a)
    requires forall d | d in w.sent :: d in w'.sent && w'.sent[d] == w.sent[d]
    requires forall k | Stored(w.db, k).Some? :: Stored(w'.db, k) == Stored(w.db, k)
    ensures forall a | a in w.answers :: AnswerSound(w', a)
  {
    hide Stored, Echoes;
  }

  lemma CommittedStores(db: Database, call: WriteCall, o: WriteOutcome)
    requires call.key !in db.records
    ensures Stored(Committed(db, call, o), call.key) == Some((call, o))
    ensures Stored(db, call.key).None?
    ensures forall k | k != call.key :: Stored(Committed(db, call, o), k) == Stored(db, k)
    ensures Committed(db, call, o).records.Keys == db.records.Keys + {call.key}
  {
  }

  predicate TakesHoldHere(a: WireAction) {
    a.Commit? && a.commit != CommitFailed
  }

  /** The committed state changes only by a commit that takes hold, and then by exactly its record. */
  ghost predicate StoresExactly(w: Wire, a: WireAction, w': Wire) {
    && DatabaseSound(w'.db)
    && (forall d | d in w.sent :: d in w'.sent && w'.sent[d] == w.sent[d])
    && (forall k | Stored(w.db, k).Some? :: Stored(w'.db, k) == Stored(w.db, k))
    && (if TakesHoldHere(a) then
          && a.d in w.sent && a.d in w.open && w.open[a.d].staged.Some?
          && var call := w.sent[a.d];
          && w'.db.records.Keys == w.db.records.Keys + {call.key}
          && Stored(w'.db, call.key) == Some((call, w.open[a.d].staged.value))
          && w'.committer == w.committer[call.key := a.d]
        else w'.db == w.db && w'.committer == w.committer)
  }

  lemma StepStores(w: Wire, a: WireAction)
    requires WireSound(w) && WireStep(w, a).Some?
    ensures StoresExactly(w, a, WireStep(w, a).value)
  {
    hide AnswerSound, DatabaseSound, TakenOnce, Replay, Stored, Committed, OriginOf, CommittersSound;
    if TakesHoldHere(a) {
      var call, o := w.sent[a.d], w.open[a.d].staged.value;
      CommitKeepsSound(w.db, call, o);
      CommittedStores(w.db, call, o);
    }
  }

  /** A transaction opens only on a free key without a record, and the one that commits closes. */
  ghost predicate OpensOnlyFree(w: Wire, a: WireAction, w': Wire) {
    && w'.live <= w'.sent.Keys
    && (forall x | x in w'.answers && x !in w.answers :: x.dispatch in w.sent)
    && (forall d | d in w'.open && d !in w.open ::
          a == Begin(d) && d in w.sent && !Locked(w, w.sent[d].key) && w.sent[d].key !in w.db.records)
    && (TakesHoldHere(a) ==> a.d !in w'.open)
  }

  lemma StepOpensOnlyFree(w: Wire, a: WireAction)
    requires WireSound(w) && WireStep(w, a).Some?
    ensures OpensOnlyFree(w, a, WireStep(w, a).value)
  {
    hide AnswerSound, DatabaseSound, TakenOnce, CommittersSound, Replay, Committed, OriginOf, ErrorStatus, Locked;
  }

  lemma LocksKept(w: Wire, a: WireAction)
    requires WireSound(w) && WireStep(w, a).Some?
    ensures LocksSound(WireStep(w, a).value)
  {
    hide AnswerSound, DatabaseSound, TakenOnce, CommittersSound, Stored, WireStep;
    StepStores(w, a);
    StepOpensOnlyFree(w, a);
  }

  lemma CommittersKept(w: Wire, a: WireAction)
    requires WireSound(w) && WireStep(w, a).Some?
    ensures CommittersSound(WireStep(w, a).value)
  {
    hide WireStep, AnswerSound, DatabaseSound, TakenOnce;
    StepStores(w, a);
    StoredIffRecorded(w.db);
    hide Stored;
  }

  lemma StoredIffRecorded(db: Database)
    ensures forall k :: Stored(db, k).Some? <==> k in db.records
  {
  }

  predicate Pending(w: Wire, d: Dispatch) { d in w.live || d in w.open }

  /** What is answered or committed was pending and no longer is; nothing else becomes pending but a new post. */
  ghost predicate Takes(w: Wire, a: WireAction, w': Wire) {
    && w'.live !! w'.open.Keys
    && (forall d | Pending(w', d) :: Pending(w, d) || d !in w.sent)
    && (forall x | x in w'.answers && x !in w.answers ::
          && Pending(w, x.dispatch) && !Pending(w', x.dispatch)
          && (TakesHoldHere(a) ==> x.origin == Recorded || x.origin == Unknown))
    && (TakesHoldHere(a) ==> Pending(w, a.d) && !Pending(w', a.d))
  }

  lemma StepTakes(w: Wire, a: WireAction)
    requires WireSound(w) && WireStep(w, a).Some? && !w.duplicated && !a.Duplicate?
    ensures Takes(w, a, WireStep(w, a).value)
  {
    hide AnswerSound, DatabaseSound, CommittersSound, Stored, Replay, OriginOf, Committed, ErrorStatus, Locked;
  }

  lemma DuplicationIsMarked(w: Wire, a: WireAction)
    requires WireStep(w, a).Some?
    ensures WireStep(w, a).value.duplicated <==> w.duplicated || a.Duplicate?
  {
    hide Replay, OriginOf, Committed, ErrorStatus, Locked;
  }

  lemma TakenOnceKept(w: Wire, a: WireAction)
    requires WireSound(w) && WireStep(w, a).Some?
    ensures TakenOnce(WireStep(w, a).value)
  {
    hide WireStep, AnswerSound, DatabaseSound, Stored;
    StepStores(w, a);
    DuplicationIsMarked(w, a);
    if !WireStep(w, a).value.duplicated {
      StepTakes(w, a);
    }
  }

  /** Earlier answers stay true, and the one a step adds is true. */
  lemma AnswersKept(w: Wire, a: WireAction)
    requires WireSound(w) && WireStep(w, a).Some?
    ensures forall x | x in WireStep(w, a).value.answers :: AnswerSound(WireStep(w, a).value, x)
  {
    hide AnswerSound;
    var w' := WireStep(w, a).value;
    StepStores(w, a);
    AnswersSurvive(w, w');
    NewAnswerIsSound(w, a);

  }

  lemma NewAnswerIsSound(w: Wire, a: WireAction)
    requires WireSound(w) && WireStep(w, a).Some?
    ensures forall x | x in WireStep(w, a).value.answers && x !in w.answers :: AnswerSound(WireStep(w, a).value, x)
  {
    hide TakenOnce, DatabaseSound, CommittersSound;
    StepStores(w, a);
    if a.Begin? && w.sent[a.d].key in w.db.records {
      ReplayIsSound(w, a.d);
    }
  }

  lemma WireStepKeepsSound(w: Wire, a: WireAction)
    requires WireSound(w) && WireStep(w, a).Some?
    ensures WireSound(WireStep(w, a).value)
  {
    hide WireStep, DatabaseSound, LocksSound, CommittersSound, TakenOnce, AnswerSound;
    StepStores(w, a);
    LocksKept(w, a);
    CommittersKept(w, a);
    TakenOnceKept(w, a);
    AnswersKept(w, a);

  }

  // ---- Linearization ----

  /** The whole transaction, if any, that a step performs in the eyes of the committed state. */
  function Linearized(w: Wire, a: WireAction): Option<Attempt> {
    match a
    case Begin(d) =>
      if d in w.sent && w.sent[d].key in w.db.records then Some(Attempt(w.sent[d], RaisedOther, CommitOk)) else None
    case Operate(d, result) =>
      if d in w.sent && !result.Returned? then Some(Attempt(w.sent[d], result, CommitOk)) else None
    case Commit(d, commit) =>
      if d in w.sent && d in w.open && w.open[d].staged.Some?
      then Some(Attempt(w.sent[d], Returned(w.open[d].staged.value), commit)) else None
    case _ => None
  }

  /**
    A step either is one whole transaction, with its committed state and its reply, or leaves
    the committed state alone and answers at most something from before the transaction.
   */
  lemma StepIsOneTransactionOrNone(w: Wire, a: WireAction)
    requires WireSound(w) && WireStep(w, a).Some?
    ensures var w' := WireStep(w, a).value;
      match Linearized(w, a)
      case Some(t) =>
        var (db', reply) := Execute(w.db, t.call, t.result, t.commit);
        && w'.db == db' && a.d in w.sent && t.call == w.sent[a.d]
        && exists origin :: w'.answers == w.answers + {Answer(a.d, reply, origin)} && origin != Early
      case None =>
        w'.db == w.db && forall x | x in w'.answers && x !in w.answers :: x.origin == Early
  {
    hide TakenOnce, DatabaseSound, CommittersSound, AnswerSound;
    var w' := WireStep(w, a).value;
    if Linearized(w, a).Some? {
      var t := Linearized(w, a).value;
      var reply := Execute(w.db, t.call, t.result, t.commit).1;
      if a.Begin? {
        assert w'.answers == w.answers + {Answer(a.d, reply, OriginOf(reply))};
      } else if a.Operate? {
        assert w'.answers == w.answers + {Answer(a.d, reply, if a.result.RaisedApi? then Inside else Unknown)};
      } else {
        assert w'.answers == w.answers + {Answer(a.d, reply, if a.commit == CommitOk then Recorded else Unknown)};
      }
    }
  }

  /** A wire and the sequential history that explains it. */
  datatype Explained = Explained(wire: Wire, history: seq<Attempt>)

  /** The entry a step adds to the history, if any. */
  function Entry(w: Wire, a: WireAction): seq<Attempt> {
    match Linearized(w, a) case Some(t) => [t] case None => []
  }

  /** Runs the enabled steps in order; a step that is not enabled does nothing. */
  function RunWire(actions: seq<WireAction>): Explained {
    if actions == [] then Explained(IDLE, [])
    else
      var before, a := RunWire(actions[..|actions| - 1]), actions[|actions| - 1];
      match WireStep(before.wire, a)
      case None => before
      case Some(w) =>
        Explained(w, before.history + Entry(before.wire, a))
  }

  /** The reply that one entry of the history, for the same request, gives in its place. */
  ghost predicate Explains(w: Wire, history: seq<Attempt>, a: Answer) {
    exists i :: && 0 <= i < |history|
                && a.dispatch in w.sent && history[i].call == w.sent[a.dispatch] && ReplyAt(history, i) == a.reply
  }

  ghost predicate AnswersExplained(w: Wire, history: seq<Attempt>) {
    forall a | a in w.answers && a.origin != Early :: Explains(w, history, a)
  }

  lemma ExplainedStays(w: Wire, w': Wire, history: seq<Attempt>, more: seq<Attempt>, a: Answer)
    requires Explains(w, history, a)
    requires forall d | d in w.sent :: d in w'.sent && w'.sent[d] == w.sent[d]
    ensures Explains(w', history + more, a)
  {
    var i :| && 0 <= i < |history|
             && a.dispatch in w.sent && history[i].call == w.sent[a.dispatch] && ReplyAt(history, i) == a.reply;
    assert (history + more)[..i] == history[..i];
    assert ReplyAt(history + more, i) == a.reply;
  }

  lemma LastExplains(w: Wire, history: seq<Attempt>, t: Attempt, a: Answer)
    requires a.dispatch in w.sent && t.call == w.sent[a.dispatch]
    requires Execute(IdempotentWrites.After(history), t.call, t.result, t.commit).1 == a.reply
    ensures Explains(w, history + [t], a)
  {
    hide Execute;
    assert (history + [t])[..|history|] == history;
    assert ReplyAt(history + [t], |history|) == a.reply;
  }

  lemma HistoryFollows(before: Explained, a: WireAction)
    requires WireSound(before.wire) && WireStep(before.wire, a).Some?
    requires before.wire.db == After(before.history)
    ensures WireStep(before.wire, a).value.db == After(before.history + Entry(before.wire, a))
  {
    hide WireStep, WireSound, Execute, Linearized;
    StepIsOneTransactionOrNone(before.wire, a);
    match Linearized(before.wire, a)
    case None => assert before.history + [] == before.history;
    case Some(t) => assert (before.history + [t])[..|before.history|] == before.history;
  }

  lemma AnswersStayExplained(before: Explained, a: WireAction)
    requires WireSound(before.wire) && WireStep(before.wire, a).Some?
    requires before.wire.db == After(before.history) && AnswersExplained(before.wire, before.history)
    ensures AnswersExplained(WireStep(before.wire, a).value, before.history + Entry(before.wire, a))
  {
    hide WireStep, WireSound, Execute, Linearized, Explains, StoresExactly;
    var w, w' := before.wire, WireStep(before.wire, a).value;
    SentStays(w, a);
    StepIsOneTransactionOrNone(w, a);
    var more := Entry(w, a);
    forall x | x in w'.answers && x.origin != Early
      ensures Explains(w', before.history + more, x)
    {
      if x in w.answers {
        ExplainedStays(w, w', before.history, more, x);
      } else {
        LastExplains(w', before.history, Linearized(w, a).value, x);
      }
    }
  }

  lemma SentStays(w: Wire, a: WireAction)
    requires WireSound(w) && WireStep(w, a).Some?
    ensures forall d | d in w.sent :: d in WireStep(w, a).value.sent && WireStep(w, a).value.sent[d] == w.sent[d]
  {
    hide WireStep, WireSound;
    StepStores(w, a);
  }

  /**
    However requests interleave, the committed state is that of whole transactions run one by
    one, and every answer, but those from before the transaction, is the reply of its request's
    entry in that sequential history.
   */
  lemma {:induction false} InterleavingsAreSequential(actions: seq<WireAction>)
    ensures WireSound(RunWire(actions).wire)
    ensures RunWire(actions).wire.db == After(RunWire(actions).history)
    ensures AnswersExplained(RunWire(actions).wire, RunWire(actions).history)
  {
    hide WireStep, WireSound, AnswersExplained, Entry;
    if actions == [] {
      NothingToExplain();
    } else {
      var before, a := RunWire(actions[..|actions| - 1]), actions[|actions| - 1];
      InterleavingsAreSequential(actions[..|actions| - 1]);
      if WireStep(before.wire, a).Some? {
        WireStepKeepsSound(before.wire, a);
        HistoryFollows(before, a);
        AnswersStayExplained(before, a);
      }
    }
  }

  lemma NothingToExplain()
    ensures WireSound(IDLE) && AnswersExplained(IDLE, [])
  {
  }
}
