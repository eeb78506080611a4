/**
  NovaCommerce's idempotent write transaction: one execution, its invariant, and its
  refinement of a map that runs each key at most once.
 */
module IdempotentWrites {
  import opened Options
  import opened ActionModel

  type Key = Uuid

  datatype Operation = CancelOperation | RescheduleOperation | ReturnOperation | TicketOperation | RefundOperation

  datatype ApprovalReference = ApprovalReference(action: Uuid, fingerprint: Fingerprint)

  /** The JSON body of a write, as the client sends it. */
  datatype WriteBody =
    | NoBody
    | SlotBody(slot: Uuid)
    | ReturnBody(order: Uuid, reason: string, items: seq<ReturnItem>)
    | TicketBody(ticketOrder: Option<Uuid>, category: string, subject: string, description: string)
    | RefundBody(amountCents: int, refundReason: string, approval: Option<ApprovalReference>)

  /**
    What the request fingerprint hashes. The digest is taken to be injective on these
    envelopes, so the envelope stands for its digest.
   */
  datatype Envelope = Envelope(operation: Operation, customer: Uuid, targets: seq<Uuid>, body: WriteBody)

  datatype WriteCall = WriteCall(key: Key, envelope: Envelope)

  datatype WriteOutcome = WriteOutcome(status: int, body: string)

  datatype RecordStatus = InProgress | Completed

  datatype IdempotencyRecord = IdempotencyRecord(
    operation: Operation,
    customer: Uuid,
    fingerprint: Envelope,
    status: RecordStatus,
    responseStatus: Option<int>,
    responseBody: Option<string>)

  /** What the operation does inside the transaction when it is called. */
  datatype OperationResult = Returned(outcome: WriteOutcome) | RaisedApi(status: int, code: string) | RaisedOther

  /** Commit may succeed, fail, or take hold and still report an error. */
  datatype CommitResult = CommitOk | CommitFailed | CommitLost

  datatype ServerReply =
    | Executed(outcome: WriteOutcome, replayed: bool)
    | ApiError(status: int, code: string)

  const OUTCOME_UNKNOWN := ApiError(503, "write_outcome_unknown")
  const KEY_REUSED := ApiError(409, "idempotency_key_reused")

  /**
    Committed records, and the committed business effects in commit order. An operation is
    taken to write exactly when it returns a 2xx outcome, as the five write handlers do.
   */
  datatype Database = Database(records: map<Key, IdempotencyRecord>, effects: seq<WriteCall>)

  predicate Success(status: int) { 200 <= status < 300 }

  function Started(call: WriteCall): IdempotencyRecord {
    IdempotencyRecord(call.envelope.operation, call.envelope.customer, call.envelope, InProgress, None, None)
  }

  function Finished(call: WriteCall, o: WriteOutcome): IdempotencyRecord {
    Started(call).(status := Completed, responseStatus := Some(o.status), responseBody := Some(o.body))
  }

  predicate SameCall(record: IdempotencyRecord, call: WriteCall) {
    && record.operation == call.envelope.operation
    && record.customer == call.envelope.customer
    && record.fingerprint == call.envelope
  }

  /** A stored status of 0 or NULL is replayed as 500. */
  function StatusOr500(status: Option<int>): int {
    if status.None? || status.value == 0 then 500 else status.value
  }

  /** The answer to a key that already has a record. */
  function Replay(record: IdempotencyRecord, call: WriteCall): ServerReply {
    if !SameCall(record, call) then KEY_REUSED
    else if record.status != Completed || record.responseBody.None? then OUTCOME_UNKNOWN
    else Executed(WriteOutcome(StatusOr500(record.responseStatus), record.responseBody.value), true)
  }

  function Committed(db: Database, call: WriteCall, o: WriteOutcome): Database {
    Database(db.records[call.key := Finished(call, o)],
             if Success(o.status) then db.effects + [call] else db.effects)
  }

  /** One whole transaction, run alone. */
  function Execute(
    db: Database, call: WriteCall, result: OperationResult, commit: CommitResult): (Database, ServerReply)
  {
    if call.key in db.records then (db, Replay(db.records[call.key], call))
    else
      match result
      case RaisedApi(status, code) => (db, ApiError(status, code))
      case RaisedOther => (db, OUTCOME_UNKNOWN)
      case Returned(o) =>
        match commit
        case CommitOk => (Committed(db, call, o), Executed(o, false))
        case CommitFailed => (db, OUTCOME_UNKNOWN)
        case CommitLost => (Committed(db, call, o), OUTCOME_UNKNOWN)
  }

  // ---- The invariant of the committed state ----

  predicate RecordSound(record: IdempotencyRecord) {
    && record.operation == record.fingerprint.operation && record.customer == record.fingerprint.customer
    && record.status == Completed && record.responseStatus.Some? && record.responseBody.Some?
  }

  ghost predicate HasEffect(db: Database, key: Key) {
    exists i :: 0 <= i < |db.effects| && db.effects[i].key == key
  }

  /** The effects are calls with a recorded 2xx outcome, each key once. */
  ghost predicate EffectsRecorded(db: Database) {
    && (forall i, j | 0 <= i < j < |db.effects| :: db.effects[i].key != db.effects[j].key)
    && (forall i | 0 <= i < |db.effects| ::
          && db.effects[i].key in db.records
          && SameCall(db.records[db.effects[i].key], db.effects[i])
          && db.records[db.effects[i].key].responseStatus.Some?
          && Success(db.records[db.effects[i].key].responseStatus.value))
  }

  /** Every record is complete and consistent, and the effects are exactly the 2xx keys, each once. */
  ghost predicate DatabaseSound(db: Database) {
    && (forall k | k in db.records :: RecordSound(db.records[k]))
    && EffectsRecorded(db)
    && (forall k | k in db.records && Success(db.records[k].responseStatus.value) :: HasEffect(db, k))
  }

  /** A commit adds an effect of its own key exactly when it succeeded, and no other. */
  lemma CommitAddsEffect(db: Database, call: WriteCall, o: WriteOutcome, k: Key)
    requires DatabaseSound(db) && call.key !in db.records
    ensures HasEffect(Committed(db, call, o), k) <==> if k == call.key then Success(o.status) else HasEffect(db, k)
  {
    var db' := Committed(db, call, o);
    if HasEffect(db, k) {
      var i :| 0 <= i < |db.effects| && db.effects[i].key == k;
      assert db'.effects[i].key == k;
    }
    if k == call.key && Success(o.status) {
      assert db'.effects[|db.effects|].key == k;
    }
  }

  lemma CommitKeepsEffectsRecorded(db: Database, call: WriteCall, o: WriteOutcome)
    requires EffectsRecorded(db) && call.key !in db.records
    ensures EffectsRecorded(Committed(db, call, o))
  {
  }

  lemma CommitKeepsSound(db: Database, call: WriteCall, o: WriteOutcome)
    requires DatabaseSound(db) && call.key !in db.records
    ensures DatabaseSound(Committed(db, call, o))
    ensures HasEffect(Committed(db, call, o), call.key) <==> Success(o.status)
    ensures forall k | k != call.key :: HasEffect(Committed(db, call, o), k) <==> HasEffect(db, k)
  {
    hide HasEffect, EffectsRecorded;
    var db' := Committed(db, call, o);
    CommitKeepsEffectsRecorded(db, call, o);
    forall k
      ensures HasEffect(db', k) <==> if k == call.key then Success(o.status) else HasEffect(db, k)
    {
      CommitAddsEffect(db, call, o, k);
    }
  }

  // ---- Refinement: a map that runs each key once ----

  type OnceMap = map<Key, (WriteCall, WriteOutcome)>

  /** The first outcome wins, for good. */
  function RunOnce(m: OnceMap, call: WriteCall, o: WriteOutcome): OnceMap {
    if call.key in m then m else m[call.key := (call, o)]
  }

  function OutcomeOf(record: IdempotencyRecord): WriteOutcome {
    WriteOutcome(if record.responseStatus.Some? then record.responseStatus.value else 500,
                 if record.responseBody.Some? then record.responseBody.value else "")
  }

  function Abstract(db: Database): OnceMap {
    map k | k in db.records :: (WriteCall(k, db.records[k].fingerprint), OutcomeOf(db.records[k]))
  }

  /** Whether the transaction takes hold in the committed state. */
  predicate TakesHold(result: OperationResult, commit: CommitResult) {
    result.Returned? && !commit.CommitFailed?
  }

  /**
    One transaction is one step of the once-map: a new key runs exactly when the operation
    returned and the commit took hold, and a known key changes nothing. The effect list
    grows by the call exactly when a new key took hold with a 2xx outcome.
   */
  lemma ExecuteRefinesRunOnce(db: Database, call: WriteCall, result: OperationResult, commit: CommitResult)
    requires DatabaseSound(db)
    ensures var db' := Execute(db, call, result, commit).0;
      && DatabaseSound(db')
      && Abstract(db')
           == (if TakesHold(result, commit) then RunOnce(Abstract(db), call, result.outcome) else Abstract(db))
      && db'.effects == (if call.key !in db.records && TakesHold(result, commit) && Success(result.outcome.status)
                         then db.effects + [call] else db.effects)
  {
    if call.key !in db.records && TakesHold(result, commit) {
      CommitKeepsSound(db, call, result.outcome);
      assert Abstract(Committed(db, call, result.outcome)) == RunOnce(Abstract(db), call, result.outcome);
    }
  }

  /**
    What the caller hears of a known key: a different call is refused, the same call gets the
    recorded body back. The recorded status comes back too, except that 0 is replayed as 500.
    The outcome-unknown answer is never given for a key that has a record.
   */
  lemma KnownKeysReplayTheirOutcome(db: Database, call: WriteCall, result: OperationResult, commit: CommitResult)
    requires DatabaseSound(db) && call.key in db.records
    ensures var (first, o) := Abstract(db)[call.key];
      Execute(db, call, result, commit)
        == (db, if first != call then KEY_REUSED
                else Executed(WriteOutcome(if o.status == 0 then 500 else o.status, o.body), true))
  {
    assert RecordSound(db.records[call.key]);
    if db.records[call.key].fingerprint == call.envelope {
      assert SameCall(db.records[call.key], call);
    }
  }

  datatype Attempt = Attempt(call: WriteCall, result: OperationResult, commit: CommitResult)

  /** The committed state after any sequence of transactions. */
  function After(attempts: seq<Attempt>): Database {
    if attempts == [] then Database(map[], [])
    else
      var last := attempts[|attempts| - 1];
      Execute(After(attempts[..|attempts| - 1]), last.call, last.result, last.commit).0
  }

  function ReplyAt(attempts: seq<Attempt>, i: nat): ServerReply
    requires i < |attempts|
  {
    Execute(After(attempts[..i]), attempts[i].call, attempts[i].result, attempts[i].commit).1
  }

  lemma {:induction false} AfterIsSound(attempts: seq<Attempt>)
    ensures DatabaseSound(After(attempts))
  {
    if attempts != [] {
      var last := attempts[|attempts| - 1];
      AfterIsSound(attempts[..|attempts| - 1]);
      ExecuteRefinesRunOnce(After(attempts[..|attempts| - 1]), last.call, last.result, last.commit);
    }
  }

  /** The call and outcome recorded for a key. */
  function Stored(db: Database, key: Key): Option<(WriteCall, WriteOutcome)> {
    if key in db.records then Some((WriteCall(key, db.records[key].fingerprint), OutcomeOf(db.records[key]))) else None
  }

  /** The reply carries the recorded outcome; a recorded status of 0 is heard as 0 once and as 500 from then on. */
  predicate Echoes(reply: ServerReply, o: WriteOutcome) {
    && reply.Executed?
    && reply.outcome.body == o.body
    && (reply.outcome.status == o.status || (o.status == 0 && reply.outcome.status == 500))
  }

  lemma ExecutedIsStored(db: Database, call: WriteCall, result: OperationResult, commit: CommitResult)
    requires DatabaseSound(db) && Execute(db, call, result, commit).1.Executed?
    ensures var (db', reply) := Execute(db, call, result, commit);
      && Stored(db', call.key).Some?
      && Stored(db', call.key).value.0 == call
      && Echoes(reply, Stored(db', call.key).value.1)
  {
    if call.key in db.records {
      KnownKeysReplayTheirOutcome(db, call, result, commit);
    }
  }

  /** A recorded outcome, a rejection included, is never replaced, whatever runs later. */
  lemma {:induction false} RecordsAreForever(attempts: seq<Attempt>, i: nat, key: Key)
    requires i <= |attempts| && Stored(After(attempts[..i]), key).Some?
    ensures Stored(After(attempts), key) == Stored(After(attempts[..i]), key)
  {
    if i == |attempts| {
      assert attempts[..i] == attempts;
    } else {
      var shorter := attempts[..|attempts| - 1];
      assert shorter[..i] == attempts[..i];
      RecordsAreForever(shorter, i, key);
    }
  }

  lemma AfterOneMore(attempts: seq<Attempt>, i: nat)
    requires i < |attempts|
    ensures After(attempts[..i + 1])
         == Execute(After(attempts[..i]), attempts[i].call, attempts[i].result, attempts[i].commit).0
  {
    assert attempts[..i + 1][..i] == attempts[..i];
  }

  /** An executed reply echoes the record that its key keeps for good. */
  lemma ExecutedRepliesAreRecorded(attempts: seq<Attempt>, i: nat)
    requires i < |attempts| && ReplyAt(attempts, i).Executed?
    ensures var stored := Stored(After(attempts), attempts[i].call.key);
      stored.Some? && stored.value.0 == attempts[i].call && Echoes(ReplyAt(attempts, i), stored.value.1)
  {
    hide DatabaseSound, Execute, Stored, Echoes;
    var a := attempts[i];
    AfterIsSound(attempts[..i]);
    ExecutedIsStored(After(attempts[..i]), a.call, a.result, a.commit);
    AfterOneMore(attempts, i);
    RecordsAreForever(attempts, i + 1, a.call.key);
  }

  /** Executed replies for one key answer one call with one outcome. */
  lemma ExecutedRepliesAgree(attempts: seq<Attempt>, i: nat, j: nat)
    requires i < |attempts| && j < |attempts| && attempts[i].call.key == attempts[j].call.key
    requires ReplyAt(attempts, i).Executed? && ReplyAt(attempts, j).Executed?
    ensures attempts[i].call == attempts[j].call
    ensures exists o :: Echoes(ReplyAt(attempts, i), o) && Echoes(ReplyAt(attempts, j), o)
  {
    ExecutedRepliesAreRecorded(attempts, i);
    ExecutedRepliesAreRecorded(attempts, j);
  }

  /**
    A 2xx reply means the effect is committed for good, any other executed reply that the key
    never has one; and no key ever has two.
   */
  lemma RepliesTellTheEffect(attempts: seq<Attempt>, i: nat)
    requires i < |attempts| && ReplyAt(attempts, i).Executed?
    ensures HasEffect(After(attempts), attempts[i].call.key) <==> Success(ReplyAt(attempts, i).outcome.status)
    ensures forall m, n | 0 <= m < n < |After(attempts).effects| ::
              After(attempts).effects[m].key != After(attempts).effects[n].key
  {
    ExecutedRepliesAreRecorded(attempts, i);
    AfterIsSound(attempts);
    EffectMatchesRecord(After(attempts), attempts[i].call.key);
  }

  lemma EffectMatchesRecord(db: Database, key: Key)
    requires DatabaseSound(db)
    ensures HasEffect(db, key) <==> Stored(db, key).Some? && Success(Stored(db, key).value.1.status)
  {
    if key in db.records {
      assert RecordSound(db.records[key]);
    }
  }

  // ---- What each attempt of a history is answered ----

  /** The operation came back, and its commit took hold, reported or not. */
  predicate TookHold(a: Attempt) {
    a.result.Returned? && (a.commit == CommitOk || a.commit == CommitLost)
  }

  /** The first of the first n attempts under the key that took hold. */
  ghost predicate DecidedBy(attempts: seq<Attempt>, n: nat, key: Key, first: int) {
    && 0 <= first < n <= |attempts| && attempts[first].call.key == key && TookHold(attempts[first])
    && forall j | 0 <= j < first && attempts[j].call.key == key :: !TookHold(attempts[j])
  }

  ghost predicate Undecided(attempts: seq<Attempt>, n: nat, key: Key) {
    n <= |attempts| && forall j | 0 <= j < n && attempts[j].call.key == key :: !TookHold(attempts[j])
  }

  lemma FirstUnderKey(attempts: seq<Attempt>, n: nat, key: Key) returns (first: int)
    requires n <= |attempts|
    ensures if Undecided(attempts, n, key) then first == -1 else DecidedBy(attempts, n, key, first)
  {
    first := -1;
    var i := 0;
    while i < n && first == -1
      invariant 0 <= i <= n
      invariant if first == -1 then Undecided(attempts, i, key) else DecidedBy(attempts, n, key, first)
    {
      if attempts[i].call.key == key && TookHold(attempts[i]) { first := i; }
      i := i + 1;
    }
  }

  lemma ExecuteStores(db: Database, a: Attempt, key: Key)
    requires DatabaseSound(db)
    ensures Stored(Execute(db, a.call, a.result, a.commit).0, key)
         == if Stored(db, key).None? && a.call.key == key && TookHold(a) then Some((a.call, a.result.outcome))
            else Stored(db, key)
  {
  }

  /** What is stored under a key is what the first attempt that took hold under it returned. */
  lemma {:induction false} TheFirstIsStored(attempts: seq<Attempt>, n: nat, key: Key, first: int)
    requires n <= |attempts|
    requires if first == -1 then Undecided(attempts, n, key) else DecidedBy(attempts, n, key, first)
    ensures Stored(After(attempts[..n]), key)
         == if first == -1 then None else Some((attempts[first].call, attempts[first].result.outcome))
  {
    hide DatabaseSound, Execute, Stored, TookHold;
    if n == 0 {
      NothingStored(key);
    } else {
      AfterIsSound(attempts[..n - 1]);
      AfterOneMore(attempts, n - 1);
      ExecuteStores(After(attempts[..n - 1]), attempts[n - 1], key);
      TheFirstIsStored(attempts, n - 1, key, if first == n - 1 then -1 else first);
    }
  }

  lemma NothingStored(key: Key)
    ensures Stored(After([]), key).None?
  {
  }

  /** The answer to a request whose key is free: the operation's own, or unknown when the commit reports an error. */
  function FirstAnswer(a: Attempt): ServerReply {
    match a.result
    case RaisedApi(status, code) => ApiError(status, code)
    case Returned(o) => if a.commit == CommitOk then Executed(o, false) else ApiError(503, "write_outcome_unknown")
    case RaisedOther => ApiError(503, "write_outcome_unknown")
  }

  /** The answer to a request whose key was decided before: that outcome again, or a refusal of a different request. */
  function LaterAnswer(first: Attempt, a: Attempt): ServerReply
    requires first.result.Returned?
  {
    var o := first.result.outcome;
    if first.call != a.call then ApiError(409, "idempotency_key_reused")
    else Executed(WriteOutcome(if o.status == 0 then 500 else o.status, o.body), true)
  }

  lemma ReplyFollowsStored(db: Database, a: Attempt)
    requires DatabaseSound(db)
    ensures Execute(db, a.call, a.result, a.commit).1
         == match Stored(db, a.call.key)
            case None => FirstAnswer(a)
            case Some((call, o)) => LaterAnswer(Attempt(call, Returned(o), CommitOk), a)
  {
    if a.call.key in db.records {
      KnownKeysReplayTheirOutcome(db, a.call, a.result, a.commit);
    }
  }

  /**
    In any history of attempts the first one under a key that takes hold decides the key. Before
    it each attempt is answered by its own run; after it each is answered with that outcome, and
    a different request under the key is refused. The key has an effect exactly when the
    deciding outcome is a 2xx.
   */
  lemma TheFirstToTakeHoldDecides(attempts: seq<Attempt>, i: nat, first: int)
    requires i < |attempts|
    requires first == -1 || DecidedBy(attempts, i, attempts[i].call.key, first)
    requires first == -1 ==> Undecided(attempts, i, attempts[i].call.key)
    ensures ReplyAt(attempts, i)
         == if first == -1 then FirstAnswer(attempts[i]) else LaterAnswer(attempts[first], attempts[i])
    ensures first != -1 ==>
              (HasEffect(After(attempts[..i]), attempts[i].call.key)
               <==> 200 <= attempts[first].result.outcome.status <= 299)
    ensures first == -1 ==> !HasEffect(After(attempts[..i]), attempts[i].call.key)
  {
    hide DatabaseSound, Execute, Stored, HasEffect;
    var key := attempts[i].call.key;
    AfterIsSound(attempts[..i]);
    TheFirstIsStored(attempts, i, key, first);
    ReplyFollowsStored(After(attempts[..i]), attempts[i]);
    EffectMatchesRecord(After(attempts[..i]), key);
  }

  // ---- The transaction as it runs ----

  class IdempotencyService {
    var records: map<Key, IdempotencyRecord>
    var effects: seq<WriteCall>

    ghost function Contents(): Database
      reads this
    {
      Database(records, effects)
    }

    constructor ()
      ensures Contents() == Database(map[], [])
    {
      records, effects := map[], [];
    }

    /**
      Inserts the key, runs the operation, completes the record and commits, all in one
      transaction: `pending` is the session's uncommitted view and rollback discards it.
     */
    method ExecuteIdempotentWrite(call: WriteCall, result: OperationResult, commit: CommitResult)
      returns (reply: ServerReply)
      requires DatabaseSound(Contents())
      modifies this
      ensures DatabaseSound(Contents())
      ensures (Contents(), reply) == Execute(old(Contents()), call, result, commit)
    {
      hide DatabaseSound;
      ExecuteRefinesRunOnce(Contents(), call, result, commit);
      var pending, pendingEffects := records, effects;
      var isNew := call.key !in pending;
      if isNew {
        pending := pending[call.key := Started(call)];
      } else {
        var existing := pending[call.key];
        if existing.operation != call.envelope.operation
           || existing.customer != call.envelope.customer
           || existing.fingerprint != call.envelope {
          return KEY_REUSED;
        }
        if existing.status != Completed || existing.responseBody.None? {
          return OUTCOME_UNKNOWN;
        }
        return Executed(WriteOutcome(StatusOr500(existing.responseStatus), existing.responseBody.value), true);
      }
      match result {
        case RaisedApi(status, code) => return ApiError(status, code);
        case RaisedOther => return OUTCOME_UNKNOWN;
        case Returned(outcome) =>
          if Success(outcome.status) {
            pendingEffects := pendingEffects + [call];
          }
          pending := pending[call.key := pending[call.key].(
            status := Completed, responseStatus := Some(outcome.status), responseBody := Some(outcome.body))];
          if commit == CommitFailed {
            return OUTCOME_UNKNOWN;
          }
          assert pending == Committed(Contents(), call, outcome).records;
          records, effects := pending, pendingEffects;
          if commit == CommitLost {
            return OUTCOME_UNKNOWN;
          }
          return Executed(outcome, false);
      }
    }
  }
}
