/**
  What a creation answers, told by the columns of the rows that are there: a repeated tool
  invocation, a duplicate of an ongoing proposal, and a new one with what it supersedes.
 */
module ActionCreation {
  import opened Options
  import opened ActionModel
  import opened ActionLifecycle
  import opened ActionLog
  import opened ActionServices
  import opened ActionStore
  import opened ActionDecisions
  import ActionProtocol

  /** The request names a customer, carries a digest, and its conversation, run and invocation belong together. */
  predicate InScope(r: CreateRequest) {
    && r.customer.Some? && HexDigest(r.fingerprint)
    && r.conversationInScope && r.runInConversation && r.invocationInRun
  }

  predicate Ongoing(state: ActionState) {
    state in {Proposed, AwaitingApproval, AwaitingConfirmation, ReadyToExecute, Executing, Unresolved}
  }

  predicate SamePlace(row: ActionRow, r: CreateRequest) {
    row.fixed.tenant == r.tenant && row.fixed.conversation == r.conversation && Some(row.fixed.customer) == r.customer
  }

  /** The same kind of write about the same order; two tickets may both be about none. */
  predicate SameWrite(p: ActionProposal, q: ActionProposal) {
    match p
    case CancelProposal(order) => q.CancelProposal? && q.order == order
    case RescheduleProposal(order, _) => q.RescheduleProposal? && q.order == order
    case ReturnProposal(order, _, _) => q.ReturnProposal? && q.order == order
    case TicketProposal(order, _, _, _) => q.TicketProposal? && q.ticketOrder == order
    case RefundProposal(order, _, _) => q.RefundProposal? && q.order == order
  }

  predicate SameMatter(row: ActionRow, r: CreateRequest) {
    SamePlace(row, r) && SameWrite(row.fixed.proposal, r.proposal)
  }

  lemma SameWritesShareKindAndTargets(p: ActionProposal, q: ActionProposal)
    ensures SameWrite(p, q) <==> p.Kind() == q.Kind() && p.Targets() == q.Targets()
  {
  }

  ghost predicate InvocationIsNew(store: Store, r: CreateRequest) {
    forall id | id in store.rows :: store.rows[id].fixed.origin != r.invocation
  }

  ghost predicate NoTwin(store: Store, r: CreateRequest) {
    forall id | id in store.rows && Ongoing(store.rows[id].state) && SamePlace(store.rows[id], r) ::
      store.rows[id].fixed.fingerprint != r.fingerprint
  }

  /** Refused before anything is looked up. */
  lemma UnscopedCreationsAreRefused(store: Store, r: CreateRequest)
    requires StoreSound(store) && !InScope(r)
    ensures CreateOrGet(store, r)
         == (store, Raised(if r.customer.Some? && !HexDigest(r.fingerprint) then InvalidValue else ScopeError))
  {
    hide StoreSound, Standing, Superseded;
    SoundStoresArePaired(store);
  }

  lemma FoundByOrigin(store: Store, r: CreateRequest, id: Uuid)
    requires StoreSound(store) && id in store.rows && IsOrigin(store.rows[id], r)
    ensures Standing(store.rows, r) == Some(OriginReply(store.rows[id], r))
  {
    hide StoreSound, OriginReply, DuplicateReply, IsOrigin;
    OriginIsUnique(store, r);
  }

  lemma FoundByFingerprint(store: Store, r: CreateRequest, id: Uuid)
    requires StoreSound(store) && id in store.rows && IsDuplicate(store.rows[id], r)
    requires forall other | other in store.rows :: !IsOrigin(store.rows[other], r)
    ensures Standing(store.rows, r) == Some(DuplicateReply(store.rows[id], r))
  {
    hide StoreSound, OriginReply, DuplicateReply, IsOrigin, IsDuplicate;
    DuplicateIsUnique(store, r);
  }

  lemma StandingAnswers(store: Store, r: CreateRequest)
    requires StoreSound(store) && InScope(r) && Standing(store.rows, r).Some?
    ensures CreateOrGet(store, r) == (store, Standing(store.rows, r).value)
  {
    hide StoreSound, Standing, Superseded;
    SoundStoresArePaired(store);
  }

  /**
    A tool invocation that already has its action changes nothing. It is answered with that
    action's row when the call is the same in place, run, fingerprint and proposal, and with a
    conflict when it differs in any of them.
   */
  lemma RepeatedInvocationsAreAnswered(store: Store, r: CreateRequest, id: Uuid)
    requires StoreSound(store) && InScope(r)
    requires id in store.rows && store.rows[id].fixed.origin == r.invocation
    ensures var row := store.rows[id];
      CreateOrGet(store, r)
        == (store,
            if && row.fixed.tenant == r.tenant && row.fixed.conversation == r.conversation
               && Some(row.fixed.customer) == r.customer && row.fixed.agentRun == r.agentRun
               && row.fixed.fingerprint == r.fingerprint && row.fixed.proposal == r.proposal
            then Answered(row) else Raised(OriginConflict))
  {
    hide StoreSound, Standing, CreateOrGet;
    FoundByOrigin(store, r, id);
    StandingAnswers(store, r);
  }

  /** So is a new invocation that proposes what is ongoing under its fingerprint, unless the proposals differ. */
  lemma OngoingTwinsAreAnswered(store: Store, r: CreateRequest, id: Uuid)
    requires StoreSound(store) && InScope(r) && InvocationIsNew(store, r)
    requires id in store.rows && Ongoing(store.rows[id].state) && SamePlace(store.rows[id], r)
    requires store.rows[id].fixed.fingerprint == r.fingerprint
    ensures CreateOrGet(store, r)
         == (store, if store.rows[id].fixed.proposal == r.proposal then Answered(store.rows[id])
                    else Raised(FingerprintCollision))
  {
    hide StoreSound, Standing, CreateOrGet;
    FoundByFingerprint(store, r, id);
    StandingAnswers(store, r);
  }

  // ---- A new proposal ----

  /** The row and log of a fresh action: everything the request said, and nothing decided. */
  predicate Holds(row: ActionRow, log: seq<ActionEvent>, r: CreateRequest) {
    && row.fixed.id == r.newId && row.fixed.idempotencyKey == r.newKey
    && row.fixed.tenant == r.tenant && Some(row.fixed.customer) == r.customer && row.fixed.principal == r.principal
    && row.fixed.conversation == r.conversation && row.fixed.agentRun == r.agentRun
    && row.fixed.origin == r.invocation && row.fixed.proposal == r.proposal
    && row.fixed.schemaVersion == "action-proposal-v1" && row.fixed.fingerprint == r.fingerprint
    && row.fixed.createdAt == r.now && row.fixed.expiresAt == r.expiresAt && row.updatedAt == r.now
    && row.state == Proposed && row.version == 1 && row.attempts == 0
    && row.policy == PolicyColumns(None, None, None, None) && !row.confirmationRequired && !row.approvalRequired
    && row.customer.verdict.None? && row.supervisor.verdict.None?
    && row.leaseOwner.None? && row.commerce == CommerceColumns(None, None, None) && row.verifiedResource.None?
    && log == [ActionEvent(1, CreatedEvent, Some(r.principal), None, Proposed, r.fingerprint, Some(r.invocation), None)]
  }

  lemma NewRowsHold(r: CreateRequest)
    requires r.customer.Some?
    ensures Holds(NewRow(r), [CreatedEntry(r)], r)
  {
  }

  lemma NothingStandsForIt(store: Store, r: CreateRequest)
    requires InvocationIsNew(store, r) && NoTwin(store, r)
    ensures Standing(store.rows, r).None?
    ensures forall id | id in store.rows :: !IsOrigin(store.rows[id], r) && !IsDuplicate(store.rows[id], r)
  {
  }

  lemma MattersAreSubjects(store: Store, r: CreateRequest)
    requires r.customer.Some?
    ensures forall id | id in store.rows ::
              SameMatter(store.rows[id], r) <==> SameSubject(store.rows[id].fixed, NewRow(r).fixed)
    ensures forall id | id in store.rows :: Ongoing(store.rows[id].state) <==> Active(store.rows[id].state)
    ensures (exists id ::
               id in store.rows && store.rows[id].state in {Executing, Unresolved} && SameMatter(store.rows[id], r))
            <==> SubjectInFlight(store, r)
  {
    forall id | id in store.rows
      ensures SameMatter(store.rows[id], r) <==> SameSubject(store.rows[id].fixed, NewRow(r).fixed)
    {
      SameWritesShareKindAndTargets(store.rows[id].fixed.proposal, r.proposal);
    }
    assert forall state: ActionState :: Active(state) && !Undispatched(state) <==> state in {Executing, Unresolved};
  }

  lemma LateCreationsAreRefused(store: Store, r: CreateRequest)
    requires StoreSound(store) && InScope(r) && Standing(store.rows, r).None? && r.expiresAt <= r.now
    ensures CreateOrGet(store, r) == (store, Raised(InvalidValue))
  {
    hide StoreSound, Standing, Superseded;
    SoundStoresArePaired(store);
  }

  lemma UsedNumbersAreRefused(store: Store, r: CreateRequest)
    requires StoreSound(store) && InScope(r) && Standing(store.rows, r).None? && r.now < r.expiresAt
    requires !Fresh(store.rows, r) && !SubjectInFlight(store, r)
    ensures CreateOrGet(store, r) == (store, Raised(RecordConflict))
  {
    hide StoreSound, Standing, Superseded, Fresh, SubjectInFlight, AnyDispatched;
    SoundStoresArePaired(store);
    PriorsAreSameSubject(store, r);
  }

  lemma InFlightComesFirst(store: Store, r: CreateRequest)
    requires StoreSound(store) && InScope(r) && Standing(store.rows, r).None? && r.now < r.expiresAt
    requires SubjectInFlight(store, r)
    ensures CreateOrGet(store, r) == (store, Raised(InFlight))
  {
    hide StoreSound, Standing, Superseded, Fresh, SubjectInFlight, AnyDispatched;
    SoundStoresArePaired(store);
    PriorsAreSameSubject(store, r);
  }

  /** The expiry of a predecessor, by the new proposer. */
  function Superseding(row: ActionRow, r: CreateRequest): Change {
    var reason := if row.fixed.expiresAt <= r.now then "expired" else "superseded";
    Committed(row, row.(state := Expired), Entry(ExpiredEvent, Some(r.principal), Some(reason)), r.now)
  }

  lemma SupersessionIs(row: ActionRow, log: seq<ActionEvent>, r: CreateRequest)
    requires RowSound(row) && Undispatched(row.state)
    ensures var change := Superseding(row, r);
      SupersededRow(row, r) == change.row && SupersededLog(row, log, r) == log + [change.event]
  {
    hide RowSound, Transition;
    DecisionsCommitExactly(row, ActionProtocol.Supersede(r.principal), r.now);
    SupersessionSettles(row, r);
  }

  lemma SupersessionSettles(row: ActionRow, r: CreateRequest)
    requires row.state != Expired
    ensures var change := Transition(row, row.fixed.fingerprint,
                                     ActionProtocol.AsRequest(ActionProtocol.Supersede(r.principal), r.now)).change;
      var d := Settle(row, Supersession(r.principal, r.now));
      change == if d.Moved? then Written(d.row, d.event) else Kept
  {
    hide Settle;
  }

  /** What a creation that goes through makes of the store. */
  ghost predicate Created(store: Store, r: CreateRequest, later: Store, reply: Reply)
    requires StoreSound(store)
  {
    && later.rows.Keys == store.rows.Keys + {r.newId} && later.logs.Keys == later.rows.Keys
    && reply == Reply.Created(later.rows[r.newId])
    && Holds(later.rows[r.newId], later.logs[r.newId], r)
    && forall id | id in store.rows ::
         if SameMatter(store.rows[id], r) && Ongoing(store.rows[id].state) then
           var change := Superseding(store.rows[id], r);
           later.rows[id] == change.row && later.logs[id] == store.logs[id] + [change.event]
         else later.rows[id] == store.rows[id] && later.logs[id] == store.logs[id]
  }

  lemma PriorsAreUndispatched(store: Store, r: CreateRequest, id: Uuid)
    requires id in Priors(store.rows, r) && !AnyDispatched(store.rows, Priors(store.rows, r))
    ensures Undispatched(store.rows[id].state)
  {
  }

  lemma SoundRow(row: ActionRow, log: seq<ActionEvent>)
    requires Sound(row, log)
    ensures RowSound(row)
  {
  }

  lemma SupersededPrior(store: Store, r: CreateRequest, id: Uuid)
    requires StoreSound(store) && id in Priors(store.rows, r) && !AnyDispatched(store.rows, Priors(store.rows, r))
    ensures var cleared, change := Superseded(store, Priors(store.rows, r), r), Superseding(store.rows[id], r);
      cleared.rows[id] == change.row && cleared.logs[id] == store.logs[id] + [change.event]
  {
    hide Sound, SupersededRow, SupersededLog, Committed, IsPrior;
    SoundParts(store, id);
    PriorsAreUndispatched(store, r, id);
    SoundRow(store.rows[id], store.logs[id]);
    SupersessionIs(store.rows[id], store.logs[id], r);
  }

  lemma SupersededRowsAre(store: Store, r: CreateRequest, id: Uuid)
    requires StoreSound(store) && r.customer.Some? && id in store.rows && !SubjectInFlight(store, r)
    ensures var cleared := Superseded(store, Priors(store.rows, r), r);
      if SameMatter(store.rows[id], r) && Ongoing(store.rows[id].state) then
        var change := Superseding(store.rows[id], r);
        cleared.rows[id] == change.row && cleared.logs[id] == store.logs[id] + [change.event]
      else cleared.rows[id] == store.rows[id] && cleared.logs[id] == store.logs[id]
  {
    hide StoreSound, SupersededRow, SupersededLog, SameMatter, SameSubject, IsPrior, Ongoing, Active, NewRow,
      AnyDispatched, SubjectInFlight, Committed;
    SoundStoresArePaired(store);
    MattersAreSubjects(store, r);
    PriorsAreSameSubject(store, r);
    if id in Priors(store.rows, r) { SupersededPrior(store, r, id); }
  }

  lemma CreationIsAs(store: Store, r: CreateRequest)
    requires StoreSound(store) && Considered(store, r) && !SubjectInFlight(store, r)
    ensures Created(store, r, CreateOrGet(store, r).0, CreateOrGet(store, r).1)
  {
    hide StoreSound, CreateOrGet, Considered, SubjectInFlight, Holds, SameMatter, NewRow, CreatedEntry,
      SupersededRow, SupersededLog, AnyDispatched;
    GuardsOfConsidered(store, r);
    NothingInFlightCreates(store, r);
    CreationGuards(store, r);
    SoundStoresArePaired(store);
    NewRowsHold(r);
    var cleared := Superseded(store, Priors(store.rows, r), r);
    assert cleared.rows.Keys == store.rows.Keys && cleared.logs.Keys == store.rows.Keys;
    forall id | id in store.rows
      ensures id != r.newId
      ensures if SameMatter(store.rows[id], r) && Ongoing(store.rows[id].state) then
                var change := Superseding(store.rows[id], r);
                cleared.rows[id] == change.row && cleared.logs[id] == store.logs[id] + [change.event]
              else cleared.rows[id] == store.rows[id] && cleared.logs[id] == store.logs[id]
    {
      SupersededRowsAre(store, r, id);
    }
  }

  lemma GuardsOfConsidered(store: Store, r: CreateRequest)
    requires Considered(store, r)
    ensures r.customer.Some? && Fresh(store.rows, r)
  {
  }

  lemma NewMeansConsidered(store: Store, r: CreateRequest)
    requires InScope(r) && InvocationIsNew(store, r) && NoTwin(store, r) && r.now < r.expiresAt && Fresh(store.rows, r)
    ensures Considered(store, r)
  {
    hide HexDigest;
    NothingStandsForIt(store, r);
  }

  /**
    A proposal that neither its invocation nor an ongoing twin answers: refused when it is born
    expired, when its matter is executing or unresolved, or when its id or key is taken.
    Otherwise every undispatched predecessor in its matter expires with one event, every other
    row stays, and the new row holds the request.
   */
  lemma NewProposalsExactly(store: Store, r: CreateRequest)
    requires StoreSound(store) && InScope(r) && InvocationIsNew(store, r) && NoTwin(store, r)
    ensures var (later, reply) := CreateOrGet(store, r);
      if r.expiresAt <= r.now then later == store && reply == Raised(InvalidValue)
      else if exists id ::
        id in store.rows && store.rows[id].state in {Executing, Unresolved} && SameMatter(store.rows[id], r)
      then later == store && reply == Raised(InFlight)
      else if r.newId in store.rows || exists id :: id in store.rows && store.rows[id].fixed.idempotencyKey == r.newKey
      then later == store && reply == Raised(RecordConflict)
      else Created(store, r, later, reply)
  {
    hide StoreSound, Standing, CreateOrGet, SubjectInFlight, SameMatter, Created, Considered, HexDigest, SameSubject;
    SoundStoresArePaired(store);
    NothingStandsForIt(store, r);
    MattersAreSubjects(store, r);
    if r.expiresAt <= r.now {
      LateCreationsAreRefused(store, r);
    } else if SubjectInFlight(store, r) {
      InFlightComesFirst(store, r);
    } else if !Fresh(store.rows, r) {
      UsedNumbersAreRefused(store, r);
    } else {
      NewMeansConsidered(store, r);
      CreationIsAs(store, r);
    }
  }

  // ---- The same call again ----

  /** The same call, with whatever id, key and clock it draws this time. */
  predicate Again(r: CreateRequest, again: CreateRequest) {
    again == r.(newId := again.newId, newKey := again.newKey, now := again.now)
  }

  /** A creation that went through and is repeated changes nothing and is answered with the row it made. */
  lemma RepeatedCreationsAnswerTheirRow(store: Store, r: CreateRequest, again: CreateRequest)
    requires StoreSound(store) && Creates(store, r) && Again(r, again)
    ensures var later := CreateOrGet(store, r).0;
      && StoreSound(later) && r.newId in later.rows
      && Holds(later.rows[r.newId], later.logs[r.newId], r)
      && CreateOrGet(later, again) == (later, Answered(later.rows[r.newId]))
  {
    hide StoreSound, CreateOrGet, HexDigest, Superseded, Fresh, AnyDispatched;
    SoundStoresArePaired(store);
    CreationIsSound(store, r);
    CreationGuards(store, r);
    GuardsOfTheCall(store, r);
    NewRowsHold(r);
    RepeatedInvocationsAreAnswered(CreateOrGet(store, r).0, again, r.newId);
  }
}
