/**
  The durable store: every row and its log, the transactions that change them, and the
  invariant that holds over any sequence of calls with any arguments.
 */
module ActionStore {
  import opened Options
  import opened ActionModel
  import opened ActionLifecycle
  import opened ActionLog
  import opened ActionServices

  datatype Store = Store(rows: map<Uuid, ActionRow>, logs: map<Uuid, seq<ActionEvent>>)

  /** The arguments of creation; the three scope answers come from tables outside this store. */
  datatype CreateRequest = CreateRequest(
    tenant: Uuid, customer: Option<Uuid>, principal: Uuid,
    conversation: Uuid, agentRun: Uuid, invocation: Uuid,
    conversationInScope: bool, runInConversation: bool, invocationInRun: bool,
    proposal: ActionProposal, fingerprint: Fingerprint, expiresAt: Time,
    newId: Uuid, newKey: Uuid, now: Time)

  datatype Command =
    | TransitionCommand(id: Uuid, tenant: Uuid, expected: Fingerprint, req: TransitionRequest)
    | ClaimExecutionCommand(
        id: Uuid, tenant: Uuid, expected: Fingerprint, owner: Uuid, claimedAt: Time, seconds: int, now: Time)
    | RecoverCommand(id: Uuid, tenant: Uuid, customer: Uuid, expected: Fingerprint, now: Time)
    | ExecutionOutcomeCommand(id: Uuid, tenant: Uuid, expected: Fingerprint, owner: Uuid, o: Outcome, now: Time)
    | CommerceResponseCommand(
        id: Uuid, tenant: Uuid, expected: Fingerprint, owner: Uuid, status: int, resource: Option<Uuid>, now: Time)
    | ClaimReconciliationCommand(
        id: Uuid, tenant: Uuid, customer: Uuid, expected: Fingerprint, owner: Uuid, seconds: int, now: Time)
    | ReconciliationOutcomeCommand(
        id: Uuid, tenant: Uuid, customer: Uuid, expected: Fingerprint, owner: Uuid, o: Outcome, now: Time)
    | CreateCommand(create: CreateRequest)

  // ---- What one command does to a store ----

  predicate InTenant(rows: map<Uuid, ActionRow>, id: Uuid, tenant: Uuid) {
    id in rows && rows[id].fixed.tenant == tenant
  }

  predicate InScope(rows: map<Uuid, ActionRow>, id: Uuid, tenant: Uuid, customer: Uuid) {
    InTenant(rows, id, tenant) && rows[id].fixed.customer == customer
  }

  ghost function Saved(store: Store, id: Uuid, change: Change): Store
    requires change.Written? ==> id in store.logs
  {
    match change
    case Kept => store
    case Written(row, event) => Store(store.rows[id := row], store.logs[id := store.logs[id] + [event]])
  }

  ghost function Served(store: Store, id: Uuid, service: Service): (Store, Reply)
    requires id in store.logs
  {
    (Saved(store, id, service.change), service.reply)
  }

  predicate SameConversation(row: ActionRow, r: CreateRequest) {
    && row.fixed.tenant == r.tenant
    && row.fixed.conversation == r.conversation
    && Some(row.fixed.customer) == r.customer
  }

  predicate IsOrigin(row: ActionRow, r: CreateRequest) {
    row.fixed.origin == r.invocation
  }

  predicate IsDuplicate(row: ActionRow, r: CreateRequest) {
    SameConversation(row, r) && row.fixed.fingerprint == r.fingerprint && Active(row.state)
  }

  predicate IsPrior(row: ActionRow, r: CreateRequest) {
    && SameConversation(row, r)
    && row.fixed.proposal.Kind() == r.proposal.Kind()
    && row.fixed.proposal.Targets() == r.proposal.Targets()
    && Active(row.state)
  }

  function Priors(rows: map<Uuid, ActionRow>, r: CreateRequest): set<Uuid> {
    set id | id in rows && IsPrior(rows[id], r)
  }

  predicate AnyDispatched(rows: map<Uuid, ActionRow>, ids: set<Uuid>)
    requires ids <= rows.Keys
  {
    exists id | id in ids :: !Undispatched(rows[id].state)
  }

  function OriginReply(row: ActionRow, r: CreateRequest): Reply {
    if !SameConversation(row, r) || row.fixed.agentRun != r.agentRun then Raised(OriginConflict)
    else if row.fixed.fingerprint != r.fingerprint || row.fixed.proposal != r.proposal then Raised(OriginConflict)
    else Answered(row)
  }

  function DuplicateReply(row: ActionRow, r: CreateRequest): Reply {
    if row.fixed.proposal != r.proposal then Raised(FingerprintCollision) else Answered(row)
  }

  function NewRow(r: CreateRequest): ActionRow
    requires r.customer.Some?
  {
    ActionRow(
      ActionIdentity(r.newId, r.tenant, r.customer.value, r.principal, r.conversation, r.agentRun, r.invocation,
                     r.proposal, "action-proposal-v1", r.fingerprint, r.newKey, r.expiresAt, r.now),
      Proposed, NO_POLICY, false, false, NO_DECISION, NO_DECISION, 0, None, None,
      NO_COMMERCE, None, None, None, 1, r.now)
  }

  function CreatedEntry(r: CreateRequest): ActionEvent {
    ActionEvent(1, CreatedEvent, Some(r.principal), None, Proposed, r.fingerprint, Some(r.invocation), None)
  }

  predicate Fresh(rows: map<Uuid, ActionRow>, r: CreateRequest) {
    r.newId !in rows && forall id | id in rows :: rows[id].fixed.idempotencyKey != r.newKey
  }

  /** Every listed row moved to its supersession outcome, every other row as it was. */
  function SupersededRow(row: ActionRow, r: CreateRequest): ActionRow {
    var d := Settle(row, Supersession(r.principal, r.now));
    if d.Moved? then d.row else row
  }

  function SupersededLog(row: ActionRow, log: seq<ActionEvent>, r: CreateRequest): seq<ActionEvent> {
    var d := Settle(row, Supersession(r.principal, r.now));
    if d.Moved? then log + [d.event] else log
  }

  ghost function Superseded(store: Store, ids: set<Uuid>, r: CreateRequest): Store
    requires ids <= store.rows.Keys && store.logs.Keys == store.rows.Keys
  {
    Store(map id | id in store.rows :: if id in ids then SupersededRow(store.rows[id], r) else store.rows[id],
          map id | id in store.logs ::
            if id in ids then SupersededLog(store.rows[id], store.logs[id], r) else store.logs[id])
  }

  /** The answer of the row that already stands for the request, if one does: its origin's, or an active duplicate. */
  ghost function Standing(rows: map<Uuid, ActionRow>, r: CreateRequest): Option<Reply> {
    if exists id :: id in rows && IsOrigin(rows[id], r) then
      var id :| id in rows && IsOrigin(rows[id], r);
      Some(OriginReply(rows[id], r))
    else if exists id :: id in rows && IsDuplicate(rows[id], r) then
      var id :| id in rows && IsDuplicate(rows[id], r);
      Some(DuplicateReply(rows[id], r))
    else None
  }

  /** What a call answers whose insert clashed: with the row that stands for it now, or with the conflict. */
  ghost function ClashReply(rows: map<Uuid, ActionRow>, r: CreateRequest): Reply {
    match Standing(rows, r)
    case Some(winner) => winner
    case None => Raised(RecordConflict)
  }

  ghost function CreateOrGet(store: Store, r: CreateRequest): (Store, Reply)
    requires store.logs.Keys == store.rows.Keys
  {
    if r.customer.None? then (store, Raised(ScopeError))
    else if !HexDigest(r.fingerprint) then (store, Raised(InvalidValue))
    else if !r.conversationInScope || !r.runInConversation || !r.invocationInRun then (store, Raised(ScopeError))
    else if Standing(store.rows, r).Some? then (store, Standing(store.rows, r).value)
    else if r.expiresAt <= r.now then (store, Raised(InvalidValue))
    else if AnyDispatched(store.rows, Priors(store.rows, r)) then (store, Raised(InFlight))
    else if !Fresh(store.rows, r) then (store, ClashReply(store.rows, r))
    else
      var cleared := Superseded(store, Priors(store.rows, r), r);
      (Store(cleared.rows[r.newId := NewRow(r)], cleared.logs[r.newId := [CreatedEntry(r)]]), Created(NewRow(r)))
  }

  ghost function Perform(store: Store, command: Command): (Store, Reply)
    requires store.logs.Keys == store.rows.Keys
  {
    match command
    case TransitionCommand(id, tenant, expected, req) =>
      if !InTenant(store.rows, id, tenant) then (store, Raised(NotFound))
      else Served(store, id, Transition(store.rows[id], expected, req))
    case ClaimExecutionCommand(id, tenant, expected, owner, claimedAt, seconds, now) =>
      if !LeaseLength(seconds) then (store, Raised(InvalidValue))
      else if !InTenant(store.rows, id, tenant) then (store, Raised(NotFound))
      else Served(store, id, ClaimExecution(store.rows[id], expected, owner, claimedAt, seconds, now))
    case RecoverCommand(id, tenant, customer, expected, now) =>
      if !InScope(store.rows, id, tenant, customer) then (store, Raised(NotFound))
      else Served(store, id, RecoverExpiredExecution(store.rows[id], expected, now))
    case ExecutionOutcomeCommand(id, tenant, expected, owner, o, now) =>
      if !InTenant(store.rows, id, tenant) then (store, Raised(NotFound))
      else Served(store, id, RecordOutcome(store.rows[id], Executing, expected, owner, o, now))
    case CommerceResponseCommand(id, tenant, expected, owner, status, resource, now) =>
      if !InTenant(store.rows, id, tenant) then (store, Raised(NotFound))
      else Served(store, id, RecordCommerceResponse(store.rows[id], expected, owner, status, resource, now))
    case ClaimReconciliationCommand(id, tenant, customer, expected, owner, seconds, now) =>
      if !LeaseLength(seconds) then (store, Raised(InvalidValue))
      else if !InScope(store.rows, id, tenant, customer) then (store, Raised(NotFound))
      else Served(store, id, ClaimReconciliation(store.rows[id], expected, owner, seconds, now))
    case ReconciliationOutcomeCommand(id, tenant, customer, expected, owner, o, now) =>
      if !InScope(store.rows, id, tenant, customer) then (store, Raised(NotFound))
      else Served(store, id, RecordOutcome(store.rows[id], Unresolved, expected, owner, o, now))
    case CreateCommand(r) => CreateOrGet(store, r)
  }

  // ---- The store invariant ----

  predicate SameSubject(a: ActionIdentity, b: ActionIdentity) {
    && a.tenant == b.tenant && a.conversation == b.conversation && a.customer == b.customer
    && a.proposal.Kind() == b.proposal.Kind() && a.proposal.Targets() == b.proposal.Targets()
  }

  predicate SameFingerprintScope(a: ActionIdentity, b: ActionIdentity) {
    && a.tenant == b.tenant && a.conversation == b.conversation && a.customer == b.customer
    && a.fingerprint == b.fingerprint
  }

  /** Two different rows of one store: never two active ones about the same subject or fingerprint. */
  predicate Compatible(a: ActionRow, b: ActionRow) {
    && a.fixed.origin != b.fixed.origin
    && a.fixed.idempotencyKey != b.fixed.idempotencyKey
    && (Active(a.state) && Active(b.state) ==>
          !SameSubject(a.fixed, b.fixed) && !SameFingerprintScope(a.fixed, b.fixed))
  }

  ghost predicate StoreSound(store: Store) {
    && store.logs.Keys == store.rows.Keys
    && (forall id | id in store.rows :: store.rows[id].fixed.id == id && Sound(store.rows[id], store.logs[id]))
    && (forall a, b | a in store.rows && b in store.rows && a != b :: Compatible(store.rows[a], store.rows[b]))
  }

  ghost predicate ChangeSound(row: ActionRow, log: seq<ActionEvent>, change: Change) {
    change.Written? ==>
      && Sound(change.row, log + [change.event])
      && change.row.fixed == row.fixed
      && (Active(change.row.state) ==> Active(row.state))
  }

  lemma SettleIsSound(row: ActionRow, log: seq<ActionEvent>, req: TransitionRequest)
    requires Sound(row, log) && Settle(row, req).Moved?
    ensures ChangeSound(row, log, Written(Settle(row, req).row, Settle(row, req).event))
  {
    SettleExtendsLog(row, log, req);
    SettleKeepsRow(row, req);
  }

  /** Every service is one settled request or no change at all. */
  lemma ServicesAreSound(row: ActionRow, log: seq<ActionEvent>, expected: Fingerprint, now: Time)
    requires Sound(row, log)
    ensures forall req :: ChangeSound(row, log, Transition(row, expected, req).change)
    ensures forall owner, from, seconds ::
      ChangeSound(row, log, ClaimExecution(row, expected, owner, from, seconds, now).change)
    ensures ChangeSound(row, log, RecoverExpiredExecution(row, expected, now).change)
    ensures forall under, owner, o :: ChangeSound(row, log, RecordOutcome(row, under, expected, owner, o, now).change)
    ensures forall owner, status, resource ::
      ChangeSound(row, log, RecordCommerceResponse(row, expected, owner, status, resource, now).change)
    ensures forall owner, seconds ::
      ChangeSound(row, log, ClaimReconciliation(row, expected, owner, seconds, now).change)
  {
    hide ChangeSound, Settle;
    forall req | Settle(row, req).Moved?
      ensures ChangeSound(row, log, Written(Settle(row, req).row, Settle(row, req).event))
    {
      SettleIsSound(row, log, req);
    }
    KeptIsSound(row, log);
  }

  lemma KeptIsSound(row: ActionRow, log: seq<ActionEvent>)
    ensures ChangeSound(row, log, Kept)
  {
  }

  lemma SavedIsSound(store: Store, id: Uuid, change: Change)
    requires StoreSound(store) && id in store.rows
    requires ChangeSound(store.rows[id], store.logs[id], change)
    ensures StoreSound(Saved(store, id, change))
  {
    hide Sound;
    var store' := Saved(store, id, change);
    forall a, b | a in store'.rows && b in store'.rows && a != b
      ensures Compatible(store'.rows[a], store'.rows[b])
    {
      assert Compatible(store.rows[a], store.rows[b]);
    }
  }

  // ---- Creation ----

  /** Supersession of an undispatched row always goes through, as expiry or as supersession. */
  lemma SupersessionExpires(row: ActionRow, log: seq<ActionEvent>, r: CreateRequest)
    requires Sound(row, log) && Undispatched(row.state)
    ensures SupersededRow(row, r).state == Expired && SupersededRow(row, r).fixed == row.fixed
    ensures Sound(SupersededRow(row, r), SupersededLog(row, log, r))
    ensures SupersededRow(row, r).version == row.version + 1
  {
    SupersessionMoves(row, r);
    SettleExtendsLog(row, log, Supersession(r.principal, r.now));
    SettleKeepsRow(row, Supersession(r.principal, r.now));
  }

  lemma SupersededReason()
    ensures ReasonCode("superseded") && ReasonCode("expired")
  {
  }

  lemma SupersessionMoves(row: ActionRow, r: CreateRequest)
    requires RowSound(row) && Undispatched(row.state)
    ensures Settle(row, Supersession(r.principal, r.now)).Moved?
    ensures Settle(row, Supersession(r.principal, r.now)).row.state == Expired
  {
    hide ReasonCode, HexDigest;
    SupersededReason();
  }

  lemma CompatibleStays(a: ActionRow, b: ActionRow, a': ActionRow, b': ActionRow)
    requires Compatible(a, b) && a'.fixed == a.fixed && b'.fixed == b.fixed
    requires (a' == a || !Active(a'.state)) && (b' == b || !Active(b'.state))
    ensures Compatible(a', b')
  {
  }

  lemma SupersededIsSound(store: Store, ids: set<Uuid>, r: CreateRequest)
    requires StoreSound(store) && ids <= store.rows.Keys
    requires !AnyDispatched(store.rows, ids)
    ensures StoreSound(Superseded(store, ids, r))
    ensures forall id | id in ids :: Superseded(store, ids, r).rows[id].state == Expired
    ensures forall id | id in store.rows && id !in ids :: Superseded(store, ids, r).rows[id] == store.rows[id]
    ensures forall id | id in store.rows :: Superseded(store, ids, r).rows[id].fixed == store.rows[id].fixed
  {
    hide Sound, SupersededRow, SupersededLog, Compatible;
    forall id | id in ids
      ensures SupersededRow(store.rows[id], r).state == Expired
      ensures SupersededRow(store.rows[id], r).fixed == store.rows[id].fixed
      ensures Sound(SupersededRow(store.rows[id], r), SupersededLog(store.rows[id], store.logs[id], r))
    {
      SupersessionExpires(store.rows[id], store.logs[id], r);
    }
    var store' := Superseded(store, ids, r);
    forall a, b | a in store'.rows && b in store'.rows && a != b
      ensures Compatible(store'.rows[a], store'.rows[b])
    {
      assert Compatible(store.rows[a], store.rows[b]);
      CompatibleStays(store.rows[a], store.rows[b], store'.rows[a], store'.rows[b]);
    }
  }

  lemma NewRowIsSound(r: CreateRequest)
    requires r.customer.Some? && HexDigest(r.fingerprint) && r.now < r.expiresAt
    ensures Sound(NewRow(r), [CreatedEntry(r)])
  {
  }

  lemma InsertionIsSound(store: Store, row: ActionRow, log: seq<ActionEvent>)
    requires StoreSound(store) && Sound(row, log)
    requires row.fixed.id !in store.rows
    requires forall id | id in store.rows :: Compatible(store.rows[id], row) && Compatible(row, store.rows[id])
    ensures StoreSound(Store(store.rows[row.fixed.id := row], store.logs[row.fixed.id := log]))
  {
    hide Sound, Compatible;
  }

  /** A row creation neither found as origin or duplicate nor superseded is compatible with the new one. */
  lemma SurvivorIsCompatible(row: ActionRow, after: ActionRow, r: CreateRequest)
    requires r.customer.Some?
    requires after.fixed == row.fixed
    requires !IsOrigin(row, r) && !IsDuplicate(row, r)
    requires row.fixed.idempotencyKey != r.newKey
    requires if IsPrior(row, r) then after.state == Expired else after == row
    ensures Compatible(after, NewRow(r)) && Compatible(NewRow(r), after)
  {
  }

  ghost predicate Creates(store: Store, r: CreateRequest)
    requires store.logs.Keys == store.rows.Keys
  {
    CreateOrGet(store, r).1.Created?
  }

  /** When creation goes through, and what each guard it passed says about the rows. */
  lemma CreationGuards(store: Store, r: CreateRequest)
    requires StoreSound(store) && Creates(store, r)
    ensures r.customer.Some? && HexDigest(r.fingerprint) && r.now < r.expiresAt && Fresh(store.rows, r)
    ensures !AnyDispatched(store.rows, Priors(store.rows, r))
    ensures forall id | id in store.rows :: !IsOrigin(store.rows[id], r) && !IsDuplicate(store.rows[id], r)
    ensures var cleared := Superseded(store, Priors(store.rows, r), r);
      CreateOrGet(store, r).0
        == Store(cleared.rows[r.newId := NewRow(r)], cleared.logs[r.newId := [CreatedEntry(r)]])
  {
    hide Sound, Superseded, Compatible;
  }

  /** Creation keeps the store sound: what it inserts clashes with nothing it leaves active. */
  lemma CreationIsSound(store: Store, r: CreateRequest)
    requires StoreSound(store)
    ensures StoreSound(CreateOrGet(store, r).0)
  {
    if Creates(store, r) {
      CreationGuards(store, r);
      var priors := Priors(store.rows, r);
      var cleared := Superseded(store, priors, r);
      SupersededIsSound(store, priors, r);
      NewRowIsSound(r);
      hide Sound, Superseded, CreateOrGet, StoreSound;
      forall id | id in store.rows
        ensures Compatible(cleared.rows[id], NewRow(r)) && Compatible(NewRow(r), cleared.rows[id])
      {
        assert id in priors <==> IsPrior(store.rows[id], r);
        SurvivorIsCompatible(store.rows[id], cleared.rows[id], r);
      }
      InsertionIsSound(cleared, NewRow(r), [CreatedEntry(r)]);
    } else {
      RefusedCreationChangesNothing(store, r);
    }
  }

  /** Anything but a creation, the in-flight refusal included, leaves every row and log as it was. */
  lemma RefusedCreationChangesNothing(store: Store, r: CreateRequest)
    requires store.logs.Keys == store.rows.Keys
    requires !Creates(store, r)
    ensures CreateOrGet(store, r).0 == store
  {
    hide Superseded;
  }

  lemma ServedIsSound(store: Store, id: Uuid, service: Service)
    requires StoreSound(store) && id in store.rows
    requires ChangeSound(store.rows[id], store.logs[id], service.change)
    ensures StoreSound(Served(store, id, service).0)
  {
    SavedIsSound(store, id, service.change);
  }

  lemma ServiceKeepsStoreSound(store: Store, command: Command)
    requires StoreSound(store) && !command.CreateCommand? && InTenant(store.rows, command.id, command.tenant)
    ensures StoreSound(Perform(store, command).0)
  {
    hide StoreSound, ChangeSound, Served, Transition, ClaimExecution, RecoverExpiredExecution, RecordOutcome,
      RecordCommerceResponse, ClaimReconciliation;
    SoundParts(store, command.id);
    var row, log := store.rows[command.id], store.logs[command.id];
    ServicesAreSound(row, log, command.expected, if command.TransitionCommand? then 0 else command.now);
    match command
    case TransitionCommand(id, _, expected, req) => ServedIsSound(store, id, Transition(row, expected, req));
    case ClaimExecutionCommand(id, _, expected, owner, from, seconds, now) =>
      ServedIsSound(store, id, ClaimExecution(row, expected, owner, from, seconds, now));
    case RecoverCommand(id, _, _, expected, now) =>
      ServedIsSound(store, id, RecoverExpiredExecution(row, expected, now));
    case ExecutionOutcomeCommand(id, _, expected, owner, o, now) =>
      ServedIsSound(store, id, RecordOutcome(row, Executing, expected, owner, o, now));
    case CommerceResponseCommand(id, _, expected, owner, status, resource, now) =>
      ServedIsSound(store, id, RecordCommerceResponse(row, expected, owner, status, resource, now));
    case ClaimReconciliationCommand(id, _, _, expected, owner, seconds, now) =>
      ServedIsSound(store, id, ClaimReconciliation(row, expected, owner, seconds, now));
    case ReconciliationOutcomeCommand(id, _, _, expected, owner, o, now) =>
      ServedIsSound(store, id, RecordOutcome(row, Unresolved, expected, owner, o, now));
  }

  lemma SoundParts(store: Store, id: Uuid)
    requires StoreSound(store) && id in store.rows
    ensures store.logs.Keys == store.rows.Keys && Sound(store.rows[id], store.logs[id])
  {
  }

  /** Any command, with any arguments, keeps a sound store sound. */
  lemma PerformKeepsStoreSound(store: Store, command: Command)
    requires StoreSound(store)
    ensures StoreSound(Perform(store, command).0)
  {
    hide Sound, Compatible, Served, CreateOrGet;
    if command.CreateCommand? {
      CreationIsSound(store, command.create);
    } else if InTenant(store.rows, command.id, command.tenant) {
      ServiceKeepsStoreSound(store, command);
    }
  }

  const EMPTY_STORE := Store(map[], map[])

  ghost predicate Paired(store: Store) {
    store.logs.Keys == store.rows.Keys
  }

  lemma PerformKeepsPaired(store: Store, command: Command)
    requires Paired(store)
    ensures Paired(Perform(store, command).0)
  {
    hide Transition, ClaimExecution, RecoverExpiredExecution, RecordOutcome, RecordCommerceResponse,
      ClaimReconciliation, IsOrigin, IsDuplicate, Fresh, AnyDispatched, SupersededRow, SupersededLog;
  }

  /** The store after a run of commands. */
  ghost function Run(commands: seq<Command>): (store: Store)
    ensures Paired(store)
  {
    if commands == [] then EMPTY_STORE
    else
      var before := Run(commands[..|commands| - 1]);
      PerformKeepsPaired(before, commands[|commands| - 1]);
      Perform(before, commands[|commands| - 1]).0
  }

  lemma {:induction false} RunIsSound(commands: seq<Command>)
    ensures StoreSound(Run(commands))
  {
    hide Perform, Sound, Compatible;
    if commands != [] {
      RunIsSound(commands[..|commands| - 1]);
      PerformKeepsStoreSound(Run(commands[..|commands| - 1]), commands[|commands| - 1]);
    }
  }

  // ---- Theorems over every run ----

  /** Any calls, any arguments: an executable row holds every human gate, bound to its own fingerprint. */
  lemma EveryExecutableRowHoldsItsGates(commands: seq<Command>)
    ensures forall id | id in Run(commands).rows && Executable(Run(commands).rows[id].state) ::
      var row := Run(commands).rows[id];
      && GatesSatisfied(row)
      && (row.approvalRequired ==>
            row.supervisor.actor.Some? && row.supervisor.fingerprint == Some(row.fixed.fingerprint))
      && (!row.approvalRequired ==> row.supervisor == NO_DECISION)
  {
    hide RowSound, GatesSatisfied, LogSound;
    RunIsSound(commands);
    forall id | id in Run(commands).rows && Executable(Run(commands).rows[id].state)
      ensures GatedRow(Run(commands).rows[id])
    {
      ExecutableRowsAreGated(Run(commands).rows[id]);
    }
  }

  predicate GatedRow(row: ActionRow) {
    && GatesSatisfied(row)
    && (row.approvalRequired ==>
          row.supervisor.actor.Some? && row.supervisor.fingerprint == Some(row.fixed.fingerprint))
    && (!row.approvalRequired ==> row.supervisor == NO_DECISION)
  }

  lemma ExecutableRowsAreGated(row: ActionRow)
    requires RowSound(row) && Executable(row.state)
    ensures GatedRow(row)
  {
    ExecutableRowsHoldEveryGate(row);
  }

  /** Success is recorded exactly with verified evidence of the resulting resource. */
  lemma EverySuccessIsVerified(commands: seq<Command>)
    ensures forall id | id in Run(commands).rows ::
      var row := Run(commands).rows[id];
      && (row.state == Succeeded <==> row.verifiedResource.Some?)
      && (row.state == Succeeded ==> row.verification == Some(Verified) && row.verifiedAt.Some?)
      && (row.leaseOwner.Some? <==> row.leaseExpiresAt.Some?)
  {
    hide LogSound, RowChecks, StateFacts;
    RunIsSound(commands);
  }

  /** A decision column is empty, or whole, called for and bound to the row's own fingerprint. */
  predicate WholeOrEmpty(d: HumanDecision, required: bool, fingerprint: Fingerprint) {
    || (d.verdict.None? && d.actor.None? && d.at.None? && d.fingerprint.None?)
    || (required && d.verdict.Some? && d.actor.Some? && d.at.Some? && d.fingerprint == Some(fingerprint))
  }

  predicate HexLetter(c: char) { c in "0123456789abcdef" }

  /** The table's constraints on one row, told by its columns. */
  predicate Consistent(row: ActionRow) {
    && |row.fixed.fingerprint| == 64 && (forall i | 0 <= i < 64 :: HexLetter(row.fixed.fingerprint[i]))
    && row.version >= 1 && row.fixed.createdAt < row.fixed.expiresAt
    && (row.policy.allowed.Some? <==> row.policy.reason.Some?)
    && (row.policy.allowed.Some? <==> row.policy.version.Some?)
    && (row.policy.allowed.Some? <==> row.policy.observedAt.Some?)
    && WholeOrEmpty(row.customer, row.confirmationRequired, row.fixed.fingerprint)
    && WholeOrEmpty(row.supervisor, row.approvalRequired, row.fixed.fingerprint)
    && row.verification in {None, Some(Verified), Some(Mismatched), Some(Unavailable)}
  }

  lemma ChecksMeanConsistent(row: ActionRow)
    ensures RowChecks(row) <==> Consistent(row)
  {
    hide WholeOrEmpty, DecisionConsistent;
    DigitsAreHex();
    WholeMeansConsistent(row.customer, row.confirmationRequired, row.fixed.fingerprint);
    WholeMeansConsistent(row.supervisor, row.approvalRequired, row.fixed.fingerprint);
  }

  lemma DigitsAreHex()
    ensures forall c :: HexLetter(c) <==> Digit(c) || 'a' <= c <= 'f'
  {
    var hex := "0123456789abcdef";
    forall c
      ensures HexLetter(c) <==> Digit(c) || 'a' <= c <= 'f'
    {
      if Digit(c) { assert hex[c as int - '0' as int] == c; }
      if 'a' <= c <= 'f' { assert hex[10 + c as int - 'a' as int] == c; }
    }
  }

  lemma WholeMeansConsistent(d: HumanDecision, required: bool, fingerprint: Fingerprint)
    ensures WholeOrEmpty(d, required, fingerprint) <==> DecisionConsistent(d, required, fingerprint)
  {
  }

  /** The constraints are exactly these, and every row of every run meets them. */
  lemma EveryRowIsConsistent(commands: seq<Command>)
    ensures forall id | id in Run(commands).rows :: Consistent(Run(commands).rows[id])
    ensures forall row :: RowChecks(row) <==> Consistent(row)
  {
    hide LogSound, RowChecks, StateFacts, EvidenceFacts, Consistent;
    RunIsSound(commands);
    forall row: ActionRow
      ensures RowChecks(row) <==> Consistent(row)
    {
      ChecksMeanConsistent(row);
    }
  }

  /** The log of every row is numbered 1..version, chained, and folds back to the row. */
  lemma EveryLogExplainsItsRow(commands: seq<Command>)
    ensures Run(commands).logs.Keys == Run(commands).rows.Keys
    ensures forall id | id in Run(commands).rows :: Explains(Run(commands).logs[id], Run(commands).rows[id])
  {
    hide RowSound, Explains, LogSound;
    RunIsSound(commands);
    forall id | id in Run(commands).rows
      ensures Explains(Run(commands).logs[id], Run(commands).rows[id])
    {
      SoundLogExplains(Run(commands).rows[id], Run(commands).logs[id]);
    }
  }

  ghost predicate Explains(log: seq<ActionEvent>, row: ActionRow) {
    && |log| == row.version > 0
    && (forall i | 0 <= i < |log| :: log[i].sequence == i + 1)
    && (forall i, j | 0 <= i < j < |log| && j == i + 1 :: log[j].previous == Some(log[i].next))
    && log[|log| - 1].next == row.state
    && Fold(log) == SummaryOf(row)
  }

  lemma SoundLogExplains(row: ActionRow, log: seq<ActionEvent>)
    requires Sound(row, log)
    ensures Explains(log, row)
  {
    LogNumbersVersions(row, log);
  }

  /** Each human decides at most once, the supervisor first. */
  ghost predicate DecidedOnce(log: seq<ActionEvent>) {
    forall i, j | 0 <= i < |log| && 0 <= j < |log| ::
      && (CustomerEvent(log[i].kind) && CustomerEvent(log[j].kind) ==> i == j)
      && (SupervisorEvent(log[i].kind) && SupervisorEvent(log[j].kind) ==> i == j)
      && (SupervisorEvent(log[i].kind) && CustomerEvent(log[j].kind) ==> i < j)
  }

  lemma OrderlyMeansOnce(log: seq<ActionEvent>)
    requires DecisionsOrderly(log)
    ensures DecidedOnce(log)
  {
    forall i, j | 0 <= i < |log| && 0 <= j < |log|
      ensures CustomerEvent(log[i].kind) && CustomerEvent(log[j].kind) ==> i == j
      ensures SupervisorEvent(log[i].kind) && SupervisorEvent(log[j].kind) ==> i == j
      ensures SupervisorEvent(log[i].kind) && CustomerEvent(log[j].kind) ==> i < j
    {
      if i == j {
        assert !(SupervisorEvent(log[i].kind) && CustomerEvent(log[j].kind));
      }
    }
  }

  lemma EveryDecisionIsWrittenOnce(commands: seq<Command>)
    ensures forall id | id in Run(commands).rows :: DecidedOnce(Run(commands).logs[id])
  {
    hide RowSound, DecidedOnce;
    RunIsSound(commands);
    forall id | id in Run(commands).rows
      ensures DecidedOnce(Run(commands).logs[id])
    {
      OrderlyMeansOnce(Run(commands).logs[id]);
    }
  }

  /** Denial is only ever recorded on the way out of proposed; readiness never comes straight from it. */
  ghost predicate EdgesLive(log: seq<ActionEvent>) {
    forall i | 0 < i < |log| ::
      && log[i].previous.Some?
      && (log[i].next == PolicyDenied ==> log[i].previous.value == Proposed)
      && (log[i].next == ReadyToExecute ==> log[i].previous.value in {AwaitingConfirmation, Executing, ReadyToExecute})
  }

  lemma WellFormedLogsAreLive(log: seq<ActionEvent>, fingerprint: Fingerprint)
    requires WellFormed(log, fingerprint)
    ensures EdgesLive(log)
  {
    forall i | 0 < i < |log|
      ensures log[i].previous.Some? && LiveEdge(log[i].previous.value, log[i].next)
    {
      var before := i - 1;
      assert Continues(log[before], log[i]);
    }
  }

  lemma EveryCommittedEdgeIsLive(commands: seq<Command>)
    ensures forall id | id in Run(commands).rows :: EdgesLive(Run(commands).logs[id])
  {
    hide RowSound, EdgesLive;
    RunIsSound(commands);
    forall id | id in Run(commands).rows
      ensures EdgesLive(Run(commands).logs[id])
    {
      WellFormedLogsAreLive(Run(commands).logs[id], Run(commands).rows[id].fixed.fingerprint);
    }
  }

  /** No run ever leaves two active requests about the same subject, nor two with one idempotency key. */
  lemma OneActiveRequestPerSubject(commands: seq<Command>)
    ensures forall a, b | a in Run(commands).rows && b in Run(commands).rows && a != b ::
      && Run(commands).rows[a].fixed.idempotencyKey != Run(commands).rows[b].fixed.idempotencyKey
      && (SameSubject(Run(commands).rows[a].fixed, Run(commands).rows[b].fixed) ==>
            !(Active(Run(commands).rows[a].state) && Active(Run(commands).rows[b].state)))
  {
    hide Sound, Active, SameSubject;
    RunIsSound(commands);
    forall a, b | a in Run(commands).rows && b in Run(commands).rows && a != b
      ensures Compatible(Run(commands).rows[a], Run(commands).rows[b])
    {
    }
  }

  /** The request as a new subject: no origin, no duplicate, every input check passed. */
  ghost predicate Considered(store: Store, r: CreateRequest) {
    && r.customer.Some? && HexDigest(r.fingerprint)
    && r.conversationInScope && r.runInConversation && r.invocationInRun
    && (forall id | id in store.rows :: !IsOrigin(store.rows[id], r) && !IsDuplicate(store.rows[id], r))
    && r.now < r.expiresAt && Fresh(store.rows, r)
  }

  /** A dispatched, still active request about the same subject. */
  ghost predicate SubjectInFlight(store: Store, r: CreateRequest)
    requires r.customer.Some?
  {
    exists id :: && id in store.rows && Active(store.rows[id].state) && !Undispatched(store.rows[id].state)
                 && SameSubject(store.rows[id].fixed, NewRow(r).fixed)
  }

  lemma PriorsAreSameSubject(store: Store, r: CreateRequest)
    requires r.customer.Some?
    ensures forall id | id in store.rows ::
              id in Priors(store.rows, r) <==>
                Active(store.rows[id].state) && SameSubject(store.rows[id].fixed, NewRow(r).fixed)
    ensures SubjectInFlight(store, r) <==> AnyDispatched(store.rows, Priors(store.rows, r))
  {
    hide Undispatched, Active;
  }

  lemma InFlightRefuses(store: Store, r: CreateRequest)
    requires StoreSound(store) && Considered(store, r) && SubjectInFlight(store, r)
    ensures CreateOrGet(store, r) == (store, Raised(InFlight))
  {
    hide StoreSound, Superseded, IsOrigin, IsDuplicate, Fresh, SubjectInFlight, AnyDispatched;
    PriorsAreSameSubject(store, r);
  }

  lemma NothingInFlightCreates(store: Store, r: CreateRequest)
    requires StoreSound(store) && Considered(store, r) && !SubjectInFlight(store, r)
    ensures Creates(store, r) && CreateOrGet(store, r).1 == Created(NewRow(r))
  {
    hide StoreSound, Superseded, IsOrigin, IsDuplicate, Fresh, SubjectInFlight, AnyDispatched;
    PriorsAreSameSubject(store, r);
  }

  lemma PriorsExpire(store: Store, r: CreateRequest, id: Uuid)
    requires StoreSound(store) && r.customer.Some? && id in store.rows
    requires !AnyDispatched(store.rows, Priors(store.rows, r))
    ensures var cleared := Superseded(store, Priors(store.rows, r), r);
      if id in Priors(store.rows, r)
      then cleared.rows[id].state == Expired && cleared.rows[id].version == store.rows[id].version + 1
      else cleared.rows[id] == store.rows[id] && cleared.logs[id] == store.logs[id]
  {
    hide Sound, SupersededRow, SupersededLog;
    if id in Priors(store.rows, r) {
      SupersessionExpires(store.rows[id], store.logs[id], r);
    }
  }

  /**
    Creation of a considered request is refused exactly when an active request about the same
    subject has been dispatched. Otherwise the one undispatched predecessor, if any, expires
    with one more event, every other row stays, and the new row starts proposed.
   */
  lemma CreationSupersedesExactlyTheUndispatched(store: Store, r: CreateRequest)
    requires StoreSound(store) && Considered(store, r)
    ensures var (store', reply) := CreateOrGet(store, r);
      if SubjectInFlight(store, r) then reply == Raised(InFlight) && store' == store
      else
        && reply == Created(NewRow(r))
        && store'.rows.Keys == store.rows.Keys + {r.newId}
        && store'.rows[r.newId] == NewRow(r) && store'.logs[r.newId] == [CreatedEntry(r)]
        && forall id | id in store.rows ::
             if Active(store.rows[id].state) && SameSubject(store.rows[id].fixed, NewRow(r).fixed)
             then store'.rows[id].state == Expired && store'.rows[id].version == store.rows[id].version + 1
             else store'.rows[id] == store.rows[id] && store'.logs[id] == store.logs[id]
  {
    hide CreateOrGet, IsOrigin, IsDuplicate, SubjectInFlight, AnyDispatched, SameSubject, Active, Sound,
      SupersededRow, SupersededLog;
    if SubjectInFlight(store, r) {
      InFlightRefuses(store, r);
    } else {
      NothingInFlightCreates(store, r);
      CreationGuards(store, r);
      PriorsAreSameSubject(store, r);
      forall id | id in store.rows
        ensures var cleared := Superseded(store, Priors(store.rows, r), r);
          if id in Priors(store.rows, r)
          then cleared.rows[id].state == Expired && cleared.rows[id].version == store.rows[id].version + 1
          else cleared.rows[id] == store.rows[id] && cleared.logs[id] == store.logs[id]
      {
        PriorsExpire(store, r, id);
      }
    }
  }

  lemma OriginIsUnique(store: Store, r: CreateRequest)
    requires StoreSound(store)
    ensures forall a, b |
              a in store.rows && b in store.rows && IsOrigin(store.rows[a], r) && IsOrigin(store.rows[b], r) ::
              a == b
  {
    hide Sound;
    forall a, b | a in store.rows && b in store.rows && a != b
      ensures !(IsOrigin(store.rows[a], r) && IsOrigin(store.rows[b], r))
    {
      assert Compatible(store.rows[a], store.rows[b]);
    }
  }

  lemma DuplicateIsUnique(store: Store, r: CreateRequest)
    requires StoreSound(store)
    ensures forall a, b |
              a in store.rows && b in store.rows && IsDuplicate(store.rows[a], r) && IsDuplicate(store.rows[b], r) ::
              a == b
  {
    hide Sound;
    forall a, b | a in store.rows && b in store.rows && a != b
      ensures !(IsDuplicate(store.rows[a], r) && IsDuplicate(store.rows[b], r))
    {
      assert Compatible(store.rows[a], store.rows[b]);
    }
  }

  // ---- Two creations at once ----

  /** The two calls come from one tool invocation, or propose the same fingerprint in one conversation. */
  predicate Rivals(other: CreateRequest, r: CreateRequest) {
    || other.invocation == r.invocation
    || (&& other.tenant == r.tenant && other.conversation == r.conversation && other.customer == r.customer
        && other.fingerprint == r.fingerprint)
  }

  predicate SameNumbers(other: CreateRequest, r: CreateRequest) {
    other.newId == r.newId || other.newKey == r.newKey
  }

  lemma SoundStoresArePaired(store: Store)
    requires StoreSound(store)
    ensures store.logs.Keys == store.rows.Keys
  {
  }

  /** What the other creation leaves of a row that was there before. */
  lemma OlderRowsAfter(store: Store, other: CreateRequest, id: Uuid)
    requires StoreSound(store) && Creates(store, other) && id in store.rows
    ensures var rows' := CreateOrGet(store, other).0.rows;
      && id in rows' && id != other.newId
      && rows'[id].fixed == store.rows[id].fixed
      && (rows'[id] == store.rows[id] || rows'[id].state == Expired)
  {
    hide StoreSound, CreateOrGet, Superseded, Sound, SupersededRow;
    SoundStoresArePaired(store);
    CreationGuards(store, other);
    PriorsExpire(store, other, id);
    SupersededKeepsIdentity(store, Priors(store.rows, other), other, id);
  }

  lemma SupersededKeepsIdentity(store: Store, ids: set<Uuid>, r: CreateRequest, id: Uuid)
    requires ids <= store.rows.Keys && store.logs.Keys == store.rows.Keys && id in store.rows
    ensures id in Superseded(store, ids, r).rows && Superseded(store, ids, r).rows[id].fixed == store.rows[id].fixed
  {
  }

  lemma NewestRowAfter(store: Store, other: CreateRequest)
    requires StoreSound(store) && Creates(store, other)
    ensures other.customer.Some?
    ensures var rows' := CreateOrGet(store, other).0.rows;
      && other.newId in rows' && rows'[other.newId] == NewRow(other)
      && rows'.Keys == store.rows.Keys + {other.newId}
  {
    hide StoreSound, CreateOrGet, Sound, SupersededRow;
    SoundStoresArePaired(store);
    CreationGuards(store, other);
    assert Superseded(store, Priors(store.rows, other), other).rows.Keys == store.rows.Keys;
  }

  lemma StandsExactlyForRivals(store: Store, other: CreateRequest, r: CreateRequest)
    requires StoreSound(store) && Creates(store, other) && Creates(store, r)
    ensures Standing(CreateOrGet(store, other).0.rows, r).Some? <==> Rivals(other, r)
  {
    hide StoreSound, CreateOrGet, OriginReply, DuplicateReply, Fresh, AnyDispatched;
    SoundStoresArePaired(store);
    var rows' := CreateOrGet(store, other).0.rows;
    CreationGuards(store, r);
    NewestRowAfter(store, other);
    forall id | id in store.rows
      ensures !IsOrigin(rows'[id], r) && !IsDuplicate(rows'[id], r)
    {
      OlderRowsAfter(store, other, id);
    }
  }

  lemma SecondIsNotHeldUp(store: Store, other: CreateRequest, r: CreateRequest)
    requires StoreSound(store) && Creates(store, other) && Creates(store, r)
    ensures var rows' := CreateOrGet(store, other).0.rows;
      && !AnyDispatched(rows', Priors(rows', r))
      && (Fresh(rows', r) <==> !SameNumbers(other, r))
  {
    hide StoreSound, CreateOrGet, SameConversation, Standing;
    SoundStoresArePaired(store);
    var rows' := CreateOrGet(store, other).0.rows;
    CreationGuards(store, r);
    NewestRowAfter(store, other);
    forall id | id in store.rows
      ensures id != other.newId && rows'[id].fixed == store.rows[id].fixed
      ensures rows'[id] == store.rows[id] || rows'[id].state == Expired
    {
      OlderRowsAfter(store, other, id);
    }
    forall id | id in Priors(rows', r)
      ensures Undispatched(rows'[id].state)
    {
      if id in store.rows { assert id in Priors(store.rows, r); }
    }
  }

  lemma GuardsOfTheCall(store: Store, r: CreateRequest)
    requires store.logs.Keys == store.rows.Keys && Creates(store, r)
    ensures r.customer.Some? && HexDigest(r.fingerprint) && r.now < r.expiresAt
    ensures r.conversationInScope && r.runInConversation && r.invocationInRun
  {
    hide Superseded, IsOrigin, IsDuplicate;
  }

  /**
    Two creations that would both have gone through, of which one commits first: the other, whose
    insert clashes, answers as if it had been called second exactly when the two are rivals for
    one invocation or fingerprint (or drew the same random numbers). For any other clash it
    reports a conflict where a second call would have superseded the first.
   */
  lemma LosersComeSecondExactly(store: Store, other: CreateRequest, r: CreateRequest)
    requires StoreSound(store) && Creates(store, other) && Creates(store, r)
    ensures StoreSound(CreateOrGet(store, other).0)
    ensures var later := CreateOrGet(store, other).0;
      ClashReply(later.rows, r) == CreateOrGet(later, r).1 <==> Rivals(other, r) || SameNumbers(other, r)
  {
    hide StoreSound, Standing, Superseded, Rivals, SameNumbers, Fresh, AnyDispatched, HexDigest;
    SoundStoresArePaired(store);
    CreationIsSound(store, other);
    StandsExactlyForRivals(store, other, r);
    SecondIsNotHeldUp(store, other, r);
    GuardsOfTheCall(store, r);
    SoundStoresArePaired(CreateOrGet(store, other).0);
  }
}
