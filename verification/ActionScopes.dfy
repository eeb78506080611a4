/**
  Whose rows a command reaches: one row of its own tenant, and of its own customer where it
  names one, and what the service of that command makes of that row alone.
 */
module ActionScopes {
  import opened Options
  import opened ActionModel
  import opened ActionLifecycle
  import opened ActionLog
  import opened ActionServices
  import opened ActionStore

  /** The row the command names, seen from its tenant and, for recovery and reconciliation, its customer. */
  predicate Reaches(rows: map<Uuid, ActionRow>, command: Command)
    requires !command.CreateCommand?
  {
    && command.id in rows && rows[command.id].fixed.tenant == command.tenant
    && (command.RecoverCommand? || command.ClaimReconciliationCommand? || command.ReconciliationOutcomeCommand? ==>
          rows[command.id].fixed.customer == command.customer)
  }

  /** A lease is asked for 1 to 600 seconds. */
  predicate AsksALease(command: Command) {
    match command
    case ClaimExecutionCommand(_, _, _, _, _, seconds, _) => 1 <= seconds <= 600
    case ClaimReconciliationCommand(_, _, _, _, _, seconds, _) => 1 <= seconds <= 600
    case _ => true
  }

  /** What the command's service answers: an execution settles an executing row, a reconciliation an unresolved one. */
  function ServiceFor(row: ActionRow, command: Command): Service
    requires !command.CreateCommand?
  {
    match command
    case TransitionCommand(_, _, expected, req) => Transition(row, expected, req)
    case ClaimExecutionCommand(_, _, expected, owner, from, seconds, now) =>
      ClaimExecution(row, expected, owner, from, seconds, now)
    case RecoverCommand(_, _, _, expected, now) => RecoverExpiredExecution(row, expected, now)
    case ExecutionOutcomeCommand(_, _, expected, owner, o, now) =>
      RecordOutcome(row, Executing, expected, owner, o, now)
    case CommerceResponseCommand(_, _, expected, owner, status, resource, now) =>
      RecordCommerceResponse(row, expected, owner, status, resource, now)
    case ClaimReconciliationCommand(_, _, _, expected, owner, seconds, now) =>
      ClaimReconciliation(row, expected, owner, seconds, now)
    case ReconciliationOutcomeCommand(_, _, _, expected, owner, o, now) =>
      RecordOutcome(row, Unresolved, expected, owner, o, now)
  }

  /** Every row but this one is as it was; this one, with its log, is what the change says. */
  ghost predicate OnlyRow(store: Store, id: Uuid, change: Change, later: Store)
    requires id in store.rows && id in store.logs
  {
    && later.rows.Keys == store.rows.Keys && later.logs.Keys == store.logs.Keys
    && (forall other | other in store.rows && other != id :: later.rows[other] == store.rows[other])
    && (forall other | other in store.logs && other != id :: later.logs[other] == store.logs[other])
    && match change
       case Kept => later.rows[id] == store.rows[id] && later.logs[id] == store.logs[id]
       case Written(row, event) => later.rows[id] == row && later.logs[id] == store.logs[id] + [event]
  }

  /**
    A command on a row outside its tenant or customer is answered as if there were no such row,
    and changes nothing; within them it does to that row what its service says, and nothing to
    any other.
   */
  lemma CommandsReachTheirRowAlone(store: Store, command: Command)
    requires StoreSound(store) && !command.CreateCommand?
    ensures var (later, reply) := Perform(store, command);
      if !AsksALease(command) then later == store && reply == Raised(InvalidValue)
      else if !Reaches(store.rows, command) then later == store && reply == Raised(NotFound)
      else
        var service := ServiceFor(store.rows[command.id], command);
        reply == service.reply && OnlyRow(store, command.id, service.change, later)
  {
    hide StoreSound, Transition, ClaimExecution, RecoverExpiredExecution, RecordOutcome, RecordCommerceResponse,
      ClaimReconciliation, OnlyRow;
    SoundStoresArePaired(store);
    if AsksALease(command) && Reaches(store.rows, command) {
      SavedIsOnlyRow(store, command.id, ServiceFor(store.rows[command.id], command).change);
    }
  }

  lemma SavedIsOnlyRow(store: Store, id: Uuid, change: Change)
    requires store.logs.Keys == store.rows.Keys && id in store.rows
    ensures OnlyRow(store, id, change, Saved(store, id, change))
  {
  }
}
