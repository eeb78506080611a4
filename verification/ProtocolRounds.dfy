/**
  How a worker's part ends: what an answer, a read-back, a failed connection or a refresh makes
  of the row, from the moment the worker has it to the moment the worker is gone.
 */
module ProtocolRounds {
  import opened Options
  import opened ActionModel
  import opened ActionLifecycle
  import opened ActionLog
  import opened ActionServices
  import opened ActionDecisions
  import opened ActionLeases
  import opened CommerceRequests
  import opened IdempotentWrites
  import opened CommerceWire
  import opened ActionProtocol
  import opened ProtocolMoves
  import opened ProtocolInvariant
  import opened ProtocolTrail
  import opened ProtocolSafety

  /** The worker still owns the row, in the state it settles from. */
  predicate Owns(s: System, w: WorkerId) {
    && w in s.workers && s.workers[w].lease.Some?
    && s.row.leaseOwner == s.workers[w].lease
    && s.row.state == (if s.workers[w].role == Executor then Executing else Unresolved)
  }

  /** What an outcome writes: the state, the write's answer, the check, and no lease any more. */
  predicate RowReads(
    row: ActionRow, state: ActionState, commerce: CommerceColumns, verification: Option<VerificationStatus>,
    verified: Option<Uuid>)
  {
    && row.state == state && row.commerce == commerce
    && row.leaseOwner.None? && row.leaseExpiresAt.None?
    && row.verification == verification && row.verifiedResource == verified
  }

  predicate LastEntry(log: seq<ActionEvent>, kind: EventType, reason: string) {
    log != [] && log[|log| - 1].kind == kind && log[|log| - 1].reason == Some(reason) && log[|log| - 1].actor.None?
  }

  /** The check a worker made before it sent, if any; a later outcome keeps what was there. */
  function CheckAfter(row: ActionRow, read: Option<VerificationStatus>): Option<VerificationStatus> {
    if read.Some? then read else row.verification
  }

  predicate KnownText(read: Option<VerificationStatus>) { read.Some? ==> !read.value.OtherText? }

  /** A settlement by the owner stores a storable outcome, and the worker is gone. */
  lemma OwnersSettle(s: System, w: WorkerId, now: Time, s': System)
    requires Inv(s) && Owns(s, w) && s.workers[w].place.Settling? && Storable(s.workers[w].place.outcome)
    requires s.workers[w].place.outcome.target in {Succeeded, Failed, Unresolved}
    requires s.workers[w].place.outcome.kind
               in {VerificationSucceeded, UnresolvedEvent, CommerceResponse, StateTransition}
    requires s' == Next(s, SettleOutcome(w, now))
    ensures var o := s.workers[w].place.outcome;
      && s'.row == RowAfterOutcome(s.row, o, now).(version := s.row.version + 1, updatedAt := now)
      && |s'.log| == |s.log| + 1 && s'.log[|s.log|].kind == o.kind && s'.log[|s.log|].reason == o.reason
      && s'.log[|s.log|].actor.None?
      && s'.workers == s.workers - {w}
  {
    hide Step, RecordOutcome, Storable, RowAfterOutcome, Inv;
    SettlingStep(s, w, now);
    OwnersMatch(s, w);
    var me := s.workers[w];
    OutcomesSettleExactly(s.row, StateOf(me.role), me.record.fixed.fingerprint, me.lease.value, me.place.outcome, now);
  }

  lemma OwnersMatch(s: System, w: WorkerId)
    requires Inv(s) && w in s.workers
    ensures RowSound(s.row) && s.workers[w].record.fixed == s.row.fixed
  {
    hide Mail, Trail, Ended, Sound, GatesSatisfied;
    SoundLedger(s);
  }

  // ---- An answer that was heard ----

  function CodeKept(code: Option<string>): Option<string> {
    if code.Some? && ReasonCode(code.value) then code else None
  }

  function StatusKept(status: int): Option<int> {
    if 100 <= status <= 599 then Some(status) else None
  }

  /** The resource a reconciler's row knew; an executor's snapshot knows none. */
  function ResourceKept(me: Worker): Option<Uuid> {
    if me.role == Executor then None else me.record.commerce.resource
  }

  predicate Rejecting(status: int) { 400 <= status <= 499 && status != 408 && status != 429 }

  predicate Accepting(status: int, parses: bool) { 200 <= status <= 299 && parses }

  lemma SettledReasons()
    ensures ReasonCode("commerce_rejected") && ReasonCode("ambiguous_write_outcome")
    ensures ReasonCode("verified")
  {
    assert ReasonCode("commerce_rejected");
    assert ReasonCode("ambiguous_write_outcome");
  }

  function TextOr(code: Option<string>, text: string): string {
    if code.Some? then code.value else text
  }

  lemma HearingRejects(s: System, w: WorkerId, a: Answer, code: Option<string>, parses: bool, resource: Option<Uuid>)
    requires w in s.workers && Rejecting(StatusOf(a.reply))
    ensures var me, s' := s.workers[w], HearStep(s, w, a, code, parses, resource);
      s'.row == s.row && s'.log == s.log && w in s'.workers && s'.workers == s.workers[w := s'.workers[w]]
      && s'.workers[w] == me.(place := Settling(
           Outcome(Failed, if me.role == Executor then CommerceResponse else StateTransition,
                   Some(TextOr(CodeKept(code), "commerce_rejected")),
                   CommerceColumns(Some(StatusOf(a.reply)), CodeKept(code), ResourceKept(me)), None, me.read),
           Heard(a)))
  {
    hide StatusOf;
    BoundedCodesSay(code);
  }

  lemma BoundedCodesSay(code: Option<string>)
    ensures BoundedCode(code) == CodeKept(code) && (CodeKept(code).Some? ==> CodeKept(code).value != "")
  {
  }

  lemma NextKeepsInv(s: System, l: Label)
    requires Inv(s)
    ensures Inv(Next(s, l))
  {
    hide Inv, Step;
    if Step(s, l).Some? { StepKeepsInv(s, l, Step(s, l).value); }
  }

  /** The worker owns the row, awaits this answer, and what it read before is a known status. */
  ghost predicate Hears(s: System, w: WorkerId, a: Answer, code: Option<string>) {
    && Inv(s) && Owns(s, w) && KnownText(s.workers[w].read)
    && s.workers[w].place == Awaiting(a.dispatch) && a in s.wire.answers && CodeOf(a.reply, code)
  }

  lemma NextHears(s: System, w: WorkerId, a: Answer, code: Option<string>, parses: bool, resource: Option<Uuid>)
    requires Hears(s, w, a, code)
    ensures Next(s, Hear(w, a, code, parses, resource)) == HearStep(s, w, a, code, parses, resource)
  {
    hide Step, HearStep, Inv, CodeOf;
    HearingStep(s, w, a, code, parses, resource);
  }

  /** A definite rejection ends the action as failed, with the status and code that were heard. */
  lemma RejectionsFail(
    s: System, w: WorkerId, a: Answer, code: Option<string>, parses: bool, resource: Option<Uuid>, now: Time,
    s1: System, s2: System)
    requires Hears(s, w, a, code) && Rejecting(StatusOf(a.reply))
    requires s1 == Next(s, Hear(w, a, code, parses, resource)) && s2 == Next(s1, SettleOutcome(w, now))
    ensures var me := s.workers[w];
      && RowReads(s2.row, Failed, CommerceColumns(Some(StatusOf(a.reply)), CodeKept(code), ResourceKept(me)),
                  CheckAfter(s.row, me.read), s.row.verifiedResource)
      && LastEntry(s2.log, if me.role == Executor then CommerceResponse else StateTransition,
                   TextOr(CodeKept(code), "commerce_rejected"))
      && w !in s2.workers
  {
    hide Inv, Step, HearStep, Next, CodeOf, StatusOf, ReasonCode;
    NextHears(s, w, a, code, parses, resource);
    HearingRejects(s, w, a, code, parses, resource);
    NextKeepsInv(s, Hear(w, a, code, parses, resource));
    SettledReasons();
    OwnersSettle(s1, w, now, s2);
  }

  lemma HearingLeavesOpen(s: System, w: WorkerId, a: Answer, code: Option<string>, parses: bool, resource: Option<Uuid>)
    requires w in s.workers && !Rejecting(StatusOf(a.reply)) && !Accepting(StatusOf(a.reply), parses)
    ensures var me, s' := s.workers[w], HearStep(s, w, a, code, parses, resource);
      var kept := if 200 <= StatusOf(a.reply) <= 299 then None else CodeKept(code);
      s'.row == s.row && s'.log == s.log && w in s'.workers && s'.workers == s.workers[w := s'.workers[w]]
      && s'.workers[w] == me.(place := Settling(
           Outcome(Unresolved, UnresolvedEvent, Some(TextOr(kept, "ambiguous_write_outcome")),
                   CommerceColumns(StatusKept(StatusOf(a.reply)), kept, ResourceKept(me)), None, me.read),
           NoEvidence))
  {
    hide StatusOf;
    BoundedCodesSay(code);
  }

  /** Any other answer that is not an acceptance leaves the action unresolved, with what was heard. */
  lemma UnclearAnswersStayOpen(
    s: System, w: WorkerId, a: Answer, code: Option<string>, parses: bool, resource: Option<Uuid>, now: Time,
    s1: System, s2: System)
    requires Hears(s, w, a, code) && !Rejecting(StatusOf(a.reply)) && !Accepting(StatusOf(a.reply), parses)
    requires s1 == Next(s, Hear(w, a, code, parses, resource)) && s2 == Next(s1, SettleOutcome(w, now))
    ensures var me := s.workers[w];
      var kept := if 200 <= StatusOf(a.reply) <= 299 then None else CodeKept(code);
      && RowReads(s2.row, Unresolved, CommerceColumns(StatusKept(StatusOf(a.reply)), kept, ResourceKept(me)),
                  CheckAfter(s.row, me.read), s.row.verifiedResource)
      && LastEntry(s2.log, UnresolvedEvent, TextOr(kept, "ambiguous_write_outcome"))
      && w !in s2.workers
  {
    hide Inv, Step, HearStep, Next, CodeOf, StatusOf, ReasonCode;
    NextHears(s, w, a, code, parses, resource);
    HearingLeavesOpen(s, w, a, code, parses, resource);
    NextKeepsInv(s, Hear(w, a, code, parses, resource));
    SettledReasons();
    OwnersSettle(s1, w, now, s2);
  }

  /** A lost answer leaves it unresolved too, with nothing of it. */
  lemma LostAnswersStayOpen(s: System, w: WorkerId, now: Time, s1: System, s2: System)
    requires Inv(s) && Owns(s, w) && KnownText(s.workers[w].read) && s.workers[w].place.Awaiting?
    requires s1 == Next(s, LoseAnswer(w)) && s2 == Next(s1, SettleOutcome(w, now))
    ensures var me := s.workers[w];
      && RowReads(s2.row, Unresolved, CommerceColumns(None, None, ResourceKept(me)), CheckAfter(s.row, me.read),
                  s.row.verifiedResource)
      && LastEntry(s2.log, UnresolvedEvent, "ambiguous_write_outcome")
      && w !in s2.workers
  {
    hide Inv, ReasonCode;
    NextKeepsInv(s, LoseAnswer(w));
    SettledReasons();
    OwnersSettle(s1, w, now, s2);
  }

  // ---- An acceptance, and what the read-back says ----

  /** A read-back that can be stored: a known status, with a resource when verified and a bounded reason. */
  predicate Readable(read: ReadResult) {
    !read.status.OtherText? && ReasonCode(read.reason) && (read.status == Verified ==> read.resource.Some?)
  }

  lemma HearingAccepts(s: System, w: WorkerId, a: Answer, code: Option<string>, parses: bool, resource: Option<Uuid>)
    requires w in s.workers && Accepting(StatusOf(a.reply), parses)
    ensures var me := s.workers[w];
      HearStep(s, w, a, code, parses, resource)
        == s.(workers := s.workers[w := me.(
             place := if me.role == Executor then Responding(a, resource) else ReadingBack(a, resource))])
  {
    hide StatusOf;
  }

  /** What a worker settles after its read-back. */
  function ReadBackOutcome(me: Worker, status: int, resource: Option<Uuid>, read: ReadResult): Outcome {
    if read.status == Verified then
      Outcome(Succeeded, VerificationSucceeded, Some("verified"), CommerceColumns(Some(status), None, resource),
              read.resource, Some(Verified))
    else
      Outcome(Unresolved, UnresolvedEvent, Some(read.reason),
              CommerceColumns(Some(status), None, if resource.Some? then resource else ResourceKept(me)),
              None, Some(read.status))
  }

  lemma ReadingBackSettles(s: System, w: WorkerId, read: ReadResult)
    requires w in s.workers && s.workers[w].place.ReadingBack?
    ensures var me, s' := s.workers[w], Next(s, ReadBack(w, read));
      && s'.row == s.row && s'.log == s.log && w in s'.workers && s'.workers == s.workers[w := s'.workers[w]]
      && s'.workers[w].place.Settling?
      && s'.workers[w] == me.(place := s'.workers[w].place)
      && s'.workers[w].place.outcome
         == ReadBackOutcome(me, StatusOf(me.place.answered.reply), me.place.written, read)
  {
    hide DecidesStep, RefreshedStep, Claims, RecoverStep, ReadFirstStep, DispatchStep, FailToConnectStep, HearStep,
      RecordResponseStep, SettleStep, WireStep, RequestOf, StatusOf;
  }

  lemma ReadBackEnds(s: System, w: WorkerId, read: ReadResult, now: Time, s1: System, s2: System)
    requires Inv(s) && Owns(s, w) && s.workers[w].place.ReadingBack? && Readable(read)
    requires 200 <= StatusOf(s.workers[w].place.answered.reply) <= 299
    requires s1 == Next(s, ReadBack(w, read)) && s2 == Next(s1, SettleOutcome(w, now))
    ensures var me := s.workers[w];
      var o := ReadBackOutcome(me, StatusOf(me.place.answered.reply), me.place.written, read);
      && RowReads(s2.row, o.target, o.commerce, Some(read.status),
                  if read.status == Verified then read.resource else s.row.verifiedResource)
      && LastEntry(s2.log, o.kind, if read.status == Verified then "verified" else read.reason)
      && w !in s2.workers
  {
    hide Inv, Step, Next, StatusOf, ReasonCode;
    ReadingBackSettles(s, w, read);
    NextKeepsInv(s, ReadBack(w, read));
    SettledReasons();
    OwnersSettle(s1, w, now, s2);
  }

  lemma ResponsesAreNotedFirst(s: System, w: WorkerId, t: Time)
    requires Inv(s) && Owns(s, w) && s.workers[w].place.Responding? && s.workers[w].role == Executor
    requires 100 <= StatusOf(s.workers[w].place.accepted.reply) <= 599
    ensures var me, s' := s.workers[w], Next(s, RecordResponse(w, t));
      var a, resource := me.place.accepted, me.place.resource;
      && s'.row == s.row.(commerce := CommerceColumns(Some(StatusOf(a.reply)), None, resource),
                          version := s.row.version + 1, updatedAt := t)
      && s'.workers == s.workers[w := me.(place := ReadingBack(a, resource))]
  {
    hide Inv, WireStep, DecidesStep, RefreshedStep, Claims, RecoverStep, ReadFirstStep, DispatchStep,
      FailToConnectStep, HearStep, ReadBackStep, SettleStep, StatusOf, RecordCommerceResponse;
    OwnersMatch(s, w);
    var me := s.workers[w];
    ResponsesStoreExactly(s.row, me.record.fixed.fingerprint, me.lease.value, StatusOf(me.place.accepted.reply),
                          me.place.resource, t);
  }

  /**
    An executor that hears an acceptance ends the action by its read-back: succeeded, with the
    status, the written resource and the resource that was read, when the read-back verifies it;
    unresolved, with what the read-back said, when it does not.
   */
  lemma AcceptedExecutionsEndByReadBack(
    s: System, w: WorkerId, a: Answer, code: Option<string>, parses: bool, resource: Option<Uuid>, t: Time,
    read: ReadResult, now: Time, s1: System, s2: System, s3: System, s4: System)
    requires Hears(s, w, a, code) && s.workers[w].role == Executor && Accepting(StatusOf(a.reply), parses)
    requires Readable(read)
    requires s1 == Next(s, Hear(w, a, code, parses, resource)) && s2 == Next(s1, RecordResponse(w, t))
    requires s3 == Next(s2, ReadBack(w, read)) && s4 == Next(s3, SettleOutcome(w, now))
    ensures RowReads(s4.row, if read.status == Verified then Succeeded else Unresolved,
                     CommerceColumns(Some(StatusOf(a.reply)), None, resource), Some(read.status),
                     if read.status == Verified then read.resource else s.row.verifiedResource)
    ensures LastEntry(s4.log, if read.status == Verified then VerificationSucceeded else UnresolvedEvent,
                      if read.status == Verified then "verified" else read.reason)
    ensures w !in s4.workers
  {
    hide Inv, Step, Next, HearStep, CodeOf, StatusOf, ReasonCode;
    NextHears(s, w, a, code, parses, resource);
    HearingAccepts(s, w, a, code, parses, resource);
    NextKeepsInv(s, Hear(w, a, code, parses, resource));
    ResponsesAreNotedFirst(s1, w, t);
    NextKeepsInv(s1, RecordResponse(w, t));
    ReadBackEnds(s2, w, read, now, s3, s4);
  }

  /** A reconciler that hears one ends it by its read-back in the same way, keeping a resource it knew. */
  lemma AcceptedReplaysEndByReadBack(
    s: System, w: WorkerId, a: Answer, code: Option<string>, parses: bool, resource: Option<Uuid>,
    read: ReadResult, now: Time, s1: System, s2: System, s3: System)
    requires Hears(s, w, a, code) && s.workers[w].role == Reconciler && Accepting(StatusOf(a.reply), parses)
    requires Readable(read)
    requires s1 == Next(s, Hear(w, a, code, parses, resource))
    requires s2 == Next(s1, ReadBack(w, read)) && s3 == Next(s2, SettleOutcome(w, now))
    ensures var known := s.workers[w].record.commerce.resource;
      && RowReads(s3.row, if read.status == Verified then Succeeded else Unresolved,
                  CommerceColumns(Some(StatusOf(a.reply)), None,
                                  if read.status == Verified || resource.Some? then resource else known),
                  Some(read.status), if read.status == Verified then read.resource else s.row.verifiedResource)
      && LastEntry(s3.log, if read.status == Verified then VerificationSucceeded else UnresolvedEvent,
                   if read.status == Verified then "verified" else read.reason)
      && w !in s3.workers
  {
    hide Inv, Step, Next, HearStep, CodeOf, StatusOf, ReasonCode;
    NextHears(s, w, a, code, parses, resource);
    HearingAccepts(s, w, a, code, parses, resource);
    NextKeepsInv(s, Hear(w, a, code, parses, resource));
    ReadBackEnds(s1, w, read, now, s2, s3);
  }

  // ---- The reconciler's first look ----

  /** The columns a reconciler carries over from its snapshot are storable. */
  predicate Carried(c: CommerceColumns) {
    && (c.statusCode.Some? ==> 100 <= c.statusCode.value <= 599)
    && (c.errorCode.Some? ==> ReasonCode(c.errorCode.value))
  }

  predicate MakesItsResource(p: ActionProposal) { p.ReturnProposal? || p.TicketProposal? || p.RefundProposal? }

  lemma LookingFirst(s: System, w: WorkerId, read: ReadResult)
    requires w in s.workers && s.workers[w].role == Reconciler && s.workers[w].place == ReadingFirst
    ensures var me, s' := s.workers[w], Next(s, ReadFirst(w, read));
      var c := me.record.commerce;
      && s'.row == s.row && s'.log == s.log && w in s'.workers && s'.workers == s.workers[w := s'.workers[w]]
      && s'.workers[w]
         == if read.status == Verified then
              me.(place := Settling(Outcome(Succeeded, VerificationSucceeded, Some("verified"),
                                            CommerceColumns(c.statusCode, None, read.resource), read.resource,
                                            Some(Verified)), ReadBackOnly))
            else if read.status == Mismatched && MakesItsResource(me.record.fixed.proposal) && c.resource.Some? then
              me.(place := Settling(Outcome(Unresolved, UnresolvedEvent, Some(read.reason), c, None, Some(Mismatched)),
                                    NoEvidence))
            else me.(read := Some(read.status), place := Dispatching(0))
  {
    hide DecidesStep, RefreshedStep, Claims, RecoverStep, DispatchStep, FailToConnectStep, HearStep,
      RecordResponseStep, ReadBackStep, SettleStep, WireStep, RequestOf;
  }

  /**
    A reconciler's first look ends the action as succeeded when the target is as it should be,
    leaves it unresolved when a resource it made is not, and otherwise lets the reconciler send.
   */
  lemma FirstLooksDecide(s: System, w: WorkerId, read: ReadResult, now: Time, s1: System, s2: System)
    requires Inv(s) && Owns(s, w) && s.workers[w].role == Reconciler && s.workers[w].place == ReadingFirst
    requires Readable(read) && Carried(s.workers[w].record.commerce)
    requires s1 == Next(s, ReadFirst(w, read)) && s2 == Next(s1, SettleOutcome(w, now))
    ensures var c := s.workers[w].record.commerce;
      if read.status == Verified then
        && RowReads(s2.row, Succeeded, CommerceColumns(c.statusCode, None, read.resource), Some(Verified),
                    read.resource)
        && LastEntry(s2.log, VerificationSucceeded, "verified") && w !in s2.workers
      else if read.status == Mismatched && MakesItsResource(s.workers[w].record.fixed.proposal) && c.resource.Some? then
        && RowReads(s2.row, Unresolved, c, Some(Mismatched), s.row.verifiedResource)
        && LastEntry(s2.log, UnresolvedEvent, read.reason) && w !in s2.workers
      else
        s2.row == s.row && w in s2.workers
        && s2.workers[w] == s.workers[w].(read := Some(read.status), place := Dispatching(0))
  {
    hide Inv, Step, Next, ReasonCode;
    LookingFirst(s, w, read);
    NextKeepsInv(s, ReadFirst(w, read));
    SettledReasons();
    if s1.workers[w].place.Settling? {
      OwnersSettle(s1, w, now, s2);
    } else {
      OnlySettlersSettle(s1, w, now);
    }
  }

  lemma OnlySettlersSettle(s: System, w: WorkerId, now: Time)
    requires w in s.workers ==> !s.workers[w].place.Settling?
    ensures Next(s, SettleOutcome(w, now)) == s
  {
    hide SettleStep;
  }

  // ---- Nothing was sent ----

  lemma ConnectingFailsTwice(s: System, w: WorkerId, s1: System, s2: System)
    requires w in s.workers && s.workers[w].place == Dispatching(0) && RequestOf(s.workers[w]).Call?
    requires s1 == Next(s, FailToConnect(w)) && s2 == Next(s1, FailToConnect(w))
    ensures s1 == s.(workers := s.workers[w := s.workers[w].(place := Dispatching(1))])
    ensures var me := s.workers[w];
      && s2.row == s.row && s2.log == s.log && s2.wire == s.wire
      && s2.workers == s.workers[w := me.(place := Settling(
           if me.role == Executor then
             Outcome(Failed, StateTransition, Some("pre_dispatch_retry_exhausted"), CommerceColumns(None, None, None),
                     None, None)
           else
             Outcome(Unresolved, UnresolvedEvent, Some("ambiguous_write_outcome"),
                     CommerceColumns(None, None, me.record.commerce.resource), None, me.read),
           if me.role == Executor then NothingSent else NoEvidence))]
  {
    hide DecidesStep, RefreshedStep, Claims, RecoverStep, ReadFirstStep, DispatchStep, HearStep, RecordResponseStep,
      ReadBackStep, SettleStep, WireStep, ExecutorRequest, ReconcilerRequest;
  }

  lemma UnsentReasons()
    ensures ReasonCode("pre_dispatch_retry_exhausted") && ReasonCode("request_validation_rejected")
  {
    assert ReasonCode("pre_dispatch_retry_exhausted");
  }

  /**
    After one failed connection a worker may still send; after two an executor fails the action,
    and a reconciler leaves it as unresolved as it was.
   */
  lemma UnreachableCommerceEnds(s: System, w: WorkerId, now: Time, s1: System, s2: System, s3: System)
    requires Inv(s) && Owns(s, w) && KnownText(s.workers[w].read)
    requires s.workers[w].place == Dispatching(0) && RequestOf(s.workers[w]).Call?
    requires s1 == Next(s, FailToConnect(w)) && s2 == Next(s1, FailToConnect(w))
    requires s3 == Next(s2, SettleOutcome(w, now))
    ensures s1 == s.(workers := s.workers[w := s.workers[w].(place := Dispatching(1))])
    ensures var me := s.workers[w];
      && s3.wire == s.wire && w !in s3.workers
      && if me.role == Executor then
           && RowReads(s3.row, Failed, CommerceColumns(None, None, None), s.row.verification, s.row.verifiedResource)
           && LastEntry(s3.log, StateTransition, "pre_dispatch_retry_exhausted")
         else
           && RowReads(s3.row, Unresolved, CommerceColumns(None, None, me.record.commerce.resource),
                       CheckAfter(s.row, me.read), s.row.verifiedResource)
           && LastEntry(s3.log, UnresolvedEvent, "ambiguous_write_outcome")
  {
    hide Inv, Step, Next, ReasonCode, RequestOf, RowAfterOutcome;
    ConnectingFailsTwice(s, w, s1, s2);
    NextKeepsInv(s, FailToConnect(w));
    NextKeepsInv(s1, FailToConnect(w));
    SettledReasons();
    UnsentReasons();
    OwnersSettle(s2, w, now, s3);
    SettlingLeavesTheWire(s2, w, now);
    AfterOutcomeReads(s.row, s2.workers[w].place.outcome, now);
  }

  lemma AfterOutcomeReads(row: ActionRow, o: Outcome, now: Time)
    requires o.target == Failed || o.target == Unresolved
    ensures RowReads(RowAfterOutcome(row, o, now).(version := row.version + 1, updatedAt := now), o.target, o.commerce,
                     CheckAfter(row, o.verification), row.verifiedResource)
  {
  }

  lemma SettlingLeavesTheWire(s: System, w: WorkerId, now: Time)
    ensures Next(s, SettleOutcome(w, now)).wire == s.wire
  {
    hide RecordOutcome;
  }

  lemma SendingFails(s: System, w: WorkerId, d: Dispatch)
    requires w in s.workers && s.workers[w].place.Dispatching? && RequestOf(s.workers[w]).InvalidRequest?
    ensures var me, s' := s.workers[w], Next(s, Send(w, d));
      && s'.row == s.row && s'.log == s.log && s'.wire == s.wire
      && s'.workers
         == if me.role == Executor then
              s.workers[w := me.(place := Settling(
                Outcome(Failed, StateTransition, Some("request_validation_rejected"), CommerceColumns(None, None, None),
                        None, None), NothingSent))]
            else s.workers - {w}
  {
    hide DecidesStep, RefreshedStep, Claims, RecoverStep, ReadFirstStep, FailToConnectStep, HearStep,
      RecordResponseStep, ReadBackStep, SettleStep, WireStep, ExecutorRequest, ReconcilerRequest;
  }

  /** A holder's request is built exactly when its proposal is expressible. */
  lemma HoldersSpeak(s: System, w: WorkerId)
    requires Inv(s) && w in s.workers && s.workers[w].lease.Some?
    ensures if Expressible(s.row.fixed.proposal) then RequestOf(s.workers[w]).Call?
            else RequestOf(s.workers[w]).InvalidRequest?
  {
    hide Mail, Trail, Ended, Ledger, ExecutorRequest, ReconcilerRequest, Expressible, GatesSatisfied;
    assert WorkerOk(s.row, s.grants, s.settled, s.workers[w]);
    RequestsSayTheProposal(s.workers[w].record);
    RequestsAreIdentical(s.workers[w].record, s.workers[w].record);
  }

  /** A proposal no request can carry fails in the executor without sending; a reconciler gives up on it. */
  lemma InexpressibleProposalsEnd(s: System, w: WorkerId, d: Dispatch, now: Time, s1: System, s2: System)
    requires Inv(s) && Owns(s, w) && s.workers[w].place.Dispatching? && !Expressible(s.row.fixed.proposal)
    requires s1 == Next(s, Send(w, d)) && s2 == Next(s1, SettleOutcome(w, now))
    ensures s2.wire == s.wire && w !in s2.workers
    ensures if s.workers[w].role == Executor then
              && RowReads(s2.row, Failed, CommerceColumns(None, None, None), s.row.verification, s.row.verifiedResource)
              && LastEntry(s2.log, StateTransition, "request_validation_rejected")
            else s2.row == s.row
  {
    hide Inv, Step, Next, ReasonCode, RequestOf, RowAfterOutcome, Expressible;
    HoldersSpeak(s, w);
    SendingFails(s, w, d);
    NextKeepsInv(s, Send(w, d));
    UnsentReasons();
    SettlingLeavesTheWire(s1, w, now);
    if s.workers[w].role == Executor {
      OwnersSettle(s1, w, now, s2);
      AfterOutcomeReads(s.row, s1.workers[w].place.outcome, now);
    } else {
      OnlySettlersSettle(s1, w, now);
    }
  }

  lemma SendingPosts(s: System, w: WorkerId, d: Dispatch)
    requires w in s.workers && s.workers[w].place.Dispatching? && RequestOf(s.workers[w]).Call? && d !in s.wire.sent
    ensures var me, call := s.workers[w], RequestOf(s.workers[w]).call;
      Next(s, Send(w, d))
        == s.(workers := s.workers[w := me.(place := Awaiting(d))],
              wire := s.wire.(sent := s.wire.sent[d := call], live := s.wire.live + {d}))
  {
    hide DecidesStep, RefreshedStep, Claims, RecoverStep, ReadFirstStep, FailToConnectStep, HearStep,
      RecordResponseStep, ReadBackStep, SettleStep, RequestOf;
  }

  /** Any other holder sends: under the action's key, for its customer, what the row proposes and who approved it. */
  lemma HoldersSend(s: System, w: WorkerId, d: Dispatch, s': System)
    requires Inv(s) && Owns(s, w) && s.workers[w].place.Dispatching? && Expressible(s.row.fixed.proposal)
    requires d !in s.wire.sent && s' == Next(s, Send(w, d))
    ensures s'.row == s.row && w in s'.workers && s'.workers[w] == s.workers[w].(place := Awaiting(d))
    ensures d in s'.wire.live && d in s'.wire.sent
    ensures var call := s'.wire.sent[d];
      && call.key == s.row.fixed.idempotencyKey && call.envelope.customer == s.row.fixed.customer
      && Says(call.envelope, s.row.fixed.proposal) && NamesItsApproval(s.row, call.envelope)
  {
    hide Inv, Step, Next, RequestOf, Expressible, Says, NamesItsApproval, ExecutorRequest, ReconcilerRequest,
      GatesSatisfied;
    HoldersSpeak(s, w);
    SendingPosts(s, w, d);
    HoldersAskTheSame(s, w);
    RequestsSayTheProposal(s.row);
  }

  lemma HoldersAskTheSame(s: System, w: WorkerId)
    requires Inv(s) && w in s.workers && s.workers[w].lease.Some?
    ensures RequestOf(s.workers[w]) == ExecutorRequest(s.row) && GatesSatisfied(s.row)
  {
    hide Mail, Trail, Ended, Sound, GatesSatisfied, ExecutorRequest, ReconcilerRequest, RequestOf;
    assert WorkerOk(s.row, s.grants, s.settled, s.workers[w]);
    SenderBuildsTheRequest(s, s.workers[w]);
  }

  // ---- How a lease is come by ----

  lemma ArrivesToExecute(s: System, w: WorkerId)
    requires w !in s.workers && s.row.state == ReadyToExecute && GatesSatisfied(s.row)
    ensures Next(s, StartExecutor(w))
         == s.(workers := s.workers[w := Worker(Executor, s.row, None, None, None, Refreshing)])
  {
    hide DecidesStep, RefreshedStep, Claims, RecoverStep, ReadFirstStep, DispatchStep, FailToConnectStep, HearStep,
      RecordResponseStep, ReadBackStep, SettleStep, WireStep, GatesSatisfied;
  }

  /** The refresh still shows the proposed material, and a policy that allows it through the gates it passed. */
  predicate StillCurrent(row: ActionRow, facts: Freshness) {
    && facts.fingerprint == row.fixed.fingerprint
    && facts.decision.allowed && facts.decision.confirmationRequired
    && facts.decision.approvalRequired == row.approvalRequired
  }

  /** The call a stale refresh ends in. */
  function StaleCall(row: ActionRow, facts: Freshness): ServiceCall {
    if facts.fingerprint == row.fixed.fingerprint && !facts.decision.allowed then DenyReady(facts.decision)
    else ExpireStale
  }

  lemma RefreshGoesOn(s: System, w: WorkerId, facts: Freshness, t: Time)
    requires w in s.workers && s.workers[w] == Worker(Executor, s.row, None, None, None, Refreshing)
    ensures Next(s, Refreshed(w, facts, t))
         == if StillCurrent(s.row, facts) then
              s.(workers := s.workers[w := Worker(Executor, s.row, Some(facts), None, None, Claiming)])
            else Leaves(DecidesStep(s, StaleCall(s.row, facts), t), w)
  {
    hide DecidesStep, Claims, RecoverStep, ReadFirstStep, DispatchStep, FailToConnectStep, HearStep,
      RecordResponseStep, ReadBackStep, SettleStep, WireStep, RequestOf;
  }

  /** What the decision of a stale refresh makes of a ready row: expired, or, for a denial before expiry, as it was. */
  lemma StaleRowsExpire(s: System, facts: Freshness, t: Time)
    requires RowSound(s.row) && s.row.state == ReadyToExecute && !StillCurrent(s.row, facts)
    ensures var s' := DecidesStep(s, StaleCall(s.row, facts), t);
      && s'.grants == s.grants && s'.workers == s.workers
      && if facts.fingerprint == s.row.fixed.fingerprint && !facts.decision.allowed && t < s.row.fixed.expiresAt
         then s'.row == s.row
         else s'.row == s.row.(state := Expired, version := s.row.version + 1, updatedAt := t)
  {
    hide RowSound, Transition, AsRequest;
    DecisionsCommitExactly(s.row, StaleCall(s.row, facts), t);
  }

  lemma ClaimStepIs(s: System, w: WorkerId, lease: Uuid, claimedAt: Time, now: Time)
    requires w in s.workers && s.workers[w].role == Executor && s.workers[w].place == Claiming && lease !in s.grants
    requires s.workers[w].record.fixed == s.row.fixed
    ensures Next(s, ClaimForExecution(w, lease, claimedAt, now))
         == Claims(s, w, ClaimExecution(s.row, s.row.fixed.fingerprint, lease, claimedAt, LEASE_SECONDS, now), lease,
                   Dispatching(0))
  {
    hide DecidesStep, RefreshedStep, Claims, RecoverStep, ReadFirstStep, DispatchStep, FailToConnectStep, HearStep,
      RecordResponseStep, ReadBackStep, SettleStep, WireStep, RequestOf, ClaimExecution;
  }

  /**
    An executor that finds a ready action gets to dispatch it exactly when its refresh is still
    current and the claim comes before the action's expiry and within the lease's 120 seconds.
    Then it holds a lease that runs out 120 seconds after the claim was begun; otherwise it is
    gone without one.
   */
  lemma ExecutorsClaimExactly(
    s: System, w: WorkerId, facts: Freshness, t: Time, lease: Uuid, claimedAt: Time, now: Time,
    s1: System, s2: System, s3: System)
    requires Inv(s) && w !in s.workers && s.row.state == ReadyToExecute && lease !in s.grants
    requires s1 == Next(s, StartExecutor(w)) && s2 == Next(s1, Refreshed(w, facts, t))
    requires s3 == Next(s2, ClaimForExecution(w, lease, claimedAt, now))
    ensures if StillCurrent(s.row, facts) && now < s.row.fixed.expiresAt && now < claimedAt + 120 then
              && s3.grants == s.grants + [lease]
              && s3.row == s.row.(state := Executing, attempts := s.row.attempts + 1,
                                  leaseOwner := Some(lease), leaseExpiresAt := Some(claimedAt + 120),
                                  version := s.row.version + 1, updatedAt := now)
              && w in s3.workers
              && s3.workers[w] == Worker(Executor, s3.row, Some(facts), Some(lease), None, Dispatching(0))
            else
              && s3.grants == s.grants && w !in s3.workers
              && (s3.row.state != Expired ==> s3.row == s.row)
              && (s3.row.state == Expired <==>
                    if StillCurrent(s.row, facts) then s.row.fixed.expiresAt <= now
                    else facts.fingerprint != s.row.fixed.fingerprint || facts.decision.allowed
                         || s.row.fixed.expiresAt <= t)
  {
    hide Inv, Next, Step, RowSound, Transition, AsRequest, GatesSatisfied, ClaimExecution, DecidesStep;
    ReadyRowsAreGated(s);
    ArrivesToExecute(s, w);
    RefreshGoesOn(s1, w, facts, t);
    if StillCurrent(s.row, facts) {
      ClaimStepIs(s2, w, lease, claimedAt, now);
      ClaimsExactly(s.row, s.row.fixed.fingerprint, lease, claimedAt, LEASE_SECONDS, now);
    } else {
      StaleRowsExpire(s1, facts, t);
      AbsentWorkersClaimNothing(s2, w, lease, claimedAt, now);
    }
  }

  lemma AbsentWorkersClaimNothing(s: System, w: WorkerId, lease: Uuid, claimedAt: Time, now: Time)
    requires w !in s.workers
    ensures Next(s, ClaimForExecution(w, lease, claimedAt, now)) == s
    ensures Next(s, ClaimForReconciliation(w, lease, now)) == s
  {
    hide Claims;
  }

  lemma ReadyRowsAreGated(s: System)
    requires Inv(s)
    ensures RowSound(s.row)
    ensures s.row.state in {ReadyToExecute, Executing, Unresolved} ==> GatesSatisfied(s.row)
  {
    hide Crew, Mail, Trail, Ended, Sound, GatesSatisfied, RowSound;
    SoundLedger(s);
    if s.row.state in {ReadyToExecute, Executing, Unresolved} { ExecutableRowsHoldEveryGate(s.row); }
  }

  // ---- The reconciler's claim ----

  lemma ArrivesToReconcile(s: System, w: WorkerId)
    requires w !in s.workers
    ensures Next(s, StartReconciler(w))
         == s.(workers := s.workers[w := Worker(Reconciler, s.row, None, None, None, Recovering)])
  {
    hide DecidesStep, RefreshedStep, Claims, RecoverStep, ReadFirstStep, DispatchStep, FailToConnectStep, HearStep,
      RecordResponseStep, ReadBackStep, SettleStep, WireStep, GatesSatisfied;
  }

  lemma RecoverStepIs(s: System, w: WorkerId, t: Time)
    requires w in s.workers && s.workers[w].role == Reconciler && s.workers[w].place == Recovering
    ensures Next(s, Recover(w, t)) == RecoverStep(s, w, t)
  {
    hide DecidesStep, RefreshedStep, Claims, RecoverStep, ReadFirstStep, DispatchStep, FailToConnectStep, HearStep,
      RecordResponseStep, ReadBackStep, SettleStep, WireStep, RequestOf;
  }

  /** An execution whose lease has run out. */
  predicate Abandoned(row: ActionRow, t: Time) {
    row.state == Executing && row.leaseExpiresAt.Some? && row.leaseExpiresAt.value <= t
  }

  /** The row after the look: an abandoned execution is recovered, anything else stays. */
  function Looked(row: ActionRow, t: Time): ActionRow {
    if Abandoned(row, t) then
      row.(state := Unresolved, leaseOwner := None, leaseExpiresAt := None, version := row.version + 1, updatedAt := t)
    else row
  }

  lemma LookedRowsAreGated(row: ActionRow, t: Time)
    requires Looked(row, t).state == Unresolved && RowSound(row) && GatesSatisfied(row)
    ensures GatesSatisfied(Looked(row, t)) && !RefundEvidence(Looked(row, t)).InvalidApproval?
  {
  }

  lemma Looking(s: System, w: WorkerId, t: Time)
    requires RowSound(s.row) && (s.row.state in {Executing, Unresolved} ==> GatesSatisfied(s.row))
    requires w in s.workers && s.workers[w] == Worker(Reconciler, s.row, None, None, None, Recovering)
    ensures var s' := RecoverStep(s, w, t);
      && s'.row == Looked(s.row, t) && s'.grants == s.grants
      && s'.workers
         == if s'.row.state == Unresolved then
              s.workers[w := Worker(Reconciler, s'.row, None, None, None, Claiming)]
            else s.workers - {w}
  {
    hide RowSound, RecoverExpiredExecution, GatesSatisfied, RefundEvidence;
    RecoversExactly(s.row, s.row.fixed.fingerprint, t);
    if Looked(s.row, t).state == Unresolved { LookedRowsAreGated(s.row, t); }
  }

  lemma ReclaimStepIs(s: System, w: WorkerId, lease: Uuid, now: Time)
    requires w in s.workers && s.workers[w].role == Reconciler && s.workers[w].place == Claiming && lease !in s.grants
    requires s.workers[w].record.fixed == s.row.fixed
    ensures Next(s, ClaimForReconciliation(w, lease, now))
         == Claims(s, w, ClaimReconciliation(s.row, s.row.fixed.fingerprint, lease, LEASE_SECONDS, now), lease,
                   if CanReadFirst(s.row) then ReadingFirst else Dispatching(0))
  {
    hide DecidesStep, RefreshedStep, Claims, RecoverStep, ReadFirstStep, DispatchStep, FailToConnectStep, HearStep,
      RecordResponseStep, ReadBackStep, SettleStep, WireStep, RequestOf, ClaimReconciliation, CanReadFirst;
  }

  /** A target that can be read before anything is sent: known from the proposal, or from an earlier answer. */
  predicate ReadableTarget(row: ActionRow) {
    row.fixed.proposal.CancelProposal? || row.fixed.proposal.RescheduleProposal? || row.commerce.resource.Some?
  }

  predicate Unleased(row: ActionRow, now: Time) {
    row.leaseExpiresAt.None? || row.leaseExpiresAt.value <= now
  }

  /**
    A reconciler gets a lease on an action exactly when it finds it unresolved, or executing
    under a lease that has run out, and no reconciliation lease still runs. It then holds the row
    for 120 seconds, about to read the target if it can and to send otherwise; if it gets none it
    is gone, and the row is at most recovered.
   */
  lemma ReconcilersClaimExactly(
    s: System, w: WorkerId, t: Time, lease: Uuid, now: Time, s1: System, s2: System, s3: System)
    requires Inv(s) && w !in s.workers && lease !in s.grants
    requires s1 == Next(s, StartReconciler(w)) && s2 == Next(s1, Recover(w, t))
    requires s3 == Next(s2, ClaimForReconciliation(w, lease, now))
    ensures var looked := Looked(s.row, t);
      if looked.state == Unresolved && Unleased(looked, now) then
        && s3.grants == s.grants + [lease]
        && s3.row == looked.(leaseOwner := Some(lease), leaseExpiresAt := Some(now + 120),
                             version := looked.version + 1, updatedAt := now)
        && w in s3.workers
        && s3.workers[w] == Worker(Reconciler, s3.row, None, Some(lease), None,
                                   if ReadableTarget(s.row) then ReadingFirst else Dispatching(0))
      else s3.grants == s.grants && w !in s3.workers && s3.row == looked
  {
    hide Inv, Next, Step, RowSound, GatesSatisfied, ClaimReconciliation, RecoverStep;
    ReadyRowsAreGated(s);
    ArrivesToReconcile(s, w);
    RecoverStepIs(s1, w, t);
    Looking(s1, w, t);
    NextKeepsInv(s, StartReconciler(w));
    NextKeepsInv(s1, Recover(w, t));
    ReadyRowsAreGated(s2);
    if s2.row.state == Unresolved {
      ReclaimStepIs(s2, w, lease, now);
      ReclaimsExactly(s2.row, s2.row.fixed.fingerprint, lease, LEASE_SECONDS, now);
    } else {
      AbsentWorkersClaimNothing(s2, w, lease, now, now);
    }
  }
}
