/**
  One turn of the bounded text agent: the graph's nodes and budgets, and how each emitted tool
  call of a round is answered.
 */
module AgentTurn {
  import opened Options

  const MAX_MODEL_CALLS: nat := 4
  const MAX_TOOL_ROUNDS: nat := 3
  const MAX_TOOL_CALLS: nat := 6
  const MAX_VALIDATION_REPAIRS: nat := 1
  const RECURSION_LIMIT: nat := 20

  /** A tool call as the model emits it; `valid` says name and arguments pass the registry. */
  datatype Call = Call(id: string, valid: bool)

  datatype ModelReply = ModelFails | Says(calls: seq<Call>, text: bool)

  /** A handler's end: with an answer for the model, or with an error that ends the turn. */
  datatype HandlerEnd = WithAnswer | Fatal

  datatype End = Finished | ModelBudget | ToolBudget | ProtocolError | Unavailable | RecursionExceeded

  datatype Node = Retrieve | Agent | Validate | Execute | Finalize | Done(end: End)

  datatype Turn = Turn(
    node: Node,
    visits: nat,
    modelCalls: nat,       // the counter in the state
    llmCalls: nat,         // calls of the gateway, failed ones and the citation repair included
    rounds: nat,
    toolCalls: nat,
    executed: nat,
    repairs: nat,
    pending: seq<Call>,
    invalid: seq<string>,
    answered: seq<seq<string>>,
    citationRepairAt: Option<nat>)

  /** The candidate under evaluation, and whether retrieval found evidence. */
  datatype Profile = Profile(repairsCitations: bool, extractive: bool, evidence: bool)

  /** What one node visit meets: the gateway's reply, the traces' persistence, the handlers, the citations. */
  datatype Chance = Chance(reply: ModelReply, persisted: bool, handlers: seq<HandlerEnd>, cited: bool)

  const START := Turn(Retrieve, 0, 0, 0, 0, 0, 0, 0, [], [], [], None)

  function Stop(t: Turn, end: End): Turn { t.(node := Done(end)) }

  function ModelStep(t: Turn, profile: Profile, c: Chance): Turn {
    if t.modelCalls >= MAX_MODEL_CALLS then Stop(t, ModelBudget)
    else
      var called := t.(llmCalls := t.llmCalls + 1);
      match c.reply
      case ModelFails => Stop(called, Unavailable)
      case Says(calls, text) =>
        if !c.persisted then Stop(called, Unavailable)
        else if calls == [] && !text && !(profile.extractive && profile.evidence && t.executed == 0)
        then Stop(called, ProtocolError)
        else called.(node := if calls != [] then Validate else Finalize,
                     modelCalls := t.modelCalls + 1, pending := calls,
                     invalid := [])
  }

  function InvalidIds(calls: seq<Call>): seq<string> {
    if calls == [] then []
    else
      var init, last := InvalidIds(calls[..|calls| - 1]), calls[|calls| - 1];
      if last.valid then init else init + [last.id]
  }

  function ValidateStep(t: Turn, c: Chance): Turn {
    var invalid := InvalidIds(t.pending);
    if t.rounds >= MAX_TOOL_ROUNDS || t.toolCalls + |t.pending| > MAX_TOOL_CALLS then Stop(t, ToolBudget)
    else if invalid != [] && !c.persisted then Stop(t, Unavailable)
    else if invalid != [] && t.repairs >= MAX_VALIDATION_REPAIRS then Stop(t, ProtocolError)
    else t.(node := Execute, rounds := t.rounds + 1, toolCalls := t.toolCalls + |t.pending|,
            repairs := t.repairs + (if invalid != [] then 1 else 0), invalid := invalid)
  }

  /** The calls whose id no invalid call carries, in order: those are executed. */
  function Executable(calls: seq<Call>, invalid: seq<string>): seq<string> {
    if calls == [] then []
    else
      var init, last := Executable(calls[..|calls| - 1], invalid), calls[|calls| - 1];
      if last.id in invalid then init else init + [last.id]
  }

  predicate SomeFatal(handlers: seq<HandlerEnd>, n: nat) {
    exists i :: 0 <= i < n && i < |handlers| && handlers[i] == Fatal
  }

  /** The ids answered in a round: the invalid calls first, then the executed ones. */
  function Answers(calls: seq<Call>): seq<string> {
    InvalidIds(calls) + Executable(calls, InvalidIds(calls))
  }

  function ExecuteStep(t: Turn, c: Chance): Turn {
    var executable := Executable(t.pending, t.invalid);
    if SomeFatal(c.handlers, |executable|) then Stop(t, Unavailable)
    else t.(node := Agent, executed := t.executed + |executable|, pending := [],
            invalid := t.invalid + executable, answered := t.answered + [t.invalid + executable])
  }

  /** A pure knowledge turn without citations is repaired once, if the model budget allows. */
  predicate RepairsCitations(t: Turn, profile: Profile, c: Chance) {
    && profile.repairsCitations && profile.evidence && t.toolCalls == 0 && !c.cited && t.modelCalls < MAX_MODEL_CALLS
  }

  function FinalizeStep(t: Turn, profile: Profile, c: Chance): Turn {
    if RepairsCitations(t, profile, c) then
      var repaired := t.(llmCalls := t.llmCalls + 1, citationRepairAt := Some(t.modelCalls));
      if c.reply.Says? && !c.persisted then Stop(repaired, Unavailable) else Stop(repaired, Finished)
    else Stop(t, Finished)
  }

  /** One node visit, under the graph's recursion limit. */
  function Visit(t: Turn, profile: Profile, c: Chance): Turn {
    if t.node.Done? then t
    else if t.visits >= RECURSION_LIMIT then Stop(t, RecursionExceeded)
    else
      var now := t.(visits := t.visits + 1);
      match t.node
      case Retrieve => now.(node := Agent)
      case Agent => ModelStep(now, profile, c)
      case Validate => ValidateStep(now, c)
      case Execute => ExecuteStep(now, c)
      case Finalize => FinalizeStep(now, profile, c)
  }

  function Run(profile: Profile, chances: seq<Chance>): Turn {
    if chances == [] then START else Visit(Run(profile, chances[..|chances| - 1]), profile, chances[|chances| - 1])
  }

  // ---- The bounds ----

  predicate Within(t: Turn) {
    && t.repairs <= MAX_VALIDATION_REPAIRS && t.toolCalls <= MAX_TOOL_CALLS && t.rounds <= MAX_TOOL_ROUNDS
    && t.rounds <= t.toolCalls
    && match t.node
       case Retrieve => t == START
       case Agent =>
         && t.modelCalls == t.llmCalls == t.rounds && t.visits == 1 + 3 * t.rounds
         && t.executed <= t.toolCalls && t.citationRepairAt == None
       case Validate =>
         && t.modelCalls == t.llmCalls == t.rounds + 1 && t.visits == 2 + 3 * t.rounds && t.pending != []
         && t.executed <= t.toolCalls && t.citationRepairAt == None
       case Execute =>
         && t.modelCalls == t.llmCalls == t.rounds && t.visits == 3 * t.rounds && t.rounds >= 1
         && t.executed + |t.pending| <= t.toolCalls && t.citationRepairAt == None
       case Finalize =>
         && t.modelCalls == t.llmCalls == t.rounds + 1 && t.visits == 2 + 3 * t.rounds
         && t.executed <= t.toolCalls && t.citationRepairAt == None
       case Done(end) =>
         && t.visits <= 12 && t.llmCalls <= MAX_MODEL_CALLS && t.executed <= t.toolCalls
         && end != ModelBudget && end != RecursionExceeded
         && (t.citationRepairAt.Some? ==> t.citationRepairAt.value == 1 && t.llmCalls == 2 && t.toolCalls == 0)
  }

  lemma {:induction false} ExecutableIsShorter(calls: seq<Call>, invalid: seq<string>)
    ensures |Executable(calls, invalid)| <= |calls|
  {
    if calls != [] { ExecutableIsShorter(calls[..|calls| - 1], invalid); }
  }

  lemma VisitStaysWithin(t: Turn, profile: Profile, c: Chance)
    requires Within(t)
    ensures Within(Visit(t, profile, c))
  {
    hide Executable, InvalidIds, SomeFatal;
    ExecutableIsShorter(t.pending, t.invalid);

  }

  /** A node that is not an end was visited after as many steps as there were visits. */
  lemma {:induction false} RunStaysWithin(profile: Profile, chances: seq<Chance>)
    ensures Within(Run(profile, chances))
    ensures !Run(profile, chances).node.Done? ==> Run(profile, chances).visits == |chances|
  {
    hide Within;
    if chances == [] {
      StartIsWithin();
    } else {
      var init := chances[..|chances| - 1];
      RunStaysWithin(profile, init);
      VisitStaysWithin(Run(profile, init), profile, chances[|chances| - 1]);
    }
  }

  lemma StartIsWithin()
    ensures Within(START)
  {
  }

  /**
    Every turn ends within 12 node visits, after at most 4 gateway calls, a citation repair
    included, 3 rounds, 6 tool calls and one validation repair. On each entry of the agent node
    the model calls equal the rounds, so neither the model-call check nor the recursion limit
    is ever what stops a turn; a citation repair is only ever the second gateway call.
   */
  lemma EveryTurnIsBounded(profile: Profile, chances: seq<Chance>)
    ensures var t := Run(profile, chances);
      && (|chances| >= 12 ==> t.node.Done?)
      && t.visits <= 12 && t.llmCalls <= 4 && t.rounds <= 3 && t.executed <= t.toolCalls <= 6 && t.repairs <= 1
      && (t.node == Agent ==> t.modelCalls == t.rounds < MAX_MODEL_CALLS)
      && t.node != Done(ModelBudget) && t.node != Done(RecursionExceeded)
      && (t.citationRepairAt.Some? ==> t.citationRepairAt == Some(1) && t.llmCalls == 2)
  {
    RunStaysWithin(profile, chances);
  }

  // ---- Where a turn goes ----

  /** Some call of the round does not pass the registry. */
  predicate SomeInvalid(calls: seq<Call>) {
    exists i :: 0 <= i < |calls| && !calls[i].valid
  }

  lemma {:induction false} InvalidIdsAreThere(calls: seq<Call>)
    ensures InvalidIds(calls) != [] <==> SomeInvalid(calls)
  {
    if calls != [] {
      var init := calls[..|calls| - 1];
      InvalidIdsAreThere(init);
      if i :| 0 <= i < |init| && !init[i].valid { assert !calls[i].valid; }
      if SomeInvalid(calls) && calls[|calls| - 1].valid {
        var i :| 0 <= i < |calls| && !calls[i].valid;
        assert !init[i].valid;
      }
    }
  }

  predicate FatalAmong(handlers: seq<HandlerEnd>, n: nat) {
    exists i :: 0 <= i < n && i < |handlers| && handlers[i] == Fatal
  }

  /** Before anything else the turn retrieves; then the model is asked. */
  lemma TurnsBeginWithRetrieval(profile: Profile, c: Chance)
    ensures Visit(START, profile, c) == START.(node := Agent, visits := 1)
  {
  }

  /** A gateway that fails, or a trace that cannot be kept, ends the turn as unavailable. */
  lemma LostGatewaysEndTheTurn(t: Turn, profile: Profile, c: Chance)
    requires Within(t) && t.node == Agent && (c.reply.ModelFails? || !c.persisted)
    ensures Visit(t, profile, c).node == Done(Unavailable) && Visit(t, profile, c).llmCalls == t.llmCalls + 1
  {
  }

  /**
    A round of tool calls, from the model's reply to the model's next turn: it ends the turn on
    the tool budget beyond the third round or the sixth call; as a protocol error on invalid
    calls a second time; as unavailable when a trace cannot be kept or a handler is fatal.
    Otherwise the model is asked again, with one answer list more.
   */
  lemma ToolRoundsRunExactly(t: Turn, profile: Profile, calls: seq<Call>, c1: Chance, c2: Chance, c3: Chance)
    requires Within(t) && t.node == Agent && calls != []
    requires c1.reply.Says? && c1.reply.calls == calls && c1.persisted
    ensures var u := Visit(Visit(Visit(t, profile, c1), profile, c2), profile, c3);
      var executed := |Executable(calls, InvalidIds(calls))|;
      if t.rounds >= 3 || t.toolCalls + |calls| > 6 then u.node == Done(ToolBudget)
      else if SomeInvalid(calls) && !c2.persisted then u.node == Done(Unavailable)
      else if SomeInvalid(calls) && t.repairs >= 1 then u.node == Done(ProtocolError)
      else if FatalAmong(c3.handlers, executed) then u.node == Done(Unavailable)
      else
        && u.node == Agent && u.modelCalls == t.modelCalls + 1 && u.llmCalls == t.llmCalls + 1
        && u.rounds == t.rounds + 1 && u.toolCalls == t.toolCalls + |calls| && u.executed == t.executed + executed
        && u.repairs == t.repairs + (if SomeInvalid(calls) then 1 else 0)
        && u.answered == t.answered + [Answers(calls)]
  {
    hide Executable, InvalidIds;
    InvalidIdsAreThere(calls);
  }

  /** A pure knowledge turn whose answer carries no citations, while the model may still be asked. */
  predicate CitationsMissing(t: Turn, profile: Profile, c: Chance) {
    profile.repairsCitations && profile.evidence && t.toolCalls == 0 && !c.cited && t.modelCalls + 1 < 4
  }

  /**
    A reply without tool calls ends the turn: as a protocol error when it is empty, unless an
    extractive answer stands in for it; otherwise as finished, after one more gateway call
    where citations are missing and repaired.
   */
  lemma RepliesEndTheTurn(t: Turn, profile: Profile, c1: Chance, c2: Chance)
    requires Within(t) && t.node == Agent && c1.reply.Says? && c1.reply.calls == [] && c1.persisted
    ensures var u := Visit(Visit(t, profile, c1), profile, c2);
      if !c1.reply.text && !(profile.extractive && profile.evidence && t.executed == 0) then
        u.node == Done(ProtocolError)
      else if CitationsMissing(t, profile, c2) then
        && u.node == Done(if c2.reply.Says? && !c2.persisted then Unavailable else Finished)
        && u.llmCalls == t.llmCalls + 2 && u.citationRepairAt == Some(t.modelCalls + 1)
      else
        u.node == Done(Finished) && u.llmCalls == t.llmCalls + 1 && u.citationRepairAt.None?
  {
  }

  // ---- How a round's calls are answered ----

  function Ids(calls: seq<Call>): seq<string> {
    if calls == [] then [] else Ids(calls[..|calls| - 1]) + [calls[|calls| - 1].id]
  }

  /** A valid call shares its id with an invalid one. */
  predicate Shadowed(calls: seq<Call>) {
    exists i, j ::
      0 <= i < |calls| && 0 <= j < |calls| && calls[i].valid && !calls[j].valid && calls[i].id == calls[j].id
  }

  lemma {:induction false} InvalidIdsHold(calls: seq<Call>)
    ensures forall id ::
              id in InvalidIds(calls) <==> exists j :: 0 <= j < |calls| && !calls[j].valid && calls[j].id == id
  {
    if calls != [] {
      var init := calls[..|calls| - 1];
      InvalidIdsHold(init);
      assert forall j | 0 <= j < |init| :: init[j] == calls[j];
    }
  }

  /** The ids of the valid calls. */
  function ValidIds(calls: seq<Call>): seq<string> {
    if calls == [] then []
    else if calls[|calls| - 1].valid then ValidIds(calls[..|calls| - 1]) + [calls[|calls| - 1].id]
    else ValidIds(calls[..|calls| - 1])
  }

  lemma {:induction false} ValidAndInvalid(calls: seq<Call>)
    ensures multiset(InvalidIds(calls)) + multiset(ValidIds(calls)) == multiset(Ids(calls))
  {
    if calls != [] { ValidAndInvalid(calls[..|calls| - 1]); }
  }

  /** Over a prefix: executed are the valid calls that no invalid id shadows. */
  lemma {:induction false} ExecutedAreValid(calls: seq<Call>, invalid: seq<string>)
    requires forall j | 0 <= j < |calls| && !calls[j].valid :: calls[j].id in invalid
    ensures |Executable(calls, invalid)| <= |ValidIds(calls)|
    ensures (forall i | 0 <= i < |calls| && calls[i].valid :: calls[i].id !in invalid) ==>
              Executable(calls, invalid) == ValidIds(calls)
    ensures (exists i :: 0 <= i < |calls| && calls[i].valid && calls[i].id in invalid) ==>
              |Executable(calls, invalid)| < |ValidIds(calls)|
  {
    if calls != [] {
      var init := calls[..|calls| - 1];
      assert forall j | 0 <= j < |init| :: init[j] == calls[j];
      ExecutedAreValid(init, invalid);
      if exists i :: 0 <= i < |calls| && calls[i].valid && calls[i].id in invalid {
        var i :| 0 <= i < |calls| && calls[i].valid && calls[i].id in invalid;
        assert i == |calls| - 1 || (init[i].valid && init[i].id in invalid);
      }
    }
  }

  /**
    A round answers every emitted call exactly once, and nothing else, exactly when no valid
    call shares its id with an invalid one; such a call is silently skipped.
   */
  lemma RoundAnswersEachCallOnce(calls: seq<Call>)
    ensures multiset(Answers(calls)) == multiset(Ids(calls)) <==> !Shadowed(calls)
  {
    hide InvalidIds, Executable, ValidIds, Ids;
    var invalid := InvalidIds(calls);
    InvalidIdsHold(calls);
    ExecutedAreValid(calls, invalid);
    ValidAndInvalid(calls);
    assert multiset(Answers(calls)) == multiset(invalid) + multiset(Executable(calls, invalid));
    if Shadowed(calls) {
      assert |multiset(Answers(calls))| < |multiset(Ids(calls))|;
    }
  }

  /** The answered ids in the order of the calls: at which positions they were emitted. */
  lemma {:induction false} ExecutedInOrder(calls: seq<Call>, invalid: seq<string>) returns (at: seq<nat>)
    ensures |at| == |Executable(calls, invalid)|
    ensures forall n | 0 <= n < |at| :: at[n] < |calls| && Executable(calls, invalid)[n] == calls[at[n]].id
    ensures forall m, n | 0 <= m < n < |at| :: at[m] < at[n]
    ensures forall i | 0 <= i < |calls| :: i in at <==> calls[i].id !in invalid
  {
    if calls == [] {
      at := [];
    } else {
      var last := |calls| - 1;
      at := ExecutedInOrder(calls[..last], invalid);
      if calls[last].id !in invalid { at := at + [last]; }
    }
  }

  lemma {:induction false} InvalidInOrder(calls: seq<Call>) returns (at: seq<nat>)
    ensures |at| == |InvalidIds(calls)|
    ensures forall n | 0 <= n < |at| :: at[n] < |calls| && InvalidIds(calls)[n] == calls[at[n]].id
    ensures forall m, n | 0 <= m < n < |at| :: at[m] < at[n]
    ensures forall i | 0 <= i < |calls| :: i in at <==> !calls[i].valid
  {
    if calls == [] {
      at := [];
    } else {
      var last := |calls| - 1;
      at := InvalidInOrder(calls[..last]);
      if !calls[last].valid { at := at + [last]; }
    }
  }

  /** A round answers the invalid calls first, then those whose id no invalid call carries, each group as emitted. */
  lemma RoundsAnswerInOrder(calls: seq<Call>) returns (invalid: seq<nat>, executed: seq<nat>)
    ensures |Answers(calls)| == |invalid| + |executed|
    ensures forall n | 0 <= n < |invalid| :: invalid[n] < |calls| && Answers(calls)[n] == calls[invalid[n]].id
    ensures forall n | 0 <= n < |executed| ::
              executed[n] < |calls| && Answers(calls)[|invalid| + n] == calls[executed[n]].id
    ensures forall m, n | 0 <= m < n < |invalid| :: invalid[m] < invalid[n]
    ensures forall m, n | 0 <= m < n < |executed| :: executed[m] < executed[n]
    ensures forall i | 0 <= i < |calls| ::
              && (i in invalid <==> !calls[i].valid)
              && (i in executed <==> forall j | 0 <= j < |calls| && !calls[j].valid :: calls[j].id != calls[i].id)
  {
    hide InvalidIds, Executable;
    invalid := InvalidInOrder(calls);
    executed := ExecutedInOrder(calls, InvalidIds(calls));
    InvalidIdsHold(calls);
  }

  predicate DistinctIds(calls: seq<Call>) {
    forall i, j | 0 <= i < j < |calls| :: calls[i].id != calls[j].id
  }

  lemma DistinctIdsAreAllAnswered(calls: seq<Call>)
    requires DistinctIds(calls)
    ensures multiset(Answers(calls)) == multiset(Ids(calls))
  {
    hide Answers, Ids;
    RoundAnswersEachCallOnce(calls);
  }

  lemma ReusedIdIsSkipped()
    ensures var calls := [Call("a", false), Call("a", true)];
      multiset(Answers(calls)) != multiset(Ids(calls))
  {
    var calls := [Call("a", false), Call("a", true)];
    assert Shadowed(calls) by {
      assert calls[1].valid && !calls[0].valid && calls[1].id == calls[0].id;
    }
    RoundAnswersEachCallOnce(calls);
  }

  // ---- The nodes' loops ----

  method ValidateToolCalls(calls: seq<Call>) returns (invalid: seq<string>)
    ensures invalid == InvalidIds(calls)
  {
    invalid := [];
    for i := 0 to |calls|
      invariant invalid == InvalidIds(calls[..i])
    {
      assert calls[..i + 1][..i] == calls[..i];
      if !calls[i].valid { invalid := invalid + [calls[i].id]; }
    }
    assert calls[..|calls|] == calls;
  }

  /** Runs the handlers in order; the first fatal one ends the turn, and nothing was answered. */
  method ExecuteTools(calls: seq<Call>, invalid: seq<string>, handlers: seq<HandlerEnd>)
    returns (fatal: bool, answered: seq<string>)
    ensures fatal == SomeFatal(handlers, |Executable(calls, invalid)|)
    ensures !fatal ==> answered == invalid + Executable(calls, invalid)
  {
    answered := invalid;
    ghost var done: seq<string> := [];
    for i := 0 to |calls|
      invariant done == Executable(calls[..i], invalid) && answered == invalid + done
      invariant !SomeFatal(handlers, |done|)
      invariant |Executable(calls, invalid)| >= |done|
    {
      assert calls[..i + 1][..i] == calls[..i];
      ExecutableGrows(calls, invalid, i + 1);
      if calls[i].id !in invalid {
        var at := |answered| - |invalid|;
        if at < |handlers| && handlers[at] == Fatal {
          assert SomeFatal(handlers, |Executable(calls, invalid)|);
          return true, answered;
        }
        answered := answered + [calls[i].id];
        done := done + [calls[i].id];
      }
    }
    assert calls[..|calls|] == calls;
    fatal := false;
  }

  lemma {:induction false} ExecutableGrows(calls: seq<Call>, invalid: seq<string>, n: nat)
    requires n <= |calls|
    ensures |Executable(calls[..n], invalid)| <= |Executable(calls, invalid)|
  {
    if n == |calls| {
      assert calls[..n] == calls;
    } else {
      ExecutableGrows(calls[..|calls| - 1], invalid, n);
      assert calls[..|calls| - 1][..n] == calls[..n];
    }
  }
}
