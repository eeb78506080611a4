/**
  One conversation's turns: messages, agent runs, stale-run recovery and voice replay. Each
  operation is one transaction under the conversation's row lock; one that raises leaves
  nothing behind.
 */
module Conversations {
  import opened Options
  import opened ActionModel

  datatype Speaker = User | Assistant

  /** A row is known by its position in the table; `sequence` is the number the row carries. */
  datatype Message = Message(sequence: int, role: Speaker, content: string)

  datatype RunStatus = Running | Completed | FailedRun(code: string)

  datatype VoiceTurn = VoiceTurn(session: Uuid, turn: Uuid)

  datatype AgentRun = AgentRun(
    userMessage: nat, assistantMessage: Option<nat>, status: RunStatus,
    voice: Option<VoiceTurn>, startedAt: Time, completedAt: Option<Time>)

  datatype Chat = Chat(messages: seq<Message>, runs: seq<AgentRun>)

  datatype ChatError = Busy | NotRunning | RunNotFound | BadProvenance | ConstraintViolated

  datatype ChatReply =
    | Started(run: nat)
    | Replayed(run: nat)
    | Answered(message: nat)
    | Ended
    | Errored(error: ChatError)

  /** Text turns carry no voice provenance; `sessionOk` says the voice session is in scope and not ended. */
  datatype Provenance = TextTurn(stray: bool) | VoiceProvenance(voice: VoiceTurn, sessionOk: bool)

  datatype Operation =
    | StartTurn(content: string, from: Provenance, now: Time, staleAfter: int)
    | StartVoiceTurn(content: string, from: Provenance, now: Time, staleAfter: int)
    | CompleteTurn(run: nat, content: string, now: Time)
    | FailTurn(run: nat, code: string, now: Time)

  predicate NonBlank(content: string) {
    exists i :: 0 <= i < |content| && content[i] != ' '
  }

  function MaxSequence(messages: seq<Message>): int {
    if messages == [] then 0
    else
      var rest, last := MaxSequence(messages[..|messages| - 1]), messages[|messages| - 1].sequence;
      if last > rest then last else rest
  }

  predicate Stale(run: AgentRun, now: Time, staleAfter: int) {
    run.startedAt < now - staleAfter
  }

  function RecoveredRun(run: AgentRun, now: Time): AgentRun {
    if run.status.Running? then run.(status := FailedRun("stale_run_recovered"), completedAt := Some(now)) else run
  }

  predicate AnyFreshRunning(runs: seq<AgentRun>, now: Time, staleAfter: int) {
    exists i :: 0 <= i < |runs| && runs[i].status.Running? && !Stale(runs[i], now, staleAfter)
  }

  function Recovered(runs: seq<AgentRun>, now: Time): (r: seq<AgentRun>)
    ensures |r| == |runs| && forall i | 0 <= i < |runs| :: r[i] == RecoveredRun(runs[i], now)
  {
    seq(|runs|, i requires 0 <= i < |runs| => RecoveredRun(runs[i], now))
  }

  predicate ProvenanceOk(from: Provenance) {
    match from
    case TextTurn(stray) => !stray
    case VoiceProvenance(_, sessionOk) => sessionOk
  }

  function VoiceOf(from: Provenance): Option<VoiceTurn> {
    if from.VoiceProvenance? then Some(from.voice) else None
  }

  predicate VoiceTaken(runs: seq<AgentRun>, voice: Option<VoiceTurn>) {
    voice.Some? && exists i :: 0 <= i < |runs| && runs[i].voice == voice
  }

  function Opened(messages: seq<Message>, content: string): seq<Message> {
    messages + [Message(MaxSequence(messages) + 1, User, content)]
  }

  function NewRun(userMessage: nat, voice: Option<VoiceTurn>, now: Time): AgentRun {
    AgentRun(userMessage, None, Running, voice, now, None)
  }

  function Start(c: Chat, content: string, from: Provenance, now: Time, staleAfter: int): (Chat, ChatReply) {
    if !ProvenanceOk(from) then (c, Errored(BadProvenance))
    else if AnyFreshRunning(c.runs, now, staleAfter) then (c, Errored(Busy))
    else if !NonBlank(content) || VoiceTaken(c.runs, VoiceOf(from)) then (c, Errored(ConstraintViolated))
    else
      (Chat(Opened(c.messages, content), Recovered(c.runs, now) + [NewRun(|c.messages|, VoiceOf(from), now)]),
       Started(|c.runs|))
  }

  function FirstVoice(runs: seq<AgentRun>, voice: VoiceTurn): nat
    requires VoiceTaken(runs, Some(voice))
  {
    if runs[0].voice == Some(voice) then 0 else 1 + FirstVoice(runs[1..], voice)
  }

  function Apply(c: Chat, op: Operation): (Chat, ChatReply) {
    match op
    case StartTurn(content, from, now, staleAfter) => Start(c, content, from, now, staleAfter)
    case StartVoiceTurn(content, from, now, staleAfter) =>
      if !from.VoiceProvenance? || !from.sessionOk then (c, Errored(BadProvenance))
      else if VoiceTaken(c.runs, Some(from.voice)) then (c, Replayed(FirstVoice(c.runs, from.voice)))
      else Start(c, content, from, now, staleAfter)
    case CompleteTurn(run, content, now) =>
      if run >= |c.runs| then (c, Errored(RunNotFound))
      else if !c.runs[run].status.Running? then (c, Errored(NotRunning))
      else if !NonBlank(content) then (c, Errored(ConstraintViolated))
      else
        (Chat(c.messages + [Message(MaxSequence(c.messages) + 1, Assistant, content)],
              c.runs[run := c.runs[run].(
                assistantMessage := Some(|c.messages|), status := Completed, completedAt := Some(now))]),
         Answered(|c.messages|))
    case FailTurn(run, code, now) =>
      if run >= |c.runs| then (c, Errored(RunNotFound))
      else if !c.runs[run].status.Running? then (c, Errored(NotRunning))
      else (c.(runs := c.runs[run := c.runs[run].(status := FailedRun(code), completedAt := Some(now))]), Ended)
  }

  // ---- The shape every conversation keeps ----

  predicate Numbered(messages: seq<Message>) {
    forall i | 0 <= i < |messages| :: messages[i].sequence == i + 1
  }

  /** A run owns its user message and, exactly when completed, the message right after it. */
  predicate RunFits(c: Chat, run: AgentRun) {
    && run.userMessage < |c.messages| && c.messages[run.userMessage].role == User
    && (if run.status.Completed?
        then run.assistantMessage == Some(run.userMessage + 1)
             && run.userMessage + 1 < |c.messages| && c.messages[run.userMessage + 1].role == Assistant
        else run.assistantMessage == None)
    && (run.status.Running? ==> run.userMessage + 1 == |c.messages|)
  }

  ghost predicate Owned(c: Chat, m: nat) {
    exists k :: && 0 <= k < |c.runs|
                && (c.runs[k].userMessage == m || c.runs[k].assistantMessage == Some(m))
  }

  ghost predicate ChatSound(c: Chat) {
    && Numbered(c.messages)
    && (forall k | 0 <= k < |c.runs| :: RunFits(c, c.runs[k]))
    && (forall j, k | 0 <= j < k < |c.runs| :: c.runs[j].userMessage < c.runs[k].userMessage)
    && (forall m: nat | m < |c.messages| :: Owned(c, m))
    && (forall k | 0 <= k < |c.runs| && c.runs[k].status.Running? :: k == |c.runs| - 1)
    && (forall j, k | 0 <= j < k < |c.runs| :: c.runs[j].voice.None? || c.runs[j].voice != c.runs[k].voice)
  }

  lemma {:induction false} NumberedMax(messages: seq<Message>)
    requires Numbered(messages)
    ensures MaxSequence(messages) == |messages|
  {
    if messages != [] {
      NumberedMax(messages[..|messages| - 1]);
    }
  }

  lemma RecoveredFits(c: Chat, c': Chat, run: AgentRun, now: Time)
    requires RunFits(c, run) && |c.messages| < |c'.messages| && c.messages <= c'.messages
    ensures RunFits(c', RecoveredRun(run, now)) && !RecoveredRun(run, now).status.Running?
  {
  }

  lemma StartedRunsFit(c: Chat, content: string, from: Provenance, now: Time, staleAfter: int)
    requires ChatSound(c) && Start(c, content, from, now, staleAfter).1.Started?
    ensures var c' := Start(c, content, from, now, staleAfter).0;
      && (forall k | 0 <= k < |c'.runs| :: RunFits(c', c'.runs[k]))
      && (forall k | 0 <= k < |c'.runs| && c'.runs[k].status.Running? :: k == |c'.runs| - 1)
  {
    hide RunFits, NonBlank, VoiceTaken, AnyFreshRunning, MaxSequence, RecoveredRun, Owned;
    var c' := Start(c, content, from, now, staleAfter).0;
    forall k | 0 <= k < |c.runs|
      ensures RunFits(c', c'.runs[k]) && !c'.runs[k].status.Running?
    {
      RecoveredFits(c, c', c.runs[k], now);
    }
    NewRunFits(c', c'.runs[|c.runs|]);
  }

  lemma NewRunFits(c: Chat, run: AgentRun)
    requires run.status.Running? && run.assistantMessage == None && run.userMessage + 1 == |c.messages|
    requires c.messages[run.userMessage].role == User
    ensures RunFits(c, run)
  {
  }

  lemma StartedMessagesAreOwned(c: Chat, content: string, from: Provenance, now: Time, staleAfter: int, m: nat)
    requires ChatSound(c) && Start(c, content, from, now, staleAfter).1.Started?
    requires m <= |c.messages|
    ensures Owned(Start(c, content, from, now, staleAfter).0, m)
  {
    hide RunFits, NonBlank, VoiceTaken, AnyFreshRunning, MaxSequence, Numbered;
    var c' := Start(c, content, from, now, staleAfter).0;
    if m < |c.messages| {
      assert Owned(c, m);
      var k :| 0 <= k < |c.runs| && (c.runs[k].userMessage == m || c.runs[k].assistantMessage == Some(m));
      assert c'.runs[k].userMessage == c.runs[k].userMessage;
      assert c'.runs[k].assistantMessage == c.runs[k].assistantMessage;
    } else {
      assert c'.runs[|c.runs|].userMessage == m;
    }
  }

  /** The runs' user messages stay in order and their voice turns apart. */
  lemma StartedRunsInOrder(c: Chat, content: string, from: Provenance, now: Time, staleAfter: int)
    requires ChatSound(c) && Start(c, content, from, now, staleAfter).1.Started?
    ensures var c' := Start(c, content, from, now, staleAfter).0;
      forall j, k | 0 <= j < k < |c'.runs| ::
        && c'.runs[j].userMessage < c'.runs[k].userMessage
        && (c'.runs[j].voice.None? || c'.runs[j].voice != c'.runs[k].voice)
  {
    hide NonBlank, AnyFreshRunning, MaxSequence, Owned, Numbered;
    var c' := Start(c, content, from, now, staleAfter).0;
    forall k | 0 <= k < |c.runs|
      ensures c'.runs[k].userMessage == c.runs[k].userMessage < |c.messages| && c'.runs[k].voice == c.runs[k].voice
    {
    }
  }

  lemma StartKeepsSound(c: Chat, content: string, from: Provenance, now: Time, staleAfter: int)
    requires ChatSound(c)
    ensures ChatSound(Start(c, content, from, now, staleAfter).0)
  {
    hide Owned, MaxSequence, AnyFreshRunning, NonBlank, RunFits, VoiceTaken, RecoveredRun;
    var (c', reply) := Start(c, content, from, now, staleAfter);
    if reply.Started? {
      NumberedMax(c.messages);
      StartedRunsFit(c, content, from, now, staleAfter);
      StartedRunsInOrder(c, content, from, now, staleAfter);
      forall m: nat | m < |c'.messages|
        ensures Owned(c', m)
      {
        StartedMessagesAreOwned(c, content, from, now, staleAfter, m);
      }
    }
  }

  lemma CompleteKeepsSound(c: Chat, op: Operation)
    requires ChatSound(c) && op.CompleteTurn?
    ensures ChatSound(Apply(c, op).0)
  {
    var (c', reply) := Apply(c, op);
    if reply.Answered? {
      NumberedMax(c.messages);
      forall m: nat | m < |c'.messages|
        ensures Owned(c', m)
      {
        if m < |c.messages| {
          assert Owned(c, m);
          var k :| 0 <= k < |c.runs| && (c.runs[k].userMessage == m || c.runs[k].assistantMessage == Some(m));
          assert c'.runs[k].userMessage == m || c'.runs[k].assistantMessage == Some(m);
        } else {
          assert c'.runs[op.run].assistantMessage == Some(m);
        }
      }
    }
  }

  lemma FailKeepsSound(c: Chat, op: Operation)
    requires ChatSound(c) && op.FailTurn?
    ensures ChatSound(Apply(c, op).0)
  {
    var (c', reply) := Apply(c, op);
    forall m: nat | m < |c'.messages|
      ensures Owned(c', m)
    {
      assert Owned(c, m);
      var k :| 0 <= k < |c.runs| && (c.runs[k].userMessage == m || c.runs[k].assistantMessage == Some(m));
      assert c'.runs[k].userMessage == m || c'.runs[k].assistantMessage == Some(m);
    }
  }

  lemma ApplyKeepsSound(c: Chat, op: Operation)
    requires ChatSound(c)
    ensures ChatSound(Apply(c, op).0)
  {
    hide ChatSound, Start;
    match op
    case StartTurn(content, from, now, staleAfter) => StartKeepsSound(c, content, from, now, staleAfter);
    case StartVoiceTurn(content, from, now, staleAfter) => StartKeepsSound(c, content, from, now, staleAfter);
    case CompleteTurn(_, _, _) => CompleteKeepsSound(c, op);
    case FailTurn(_, _, _) => FailKeepsSound(c, op);
  }

  const EMPTY_CHAT := Chat([], [])

  /** The conversation after any interleaving of operations. */
  function After(ops: seq<Operation>): Chat {
    if ops == [] then EMPTY_CHAT else Apply(After(ops[..|ops| - 1]), ops[|ops| - 1]).0
  }

  lemma {:induction false} AfterIsSound(ops: seq<Operation>)
    ensures ChatSound(After(ops))
  {
    hide Apply;
    if ops != [] {
      AfterIsSound(ops[..|ops| - 1]);
      ApplyKeepsSound(After(ops[..|ops| - 1]), ops[|ops| - 1]);
    }
  }

  /** A history is a sequence of lone user messages and user-assistant pairs. */
  predicate Blocks(messages: seq<Message>) {
    || messages == []
    || (&& messages[0].role == User
        && if |messages| > 1 && messages[1].role == Assistant then Blocks(messages[2..]) else Blocks(messages[1..]))
  }

  predicate NoOrphans(messages: seq<Message>) {
    forall i | 0 <= i < |messages| && messages[i].role == Assistant :: 0 < i && messages[i - 1].role == User
  }

  lemma {:induction false} BlocksMeanNoOrphans(messages: seq<Message>)
    ensures Blocks(messages) <==> NoOrphans(messages)
  {
    if messages == [] {
    } else if |messages| > 1 && messages[1].role == Assistant {
      var rest := messages[2..];
      BlocksMeanNoOrphans(rest);
      assert forall i | 0 <= i < |rest| :: rest[i] == messages[i + 2];
      if messages[0].role == User && NoOrphans(rest) {
        forall i | 0 <= i < |messages| && messages[i].role == Assistant
          ensures 0 < i && messages[i - 1].role == User
        {
          if i >= 2 { assert rest[i - 2].role == Assistant; }
        }
      }
      if NoOrphans(messages) {
        forall i | 0 <= i < |rest| && rest[i].role == Assistant
          ensures 0 < i && rest[i - 1].role == User
        {
          assert messages[i + 2].role == Assistant && messages[i + 1].role == User;
        }
      }
    } else {
      var rest := messages[1..];
      BlocksMeanNoOrphans(rest);
      assert forall i | 0 <= i < |rest| :: rest[i] == messages[i + 1];
      if messages[0].role == User && NoOrphans(rest) {
        forall i | 0 <= i < |messages| && messages[i].role == Assistant
          ensures 0 < i && messages[i - 1].role == User
        {
          assert rest[i - 1].role == Assistant;
        }
      }
      if NoOrphans(messages) {
        forall i | 0 <= i < |rest| && rest[i].role == Assistant
          ensures 0 < i && rest[i - 1].role == User
        {
          assert messages[i + 1].role == Assistant;
        }
      }
    }
  }

  /**
    Over every interleaving: messages are numbered 1..n without gaps, at most one run is
    running, a completed run's answer is numbered exactly one after its question, and the
    history is a sequence of U and UA blocks.
   */
  lemma TurnHistoryHasShape(ops: seq<Operation>)
    ensures var c := After(ops);
      && (forall i | 0 <= i < |c.messages| :: c.messages[i].sequence == i + 1)
      && (forall j, k |
            0 <= j < |c.runs| && 0 <= k < |c.runs| && c.runs[j].status.Running? && c.runs[k].status.Running? ::
            j == k)
      && (forall k | 0 <= k < |c.runs| && c.runs[k].status.Completed? ::
            && c.runs[k].userMessage + 1 < |c.messages|
            && c.runs[k].assistantMessage == Some(c.runs[k].userMessage + 1)
            && c.messages[c.runs[k].userMessage].role == User
            && c.messages[c.runs[k].userMessage + 1].role == Assistant)
      && Blocks(c.messages)
  {
    hide After, NonBlank, Stale, AnyFreshRunning, Blocks;
    AfterIsSound(ops);
    var c := After(ops);
    BlocksMeanNoOrphans(c.messages);
    forall i: nat | i < |c.messages| && c.messages[i].role == Assistant
      ensures 0 < i && c.messages[i - 1].role == User
    {
      assert Owned(c, i);
      var k :| 0 <= k < |c.runs| && (c.runs[k].userMessage == i || c.runs[k].assistantMessage == Some(i));
      assert RunFits(c, c.runs[k]);
    }
  }

  /** A run that was recovered as stale, or ended otherwise, never answers: the conversation stays as it was. */
  lemma {:induction false} EndedRunsStayEnded(ops: seq<Operation>, more: seq<Operation>, k: nat)
    requires k < |After(ops).runs| && !After(ops).runs[k].status.Running?
    ensures k < |After(ops + more).runs| && After(ops + more).runs[k] == After(ops).runs[k]
  {
    hide Apply;
    if more == [] {
      assert ops + more == ops;
    } else {
      var init := more[..|more| - 1];
      EndedRunsStayEnded(ops, init, k);
      assert (ops + more)[..|ops + more| - 1] == ops + init;
      EndedRunIsKept(After(ops + init), more[|more| - 1], k);
    }
  }

  lemma EndedRunIsKept(c: Chat, op: Operation, k: nat)
    requires k < |c.runs| && !c.runs[k].status.Running?
    ensures k < |Apply(c, op).0.runs| && Apply(c, op).0.runs[k] == c.runs[k]
  {
    hide AnyFreshRunning, NonBlank, VoiceTaken, MaxSequence, FirstVoice;
  }

  /** However often a voice turn is delivered, one run serves it, and a repeat is answered with that run. */
  lemma VoiceTurnsRunOnce(ops: seq<Operation>, op: Operation, k: nat)
    requires op.StartVoiceTurn? && op.from.VoiceProvenance? && op.from.sessionOk
    requires k < |After(ops).runs| && After(ops).runs[k].voice == Some(op.from.voice)
    ensures Apply(After(ops), op) == (After(ops), Replayed(k))
    ensures forall j | 0 <= j < |After(ops).runs| && After(ops).runs[j].voice == Some(op.from.voice) :: j == k
  {
    AfterIsSound(ops);
    FirstVoiceFinds(After(ops).runs, op.from.voice);
  }

  lemma {:induction false} FirstVoiceFinds(runs: seq<AgentRun>, voice: VoiceTurn)
    requires VoiceTaken(runs, Some(voice))
    ensures FirstVoice(runs, voice) < |runs| && runs[FirstVoice(runs, voice)].voice == Some(voice)
  {
    if runs[0].voice != Some(voice) {
      var i :| 0 <= i < |runs| && runs[i].voice == Some(voice);
      assert runs[1..][i - 1].voice == Some(voice);
      FirstVoiceFinds(runs[1..], voice);
    }
  }

  // ---- What a turn leaves ----

  predicate Says(content: string) {
    exists i :: 0 <= i < |content| && content[i] != ' '
  }

  /** A text turn without voice provenance, or a voice turn of a session in scope. */
  predicate Admissible(from: Provenance) {
    from == TextTurn(false) || (from.VoiceProvenance? && from.sessionOk)
  }

  ghost predicate VoiceIsNew(c: Chat, from: Provenance) {
    from.VoiceProvenance? ==> forall k | 0 <= k < |c.runs| :: c.runs[k].voice != Some(from.voice)
  }

  ghost predicate NoneRunning(c: Chat) {
    forall k | 0 <= k < |c.runs| :: !c.runs[k].status.Running?
  }

  /** One question more, word for word, and one run more, which answers it from now on. */
  predicate TurnOpened(c: Chat, c': Chat, content: string, from: Provenance, now: Time) {
    && c'.messages == c.messages + [Message(|c.messages| + 1, User, content)]
    && |c'.runs| == |c.runs| + 1
    && var run := c'.runs[|c.runs|];
    && run.userMessage == |c.messages| && run.assistantMessage.None? && run.status.Running?
    && run.startedAt == now && run.completedAt.None?
    && run.voice == (match from case TextTurn(_) => None case VoiceProvenance(voice, _) => Some(voice))
  }

  lemma StartOpens(c: Chat, content: string, from: Provenance, now: Time, staleAfter: int)
    requires ChatSound(c) && Admissible(from) && Says(content) && VoiceIsNew(c, from)
    requires !AnyFreshRunning(c.runs, now, staleAfter)
    ensures var (c', reply) := Apply(c, StartTurn(content, from, now, staleAfter));
      && reply == Started(|c.runs|) && TurnOpened(c, c', content, from, now)
      && forall j | 0 <= j < |c.runs| :: c'.runs[j] == RecoveredRun(c.runs[j], now)
  {
    hide Owned, RunFits, AnyFreshRunning, RecoveredRun, MaxSequence;
    NumberedMax(c.messages);
  }

  /**
    A turn that comes while a run is running: within the stale limit it is refused as busy and
    nothing changes. After it the run is failed as stale, every other run stays, and the turn
    starts.
   */
  lemma StaleRunsGiveWay(c: Chat, content: string, from: Provenance, now: Time, staleAfter: int, k: nat)
    requires ChatSound(c) && k < |c.runs| && c.runs[k].status.Running?
    requires Admissible(from) && Says(content) && VoiceIsNew(c, from)
    ensures var (c', reply) := Apply(c, StartTurn(content, from, now, staleAfter));
      if now - c.runs[k].startedAt <= staleAfter then c' == c && reply == Errored(Busy)
      else
        && reply == Started(|c.runs|) && TurnOpened(c, c', content, from, now)
        && c'.runs[k] == c.runs[k].(status := FailedRun("stale_run_recovered"), completedAt := Some(now))
        && forall j | 0 <= j < |c.runs| && j != k :: c'.runs[j] == c.runs[j]
  {
    hide Owned, RunFits, MaxSequence, TurnOpened, Says, NonBlank;
    assert forall j | 0 <= j < |c.runs| && c.runs[j].status.Running? :: j == k;
    if now - c.runs[k].startedAt > staleAfter {
      StartOpens(c, content, from, now, staleAfter);
    }
  }

  /** A turn that comes while none is running starts, and every run stays. */
  lemma IdleChatsOpen(c: Chat, content: string, from: Provenance, now: Time, staleAfter: int)
    requires ChatSound(c) && NoneRunning(c)
    requires Admissible(from) && Says(content) && VoiceIsNew(c, from)
    ensures var (c', reply) := Apply(c, StartTurn(content, from, now, staleAfter));
      && reply == Started(|c.runs|) && TurnOpened(c, c', content, from, now)
      && c'.runs[..|c.runs|] == c.runs
  {
    hide Owned, RunFits, MaxSequence, TurnOpened, Says, NonBlank;
    StartOpens(c, content, from, now, staleAfter);
    var c' := Apply(c, StartTurn(content, from, now, staleAfter)).0;
    hide Apply;
    LengthOfOpened(c, c', content, from, now);
    assert forall j | 0 <= j < |c.runs| :: c'.runs[j] == c.runs[j];
  }

  lemma LengthOfOpened(c: Chat, c': Chat, content: string, from: Provenance, now: Time)
    requires TurnOpened(c, c', content, from, now)
    ensures |c'.runs| == |c.runs| + 1
  {
  }

  /** A turn that is not admissible, says nothing or repeats a voice turn is refused, and nothing changes. */
  lemma BadTurnsChangeNothing(c: Chat, content: string, from: Provenance, now: Time, staleAfter: int)
    requires !Admissible(from) || !Says(content) || !VoiceIsNew(c, from)
    ensures var (c', reply) := Apply(c, StartTurn(content, from, now, staleAfter));
      && c' == c && reply.Errored?
      && (!Admissible(from) ==> reply.error == BadProvenance)
      && (Admissible(from) && NoneRunning(c) ==> reply.error == ConstraintViolated)
  {
  }

  /** The answer to a running run is recorded word for word under the next number; any other is refused. */
  lemma AnswersAreRecordedExactly(c: Chat, run: nat, content: string, now: Time)
    requires ChatSound(c)
    ensures var (c', reply) := Apply(c, CompleteTurn(run, content, now));
      if run < |c.runs| && c.runs[run].status.Running? && Says(content) then
        && reply == Answered(|c.messages|)
        && c'.messages == c.messages + [Message(|c.messages| + 1, Assistant, content)]
        && c'.runs == c.runs[run := c.runs[run].(
             assistantMessage := Some(|c.messages|), status := Completed, completedAt := Some(now))]
      else
        && c' == c
        && reply == Errored(if run >= |c.runs| then RunNotFound
                            else if !c.runs[run].status.Running? then NotRunning
                            else ConstraintViolated)
  {
    hide Owned, RunFits, MaxSequence;
    NumberedMax(c.messages);
  }

  /** A voice turn that no run serves yet starts like any other turn; text has no business here. */
  lemma NewVoiceTurnsStart(c: Chat, content: string, from: Provenance, now: Time, staleAfter: int)
    requires VoiceIsNew(c, from)
    ensures Apply(c, StartVoiceTurn(content, from, now, staleAfter))
         == if from.VoiceProvenance? && from.sessionOk then Apply(c, StartTurn(content, from, now, staleAfter))
            else (c, Errored(BadProvenance))
  {
  }

  /** A running run fails with the code it is given; any other stays as it is. */
  lemma FailuresAreRecordedExactly(c: Chat, run: nat, code: string, now: Time)
    ensures var (c', reply) := Apply(c, FailTurn(run, code, now));
      && c'.messages == c.messages && |c'.runs| == |c.runs|
      && (forall j | 0 <= j < |c.runs| ::
            if j == run && c.runs[j].status.Running? then
              c'.runs[j] == c.runs[j].(status := FailedRun(code), completedAt := Some(now))
            else c'.runs[j] == c.runs[j])
      && (reply == Ended <==> run < |c.runs| && c.runs[run].status.Running?)
      && (reply != Ended ==> reply == Errored(if run >= |c.runs| then RunNotFound else NotRunning))
  {
  }

  // ---- Paging ----

  datatype Page = Page(messages: seq<Message>, hasMore: bool, nextBefore: Option<int>)

  /** The messages below a number, newest first, as the query orders them. */
  function NewestBelow(messages: seq<Message>, before: Option<int>): seq<Message> {
    if messages == [] then []
    else
      var last := messages[|messages| - 1];
      var older := NewestBelow(messages[..|messages| - 1], before);
      if before.None? || last.sequence < before.value then [last] + older else older
  }

  lemma NewestBelowStep(messages: seq<Message>, i: nat, before: Option<int>)
    requires i < |messages|
    ensures NewestBelow(messages[..i + 1], before)
         == (if before.None? || messages[i].sequence < before.value then [messages[i]] else [])
            + NewestBelow(messages[..i], before)
  {
    assert messages[..i + 1][..i] == messages[..i];
  }

  lemma NothingBelowNothing(before: Option<int>)
    ensures NewestBelow([], before) == []
  {
  }

  function Reverse(s: seq<Message>): (r: seq<Message>)
    ensures |r| == |s| && forall i | 0 <= i < |s| :: r[i] == s[|s| - 1 - i]
  {
    if s == [] then [] else Reverse(s[1..]) + [s[0]]
  }

  /** One page: the limit newest below the number, oldest first; one row more tells whether there are more. */
  function PageOf(messages: seq<Message>, limit: nat, before: Option<int>): Page {
    var below := NewestBelow(messages, before);
    var rows := if |below| > limit + 1 then below[..limit + 1] else below;
    var page := Reverse(if |rows| > limit then rows[..limit] else rows);
    Page(page, |rows| > limit, if |rows| > limit && page != [] then Some(page[0].sequence) else None)
  }

  function Below(messages: seq<Message>, before: Option<int>): nat
  {
    if before.None? || before.value > |messages| then |messages| else if before.value < 1 then 0 else before.value - 1
  }

  lemma {:induction false} NewestBelowIsSuffixReversed(messages: seq<Message>, before: Option<int>)
    requires Numbered(messages)
    ensures |NewestBelow(messages, before)| == Below(messages, before)
    ensures forall i | 0 <= i < Below(messages, before) ::
              NewestBelow(messages, before)[i] == messages[Below(messages, before) - 1 - i]
  {
    if messages != [] {
      var init, last := messages[..|messages| - 1], messages[|messages| - 1];
      NewestBelowIsSuffixReversed(init, before);
      var older := NewestBelow(init, before);
      if before.None? || last.sequence < before.value {
        assert NewestBelow(messages, before) == [last] + older;
      } else {
        assert NewestBelow(messages, before) == older && Below(messages, before) == Below(init, before);
      }
    }
  }

  /** On a numbered history a page is the slice that ends just below the number. */
  lemma PageIsSlice(messages: seq<Message>, limit: nat, before: Option<int>)
    requires Numbered(messages)
    ensures var top := Below(messages, before);
      var bottom := if top > limit then top - limit else 0;
      && PageOf(messages, limit, before).messages == messages[bottom..top]
      && PageOf(messages, limit, before).hasMore == (bottom > 0)
      && PageOf(messages, limit, before).nextBefore == (if 0 < bottom < top then Some(bottom + 1) else None)
  {
    hide NewestBelow, Reverse, Below;
    NewestBelowIsSuffixReversed(messages, before);
    BelowIsBounded(messages, before);
    PageIsReversed(messages, limit, before);
    hide PageOf;
    var top := Below(messages, before);
    var bottom := if top > limit then top - limit else 0;
    assert Reverse(NewestBelow(messages, before)[..top - bottom]) == messages[bottom..top];
  }

  /** The rows of a page are the first of those below the number, reversed. */
  lemma PageIsReversed(messages: seq<Message>, limit: nat, before: Option<int>)
    ensures var below := NewestBelow(messages, before);
      var kept := if |below| > limit then limit else |below|;
      PageOf(messages, limit, before) ==
        Page(Reverse(below[..kept]), |below| > limit,
             if 0 < kept < |below| then Some(Reverse(below[..kept])[0].sequence) else None)
  {
    hide NewestBelow, Reverse;
    var below := NewestBelow(messages, before);
    if |below| > limit {
      assert below[..limit + 1][..limit] == below[..limit];
    } else {
      assert below[..|below|] == below;
    }
  }

  lemma BelowIsBounded(messages: seq<Message>, before: Option<int>)
    ensures Below(messages, before) <= |messages|
  {
  }

  /**
    What a reader collects who asks for the newest page and follows `nextBefore`, while the
    history at its n-th read is `at(n)`; pages go in front of what was read before.
   */
  function Collect(at: nat -> seq<Message>, n: nat, limit: nat, before: Option<int>, bound: nat): seq<Message>
    decreases bound
  {
    var page := PageOf(at(n), limit, before);
    if page.nextBefore.None? || bound == 0 then page.messages
    else Collect(at, n + 1, limit, page.nextBefore, bound - 1) + page.messages
  }

  /** Messages are only ever appended. */
  ghost predicate Growing(at: nat -> seq<Message>) {
    (forall n :: Numbered(at(n))) && (forall m, n | m <= n :: at(m) <= at(n))
  }

  lemma {:induction false} CollectsEverythingBelow(at: nat -> seq<Message>, n: nat, limit: nat, top: nat, bound: nat)
    requires Growing(at) && limit >= 1 && top <= |at(0)| && top <= bound
    ensures Collect(at, n, limit, Some(top + 1), bound) == at(0)[..top]
    decreases bound
  {
    hide PageOf, Numbered;
    assert at(0) <= at(n);
    assert Below(at(n), Some(top + 1)) == top;
    PageIsSlice(at(n), limit, Some(top + 1));
    if top > limit {
      CollectsEverythingBelow(at, n + 1, limit, top - limit, bound - 1);
      assert at(0)[..top] == at(0)[..top - limit] + at(n)[top - limit..top];
    } else {
      assert at(0)[..top] == at(n)[0..top];
    }
  }

  /**
    Paging partitions the history: from the newest page on, with any limit of at least one, the
    pages hold every message present at the start exactly once and in order, whatever turns
    append between reads, after at most as many reads as there are messages and one.
   */
  lemma PagingPartitionsHistory(at: nat -> seq<Message>, limit: nat, bound: nat)
    requires Growing(at) && limit >= 1 && bound >= |at(0)|
    ensures Collect(at, 0, limit, None, bound) == at(0)
  {
    hide PageOf, Numbered;
    PageIsSlice(at(0), limit, None);
    var top := |at(0)|;
    if top > limit {
      CollectsEverythingBelow(at, 1, limit, top - limit, bound - 1);
      assert at(0) == at(0)[..top - limit] + at(0)[top - limit..top];
    }
  }

  /** A limit of zero, which the route does not accept, reads nothing and stops. */
  lemma ZeroLimitReadsNothing(at: nat -> seq<Message>, bound: nat)
    requires Numbered(at(0))
    ensures Collect(at, 0, 0, None, bound) == []
  {
    hide PageOf, Numbered;
    PageIsSlice(at(0), 0, None);
  }

  lemma ApplyAppends(c: Chat, op: Operation)
    ensures c.messages <= Apply(c, op).0.messages
  {
    hide AnyFreshRunning, NonBlank, VoiceTaken, MaxSequence;
  }

  /** The histories of one conversation's runs are growing histories. */
  lemma {:induction false} HistoriesGrow(ops: seq<Operation>, m: nat, n: nat)
    requires m <= n <= |ops|
    ensures After(ops[..m]).messages <= After(ops[..n]).messages
    ensures Numbered(After(ops[..n]).messages)
  {
    hide Apply, Numbered;
    AfterIsNumbered(ops[..n]);
    if m < n {
      HistoriesGrow(ops, m, n - 1);
      assert ops[..n][..n - 1] == ops[..n - 1];
      ApplyAppends(After(ops[..n - 1]), ops[n - 1]);
    }
  }

  lemma AfterIsNumbered(ops: seq<Operation>)
    ensures Numbered(After(ops).messages)
  {
    hide Apply, Owned, RunFits, Numbered;
    AfterIsSound(ops);
  }

  /** When a reader reads: each read sees some first part of the operations, and no read goes back. */
  ghost predicate ReadsInOrder(ops: seq<Operation>, seen: nat -> nat) {
    (forall n: nat :: seen(n) <= |ops|) && (forall m: nat, n: nat | m <= n :: seen(m) <= seen(n))
  }

  /** The history as the reader finds it, read by read. */
  ghost function HistoryAt(ops: seq<Operation>, seen: nat -> nat): nat -> seq<Message>
    requires ReadsInOrder(ops, seen)
  {
    (n: nat) => After(ops[..seen(n)]).messages
  }

  /**
    Whatever operations of the conversation run between the reads of one reader, the pages it
    follows hold the history of its first read, each message once and in order.
   */
  lemma EveryReaderGetsTheHistory(ops: seq<Operation>, seen: nat -> nat, limit: nat, bound: nat)
    requires ReadsInOrder(ops, seen) && limit >= 1
    requires bound >= |After(ops[..seen(0)]).messages|
    ensures Collect(HistoryAt(ops, seen), 0, limit, None, bound) == After(ops[..seen(0)]).messages
  {
    hide After, Collect, Numbered;
    var at := HistoryAt(ops, seen);
    forall n: nat
      ensures Numbered(at(n))
    {
      HistoriesGrow(ops, seen(n), seen(n));
    }
    forall m: nat, n: nat | m <= n
      ensures at(m) <= at(n)
    {
      HistoriesGrow(ops, seen(m), seen(n));
    }
    PagingPartitionsHistory(at, limit, bound);
  }

  // ---- The repository, one transaction a method ----

  class ConversationRepository {
    var messages: seq<Message>
    var runs: seq<AgentRun>

    ghost function Contents(): Chat
      reads this
    {
      Chat(messages, runs)
    }

    constructor ()
      ensures Contents() == EMPTY_CHAT
    {
      messages, runs := [], [];
    }

    /** Fails every stale running run; a live one rejects the turn, and the transaction's updates with it. */
    method RecoverOrRejectRunning(now: Time, staleAfter: int) returns (busy: bool)
      modifies this`runs
      ensures busy == AnyFreshRunning(old(runs), now, staleAfter)
      ensures runs == if busy then old(runs) else Recovered(old(runs), now)
    {
      var pending := runs;
      var i := 0;
      while i < |runs|
        invariant 0 <= i <= |runs| == |pending|
        invariant runs == old(runs)
        invariant forall j | 0 <= j < i :: pending[j] == RecoveredRun(runs[j], now)
        invariant forall j | i <= j < |runs| :: pending[j] == runs[j]
        invariant forall j | 0 <= j < i :: runs[j].status.Running? ==> Stale(runs[j], now, staleAfter)
      {
        if runs[i].status.Running? {
          if runs[i].startedAt < now - staleAfter {
            pending := pending[i := pending[i].(status := FailedRun("stale_run_recovered"), completedAt := Some(now))];
          } else {
            return true;
          }
        }
        i := i + 1;
      }
      runs := pending;
      return false;
    }

    method NextMessageSequence() returns (next: int)
      ensures next == MaxSequence(messages) + 1
    {
      var maximum := 0;
      for i := 0 to |messages|
        invariant maximum == MaxSequence(messages[..i])
      {
        assert messages[..i + 1][..i] == messages[..i];
        if messages[i].sequence > maximum { maximum := messages[i].sequence; }
      }
      assert messages[..|messages|] == messages;
      next := maximum + 1;
    }

    method StartTurn(content: string, from: Provenance, now: Time, staleAfter: int) returns (reply: ChatReply)
      modifies this
      ensures (Contents(), reply) == Apply(old(Contents()), Operation.StartTurn(content, from, now, staleAfter))
    {
      if !ProvenanceOk(from) { return Errored(BadProvenance); }
      var before := runs;
      var busy := RecoverOrRejectRunning(now, staleAfter);
      if busy { return Errored(Busy); }
      if !NonBlank(content) || VoiceTaken(before, VoiceOf(from)) {
        runs := before;
        return Errored(ConstraintViolated);
      }
      var next := NextMessageSequence();
      var userMessage := |messages|;
      messages := messages + [Message(next, User, content)];
      reply := Started(|runs|);
      runs := runs + [AgentRun(userMessage, None, Running, VoiceOf(from), now, None)];
    }

    method StartVoiceTurn(content: string, from: Provenance, now: Time, staleAfter: int) returns (reply: ChatReply)
      modifies this
      ensures (Contents(), reply) == Apply(old(Contents()), Operation.StartVoiceTurn(content, from, now, staleAfter))
    {
      if !from.VoiceProvenance? || !from.sessionOk { return Errored(BadProvenance); }
      var i := 0;
      while i < |runs|
        invariant 0 <= i <= |runs|
        invariant forall j | 0 <= j < i :: runs[j].voice != Some(from.voice)
      {
        if runs[i].voice == Some(from.voice) {
          FirstVoiceIs(runs, from.voice, i);
          return Replayed(i);
        }
        i := i + 1;
      }
      reply := StartTurn(content, from, now, staleAfter);
    }

    /** The query's rows, scanned from the newest down until one more than the limit is found. */
    method NewestRows(limit: nat, before: Option<int>) returns (rows: seq<Message>)
      ensures var below := NewestBelow(messages, before);
        rows == if |below| > limit + 1 then below[..limit + 1] else below
    {
      hide NewestBelow;
      rows := [];
      var i := |messages|;
      assert messages[..i] == messages;
      while i > 0 && |rows| <= limit
        invariant 0 <= i <= |messages| && |rows| <= limit + 1
        invariant NewestBelow(messages, before) == rows + NewestBelow(messages[..i], before)
      {
        i := i - 1;
        NewestBelowStep(messages, i, before);
        if before.None? || messages[i].sequence < before.value { rows := rows + [messages[i]]; }
      }
      if i == 0 { NothingBelowNothing(before); }
    }

    method ListMessagesPage(limit: nat, before: Option<int>) returns (page: Page)
      ensures page == PageOf(messages, limit, before)
    {
      var rows := NewestRows(limit, before);
      var hasMore := |rows| > limit;
      var kept := Reverse(if hasMore then rows[..limit] else rows);
      return Page(kept, hasMore, if hasMore && kept != [] then Some(kept[0].sequence) else None);
    }

    method CompleteTurn(run: nat, content: string, now: Time) returns (reply: ChatReply)
      modifies this
      ensures (Contents(), reply) == Apply(old(Contents()), Operation.CompleteTurn(run, content, now))
    {
      if run >= |runs| { return Errored(RunNotFound); }
      if !runs[run].status.Running? { return Errored(NotRunning); }
      if !NonBlank(content) { return Errored(ConstraintViolated); }
      var next := NextMessageSequence();
      var message := |messages|;
      messages := messages + [Message(next, Assistant, content)];
      runs := runs[run := runs[run].(assistantMessage := Some(message), status := Completed, completedAt := Some(now))];
      return Answered(message);
    }

    method FailTurn(run: nat, code: string, now: Time) returns (reply: ChatReply)
      modifies this`runs
      ensures (Contents(), reply) == Apply(old(Contents()), Operation.FailTurn(run, code, now))
    {
      if run >= |runs| { return Errored(RunNotFound); }
      if !runs[run].status.Running? { return Errored(NotRunning); }
      runs := runs[run := runs[run].(status := FailedRun(code), completedAt := Some(now))];
      return Ended;
    }
  }

  lemma {:induction false} FirstVoiceIs(runs: seq<AgentRun>, voice: VoiceTurn, i: nat)
    requires i < |runs| && runs[i].voice == Some(voice)
    requires forall j | 0 <= j < i :: runs[j].voice != Some(voice)
    ensures VoiceTaken(runs, Some(voice)) && FirstVoice(runs, voice) == i
  {
    if i > 0 {
      FirstVoiceIs(runs[1..], voice, i - 1);
    }
  }
}
