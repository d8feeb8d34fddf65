/** The loop between the model and its tools (agent/src/core/agent_loop.rs, lines 29-216 and 355-526).
    A run is described by a log of what each pass did; messages and events are read off the log. */
module AgentLoops {
  import opened Base
  import opened SessionEntries
  import opened ToolLoops
  import opened ToolLoopRuns

  const MAX_CONSECUTIVE_ERRORS: nat := 3
  const MAX_CONTINUATION_NUDGES: nat := 4

  datatype ChatMessage = ChatMessage(role: Role, content: string, toolCalls: Option<seq<ToolCall>>, toolCallId: Option<string>)

  datatype Event =
    | ThinkingStarted
    | ThinkingEnded
    | ToolCallStarted(id: string, name: string, args: string)
    | ToolCallFinished(id: string, ok: bool, payload: string)
    | AssistantText(text: string, isFinal: bool)

  /** What the model answers; a mixed answer carries text besides its calls. */
  datatype Reply = Text(text: string) | Calls(mixed: Option<string>, calls: seq<ToolCall>) | Failed(retryable: bool)

  /** Everything the loop does not decide: the model, the tools and the cancel flag, each by how often it was
      consulted before; the parsing of arguments, the wording of advice and the narrative heuristic. */
  datatype World = World(
    reply: nat -> Reply,
    tool: nat -> string,
    cancelled: nat -> bool,
    parse: string -> string,
    advice: (Check, string) -> string,
    incomplete: (string, set<string>) -> bool,
    cap: nat,
    refusal: (nat, nat) -> string,
    reminder: string
  )

  // -------------------------------------------------------------------------
  // The log of a run
  // -------------------------------------------------------------------------

  /** What became of one tool call. */
  datatype Outcome = Stopped(advice: string) | Skipped | Ran(result: string)

  /** What one pass of the loop did. */
  datatype Beat =
    | Cancelled
    | Failure(retryable: bool)
    | ToolRound(text: string, calls: seq<ToolCall>, outcomes: seq<Outcome>, warnings: seq<string>)
    | Nudge(text: string)
    | Answer(text: string)

  /** A result is passed on whole or refused with its size. */
  function CapOrRefuse(w: World, result: string): string {
    if |result| <= w.cap then result else w.refusal(|result|, w.cap)
  }

  function Payload(w: World, o: Outcome): string {
    match o
    case Stopped(advice) => advice
    case Skipped => "Skipped: operation cancelled."
    case Ran(result) => CapOrRefuse(w, result)
  }

  function Succeeded(w: World, o: Outcome): bool {
    o.Ran? && |o.result| <= w.cap
  }

  function ToolResult(call: ToolCall, payload: string): ChatMessage {
    ChatMessage(Tool, payload, None, Some(call.id))
  }

  function SystemMessage(text: string): ChatMessage {
    ChatMessage(System, text, None, None)
  }

  function Results(w: World, calls: seq<ToolCall>, outcomes: seq<Outcome>): (r: seq<ChatMessage>)
    requires |outcomes| <= |calls|
    ensures |r| == |outcomes|
    ensures forall k :: 0 <= k < |r| ==> r[k] == ToolResult(calls[k], Payload(w, outcomes[k]))
  {
    if outcomes == [] then [] else
    var k := |outcomes| - 1;
    Results(w, calls, outcomes[..k]) + [ToolResult(calls[k], Payload(w, outcomes[k]))]
  }

  predicate Complete(b: Beat) {
    b.ToolRound? ==> |b.outcomes| == |b.calls|
  }

  /** Messages a pass appends. */
  function BeatMessages(w: World, b: Beat): seq<ChatMessage>
    requires Complete(b)
  {
    match b
    case Cancelled => []
    case Failure(_) => []
    case ToolRound(text, calls, outcomes, warnings) =>
      [ChatMessage(Assistant, text, Some(calls), None)] + Results(w, calls, outcomes)
      + (if warnings == [] then [] else [SystemMessage(JoinWith(warnings, "\n\n"))])
    case Nudge(text) => [ChatMessage(Assistant, text, None, None), SystemMessage(w.reminder)]
    case Answer(text) => [ChatMessage(Assistant, text, None, None)]
  }

  function CallEvents(w: World, calls: seq<ToolCall>, outcomes: seq<Outcome>): seq<Event>
    requires |outcomes| <= |calls|
  {
    if outcomes == [] then [] else
    var k := |outcomes| - 1;
    CallEvents(w, calls, outcomes[..k])
    + [ToolCallStarted(calls[k].id, calls[k].name, w.parse(calls[k].arguments)),
       ToolCallFinished(calls[k].id, Succeeded(w, outcomes[k]), Payload(w, outcomes[k]))]
  }

  /** Events of a pass behind the call of the model. */
  function AnswerEvents(w: World, b: Beat): seq<Event>
    requires Complete(b)
  {
    match b
    case ToolRound(_, calls, outcomes, _) => CallEvents(w, calls, outcomes)
    case Answer(text) => if text != "" then [AssistantText(text, true)] else []
    case _ => []
  }

  function BeatEvents(w: World, b: Beat): seq<Event>
    requires Complete(b)
  {
    if b.Cancelled? then [AssistantText("Operation cancelled.", true)]
    else [ThinkingStarted, ThinkingEnded] + AnswerEvents(w, b)
  }

  predicate AllComplete(log: seq<Beat>) {
    forall k :: 0 <= k < |log| ==> Complete(log[k])
  }

  function MessagesOf(w: World, log: seq<Beat>): seq<ChatMessage>
    requires AllComplete(log)
  {
    if log == [] then [] else MessagesOf(w, log[..|log| - 1]) + BeatMessages(w, log[|log| - 1])
  }

  function EventsOf(w: World, log: seq<Beat>): seq<Event>
    requires AllComplete(log)
  {
    if log == [] then [] else EventsOf(w, log[..|log| - 1]) + BeatEvents(w, log[|log| - 1])
  }

  // -------------------------------------------------------------------------
  // Which logs a run can have
  // -------------------------------------------------------------------------

  /** The loop's local variables. */
  datatype Phase = Phase(errors: nat, nudges: nat, toolCalls: nat, names: set<string>, inToolLoop: bool, ended: bool)

  function NamesOf(calls: seq<ToolCall>): set<string> {
    set k | 0 <= k < |calls| :: calls[k].name
  }

  /** The phase behind a pass. */
  function After(p: Phase, b: Beat): Phase {
    match b
    case Cancelled => p.(ended := true)
    case Failure(retryable) => p.(errors := p.errors + 1, ended := !retryable || p.errors + 1 >= MAX_CONSECUTIVE_ERRORS)
    case ToolRound(_, calls, _, _) =>
      p.(errors := 0, toolCalls := p.toolCalls + |calls|, names := p.names + NamesOf(calls), inToolLoop := true)
    case Nudge(_) => p.(errors := 0, nudges := p.nudges + 1, inToolLoop := false)
    case Answer(_) => p.(errors := 0, ended := true)
  }

  predicate NudgeDue(w: World, p: Phase, text: string) {
    p.toolCalls > 0 && p.nudges < MAX_CONTINUATION_NUDGES && w.incomplete(text, p.names)
  }

  /** Passes that can follow a phase: none when the run has ended; a text is a nudge exactly when one is due. */
  predicate May(w: World, p: Phase, b: Beat) {
    && !p.ended && Complete(b)
    && (b.Nudge? ==> NudgeDue(w, p, b.text))
    && (b.Answer? ==> !NudgeDue(w, p, b.text))
  }

  const START := Phase(0, 0, 0, {}, false, false)

  function PhaseOf(log: seq<Beat>): Phase {
    if log == [] then START else After(PhaseOf(log[..|log| - 1]), log[|log| - 1])
  }

  predicate Valid(w: World, log: seq<Beat>) {
    log == [] || (Valid(w, log[..|log| - 1]) && May(w, PhaseOf(log[..|log| - 1]), log[|log| - 1]))
  }

  lemma {:induction false} ValidIsComplete(w: World, log: seq<Beat>)
    requires Valid(w, log)
    ensures AllComplete(log)
  {
    if log != [] {
      ValidIsComplete(w, log[..|log| - 1]);
      assert forall k :: 0 <= k < |log| - 1 ==> log[k] == log[..|log| - 1][k];
    }
  }

  /** Calls of the model. */
  function LlmCalls(log: seq<Beat>): nat {
    if log == [] then 0 else LlmCalls(log[..|log| - 1]) + (if log[|log| - 1].Cancelled? then 0 else 1)
  }

  /** Answers of the model that ask for tools. */
  function ToolRounds(log: seq<Beat>): nat {
    if log == [] then 0 else ToolRounds(log[..|log| - 1]) + (if log[|log| - 1].ToolRound? then 1 else 0)
  }

  /** Whether each call of the model offers the tool schemas. */
  function OffersOf(log: seq<Beat>): seq<bool> {
    if log == [] then [] else
    var before := log[..|log| - 1];
    OffersOf(before) + (if log[|log| - 1].Cancelled? then [] else [!PhaseOf(before).inToolLoop])
  }

  lemma LogGrows(w: World, log: seq<Beat>, b: Beat)
    requires Valid(w, log) && May(w, PhaseOf(log), b)
    ensures Valid(w, log + [b]) && AllComplete(log) && AllComplete(log + [b])
    ensures PhaseOf(log + [b]) == After(PhaseOf(log), b)
    ensures MessagesOf(w, log + [b]) == MessagesOf(w, log) + BeatMessages(w, b)
    ensures EventsOf(w, log + [b]) == EventsOf(w, log) + BeatEvents(w, b)
    ensures OffersOf(log + [b]) == OffersOf(log) + (if b.Cancelled? then [] else [!PhaseOf(log).inToolLoop])
    ensures LlmCalls(log + [b]) == LlmCalls(log) + (if b.Cancelled? then 0 else 1)
  {
    hide May, After, BeatMessages, BeatEvents;
    assert (log + [b])[..|log|] == log;
    ValidIsComplete(w, log);
    ValidIsComplete(w, log + [b]);
  }

  // -------------------------------------------------------------------------
  // The loop
  // -------------------------------------------------------------------------

  datatype Finish = Replied(text: string) | TooManyErrors | RunnerError | Unfinished

  function CallOf(w: World, tc: ToolCall): Call {
    Call(tc.name, w.parse(tc.arguments))
  }

  /** The outcome agrees with what the detector and the cancel flag said. */
  predicate Agrees(o: Outcome, done: seq<Done>, a: Attempt) {
    match o
    case Stopped(_) => Blocked(Window(done), a.call)
    case Skipped => !Blocked(Window(done), a.call) && a.cancelled
    case Ran(result) => !Blocked(Window(done), a.call) && !a.cancelled && result == a.result
  }

  /** The calls of a round are the attempts from `from` on, each with an outcome that agrees. */
  predicate OutcomesAgree(w: World, calls: seq<ToolCall>, outcomes: seq<Outcome>, attempts: seq<Attempt>, from: nat) {
    && |outcomes| <= |calls| && |attempts| == from + |outcomes|
    && (outcomes != [] ==>
      var k, before, a := |outcomes| - 1, attempts[..|attempts| - 1], attempts[|attempts| - 1];
      && OutcomesAgree(w, calls, outcomes[..k], before, from)
      && a.call == CallOf(w, calls[k]) && Agrees(outcomes[k], Executed(before), a))
  }

  lemma OutcomesAgreeMore(w: World, calls: seq<ToolCall>, outcomes: seq<Outcome>, attempts: seq<Attempt>, from: nat,
                          o: Outcome, a: Attempt)
    requires OutcomesAgree(w, calls, outcomes, attempts, from) && |outcomes| < |calls|
    requires a.call == CallOf(w, calls[|outcomes|]) && Agrees(o, Executed(attempts), a)
    ensures OutcomesAgree(w, calls, outcomes + [o], attempts + [a], from)
  {
    hide Executed, Agrees;
    assert (attempts + [a])[..|attempts|] == attempts && (outcomes + [o])[..|outcomes|] == outcomes;
  }

  /** Advice for the calls from `from` on that only drew a warning. */
  function WarningsOf(w: World, attempts: seq<Attempt>, from: nat): seq<string>
    requires from <= |attempts|
  {
    if |attempts| == from then [] else
    var before := attempts[..|attempts| - 1];
    var call := attempts[|attempts| - 1].call;
    var check := CheckOf(Window(Executed(before)), call);
    WarningsOf(w, before, from)
    + (if check.Some? && check.value.level == Warning then [w.advice(check.value, call.tool)] else [])
  }

  class Turn {
    const world: World
    var messages: seq<ChatMessage>
    var events: seq<Event>
    var offers: seq<bool>
    var llmCalls: nat
    var toolRuns: nat
    var cancelReads: nat

    constructor (world: World, messages: seq<ChatMessage>)
      ensures this.world == world && this.messages == messages && events == [] && offers == [] && llmCalls == 0
    {
      this.world := world;
      this.messages := messages;
      events, offers := [], [];
      llmCalls, toolRuns, cancelReads := 0, 0, 0;
    }

    method ReadCancel() returns (c: bool)
      modifies `cancelReads
    {
      c := world.cancelled(cancelReads);
      cancelReads := cancelReads + 1;
    }

    method RunTool() returns (result: string)
      modifies `toolRuns
    {
      result := world.tool(toolRuns);
      toolRuns := toolRuns + 1;
    }

    /** One call of a tool round, up to its result. `attempts` are the calls so far, in this turn. */
    method ExecuteCall(tc: ToolCall, detector: LoopDetector, ghost attempts: seq<Attempt>)
      returns (o: Outcome, warning: Option<string>, ghost attempt: Attempt)
      requires detector.history == Window(Executed(attempts))
      modifies `messages, `events, `cancelReads, `toolRuns, detector
      ensures attempt.call == CallOf(world, tc)
      ensures detector.history == Window(Executed(attempts + [attempt]))
      ensures Agrees(o, Executed(attempts), attempt)
      ensures var check := CheckOf(Window(Executed(attempts)), attempt.call);
        warning == if check.Some? && check.value.level == Warning then Some(world.advice(check.value, tc.name)) else None
      ensures messages == old(messages) + [ToolResult(tc, Payload(world, o))]
      ensures events == old(events)
        + [ToolCallStarted(tc.id, tc.name, world.parse(tc.arguments)),
           ToolCallFinished(tc.id, Succeeded(world, o), Payload(world, o))]
    {
      hide CheckOf, Executed, Window;
      var call := Call(tc.name, world.parse(tc.arguments));
      warning := None;
      events := events + [ToolCallStarted(tc.id, tc.name, call.args)];
      var check := detector.CheckCall(call);
      if check.Some? {
        if check.value.level == Critical {
          o := Stopped(world.advice(check.value, tc.name));
          attempt := Attempt(call, "", false);
          NotExecuted(attempts, attempt);
          messages := messages + [ToolResult(tc, o.advice)];
          events := events + [ToolCallFinished(tc.id, false, o.advice)];
          return;
        }
        warning := Some(world.advice(check.value, tc.name));
      }
      var cancelled := ReadCancel();
      if cancelled {
        o, attempt := Skipped, Attempt(call, "", true);
        NotExecuted(attempts, attempt);
        messages := messages + [ToolResult(tc, "Skipped: operation cancelled.")];
        events := events + [ToolCallFinished(tc.id, false, "Skipped: operation cancelled.")];
        return;
      }
      detector.RecordCall(call);
      var result := RunTool();
      detector.RecordOutcome(call, result);
      o, attempt := Ran(result), Attempt(call, result, false);
      ExecutedOnce(attempts, attempt);
      var payload := CapOrRefuse(world, result);
      messages := messages + [ToolResult(tc, payload)];
      events := events + [ToolCallFinished(tc.id, |result| <= world.cap, payload)];
    }

    /** All calls of one answer: one assistant message, one result per call in order, then at most one
        message with the warnings. */
    method ExecuteToolCalls(calls: seq<ToolCall>, text: Option<string>, detector: LoopDetector,
                            ghost attempts: seq<Attempt>)
      returns (ghost round: Beat, ghost attempts': seq<Attempt>)
      requires detector.history == Window(Executed(attempts))
      modifies `messages, `events, `cancelReads, `toolRuns, detector
      ensures round.ToolRound? && Complete(round) && round.calls == calls
      ensures round.text == if text.Some? then text.value else ""
      ensures messages == old(messages) + BeatMessages(world, round)
      ensures events == old(events) + AnswerEvents(world, round)
      ensures detector.history == Window(Executed(attempts'))
      ensures OutcomesAgree(world, calls, round.outcomes, attempts', |attempts|) && attempts <= attempts'
      ensures round.warnings == WarningsOf(world, attempts', |attempts|)
    {
      hide Executed, Window, Agrees, CheckOf, JoinWith, OutcomesAgree, Results, CallEvents, WarningsOf;
      ghost var head := ChatMessage(Assistant, if text.Some? then text.value else "", Some(calls), None);
      messages := messages + [ChatMessage(Assistant, if text.Some? then text.value else "", Some(calls), None)];
      var deferred: seq<string> := [];
      ghost var outcomes: seq<Outcome> := [];
      attempts' := attempts;
      RoundStarts(world, calls, attempts);
      for i := 0 to |calls|
        invariant |outcomes| == i && attempts <= attempts'
        invariant detector.history == Window(Executed(attempts'))
        invariant messages == old(messages) + ([head] + Results(world, calls, outcomes))
        invariant events == old(events) + CallEvents(world, calls, outcomes)
        invariant deferred == WarningsOf(world, attempts', |attempts|)
        invariant OutcomesAgree(world, calls, outcomes, attempts', |attempts|)
      {
        var o, warning;
        ghost var attempt;
        o, warning, attempt := ExecuteCall(calls[i], detector, attempts');
        RoundGrows(world, calls, outcomes, o, attempts', attempt, |attempts|);
        attempts' := attempts' + [attempt];
        outcomes := outcomes + [o];
        if warning.Some? {
          deferred := deferred + [warning.value];
        }
      }
      round := ToolRound(if text.Some? then text.value else "", calls, outcomes, deferred);
      if deferred != [] {
        messages := messages + [SystemMessage(JoinWith(deferred, "\n\n"))];
      }
    }

    /** One call of the model. */
    method CallModel(inToolLoop: bool) returns (reply: Reply)
      modifies `events, `offers, `llmCalls
      ensures events == old(events) + [ThinkingStarted, ThinkingEnded]
      ensures offers == old(offers) + [!inToolLoop] && llmCalls == old(llmCalls) + 1
      ensures reply == world.reply(old(llmCalls))
    {
      events := events + [ThinkingStarted];
      offers := offers + [!inToolLoop];
      reply := world.reply(llmCalls);
      llmCalls := llmCalls + 1;
      events := events + [ThinkingEnded];
    }

    /** A text answer: nudged on, or final. */
    method TakeText(text: string, ghost p: Phase, toolCalls: nat, nudges: nat, names: set<string>)
      returns (nudged: bool)
      requires toolCalls == p.toolCalls && nudges == p.nudges && names == p.names
      modifies `messages, `events
      ensures nudged <==> NudgeDue(world, p, text)
      ensures var b := if nudged then Nudge(text) else Answer(text);
        messages == old(messages) + BeatMessages(world, b) && events == old(events) + AnswerEvents(world, b)
    {
      messages := messages + [ChatMessage(Assistant, text, None, None)];
      if toolCalls > 0 && nudges < MAX_CONTINUATION_NUDGES && world.incomplete(text, names) {
        messages := messages + [SystemMessage(world.reminder)];
        return true;
      }
      if text != "" {
        events := events + [AssistantText(text, true)];
      }
      nudged := false;
    }

    /** The loop, watched for at most `passes` passes: what it has done by then, and how it finished if it has.
        The log is one that a run can have; messages and events are exactly what it says. */
    method RunLoop(passes: nat) returns (finish: Finish, ghost log: seq<Beat>, ghost attempts: seq<Attempt>)
      requires llmCalls == 0 && offers == []
      modifies this
      ensures Valid(world, log) && AllComplete(log) && |log| <= passes
      ensures messages == old(messages) + MessagesOf(world, log)
      ensures events == old(events) + EventsOf(world, log)
      ensures offers == OffersOf(log) && llmCalls == LlmCalls(log)
      ensures AttemptsOf(world, log, attempts)
      ensures finish == Unfinished <==> !PhaseOf(log).ended
      ensures finish == Unfinished ==> |log| == passes
      ensures finish != Unfinished ==> log != [] && FinishOf(log[|log| - 1]) == finish
    {
      hide Tells, PhaseOf, JoinWith, Executed, Window, BeatMessages, AnswerEvents, NudgeDue, OutcomesAgree,
        WarningsOf;
      var errors: nat, nudges: nat, toolCalls: nat := 0, 0, 0;
      var names: set<string> := {};
      var detector := new LoopDetector();
      var inToolLoop := false;
      log, attempts := [], [];
      ghost var m0, e0 := messages, events;
      NothingTold(world, m0, e0);
      for pass := 0 to passes
        invariant |log| == pass && Tells(world, log, attempts, m0, messages, e0, events, offers, llmCalls)
        invariant PhaseOf(log) == Phase(errors, nudges, toolCalls, names, inToolLoop, false) && errors < MAX_CONSECUTIVE_ERRORS
        invariant fresh(detector) && detector.history == Window(Executed(attempts))
      {
        ghost var beat: Beat;
        ghost var m, e, calls0 := messages, events, llmCalls;
        var cancelled := ReadCancel();
        if cancelled {
          events := events + [AssistantText("Operation cancelled.", true)];
          beat := Cancelled;
          QuietMessages(world, beat);
          TellsQuiet(world, log, attempts, m0, m, e0, e, offers, calls0, beat);
          assert messages == m + BeatMessages(world, beat);
          log := log + [beat];
          TellsAll(world, log, attempts, m0, messages, e0, events, offers, llmCalls);
          return Replied("Operation cancelled."), log, attempts;
        }
        ghost var offers0 := offers;
        var reply := CallModel(inToolLoop);
        match reply {
          case Failed(retryable) =>
            beat := Failure(retryable);
            QuietMessages(world, beat);
            TellsQuiet(world, log, attempts, m0, m, e0, e, offers0, calls0, beat);
            assert messages == m + BeatMessages(world, beat);
            assert events == e + [ThinkingStarted, ThinkingEnded] + AnswerEvents(world, beat);
            log := log + [beat];
            TellsAll(world, log, attempts, m0, messages, e0, events, offers, llmCalls);
            if !retryable {
              return RunnerError, log, attempts;
            }
            errors := errors + 1;
            if errors >= MAX_CONSECUTIVE_ERRORS {
              return TooManyErrors, log, attempts;
            }
          case Text(text) =>
            errors := 0;
            var nudged := TakeText(text, PhaseOf(log), toolCalls, nudges, names);
            beat := if nudged then Nudge(text) else Answer(text);
            TellsQuiet(world, log, attempts, m0, m, e0, e, offers0, calls0, beat);
            log := log + [beat];
            if nudged {
              nudges := nudges + 1;
              inToolLoop := false;
            } else {
              TellsAll(world, log, attempts, m0, messages, e0, events, offers, llmCalls);
              return Replied(text), log, attempts;
            }
          case Calls(mixed, calls) =>
            errors := 0;
            toolCalls := toolCalls + |calls|;
            names := names + NamesOf(calls);
            ghost var before := attempts;
            beat, attempts := ExecuteToolCalls(calls, mixed, detector, attempts);
            TellsRound(world, log, before, m0, m, e0, e, offers0, calls0, beat, attempts);
            log := log + [beat];
            inToolLoop := true;
        }
      }
      TellsAll(world, log, attempts, m0, messages, e0, events, offers, llmCalls);
      finish := Unfinished;
    }
  }

  /** What a run has said and asked so far is what its log tells. */
  ghost predicate Tells(w: World, log: seq<Beat>, attempts: seq<Attempt>, m0: seq<ChatMessage>, m: seq<ChatMessage>,
                        e0: seq<Event>, e: seq<Event>, offers: seq<bool>, llmCalls: nat)
  {
    && Valid(w, log) && AllComplete(log)
    && m == m0 + MessagesOf(w, log) && e == e0 + EventsOf(w, log)
    && offers == OffersOf(log) && llmCalls == LlmCalls(log)
    && AttemptsOf(w, log, attempts)
  }

  lemma NothingTold(w: World, m0: seq<ChatMessage>, e0: seq<Event>)
    ensures Tells(w, [], [], m0, m0, e0, e0, [], 0)
    ensures PhaseOf([]) == START && Window(Executed([])) == []
  {
  }

  lemma TellsAll(w: World, log: seq<Beat>, attempts: seq<Attempt>, m0: seq<ChatMessage>, m: seq<ChatMessage>,
                 e0: seq<Event>, e: seq<Event>, offers: seq<bool>, llmCalls: nat)
    requires Tells(w, log, attempts, m0, m, e0, e, offers, llmCalls)
    ensures Valid(w, log) && AllComplete(log)
    ensures m == m0 + MessagesOf(w, log) && e == e0 + EventsOf(w, log)
    ensures offers == OffersOf(log) && llmCalls == LlmCalls(log) && AttemptsOf(w, log, attempts)
  {
  }

  lemma AddAssociates<T>(a: seq<T>, b: seq<T>, c: seq<T>)
    ensures (a + b) + c == a + (b + c)
  {
  }

  lemma TellsMore(w: World, log: seq<Beat>, m0: seq<ChatMessage>, m: seq<ChatMessage>, e0: seq<Event>, e: seq<Event>,
                  b: Beat)
    requires Valid(w, log) && AllComplete(log) && May(w, PhaseOf(log), b) && !b.Cancelled?
    requires m == m0 + MessagesOf(w, log) && e == e0 + EventsOf(w, log)
    ensures AllComplete(log + [b])
    ensures m + BeatMessages(w, b) == m0 + MessagesOf(w, log + [b])
    ensures e + [ThinkingStarted, ThinkingEnded] + AnswerEvents(w, b) == e0 + EventsOf(w, log + [b])
  {
    hide Valid, PhaseOf, MessagesOf, EventsOf, OffersOf, LlmCalls, BeatMessages, AnswerEvents, After;
    LogGrows(w, log, b);
    AddAssociates(m0, MessagesOf(w, log), BeatMessages(w, b));
    AddAssociates(e0, EventsOf(w, log), BeatEvents(w, b));
    AddAssociates(e, [ThinkingStarted, ThinkingEnded], AnswerEvents(w, b));
  }

  /** One pass more, without tools. */
  lemma TellsQuiet(w: World, log: seq<Beat>, attempts: seq<Attempt>, m0: seq<ChatMessage>, m: seq<ChatMessage>,
                   e0: seq<Event>, e: seq<Event>, offers: seq<bool>, llmCalls: nat, b: Beat)
    requires Tells(w, log, attempts, m0, m, e0, e, offers, llmCalls) && May(w, PhaseOf(log), b) && !b.ToolRound?
    ensures PhaseOf(log + [b]) == After(PhaseOf(log), b)
    ensures b.Cancelled? ==>
              Tells(w, log + [b], attempts, m0, m + BeatMessages(w, b), e0, e + BeatEvents(w, b), offers, llmCalls)
    ensures !b.Cancelled? ==> Tells(w, log + [b], attempts, m0, m + BeatMessages(w, b),
      e0, e + [ThinkingStarted, ThinkingEnded] + AnswerEvents(w, b), offers + [!PhaseOf(log).inToolLoop], llmCalls + 1)
  {
    hide Valid, PhaseOf, MessagesOf, EventsOf, OffersOf, LlmCalls, BeatMessages, AnswerEvents, BeatEvents,
      AttemptsOf, May, After;
    LogGrows(w, log, b);
    QuietBeat(w, b, log, attempts);
    if b.Cancelled? {
      AddAssociates(m0, MessagesOf(w, log), BeatMessages(w, b));
      AddAssociates(e0, EventsOf(w, log), BeatEvents(w, b));
    } else {
      TellsMore(w, log, m0, m, e0, e, b);
    }
  }

  /** One tool round more. */
  lemma TellsRound(w: World, log: seq<Beat>, before: seq<Attempt>, m0: seq<ChatMessage>, m: seq<ChatMessage>,
                   e0: seq<Event>, e: seq<Event>, offers: seq<bool>, llmCalls: nat, b: Beat, attempts: seq<Attempt>)
    requires Tells(w, log, before, m0, m, e0, e, offers, llmCalls) && May(w, PhaseOf(log), b) && b.ToolRound?
    requires OutcomesAgree(w, b.calls, b.outcomes, attempts, |before|) && b.warnings == WarningsOf(w, attempts, |before|)
    requires before <= attempts
    ensures PhaseOf(log + [b]) == After(PhaseOf(log), b)
    ensures Tells(w, log + [b], attempts, m0, m + BeatMessages(w, b),
      e0, e + [ThinkingStarted, ThinkingEnded] + AnswerEvents(w, b), offers + [!PhaseOf(log).inToolLoop], llmCalls + 1)
  {
    assert Complete(b);
    hide Valid, PhaseOf, MessagesOf, EventsOf, OffersOf, LlmCalls, BeatMessages, AnswerEvents, BeatEvents,
      AttemptsOf, May, After,
      OutcomesAgree, WarningsOf, Complete, AllComplete;
    LogGrows(w, log, b);
    RoundAttempts(w, b, log, before, attempts);
    TellsMore(w, log, m0, m, e0, e, b);
  }

  /** The attempts of a run are the calls of its tool rounds, in order, each with an outcome that agrees with the
      detector, and the rounds' warnings are what the detector warned about. */
  predicate AttemptsOf(w: World, log: seq<Beat>, attempts: seq<Attempt>)
    requires AllComplete(log)
    decreases |log|
  {
    if log == [] then attempts == [] else
    var before, b := log[..|log| - 1], log[|log| - 1];
    if !b.ToolRound? then AttemptsOf(w, before, attempts) else
    var n := |attempts| - |b.calls|;
    && n >= 0 && AttemptsOf(w, before, attempts[..n])
    && OutcomesAgree(w, b.calls, b.outcomes, attempts, n) && b.warnings == WarningsOf(w, attempts, n)
  }

  /** How a run finishes with its last pass. */
  function FinishOf(b: Beat): Finish {
    match b
    case Cancelled => Replied("Operation cancelled.")
    case Answer(text) => Replied(text)
    case Failure(retryable) => if retryable then TooManyErrors else RunnerError
    case _ => Unfinished
  }

  lemma RoundStarts(w: World, calls: seq<ToolCall>, attempts: seq<Attempt>)
    ensures OutcomesAgree(w, calls, [], attempts, |attempts|)
    ensures Results(w, calls, []) == [] && CallEvents(w, calls, []) == [] && WarningsOf(w, attempts, |attempts|) == []
  {
  }

  lemma RoundGrows(w: World, calls: seq<ToolCall>, outcomes: seq<Outcome>, o: Outcome, attempts: seq<Attempt>,
                   a: Attempt, from: nat)
    requires OutcomesAgree(w, calls, outcomes, attempts, from) && |outcomes| < |calls|
    requires a.call == CallOf(w, calls[|outcomes|]) && Agrees(o, Executed(attempts), a)
    ensures OutcomesAgree(w, calls, outcomes + [o], attempts + [a], from)
    ensures var tc := calls[|outcomes|];
      && Results(w, calls, outcomes + [o]) == Results(w, calls, outcomes) + [ToolResult(tc, Payload(w, o))]
      && CallEvents(w, calls, outcomes + [o]) == CallEvents(w, calls, outcomes)
        + [ToolCallStarted(tc.id, tc.name, w.parse(tc.arguments)), ToolCallFinished(tc.id, Succeeded(w, o), Payload(w, o))]
    ensures from <= |attempts|
    ensures var check := CheckOf(Window(Executed(attempts)), a.call);
      WarningsOf(w, attempts + [a], from) == WarningsOf(w, attempts, from)
        + (if check.Some? && check.value.level == Warning then [w.advice(check.value, a.call.tool)] else [])
  {
    OutcomesAgreeMore(w, calls, outcomes, attempts, from, o, a);
    hide Executed, Agrees, CheckOf, Window, Payload, Succeeded;
    assert (attempts + [a])[..|attempts|] == attempts && (outcomes + [o])[..|outcomes|] == outcomes;
  }

  lemma QuietMessages(w: World, b: Beat)
    requires b.Cancelled? || b.Failure?
    ensures BeatMessages(w, b) == [] && AnswerEvents(w, b) == []
  {
  }

  lemma QuietBeat(w: World, b: Beat, log: seq<Beat>, attempts: seq<Attempt>)
    requires !b.ToolRound? && AllComplete(log) && AttemptsOf(w, log, attempts)
    ensures AllComplete(log + [b]) && AttemptsOf(w, log + [b], attempts)
  {
    hide OutcomesAgree, WarningsOf;
    assert (log + [b])[..|log|] == log;
  }

  lemma RoundAttempts(w: World, b: Beat, log: seq<Beat>, before: seq<Attempt>, attempts: seq<Attempt>)
    requires b.ToolRound? && Complete(b) && AllComplete(log) && AttemptsOf(w, log, before)
    requires OutcomesAgree(w, b.calls, b.outcomes, attempts, |before|) && b.warnings == WarningsOf(w, attempts, |before|)
    requires before <= attempts
    ensures AllComplete(log + [b]) && AttemptsOf(w, log + [b], attempts)
  {
    assert |attempts| == |before| + |b.calls|;
    hide OutcomesAgree, WarningsOf;
    assert (log + [b])[..|log|] == log;
    assert attempts[..|before|] == before;
  }

  lemma NotExecuted(attempts: seq<Attempt>, a: Attempt)
    requires Blocked(Window(Executed(attempts)), a.call) || a.cancelled
    ensures Executed(attempts + [a]) == Executed(attempts)
  {
    hide Blocked;
    assert (attempts + [a])[..|attempts|] == attempts;
  }

  lemma ExecutedOnce(attempts: seq<Attempt>, a: Attempt)
    requires !Blocked(Window(Executed(attempts)), a.call) && !a.cancelled
    ensures Window(Executed(attempts + [a]))
      == WithOutcome(Pushed(Window(Executed(attempts)), CallRecord(a.call, None)), a.call, a.result)
  {
    hide Blocked, WithOutcome, Pushed;
    assert (attempts + [a])[..|attempts|] == attempts;
    var done := Executed(attempts);
    assert (done + [Done(a.call, a.result)])[..|done|] == done;
    OutcomeClosesTheCall(Window(done), a.call, a.result);
  }
}
