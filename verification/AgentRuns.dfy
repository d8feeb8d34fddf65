/** What holds of every run of the agent loop (agent/src/core/agent_loop.rs, lines 29-216 and 355-496;
    the pairing of events is promised in agent/src/core/chat_events.rs, lines 29-62). */
module AgentRuns {
  import opened Base
  import opened SessionEntries
  import opened ToolLoops
  import opened ToolLoopRuns
  import opened AgentLoops

  // -------------------------------------------------------------------------
  // How many calls of the model a run can make
  // -------------------------------------------------------------------------

  lemma {:induction false} CallBudget(w: World, log: seq<Beat>)
    requires Valid(w, log)
    ensures var p := PhaseOf(log);
      && p.nudges <= MAX_CONTINUATION_NUDGES
      && (!p.ended ==> p.errors < MAX_CONSECUTIVE_ERRORS && LlmCalls(log) <= 3 * (ToolRounds(log) + p.nudges) + p.errors)
      && (p.ended ==> LlmCalls(log) <= 3 * (ToolRounds(log) + p.nudges + 1))
    decreases |log|
  {
    if log != [] {
      CallBudget(w, log[..|log| - 1]);
    }
  }

  /** With R answers that ask for tools a run makes at most 3 * (R + 5) calls of the model. */
  lemma CallsAreBounded(w: World, log: seq<Beat>)
    requires Valid(w, log)
    ensures LlmCalls(log) <= 3 * (ToolRounds(log) + 5)
  {
    CallBudget(w, log);
  }

  lemma {:induction false} CancelledIsLast(w: World, log: seq<Beat>)
    requires Valid(w, log)
    ensures |log| == LlmCalls(log) + (if log != [] && log[|log| - 1].Cancelled? then 1 else 0)
    decreases |log|
  {
    if log != [] { CancelledIsLast(w, log[..|log| - 1]); }
  }

  /** A run that is still going after that many passes has seen more answers that ask for tools: given at most R
      of them, the loop ends within 3 * (R + 5) passes. */
  lemma RunsEnd(w: World, log: seq<Beat>, r: nat)
    requires Valid(w, log) && ToolRounds(log) <= r && |log| >= 3 * (r + 5)
    ensures PhaseOf(log).ended
  {
    CallBudget(w, log);
    CancelledIsLast(w, log);
  }

  // -------------------------------------------------------------------------
  // Events
  // -------------------------------------------------------------------------

  /** Where the stream of events stands. */
  datatype Scene = Idle | Thinking | Running(id: string) | Broken

  function Scan(scene: Scene, events: seq<Event>): Scene {
    if events == [] then scene else ScanOne(Scan(scene, events[..|events| - 1]), events[|events| - 1])
  }

  /** Thinking is ended before anything else happens; a started tool call is finished, under its own id, before
      anything else happens. */
  function ScanOne(scene: Scene, e: Event): Scene {
    match (scene, e)
    case (Idle, ThinkingStarted) => Thinking
    case (Idle, ToolCallStarted(id, _, _)) => Running(id)
    case (Idle, AssistantText(_, _)) => Idle
    case (Thinking, ThinkingEnded) => Idle
    case (Running(id), ToolCallFinished(finished, _, _)) => if id == finished then Idle else Broken
    case _ => Broken
  }

  lemma {:induction false} ScanPlus(scene: Scene, a: seq<Event>, b: seq<Event>)
    ensures Scan(scene, a + b) == Scan(Scan(scene, a), b)
    decreases |b|
  {
    if b == [] {
      assert a + b == a;
    } else {
      assert (a + b)[..|a + b| - 1] == a + b[..|b| - 1] && (a + b)[|a + b| - 1] == b[|b| - 1];
      ScanPlus(scene, a, b[..|b| - 1]);
    }
  }

  lemma ScanPair(scene: Scene, x: Event, y: Event)
    ensures Scan(scene, [x, y]) == ScanOne(ScanOne(scene, x), y)
  {
    hide ScanOne;
    var two, one := [x, y], [x];
    assert two[..|two| - 1] == one && one[..|one| - 1] == [];
    assert Scan(scene, one) == ScanOne(scene, x);
  }

  lemma {:induction false} CallEventsBracket(w: World, calls: seq<ToolCall>, outcomes: seq<Outcome>)
    requires |outcomes| <= |calls|
    ensures Scan(Idle, CallEvents(w, calls, outcomes)) == Idle
    decreases |outcomes|
  {
    hide Payload, Succeeded, Scan;
    if outcomes == [] {
      assert Scan(Idle, []) == Idle by { ScanNothing(); }
    } else {
      var k := |outcomes| - 1;
      CallEventsBracket(w, calls, outcomes[..k]);
      var s := ToolCallStarted(calls[k].id, calls[k].name, w.parse(calls[k].arguments));
      var f := ToolCallFinished(calls[k].id, Succeeded(w, outcomes[k]), Payload(w, outcomes[k]));
      ScanPlus(Idle, CallEvents(w, calls, outcomes[..k]), [s, f]);
      ScanPair(Idle, s, f);
    }
  }

  lemma ScanNothing()
    ensures Scan(Idle, []) == Idle
  {
  }

  lemma ScanText(text: string)
    ensures Scan(Idle, [AssistantText(text, true)]) == Idle
  {
    assert [AssistantText(text, true)][..0] == [];
  }

  lemma BeatEventsBracket(w: World, b: Beat)
    requires Complete(b)
    ensures Scan(Idle, BeatEvents(w, b)) == Idle
  {
    hide CallEvents, Scan;
    ScanNothing();
    if b.Cancelled? {
      ScanText("Operation cancelled.");
    } else {
      ScanPair(Idle, ThinkingStarted, ThinkingEnded);
      ScanPlus(Idle, [ThinkingStarted, ThinkingEnded], AnswerEvents(w, b));
      match b {
        case ToolRound(_, calls, outcomes, _) => CallEventsBracket(w, calls, outcomes);
        case Answer(text) => ScanText(text);
        case _ =>
      }
    }
  }

  /** Behind every pass of every run, thinking and tool calls are all closed by their own ends. */
  lemma {:induction false} EventsBracket(w: World, log: seq<Beat>)
    requires AllComplete(log)
    ensures Scan(Idle, EventsOf(w, log)) == Idle
  {
    hide BeatEvents, Scan;
    if log == [] {
      ScanNothing();
    } else {
      var before := log[..|log| - 1];
      assert forall k :: 0 <= k < |before| ==> before[k] == log[k];
      EventsBracket(w, before);
      BeatEventsBracket(w, log[|log| - 1]);
      ScanPlus(Idle, EventsOf(w, before), BeatEvents(w, log[|log| - 1]));
    }
  }

  // -------------------------------------------------------------------------
  // The final text
  // -------------------------------------------------------------------------

  function FinalTexts(events: seq<Event>): seq<string> {
    if events == [] then [] else
    var e := events[|events| - 1];
    FinalTexts(events[..|events| - 1]) + (if e.AssistantText? && e.isFinal then [e.text] else [])
  }

  lemma {:induction false} FinalTextsPlus(a: seq<Event>, b: seq<Event>)
    ensures FinalTexts(a + b) == FinalTexts(a) + FinalTexts(b)
    decreases |b|
  {
    if b == [] {
      assert a + b == a;
    } else {
      assert (a + b)[..|a + b| - 1] == a + b[..|b| - 1] && (a + b)[|a + b| - 1] == b[|b| - 1];
      FinalTextsPlus(a, b[..|b| - 1]);
    }
  }

  lemma FinalTextsPair(x: Event, y: Event)
    requires !x.AssistantText? && !y.AssistantText?
    ensures FinalTexts([x, y]) == []
  {
    var two, one := [x, y], [x];
    assert two[..|two| - 1] == one && one[..|one| - 1] == [];
    assert FinalTexts(one) == [];
  }

  lemma {:induction false} CallsHaveNoText(w: World, calls: seq<ToolCall>, outcomes: seq<Outcome>)
    requires |outcomes| <= |calls|
    ensures FinalTexts(CallEvents(w, calls, outcomes)) == []
    decreases |outcomes|
  {
    hide Payload, Succeeded;
    if outcomes != [] {
      var k := |outcomes| - 1;
      CallsHaveNoText(w, calls, outcomes[..k]);
      var s := ToolCallStarted(calls[k].id, calls[k].name, w.parse(calls[k].arguments));
      var f := ToolCallFinished(calls[k].id, Succeeded(w, outcomes[k]), Payload(w, outcomes[k]));
      FinalTextsPlus(CallEvents(w, calls, outcomes[..k]), [s, f]);
      FinalTextsPair(s, f);
    }
  }

  /** What a pass says to the user. */
  function Said(b: Beat): seq<string> {
    match b
    case Cancelled => ["Operation cancelled."]
    case Answer(text) => if text != "" then [text] else []
    case _ => []
  }

  lemma BeatSays(w: World, b: Beat)
    requires Complete(b)
    ensures FinalTexts(BeatEvents(w, b)) == Said(b)
  {
    hide CallEvents;
    if b.Cancelled? {
      assert [AssistantText("Operation cancelled.", true)][..0] == [];
    } else {
      FinalTextsPair(ThinkingStarted, ThinkingEnded);
      FinalTextsPlus([ThinkingStarted, ThinkingEnded], AnswerEvents(w, b));
      match b {
        case ToolRound(_, calls, outcomes, _) => CallsHaveNoText(w, calls, outcomes);
        case Answer(text) => assert [AssistantText(text, true)][..0] == [];
        case _ =>
      }
    }
  }

  /** A run says at most one final text, with its last pass; it is the reply the run returns. */
  lemma {:induction false} OneFinalText(w: World, log: seq<Beat>)
    requires Valid(w, log) && AllComplete(log)
    ensures FinalTexts(EventsOf(w, log)) == if log == [] then [] else Said(log[|log| - 1])
    ensures !PhaseOf(log).ended ==> FinalTexts(EventsOf(w, log)) == []
    decreases |log|
  {
    hide BeatEvents, FinalTexts;
    if log == [] {
      assert FinalTexts([]) == [] by { NoTexts(); }
    } else {
      var before, b := log[..|log| - 1], log[|log| - 1];
      OneFinalText(w, before);
      BeatSays(w, b);
      FinalTextsPlus(EventsOf(w, before), BeatEvents(w, b));
    }
  }

  lemma NoTexts()
    ensures FinalTexts([]) == []
  {
  }

  // -------------------------------------------------------------------------
  // The transcript
  // -------------------------------------------------------------------------

  /** Each tool call of an assistant message is answered, in order, directly behind it; tool results stand nowhere
      else; and what follows the results is not a second warning. */
  predicate Paired(m: seq<ChatMessage>) {
    if m == [] then true else
    match m[0].role
    case Assistant =>
      var calls := if m[0].toolCalls.Some? then m[0].toolCalls.value else [];
      && |calls| < |m|
      && (forall k :: 0 <= k < |calls| ==> m[1 + k].role == Tool && m[1 + k].toolCallId == Some(calls[k].id))
      && Paired(WithoutSystem(m[1 + |calls|..]))
    case _ => false
  }

  /** At most one system message is skipped. */
  function WithoutSystem(m: seq<ChatMessage>): (r: seq<ChatMessage>)
    ensures |r| <= |m|
  {
    if m != [] && m[0].role == System then m[1..] else m
  }

  lemma SkipsOne(tail: seq<ChatMessage>, rest: seq<ChatMessage>)
    requires Paired(rest)
    requires tail == rest || (tail != [] && tail[0].role == System && tail[1..] == rest)
    ensures WithoutSystem(tail) == rest
  {
  }

  /** An assistant message, the results of its calls, and what follows. */
  lemma RoundPairs(head: ChatMessage, calls: seq<ToolCall>, results: seq<ChatMessage>, tail: seq<ChatMessage>)
    requires head.role == Assistant && calls == (if head.toolCalls.Some? then head.toolCalls.value else [])
    requires |results| == |calls|
    requires forall k :: 0 <= k < |calls| ==> results[k].role == Tool && results[k].toolCallId == Some(calls[k].id)
    requires Paired(WithoutSystem(tail))
    ensures Paired([head] + results + tail)
  {
    hide WithoutSystem, MessagesOf;
    var m := [head] + results + tail;
    assert m[0] == head;
    assert forall k :: 0 <= k < |calls| ==> m[1 + k] == results[k];
    assert m[1 + |calls|..] == tail;
  }

  /** One pass's messages in front of a paired transcript. */
  lemma BeatPairs(w: World, b: Beat, rest: seq<ChatMessage>)
    requires Complete(b) && Paired(rest)
    ensures Paired(BeatMessages(w, b) + rest)
  {
    hide Payload, JoinWith, Results, Paired, WithoutSystem;
    var m := BeatMessages(w, b) + rest;
    match b {
      case Cancelled => assert m == rest;
      case Failure(_) => assert m == rest;
      case ToolRound(text, calls, outcomes, warnings) =>
        var results := Results(w, calls, outcomes);
        var advice := if warnings == [] then [] else [SystemMessage(JoinWith(warnings, "\n\n"))];
        SkipsOne(advice + rest, rest);
        var head := ChatMessage(Assistant, text, Some(calls), None);
        RoundPairs(head, calls, results, advice + rest);
        assert m == [head] + results + (advice + rest);
      case Nudge(text) =>
        var reminder := [SystemMessage(w.reminder)];
        SkipsOne(reminder + rest, rest);
        var head := ChatMessage(Assistant, text, None, None);
        RoundPairs(head, [], [], reminder + rest);
        assert m == [head] + [] + (reminder + rest);
      case Answer(text) =>
        SkipsOne(rest, rest);
        var head := ChatMessage(Assistant, text, None, None);
        RoundPairs(head, [], [], rest);
        assert m == [head] + [] + rest;
    }
  }

  lemma {:induction false} LogPairs(w: World, log: seq<Beat>, rest: seq<ChatMessage>)
    requires AllComplete(log) && Paired(rest)
    ensures Paired(MessagesOf(w, log) + rest)
    decreases |log|
  {
    hide Paired, BeatMessages;
    if log == [] {
      assert MessagesOf(w, log) + rest == rest;
    } else {
      var before, b := log[..|log| - 1], log[|log| - 1];
      BeatPairs(w, b, rest);
      LogPairs(w, before, BeatMessages(w, b) + rest);
      assert MessagesOf(w, log) + rest == MessagesOf(w, before) + (BeatMessages(w, b) + rest);
    }
  }

  /** Whatever the model, the tools and the user do, every tool call of every run is answered exactly once, in
      order, before anything else is said. */
  lemma TranscriptIsPaired(w: World, log: seq<Beat>)
    requires AllComplete(log)
    ensures Paired(MessagesOf(w, log))
  {
    LogPairs(w, log, []);
    assert MessagesOf(w, log) + [] == MessagesOf(w, log);
  }

  // -------------------------------------------------------------------------
  // Guards
  // -------------------------------------------------------------------------

  /** The tools that a run's rounds report as run, with their results. */
  function RanOf(calls: seq<ToolCall>, outcomes: seq<Outcome>, w: World): seq<Done>
    requires |outcomes| <= |calls|
  {
    if outcomes == [] then [] else
    var k := |outcomes| - 1;
    RanOf(calls, outcomes[..k], w) + (if outcomes[k].Ran? then [Done(CallOf(w, calls[k]), outcomes[k].result)] else [])
  }

  function RanIn(w: World, log: seq<Beat>): seq<Done>
    requires AllComplete(log)
  {
    if log == [] then [] else
    var b := log[|log| - 1];
    RanIn(w, log[..|log| - 1]) + (if b.ToolRound? then RanOf(b.calls, b.outcomes, w) else [])
  }

  lemma {:induction false} RoundRuns(w: World, calls: seq<ToolCall>, outcomes: seq<Outcome>, attempts: seq<Attempt>,
                                     from: nat)
    requires OutcomesAgree(w, calls, outcomes, attempts, from)
    ensures Executed(attempts) == Executed(attempts[..from]) + RanOf(calls, outcomes, w)
    decreases |outcomes|
  {
    hide Blocked, Window, CallOf;
    if outcomes == [] {
      assert attempts[..from] == attempts;
    } else {
      var k, before := |outcomes| - 1, attempts[..|attempts| - 1];
      RoundRuns(w, calls, outcomes[..k], before, from);
      assert before[..from] == attempts[..from];
    }
  }

  /** What the transcript reports as run is what the detector let through, no more and no less. */
  lemma {:induction false} ReportedIsExecuted(w: World, log: seq<Beat>, attempts: seq<Attempt>)
    requires AllComplete(log) && AttemptsOf(w, log, attempts)
    ensures RanIn(w, log) == Executed(attempts)
    decreases |log|
  {
    hide OutcomesAgree, WarningsOf, RanOf, Passed;
    if log != [] {
      var before, b := log[..|log| - 1], log[|log| - 1];
      if b.ToolRound? {
        var n := |attempts| - |b.calls|;
        ReportedIsExecuted(w, before, attempts[..n]);
        RoundRuns(w, b.calls, b.outcomes, attempts, n);
      } else {
        ReportedIsExecuted(w, before, attempts);
      }
    }
  }

  /** In no run does the transcript report more than twenty identical calls run in a row. */
  lemma RunsRepeatAtMostTwenty(w: World, log: seq<Beat>, attempts: seq<Attempt>, i: nat, j: nat)
    requires AllComplete(log) && AttemptsOf(w, log, attempts)
    requires i <= j <= |RanIn(w, log)| && SameCalls(RanIn(w, log), i, j)
    ensures j - i <= 20
  {
    hide RanIn, Executed, SameCalls;
    ReportedIsExecuted(w, log, attempts);
    RepeatsAtMostTwenty(attempts, i, j);
  }
}
