/** What a chat's model is shown over many turns and compactions
    (agent/src/core/gateway.rs, lines 236-365; agent/src/core/sessions/mod.rs, lines 949-1054). */
module Conversations {
  import opened Base
  import opened SessionEntries
  import opened SessionTree
  import opened AgentLoops
  import opened AgentRuns
  import opened Gateways
  import Compactions

  // -------------------------------------------------------------------------
  // The history behind a compaction
  // -------------------------------------------------------------------------

  function MessageOf(e: SessionEntry): ChatMessage
    requires e.Message?
  {
    ChatMessage(e.role, e.content, e.toolCalls, e.toolCallId)
  }

  lemma {:induction false} HistoryConcat(a: seq<SessionEntry>, b: seq<SessionEntry>)
    ensures HistoryOf(a + b) == HistoryOf(a) + HistoryOf(b)
    decreases |b|
  {
    if b == [] {
      assert a + b == a;
    } else {
      assert (a + b)[..|a + b| - 1] == a + b[..|b| - 1];
      HistoryConcat(a, b[..|b| - 1]);
    }
  }

  lemma {:induction false} HistoryOfMessages(es: seq<SessionEntry>)
    requires forall i :: 0 <= i < |es| ==> es[i].Message?
    ensures |HistoryOf(es)| == |es| && forall i :: 0 <= i < |es| ==> HistoryOf(es)[i] == MessageOf(es[i])
    decreases |es|
  {
    if es != [] {
      HistoryOfMessages(es[..|es| - 1]);
    }
  }

  lemma RootIsNoMessage(c: SessionEntry, kept: seq<SessionEntry>)
    requires c.Compaction?
    ensures HistoryOf([c] + kept) == HistoryOf(kept) && Compactions.Messages([c] + kept) == Compactions.Messages(kept)
  {
    HistoryConcat([c], kept);
    Compactions.MessagesConcat([c], kept);
    assert [c][..0] == [];
  }

  /** After a compaction the model is shown the kept entries and nothing else: no summary reaches it. */
  lemma CompactedHistory(es: seq<SessionEntry>, summary: string, keepRecent: nat, cap: Option<nat>, id: string)
    requires Good(es) && !HasId(es, id) && Terminates(es) && |Branch(es)| > keepRecent
    ensures var b, es' := Branch(es), CompactEntries(es, summary, keepRecent, cap, id);
      && Terminates(es')
      && HistoryOf(Branch(es')) == HistoryOf(KeptBranch(b[|b| - keepRecent..], id, cap))
      && Compactions.Messages(Branch(es')) == Compactions.Messages(KeptBranch(b[|b| - keepRecent..], id, cap))
  {
    hide Good, HasId, Terminates, Branch, CompactEntries, KeptBranch, HistoryOf;
    CompactKeepsRecentEntries(es, summary, keepRecent, cap, id);
    var b := Branch(es);
    RootIsNoMessage(CompactionEntry(b, summary, keepRecent, id), KeptBranch(b[|b| - keepRecent..], id, cap));
  }

  /** So the text of a summary makes no difference: neither to the history of later turns, nor to what a second
      compaction gives its summarizer, which is how the first summary is lost. */
  lemma SummariesAreNotReadAgain(es: seq<SessionEntry>, s1: string, s2: string, keepRecent: nat, cap: Option<nat>,
                                 id: string, again: nat)
    requires Good(es) && !HasId(es, id) && Terminates(es)
    ensures var a, b := CompactEntries(es, s1, keepRecent, cap, id), CompactEntries(es, s2, keepRecent, cap, id);
      && Terminates(a) && Terminates(b)
      && HistoryOf(Branch(a)) == HistoryOf(Branch(b))
      && Compactions.Summarized(Branch(a), again) == Compactions.Summarized(Branch(b), again)
  {
    hide Good, HasId, Terminates, Branch, KeptBranch, HistoryOf, Compactions.Messages;
    if |Branch(es)| > keepRecent {
      hide CompactEntries;
      CompactedHistory(es, s1, keepRecent, cap, id);
      CompactedHistory(es, s2, keepRecent, cap, id);
    }
  }

  // -------------------------------------------------------------------------
  // Calls and their results
  // -------------------------------------------------------------------------

  function CallsOf(m: ChatMessage): seq<ToolCall> {
    if m.toolCalls.Some? then m.toolCalls.value else []
  }

  /** The results of a message's calls, in order. */
  predicate Answers(calls: seq<ToolCall>, results: seq<ChatMessage>) {
    && |results| == |calls|
    && forall k :: 0 <= k < |calls| ==> results[k].role == Tool && results[k].toolCallId == Some(calls[k].id)
  }

  /** A conversation of user messages and of assistant messages, each followed by exactly the results of its calls. */
  predicate Answered(m: seq<ChatMessage>) {
    if m == [] then true else
    match m[0].role
    case User => Answered(m[1..])
    case Assistant =>
      var n := |CallsOf(m[0])|;
      n < |m| && Answers(CallsOf(m[0]), m[1..1 + n]) && Answered(m[1 + n..])
    case _ => false
  }

  lemma AnsweredRound(head: ChatMessage, results: seq<ChatMessage>, tail: seq<ChatMessage>)
    requires head.role == Assistant && Answers(CallsOf(head), results) && Answered(tail)
    ensures Answered([head] + results + tail)
  {
    var m := [head] + results + tail;
    assert m[1..1 + |results|] == results && m[1 + |results|..] == tail;
  }

  lemma AnsweredUser(head: ChatMessage, tail: seq<ChatMessage>)
    requires head.role == User && Answered(tail)
    ensures Answered([head] + tail)
  {
    assert ([head] + tail)[1..] == tail;
  }

  lemma AnsweredHead(m: seq<ChatMessage>)
    requires Answered(m) && m != []
    ensures m[0].role == User || m[0].role == Assistant
    ensures m[0].role == User ==> Answered(m[1..])
    ensures m[0].role == Assistant ==>
      var n := |CallsOf(m[0])|; n < |m| && Answers(CallsOf(m[0]), m[1..1 + n]) && Answered(m[1 + n..])
  {
  }

  lemma {:induction false} AnsweredConcat(a: seq<ChatMessage>, b: seq<ChatMessage>)
    requires Answered(a) && Answered(b)
    ensures Answered(a + b)
    decreases |a|
  {
    hide Answered, Answers, CallsOf;
    if a == [] {
      assert a + b == b;
      return;
    }
    AnsweredHead(a);
    if a[0].role == User {
      AnsweredConcat(a[1..], b);
      AnsweredUser(a[0], a[1..] + b);
      assert a + b == [a[0]] + (a[1..] + b);
    } else {
      var n := |CallsOf(a[0])|;
      AnsweredConcat(a[1 + n..], b);
      AnsweredRound(a[0], a[1..1 + n], a[1 + n..] + b);
      assert a + b == [a[0]] + a[1..1 + n] + (a[1 + n..] + b);
    }
  }

  /** The end of an answered conversation is answered exactly when it does not begin with a tool's result. */
  lemma {:induction false} EndIsAnsweredExactly(m: seq<ChatMessage>, n: nat)
    requires Answered(m) && n <= |m|
    ensures Answered(m[n..]) <==> n == |m| || m[n].role != Tool
    decreases |m|
  {
    if n == 0 {
      assert m[0..] == m;
    } else if n == |m| {
      assert m[n..] == [];
    } else if m[0].role == User {
      EndIsAnsweredExactly(m[1..], n - 1);
      assert m[1..][n - 1..] == m[n..];
    } else {
      var c := |CallsOf(m[0])|;
      if n > c {
        EndIsAnsweredExactly(m[1 + c..], n - 1 - c);
        assert m[1 + c..][n - 1 - c..] == m[n..];
      } else {
        assert m[n] == m[1..1 + c][n - 1];
        assert m[n..][0] == m[n];
      }
    }
  }

  // -------------------------------------------------------------------------
  // Which failing appends leave a conversation answered
  // -------------------------------------------------------------------------

  /** The persisted messages, read from the front. */
  function KeptFrom(m: seq<ChatMessage>, i: nat, ok: nat -> bool): seq<ChatMessage> {
    if m == [] then [] else KeptFirst(m[0], i, ok) + KeptFrom(m[1..], i + 1, ok)
  }

  function KeptFirst(x: ChatMessage, i: nat, ok: nat -> bool): seq<ChatMessage> {
    if Gateways.Kept(x, i, ok) then [x] else []
  }

  lemma {:induction false} KeptFromConcat(a: seq<ChatMessage>, b: seq<ChatMessage>, i: nat, ok: nat -> bool)
    ensures KeptFrom(a + b, i, ok) == KeptFrom(a, i, ok) + KeptFrom(b, i + |a|, ok)
  {
    hide KeptFrom, KeptFirst;
    var last := KeptFrom(b, i + |a|, ok);
    if a == [] {
      NothingKept(i, ok);
      assert a + b == b && [] + last == last;
    } else {
      KeptFromStep(a, i, ok);
      KeptFromStep(a + b, i, ok);
      assert (a + b)[0] == a[0] && (a + b)[1..] == a[1..] + b;
      KeptFromConcat(a[1..], b, i + 1, ok);
      assert i + 1 + |a[1..]| == i + |a|;
      ConcatIsAssociative(KeptFirst(a[0], i, ok), KeptFrom(a[1..], i + 1, ok), last);
    }
  }

  lemma NothingKept(i: nat, ok: nat -> bool)
    ensures KeptFrom([], i, ok) == []
  {
  }

  lemma ConcatIsAssociative<T>(a: seq<T>, b: seq<T>, c: seq<T>)
    ensures (a + b) + c == a + (b + c)
  {
  }

  lemma KeptFromStep(m: seq<ChatMessage>, i: nat, ok: nat -> bool)
    requires m != []
    ensures KeptFrom(m, i, ok) == KeptFirst(m[0], i, ok) + KeptFrom(m[1..], i + 1, ok)
  {
  }

  lemma {:induction false} KeptIsKeptFrom(m: seq<ChatMessage>, ok: nat -> bool)
    ensures KeptOf(m, ok) == KeptFrom(m, 0, ok)
    decreases |m|
  {
    if m != [] {
      var before, last := m[..|m| - 1], m[|m| - 1];
      KeptIsKeptFrom(before, ok);
      KeptFromConcat(before, [last], 0, ok);
      assert m == before + [last] && [last][1..] == [];
    }
  }

  /** All of some appends succeed, or none does. */
  predicate AllOrNone(i: nat, n: nat, ok: nat -> bool) {
    forall k: nat :: i < k <= i + n ==> ok(k) == ok(i)
  }

  /** Each assistant message is persisted together with all results of its calls, or with none of them and not itself. */
  predicate WholeRounds(m: seq<ChatMessage>, i: nat, ok: nat -> bool) {
    if m == [] then true else
    (m[0].role == Assistant ==> AllOrNone(i, |CallsOf(m[0])|, ok)) && WholeRounds(m[1..], i + 1, ok)
  }

  lemma {:induction false} WholeRoundsConcat(a: seq<ChatMessage>, b: seq<ChatMessage>, i: nat, ok: nat -> bool)
    ensures WholeRounds(a + b, i, ok) <==> WholeRounds(a, i, ok) && WholeRounds(b, i + |a|, ok)
  {
    hide AllOrNone;
    if a == [] {
      assert a + b == b;
    } else {
      assert (a + b)[1..] == a[1..] + b;
      WholeRoundsConcat(a[1..], b, i + 1, ok);
    }
  }

  lemma {:induction false} ResultsHaveNoRounds(results: seq<ChatMessage>, i: nat, ok: nat -> bool)
    requires forall k :: 0 <= k < |results| ==> results[k].role == Tool
    ensures WholeRounds(results, i, ok)
  {
    if results != [] { ResultsHaveNoRounds(results[1..], i + 1, ok); }
  }

  /** The parts of a transcript's first pass. */
  lemma PairedHead(m: seq<ChatMessage>)
    requires Paired(m) && m != []
    ensures var n := |CallsOf(m[0])|;
      && m[0].role == Assistant && n < |m| && Answers(CallsOf(m[0]), m[1..1 + n]) && Paired(WithoutSystem(m[1 + n..]))
  {
    hide WithoutSystem;
  }

  lemma {:induction false} KeptResults(results: seq<ChatMessage>, i: nat, ok: nat -> bool)
    requires forall k :: 0 <= k < |results| ==> results[k].role == Tool
    ensures |KeptFrom(results, i, ok)| <= |results|
    ensures forall k :: 0 <= k < |KeptFrom(results, i, ok)| ==> KeptFrom(results, i, ok)[k] in results
    ensures |KeptFrom(results, i, ok)| == |results| <==> forall k: nat :: i <= k < i + |results| ==> ok(k)
    ensures KeptFrom(results, i, ok) == [] <==> forall k: nat :: i <= k < i + |results| ==> !ok(k)
    ensures |KeptFrom(results, i, ok)| == |results| ==> KeptFrom(results, i, ok) == results
  {
    if results != [] {
      KeptFromStep(results, i, ok);
      assert KeptFirst(results[0], i, ok) == if ok(i) then [results[0]] else [];
      hide KeptFrom, KeptFirst;
      KeptResults(results[1..], i + 1, ok);
      assert results == [results[0]] + results[1..];
      var rest := KeptFrom(results[1..], i + 1, ok);
      assert ok(i) ==> KeptFrom(results, i, ok) == [results[0]] + rest;
      assert !ok(i) ==> KeptFrom(results, i, ok) == [] + rest == rest;
    }
  }

  lemma HeadKept(m: seq<ChatMessage>, i: nat, ok: nat -> bool)
    requires m != [] && m[0].role == Assistant
    ensures KeptFrom(m, i, ok) == (if ok(i) then [m[0]] else []) + KeptFrom(m[1..], i + 1, ok)
    ensures WholeRounds(m, i, ok) <==> AllOrNone(i, |CallsOf(m[0])|, ok) && WholeRounds(m[1..], i + 1, ok)
  {
  }

  /** A round of the transcript as it is persisted. */
  lemma RoundKept(m: seq<ChatMessage>, i: nat, ok: nat -> bool)
    requires Paired(m) && m != []
    ensures var n := |CallsOf(m[0])|; var results, tail := m[1..1 + n], m[1 + n..];
      && n < |m|
      && KeptFrom(m, i, ok) == (if ok(i) then [m[0]] else []) + KeptFrom(results, i + 1, ok) + KeptFrom(tail, i + 1 + n, ok)
      && (WholeRounds(m, i, ok) <==> AllOrNone(i, n, ok) && WholeRounds(tail, i + 1 + n, ok))
  {
    hide Paired, WithoutSystem, AllOrNone, Answers, CallsOf, KeptFrom, WholeRounds;
    PairedHead(m);
    var n := |CallsOf(m[0])|;
    var results, tail := m[1..1 + n], m[1 + n..];
    assert m[1..] == results + tail;
    ResultsAreTools(CallsOf(m[0]), results);
    HeadKept(m, i, ok);
    KeptFromConcat(results, tail, i + 1, ok);
    var head, a, b := if ok(i) then [m[0]] else [], KeptFrom(results, i + 1, ok), KeptFrom(tail, i + 1 + n, ok);
    assert head + (a + b) == head + a + b;
    WholeRoundsConcat(results, tail, i + 1, ok);
    ResultsHaveNoRounds(results, i + 1, ok);
  }

  /** Skipping a system message skips its append. */
  lemma SkippedSystem(tail: seq<ChatMessage>, i: nat, ok: nat -> bool)
    ensures var j := i + |tail| - |WithoutSystem(tail)|;
      && KeptFrom(tail, i, ok) == KeptFrom(WithoutSystem(tail), j, ok)
      && (WholeRounds(tail, i, ok) <==> WholeRounds(WithoutSystem(tail), j, ok))
      && CallIds(tail) == CallIds(WithoutSystem(tail))
  {
    hide AllOrNone, IdsOf, CallsOf;
    if tail != [] && tail[0].role == System {
      assert CallIds(tail) == [] + CallIds(tail[1..]);
    }
  }

  /** The ids of all calls of a transcript. */
  function CallIds(m: seq<ChatMessage>): seq<string> {
    if m == [] then [] else (if m[0].role == Assistant then IdsOf(CallsOf(m[0])) else []) + CallIds(m[1..])
  }

  function IdsOf(calls: seq<ToolCall>): (r: seq<string>)
    ensures |r| == |calls| && forall k :: 0 <= k < |r| ==> r[k] == calls[k].id
  {
    seq(|calls|, (k: nat) requires k < |calls| => calls[k].id)
  }

  predicate NoRepeats(ids: seq<string>) {
    forall j, k :: 0 <= j < k < |ids| ==> ids[j] != ids[k]
  }

  /** A transcript persisted in whole rounds is answered. */
  lemma {:induction false} WholeRoundsAreAnswered(m: seq<ChatMessage>, i: nat, ok: nat -> bool)
    requires Paired(m) && WholeRounds(m, i, ok)
    ensures Answered(KeptFrom(m, i, ok))
    decreases |m|
  {
    hide Answered, Answers, CallsOf, Paired, WithoutSystem, KeptFrom, WholeRounds;
    if m == [] {
      EmptyIsAnswered(i, ok);
    } else {
      PairedHead(m);
      RoundKept(m, i, ok);
      var n := |CallsOf(m[0])|;
      var results, tail := m[1..1 + n], m[1 + n..];
      SkippedSystem(tail, i + 1 + n, ok);
      WholeRoundsAreAnswered(WithoutSystem(tail), i + 1 + n + |tail| - |WithoutSystem(tail)|, ok);
      ResultsAreTools(CallsOf(m[0]), results);
      KeptResults(results, i + 1, ok);
      var rest := KeptFrom(tail, i + 1 + n, ok);
      WholeRoundKept(i, n, ok);
      if ok(i) {
        AnsweredRound(m[0], results, rest);
      } else {
        assert [] + [] + rest == rest;
      }
    }
  }

  lemma WholeRoundKept(i: nat, n: nat, ok: nat -> bool)
    requires AllOrNone(i, n, ok)
    ensures ok(i) ==> forall k: nat :: i + 1 <= k < i + 1 + n ==> ok(k)
    ensures !ok(i) ==> forall k: nat :: i + 1 <= k < i + 1 + n ==> !ok(k)
  {
  }

  lemma ResultsAreTools(calls: seq<ToolCall>, results: seq<ChatMessage>)
    requires Answers(calls, results)
    ensures |results| == |calls| && forall k :: 0 <= k < |results| ==> results[k].role == Tool
  {
  }

  lemma EmptyIsAnswered(i: nat, ok: nat -> bool)
    ensures KeptFrom([], i, ok) == [] && Answered([])
  {
  }

  lemma RoundCallIds(m: seq<ChatMessage>)
    requires Paired(m) && m != []
    ensures var n := |CallsOf(m[0])|; n < |m| && CallIds(m) == IdsOf(CallsOf(m[0])) + CallIds(WithoutSystem(m[1 + n..]))
  {
    hide Paired, WithoutSystem, Answers, CallsOf, IdsOf;
    PairedHead(m);
    assert CallIds(m) == IdsOf(CallsOf(m[0])) + CallIds(m[1..]);
    hide CallIds, KeptFrom, WholeRounds;
    var n := |CallsOf(m[0])|;
    var results, tail := m[1..1 + n], m[1 + n..];
    ResultsAreTools(CallsOf(m[0]), results);
    SkippedSystem(tail, 0, _ => true);
    assert m[1..] == results + tail;
    ResultsHaveNoCalls(results, tail);
  }

  lemma {:induction false} ResultsHaveNoCalls(results: seq<ChatMessage>, tail: seq<ChatMessage>)
    requires forall k :: 0 <= k < |results| ==> results[k].role == Tool
    ensures CallIds(results + tail) == CallIds(tail)
  {
    if results == [] {
      assert results + tail == tail;
    } else {
      ResultsHaveNoCalls(results[1..], tail);
      assert (results + tail)[1..] == results[1..] + tail;
      assert CallIds(results + tail) == [] + CallIds(results[1..] + tail);
    }
  }

  predicate AnswersOneOf(x: ChatMessage, ids: seq<string>) {
    x.role == Tool ==> x.toolCallId.Some? && x.toolCallId.value in ids
  }

  /** Persisted results are results of the transcript's calls. */
  lemma {:induction false} KeptAnswerTheirCalls(m: seq<ChatMessage>, i: nat, ok: nat -> bool)
    requires Paired(m)
    ensures forall k :: 0 <= k < |KeptFrom(m, i, ok)| ==> AnswersOneOf(KeptFrom(m, i, ok)[k], CallIds(m))
    decreases |m|
  {
    hide Answers, CallsOf, Paired, WithoutSystem, KeptFrom, WholeRounds, CallIds;
    if m == [] {
      EmptyIsAnswered(i, ok);
      return;
    }
    PairedHead(m);
    RoundKept(m, i, ok);
    RoundCallIds(m);
    var n := |CallsOf(m[0])|;
    var results, tail := m[1..1 + n], m[1 + n..];
    SkippedSystem(tail, i + 1 + n, ok);
    KeptAnswerTheirCalls(WithoutSystem(tail), i + 1 + n + |tail| - |WithoutSystem(tail)|, ok);
    ResultsAnswer(CallsOf(m[0]), results);
    ResultsAreTools(CallsOf(m[0]), results);
    KeptResults(results, i + 1, ok);
    var kept, rest, ids := KeptFrom(results, i + 1, ok), KeptFrom(tail, i + 1 + n, ok), CallIds(WithoutSystem(tail));
    forall k | 0 <= k < |rest| ensures AnswersOneOf(rest[k], CallIds(m)) {
      assert AnswersOneOf(rest[k], ids);
    }
    forall k | 0 <= k < |kept| ensures AnswersOneOf(kept[k], CallIds(m)) {
      assert kept[k] in results;
    }
  }

  lemma ResultsAnswer(calls: seq<ToolCall>, results: seq<ChatMessage>)
    requires Answers(calls, results)
    ensures forall x :: x in results ==> AnswersOneOf(x, IdsOf(calls))
  {
    forall x | x in results ensures AnswersOneOf(x, IdsOf(calls)) {
      var k :| 0 <= k < |results| && results[k] == x;
      assert IdsOf(calls)[k] == calls[k].id;
    }
  }

  /** A persisted assistant message whose results were dropped is not answered by what comes later. */
  lemma MissingResultShows(head: ChatMessage, kept: seq<ChatMessage>, rest: seq<ChatMessage>, ids: seq<string>)
    requires head.role == Assistant && Answered([head] + kept + rest) && |kept| <= |CallsOf(head)|
    requires forall k :: 0 <= k < |rest| ==> AnswersOneOf(rest[k], ids)
    requires NoRepeats(IdsOf(CallsOf(head)) + ids)
    ensures |kept| == |CallsOf(head)| && Answered(rest)
  {
    hide Answered, NoRepeats;
    var m, calls := [head] + kept + rest, CallsOf(head);
    var n := |calls|;
    assert m[0] == head;
    AnsweredHead(m);
    if |kept| < n {
      assert m[1..1 + n][|kept|] == rest[0];
      LaterResultDiffers(calls, m[1..1 + n], |kept|, ids);
    }
    assert m[1 + n..] == rest;
  }

  lemma LaterResultDiffers(calls: seq<ToolCall>, results: seq<ChatMessage>, k: nat, ids: seq<string>)
    requires Answers(calls, results) && k < |results| && NoRepeats(IdsOf(calls) + ids)
    ensures !AnswersOneOf(results[k], ids)
  {
    var all := IdsOf(calls) + ids;
    assert all[k] == calls[k].id && forall j :: 0 <= j < |ids| ==> all[|calls| + j] == ids[j];
  }

  /** When no two calls of the transcript have the same id, whole rounds are also needed. */
  lemma {:induction false} AnsweredNeedsWholeRounds(m: seq<ChatMessage>, i: nat, ok: nat -> bool)
    requires Paired(m) && NoRepeats(CallIds(m)) && Answered(KeptFrom(m, i, ok))
    ensures WholeRounds(m, i, ok)
    decreases |m|
  {
    hide Answered, Answers, CallsOf, Paired, WithoutSystem, KeptFrom, WholeRounds, CallIds;
    if m == [] {
      NothingIsWhole(i, ok);
      return;
    }
    PairedHead(m);
    RoundKept(m, i, ok);
    RoundCallIds(m);
    var n := |CallsOf(m[0])|;
    var results, tail := m[1..1 + n], m[1 + n..];
    var later := i + 1 + n + |tail| - |WithoutSystem(tail)|;
    SkippedSystem(tail, i + 1 + n, ok);
    ResultsAreTools(CallsOf(m[0]), results);
    KeptResults(results, i + 1, ok);
    KeptAnswerTheirCalls(WithoutSystem(tail), later, ok);
    var kept, rest := KeptFrom(results, i + 1, ok), KeptFrom(tail, i + 1 + n, ok);
    if ok(i) {
      MissingResultShows(m[0], kept, rest, CallIds(WithoutSystem(tail)));
    } else {
      assert [] + kept + rest == kept + rest;
      if kept != [] {
        assert kept[0] in results && (kept + rest)[0] == kept[0];
        AnsweredHead(kept + rest);
        assert false;
      }
      assert kept + rest == rest;
    }
    RestHasNoRepeats(IdsOf(CallsOf(m[0])), CallIds(WithoutSystem(tail)));
    AnsweredNeedsWholeRounds(WithoutSystem(tail), later, ok);
    KeptAllOrNone(i, n, ok);
  }

  lemma KeptAllOrNone(i: nat, n: nat, ok: nat -> bool)
    requires if ok(i) then forall k: nat :: i + 1 <= k < i + 1 + n ==> ok(k)
             else forall k: nat :: i + 1 <= k < i + 1 + n ==> !ok(k)
    ensures AllOrNone(i, n, ok)
  {
  }

  lemma NothingIsWhole(i: nat, ok: nat -> bool)
    ensures WholeRounds([], i, ok)
  {
  }

  lemma RestHasNoRepeats(a: seq<string>, b: seq<string>)
    requires NoRepeats(a + b)
    ensures NoRepeats(b)
  {
    assert forall j :: 0 <= j < |b| ==> b[j] == (a + b)[|a| + j];
  }

  // -------------------------------------------------------------------------
  // Turns
  // -------------------------------------------------------------------------

  lemma UserBehind(head: ChatMessage, tail: seq<ChatMessage>)
    requires head.role == User
    ensures Answered([head] + tail) <==> Answered(tail)
  {
    assert ([head] + tail)[1..] == tail;
  }

  lemma RoundBehind(head: ChatMessage, results: seq<ChatMessage>, tail: seq<ChatMessage>)
    requires head.role == Assistant && Answers(CallsOf(head), results)
    ensures Answered([head] + results + tail) <==> Answered(tail)
  {
    hide Answers;
    var m := [head] + results + tail;
    ResultsAreTools(CallsOf(head), results);
    assert m[0] == head && m[1..1 + |results|] == results && m[1 + |results|..] == tail;
  }

  /** Behind an answered conversation only what is new decides. */
  lemma {:induction false} AnsweredBehind(a: seq<ChatMessage>, b: seq<ChatMessage>)
    requires Answered(a)
    ensures Answered(a + b) <==> Answered(b)
    decreases |a|
  {
    hide Answered, Answers, CallsOf;
    if a == [] {
      assert a + b == b;
      return;
    }
    AnsweredHead(a);
    if a[0].role == User {
      AnsweredBehind(a[1..], b);
      UserBehind(a[0], a[1..] + b);
      assert a + b == [a[0]] + (a[1..] + b);
    } else {
      var n := |CallsOf(a[0])|;
      AnsweredBehind(a[1 + n..], b);
      RoundBehind(a[0], a[1..1 + n], a[1 + n..] + b);
      assert a + b == [a[0]] + a[1..1 + n] + (a[1 + n..] + b);
    }
  }

  lemma OneUserIsAnswered(m: ChatMessage)
    requires m.role == User
    ensures Answered([m]) && Answered([])
  {
    assert [m][1..] == [];
  }

  /** The session behind a turn; the append of the user's message may fail like the others. */
  function AfterTurn(es: seq<SessionEntry>, text: string, id: string, userOk: bool, msgs: seq<ChatMessage>,
                     ids: nat -> string, ok: nat -> bool): seq<SessionEntry>
  {
    Persisted(if userOk then AppendEntry(es, EntryOf(ChatMessage(User, text, None, None), id)) else es, msgs, ids, ok)
  }

  ghost predicate FreshTurn(es: seq<SessionEntry>, id: string, n: nat, ids: nat -> string) {
    !HasId(es, id) && FreshIds(es, n, ids) && forall i: nat :: i < n ==> ids(i) != id
  }

  lemma TurnHistory(es: seq<SessionEntry>, text: string, id: string, userOk: bool, w: World, log: seq<Beat>,
                    ids: nat -> string, ok: nat -> bool)
    requires AllComplete(log) && Good(es) && FreshTurn(es, id, |MessagesOf(w, log)|, ids)
    ensures var user, msgs := ChatMessage(User, text, None, None), MessagesOf(w, log);
      var closed := AfterTurn(es, text, id, userOk, msgs, ids, ok);
      && Terminates(es) && Good(closed) && Terminates(closed)
      && HistoryOf(Branch(closed)) == HistoryOf(Branch(es)) + (if userOk then [user] else []) + KeptOf(msgs, ok)
  {
    hide Good, Branch, Terminates, HasId, HistoryOf, MessagesOf, KeptOf, Persisted, AllComplete;
    if userOk {
      TurnsAreRemembered(es, text, id, w, log, ids, ok);
    } else {
      BranchGrowsByKept(es, MessagesOf(w, log), ids, ok);
      assert HistoryOf(Branch(es)) + [] == HistoryOf(Branch(es));
    }
  }

  /** Whatever a turn's failing appends, the persisted conversation stays answered when they drop whole rounds: an
      assistant message with all the results of its calls. When its calls have different ids this is also needed.
      Whether the user's message is persisted makes no difference. */
  lemma TurnKeepsAnswered(es: seq<SessionEntry>, text: string, id: string, userOk: bool, w: World, log: seq<Beat>,
                          ids: nat -> string, ok: nat -> bool)
    requires AllComplete(log) && Good(es) && FreshTurn(es, id, |MessagesOf(w, log)|, ids)
    requires Terminates(es) && Answered(HistoryOf(Branch(es)))
    ensures var msgs := MessagesOf(w, log); var closed := AfterTurn(es, text, id, userOk, msgs, ids, ok);
      && Good(closed) && Terminates(closed)
      && (WholeRounds(msgs, 0, ok) ==> Answered(HistoryOf(Branch(closed))))
      && (NoRepeats(CallIds(msgs)) ==> (Answered(HistoryOf(Branch(closed))) <==> WholeRounds(msgs, 0, ok)))
  {
    hide Good, Branch, Terminates, HasId, HistoryOf, MessagesOf, KeptOf, AfterTurn, Paired, AllComplete, Answered,
      WholeRounds, KeptFrom;
    var msgs := MessagesOf(w, log);
    TurnHistory(es, text, id, userOk, w, log, ids, ok);
    TranscriptIsPaired(w, log);
    KeptIsKeptFrom(msgs, ok);
    var user := if userOk then [ChatMessage(User, text, None, None)] else [];
    OneUserIsAnswered(ChatMessage(User, text, None, None));
    AnsweredConcat(HistoryOf(Branch(es)), user);
    AnsweredBehind(HistoryOf(Branch(es)) + user, KeptOf(msgs, ok));
    if WholeRounds(msgs, 0, ok) { WholeRoundsAreAnswered(msgs, 0, ok); }
    if NoRepeats(CallIds(msgs)) && Answered(KeptOf(msgs, ok)) { AnsweredNeedsWholeRounds(msgs, 0, ok); }
  }

  // -------------------------------------------------------------------------
  // Compactions may cut a call from its result
  // -------------------------------------------------------------------------

  /** Messages that differ in their texts alone. */
  predicate SameShape(a: seq<ChatMessage>, b: seq<ChatMessage>) {
    |a| == |b| && forall i :: 0 <= i < |a| ==> a[i] == b[i].(content := a[i].content)
  }

  lemma ShapeDecidesAnswers(calls: seq<ToolCall>, a: seq<ChatMessage>, b: seq<ChatMessage>)
    requires SameShape(a, b)
    ensures Answers(calls, a) <==> Answers(calls, b)
  {
  }

  lemma {:induction false} ShapeDecidesAnswered(a: seq<ChatMessage>, b: seq<ChatMessage>)
    requires SameShape(a, b)
    ensures Answered(a) <==> Answered(b)
    decreases |a|
  {
    if a != [] {
      assert CallsOf(a[0]) == CallsOf(b[0]);
      hide Answers, CallsOf;
      var calls := CallsOf(a[0]);
      var n := |calls|;
      if a[0].role == User {
        ShapeDecidesAnswered(a[1..], b[1..]);
      } else if a[0].role == Assistant && n < |a| {
        ShapeDecidesAnswered(a[1 + n..], b[1 + n..]);
        ShapeDecidesAnswers(calls, a[1..1 + n], b[1..1 + n]);
      }
    }
  }

  lemma RedactionKeepsShape(kept: seq<SessionEntry>, id: string, cap: Option<nat>)
    requires forall k :: 0 <= k < |kept| ==> kept[k].Message?
    ensures SameShape(HistoryOf(KeptBranch(kept, id, cap)), HistoryOf(kept))
  {
    HistoryOfMessages(kept);
    HistoryOfMessages(KeptBranch(kept, id, cap));
  }

  /** Where the kept entries begin in the history. */
  lemma HistoryCut(b: seq<SessionEntry>, s: nat)
    requires s <= |b| && forall i :: s <= i < |b| ==> b[i].Message?
    ensures var n := |HistoryOf(b[..s])|;
      && n <= |HistoryOf(b)| && HistoryOf(b)[n..] == HistoryOf(b[s..]) && |HistoryOf(b)| - n == |b| - s
      && (s < |b| ==> HistoryOf(b)[n].role == b[s].role)
  {
    hide HistoryOf;
    var before, kept := b[..s], b[s..];
    assert b == before + kept;
    HistoryConcat(before, kept);
    assert forall k :: 0 <= k < |kept| ==> kept[k] == b[s + k];
    HistoryOfMessages(kept);
  }

  lemma KeptAreMessages(b: seq<SessionEntry>, keepRecent: nat)
    requires IsChain(b) && keepRecent < |b|
    ensures forall i :: |b| - keepRecent <= i < |b| ==> b[i].Message?
  {
  }

  /** Compacting an answered conversation keeps it answered exactly when the cut does not leave a tool's result
      without its call, that is, when the first kept entry is no tool result. */
  lemma CompactKeepsAnsweredExactly(es: seq<SessionEntry>, summary: string, keepRecent: nat, cap: Option<nat>,
                                    id: string)
    requires Good(es) && !HasId(es, id) && Terminates(es) && |Branch(es)| > keepRecent
    requires Answered(HistoryOf(Branch(es)))
    ensures var b, es' := Branch(es), CompactEntries(es, summary, keepRecent, cap, id);
      && Terminates(es')
      && (keepRecent > 0 ==> b[|b| - keepRecent].Message?)
      && (Answered(HistoryOf(Branch(es'))) <==> keepRecent == 0 || b[|b| - keepRecent].role != Tool)
  {
    hide Good, HasId, Terminates, Branch, CompactEntries, KeptBranch, HistoryOf, Answered, IsChain, DistinctIds,
      SameShape;
    GoodBranchIsChain(es);
    CompactedHistory(es, summary, keepRecent, cap, id);
    var b := Branch(es);
    var s := |b| - keepRecent;
    var kept := b[s..];
    KeptAreMessages(b, keepRecent);
    assert forall k :: 0 <= k < |kept| ==> kept[k] == b[s + k];
    RedactionKeepsShape(kept, id, cap);
    ShapeDecidesAnswered(HistoryOf(KeptBranch(kept, id, cap)), HistoryOf(kept));
    HistoryCut(b, s);
    EndIsAnsweredExactly(HistoryOf(b), |HistoryOf(b[..s])|);
  }

  // -------------------------------------------------------------------------
  // Runs of turns and compactions
  // -------------------------------------------------------------------------

  datatype ChatOp =
    | TurnOp(text: string, id: string, userOk: bool, w: World, log: seq<Beat>, ids: nat -> string, ok: nat -> bool)
    | CompactionOp(summary: string, keepRecent: nat, cap: Option<nat>, id: string)

  ghost predicate LegalOp(es: seq<SessionEntry>, op: ChatOp) {
    match op
    case TurnOp(_, id, _, w, log, ids, _) => AllComplete(log) && FreshTurn(es, id, |MessagesOf(w, log)|, ids)
    case CompactionOp(_, _, _, id) => !HasId(es, id)
  }

  ghost function StepChat(es: seq<SessionEntry>, op: ChatOp): seq<SessionEntry>
  {
    if !Terminates(es) || !LegalOp(es, op) then es else
    match op
    case TurnOp(text, id, userOk, w, log, ids, ok) => AfterTurn(es, text, id, userOk, MessagesOf(w, log), ids, ok)
    case CompactionOp(summary, keepRecent, cap, id) => CompactEntries(es, summary, keepRecent, cap, id)
  }

  /** A turn whose failing appends drop whole rounds; a compaction that does not cut between a call and its result. */
  ghost predicate Careful(es: seq<SessionEntry>, op: ChatOp)
    requires Terminates(es) && LegalOp(es, op)
  {
    match op
    case TurnOp(_, _, _, w, log, _, ok) => WholeRounds(MessagesOf(w, log), 0, ok)
    case CompactionOp(_, keepRecent, _, _) =>
      var b := Branch(es);
      |b| <= keepRecent || keepRecent == 0 || !b[|b| - keepRecent].Message? || b[|b| - keepRecent].role != Tool
  }

  ghost predicate DistinctCalls(op: ChatOp)
    requires op.TurnOp? ==> AllComplete(op.log)
  {
    op.TurnOp? ==> NoRepeats(CallIds(MessagesOf(op.w, op.log)))
  }

  lemma StepKeepsAnswered(es: seq<SessionEntry>, op: ChatOp)
    requires Good(es) && Terminates(es) && LegalOp(es, op) && Answered(HistoryOf(Branch(es)))
    ensures Good(StepChat(es, op)) && Terminates(StepChat(es, op))
    ensures Careful(es, op) ==> Answered(HistoryOf(Branch(StepChat(es, op))))
    ensures DistinctCalls(op) ==> (Answered(HistoryOf(Branch(StepChat(es, op)))) <==> Careful(es, op))
  {
    hide Good, Branch, Terminates, HasId, HistoryOf, Answered, WholeRounds, AfterTurn, MessagesOf, AllComplete,
      CompactEntries, FreshTurn;
    match op {
      case TurnOp(text, id, userOk, w, log, ids, ok) => TurnKeepsAnswered(es, text, id, userOk, w, log, ids, ok);
      case CompactionOp(summary, keepRecent, cap, id) =>
        CompactKeepsRecentEntries(es, summary, keepRecent, cap, id);
        if |Branch(es)| > keepRecent {
          CompactKeepsAnsweredExactly(es, summary, keepRecent, cap, id);
        }
    }
  }

  /** The session behind a run. */
  ghost function RunChat(ops: seq<ChatOp>): seq<SessionEntry> {
    if ops == [] then [] else StepChat(RunChat(ops[..|ops| - 1]), ops[|ops| - 1])
  }

  /** Every step is legal and careful. */
  ghost predicate CarefulRun(ops: seq<ChatOp>) {
    ops == [] ||
    var before, op := RunChat(ops[..|ops| - 1]), ops[|ops| - 1];
    CarefulRun(ops[..|ops| - 1]) && Terminates(before) && LegalOp(before, op) && Careful(before, op)
  }

  /** On every run of careful turns and compactions, from an empty session, the model is shown a conversation in which
      every call has its result directly behind it. */
  lemma {:induction false} RunsStayAnswered(ops: seq<ChatOp>)
    requires CarefulRun(ops)
    ensures Good(RunChat(ops)) && Terminates(RunChat(ops)) && Answered(HistoryOf(Branch(RunChat(ops))))
    decreases |ops|
  {
    hide Answered, HistoryOf, Good, Branch, Terminates, LegalOp, Careful, StepChat;
    if ops == [] {
      EmptySessionIsAnswered();
    } else {
      RunsStayAnswered(ops[..|ops| - 1]);
      StepKeepsAnswered(RunChat(ops[..|ops| - 1]), ops[|ops| - 1]);
    }
  }

  lemma EmptySessionIsAnswered()
    ensures Good([]) && Terminates([]) && Answered(HistoryOf(Branch([])))
  {
    assert Good([]);
    GoodBranchIsChain([]);
  }
}
