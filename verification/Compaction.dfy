/** Auto-compaction: when to compact, and which messages the summarizer sees
    (agent/src/core/compaction.rs). */
module Compactions {
  import opened Base
  import opened SessionEntries
  import opened SessionTree

  datatype Config = Config(enabled: bool, keepRecent: nat, byteThreshold: nat, tokenThreshold: nat)

  /** The messages among some entries, in order. */
  function Messages(es: seq<SessionEntry>): seq<SessionEntry> {
    if es == [] then []
    else Messages(es[..|es| - 1]) + if es[|es| - 1].Message? then [es[|es| - 1]] else []
  }

  lemma {:induction false} MessagesConcat(a: seq<SessionEntry>, b: seq<SessionEntry>)
    ensures Messages(a + b) == Messages(a) + Messages(b)
    decreases |b|
  {
    if b == [] {
      assert a + b == a;
    } else {
      assert (a + b)[..|a + b| - 1] == a + b[..|b| - 1];
      MessagesConcat(a, b[..|b| - 1]);
    }
  }

  lemma {:induction false} MessagesOfMessages(es: seq<SessionEntry>)
    ensures |Messages(es)| <= |es|
    ensures Messages(es) == es <==> forall i :: 0 <= i < |es| ==> es[i].Message?
    ensures |Messages(es)| == |es| <==> forall i :: 0 <= i < |es| ==> es[i].Message?
    decreases |es|
  {
    if es != [] {
      MessagesOfMessages(es[..|es| - 1]);
      assert es == es[..|es| - 1] + [es[|es| - 1]];
    }
  }

  method CountMessages(branch: seq<SessionEntry>) returns (count: nat)
    ensures count == |Messages(branch)|
  {
    count := 0;
    for i := 0 to |branch|
      invariant count == |Messages(branch[..i])|
    {
      assert branch[..i + 1][..i] == branch[..i];
      if branch[i].Message? {
        count := count + 1;
      }
    }
    assert branch[..|branch|] == branch;
  }

  /** Bytes counted towards the token estimate; `jsonLen` is the length of the serialized tool calls. */
  function ContentBytes(branch: seq<SessionEntry>, jsonLen: seq<ToolCall> -> nat): nat {
    if branch == [] then 0 else
    var e := branch[|branch| - 1];
    ContentBytes(branch[..|branch| - 1], jsonLen)
    + if !e.Message? then 0
      else |e.content| + if e.toolCalls.Some? then jsonLen(e.toolCalls.value) else 0
  }

  method EstimatedTokens(branch: seq<SessionEntry>, jsonLen: seq<ToolCall> -> nat) returns (tokens: nat)
    ensures tokens == ContentBytes(branch, jsonLen) / 4
  {
    var bytes := 0;
    for i := 0 to |branch|
      invariant bytes == ContentBytes(branch[..i], jsonLen)
    {
      assert branch[..i + 1][..i] == branch[..i];
      if branch[i].Message? {
        bytes := bytes + |branch[i].content|;
        if branch[i].toolCalls.Some? {
          bytes := bytes + jsonLen(branch[i].toolCalls.value);
        }
      }
    }
    assert branch[..|branch|] == branch;
    tokens := bytes / 4;
  }

  method ShouldCompact(branch: seq<SessionEntry>, jsonlBytes: nat, cfg: Config, jsonLen: seq<ToolCall> -> nat)
    returns (r: bool)
    ensures r <==>
      && cfg.enabled && |Messages(branch)| > cfg.keepRecent
      && (jsonlBytes > cfg.byteThreshold || ContentBytes(branch, jsonLen) / 4 > cfg.tokenThreshold)
  {
    if !cfg.enabled {
      return false;
    }
    var count := CountMessages(branch);
    if count <= cfg.keepRecent {
      return false;
    }
    if jsonlBytes > cfg.byteThreshold {
      return true;
    }
    var tokens := EstimatedTokens(branch, jsonLen);
    return tokens > cfg.tokenThreshold;
  }

  /** The messages handed to the summarizer; none when there is nothing to compact. */
  function Summarized(branch: seq<SessionEntry>, keepRecent: nat): Option<seq<SessionEntry>> {
    var total := |Messages(branch)|;
    if total <= keepRecent then None else Some(Messages(branch)[..total - keepRecent])
  }

  method SelectForSummary(branch: seq<SessionEntry>, keepRecent: nat) returns (r: Option<seq<SessionEntry>>)
    ensures r == Summarized(branch, keepRecent)
  {
    var totalMsgs := CountMessages(branch);
    if totalMsgs <= keepRecent {
      return None;
    }
    var split := totalMsgs - keepRecent;
    var toSummarize := [];
    var seenMsgs := 0;
    for i := 0 to |branch|
      invariant seenMsgs == |Messages(branch[..i])|
      invariant toSummarize == Messages(branch[..i])[..if seenMsgs < split then seenMsgs else split]
    {
      assert branch[..i + 1][..i] == branch[..i];
      if branch[i].Message? {
        if seenMsgs < split {
          toSummarize := toSummarize + [branch[i]];
        }
        seenMsgs := seenMsgs + 1;
      }
    }
    assert branch[..|branch|] == branch;
    return Some(toSummarize);
  }

  /** The entries `compact` keeps, which it counts as entries and not as messages. */
  function Kept(branch: seq<SessionEntry>, keepRecent: nat): seq<SessionEntry>
    requires keepRecent <= |branch|
  {
    branch[|branch| - keepRecent..]
  }

  /** One function counts messages, the other entries: between them they cover every message of the
      branch, in order and once, exactly when the kept entries are all messages. */
  lemma SummaryAndKeptCoverExactlyWhenKeptAreMessages(branch: seq<SessionEntry>, keepRecent: nat)
    requires |Messages(branch)| > keepRecent
    ensures keepRecent < |branch|
    ensures Summarized(branch, keepRecent).value + Messages(Kept(branch, keepRecent)) == Messages(branch)
      <==> forall i :: |branch| - keepRecent <= i < |branch| ==> branch[i].Message?
  {
    MessagesOfMessages(branch);
    var kept := Kept(branch, keepRecent);
    MessagesOfMessages(kept);
    assert branch == branch[..|branch| - keepRecent] + kept;
    MessagesConcat(branch[..|branch| - keepRecent], kept);
    var all := Messages(branch);
    if |Messages(kept)| == keepRecent {
      assert all[|all| - keepRecent..] == Messages(kept);
      forall i | |branch| - keepRecent <= i < |branch| ensures branch[i].Message? {
        assert branch[i] == kept[i - (|branch| - keepRecent)];
      }
    } else {
      assert |Summarized(branch, keepRecent).value + Messages(kept)| != |all|;
      assert exists i :: 0 <= i < |kept| && !kept[i].Message?;
      var i :| 0 <= i < |kept| && !kept[i].Message?;
      assert branch[|branch| - keepRecent + i] == kept[i];
    }
  }

  /** In reachable sessions that is always so: the messages given to the summarizer, then the messages
      kept, are exactly the messages of the branch; and the compaction does take place. */
  lemma SummaryThenKeptIsTheBranch(es: seq<SessionEntry>, keepRecent: nat)
    requires Good(es) && Terminates(es) && |Messages(Branch(es))| > keepRecent
    ensures var b := Branch(es);
      && keepRecent < |b|
      && Summarized(b, keepRecent).Some?
      && Messages(Kept(b, keepRecent)) == Kept(b, keepRecent)
      && Summarized(b, keepRecent).value + Kept(b, keepRecent) == Messages(b)
  {
    var b := Branch(es);
    GoodBranchIsChain(es);
    MessagesOfMessages(b);
    SummaryAndKeptCoverExactlyWhenKeptAreMessages(b, keepRecent);
    MessagesOfMessages(Kept(b, keepRecent));
  }

  lemma RunsSummarizeOrKeepEveryMessage(ops: seq<TreeOp>, keepRecent: nat)
    requires LegalRun(ops)
    ensures Terminates(RunTree(ops))
    ensures var b := Branch(RunTree(ops));
      |Messages(b)| > keepRecent ==>
        keepRecent < |b| && Summarized(b, keepRecent).Some?
        && Summarized(b, keepRecent).value + Kept(b, keepRecent) == Messages(b)
  {
    EveryRunHasAChainBranch(ops);
    if |Messages(Branch(RunTree(ops)))| > keepRecent {
      SummaryThenKeptIsTheBranch(RunTree(ops), keepRecent);
    }
  }
}
