/** The loop detector and the runs it allows (agent/src/core/tool_loop.rs; driven as in
    agent/src/core/agent_loop.rs, lines 384-447). Hashes of calls and of results are taken to be injective. */
module ToolLoops {
  import opened Base

  const HISTORY_SIZE: nat := 30
  const WARNING_THRESHOLD: nat := 10
  const CRITICAL_THRESHOLD: nat := 20
  const GLOBAL_CIRCUIT_BREAKER: nat := 30

  /** A tool and its arguments. */
  datatype Call = Call(tool: string, args: string)
  datatype CallRecord = CallRecord(call: Call, result: Option<string>)

  datatype Level = Warning | Critical
  datatype Detector = CircuitBreaker | PingPong | GenericRepeat
  datatype Check = Check(level: Level, detector: Detector, count: nat)

  // -------------------------------------------------------------------------
  // Streaks
  // -------------------------------------------------------------------------

  /** Length of the run of `call` with result `r` at the end of `h`. */
  function SameRun(h: seq<CallRecord>, call: Call, r: string): (n: nat)
    ensures n <= |h| && forall k :: |h| - n <= k < |h| ==> h[k] == CallRecord(call, Some(r))
    ensures n < |h| ==> h[|h| - n - 1] != CallRecord(call, Some(r))
  {
    if h != [] && h[|h| - 1] == CallRecord(call, Some(r)) then 1 + SameRun(h[..|h| - 1], call, r) else 0
  }

  /** Trailing repetitions of a call that all had the same result. */
  function NoProgress(h: seq<CallRecord>, call: Call): (n: nat)
    ensures n <= |h| && forall k :: |h| - n <= k < |h| ==> h[k].call == call
  {
    if h != [] && h[|h| - 1].call == call && h[|h| - 1].result.Some? then SameRun(h, call, h[|h| - 1].result.value) else 0
  }

  /** The call before the last one that differs from it. */
  function Paired(h: seq<CallRecord>, last: Call): (p: Option<Call>)
    ensures p.Some? ==> p.value != last
  {
    if h == [] then None else
    if h[|h| - 1].call != last then Some(h[|h| - 1].call) else Paired(h[..|h| - 1], last)
  }

  /** Length of the alternation x, y, x, ... read backwards from the end. */
  function AltStreak(h: seq<CallRecord>, x: Call, y: Call): (n: nat)
    ensures n <= |h|
  {
    if h != [] && h[|h| - 1].call == x then 1 + AltStreak(h[..|h| - 1], y, x) else 0
  }

  /** Every call has a result, the results of each of the two calls agree, and both occur. */
  predicate Stuck(h: seq<CallRecord>, x: Call) {
    && (forall k :: 0 <= k < |h| ==> h[k].result.Some?)
    && (forall j, k :: 0 <= j < |h| && 0 <= k < |h| && (h[j].call == x <==> h[k].call == x) ==> h[j].result == h[k].result)
    && (exists k :: 0 <= k < |h| && h[k].call == x)
    && (exists k :: 0 <= k < |h| && h[k].call != x)
  }

  /** Streak the upcoming call would make, and whether the alternation makes no progress. */
  function PingPongStreak(h: seq<CallRecord>, call: Call): (nat, bool) {
    if h == [] then (0, false) else
    var last := h[|h| - 1].call;
    var paired := Paired(h, last);
    if paired == None || call != paired.value then (0, false) else
    var streak := AltStreak(h, last, paired.value);
    if streak < 2 then (0, false) else (streak + 1, Stuck(h[|h| - streak..], last))
  }

  function Count(h: seq<CallRecord>, call: Call): (n: nat)
    ensures n <= |h|
  {
    if h == [] then 0 else Count(h[..|h| - 1], call) + (if h[|h| - 1].call == call then 1 else 0)
  }

  function CheckOf(h: seq<CallRecord>, call: Call): Option<Check> {
    var same := NoProgress(h, call);
    if same >= GLOBAL_CIRCUIT_BREAKER then Some(Check(Critical, CircuitBreaker, same)) else
    var (alternating, stuck) := PingPongStreak(h, call);
    if alternating >= CRITICAL_THRESHOLD && stuck then Some(Check(Critical, PingPong, alternating)) else
    if alternating >= WARNING_THRESHOLD then Some(Check(Warning, PingPong, alternating)) else
    var n := Count(h, call);
    if n >= CRITICAL_THRESHOLD then Some(Check(Critical, GenericRepeat, n)) else
    if n >= WARNING_THRESHOLD then Some(Check(Warning, GenericRepeat, n)) else None
  }

  predicate Blocked(h: seq<CallRecord>, call: Call) {
    var c := CheckOf(h, call);
    c.Some? && c.value.level == Critical
  }

  /** Push, and drop the oldest record beyond the window. */
  function Pushed(h: seq<CallRecord>, e: CallRecord): (r: seq<CallRecord>)
    ensures |h| <= HISTORY_SIZE ==> |r| <= HISTORY_SIZE
    ensures r != [] && r[|r| - 1] == e
  {
    if |h| + 1 > HISTORY_SIZE then (h + [e])[1..] else h + [e]
  }

  /** The most recent call without a result gets this one; without such a call a record is added. */
  function WithOutcome(h: seq<CallRecord>, call: Call, r: string): seq<CallRecord> {
    var k := OpenCall(h, call);
    if k < |h| then h[k := CallRecord(call, Some(r))] else Pushed(h, CallRecord(call, Some(r)))
  }

  /** Position of the most recent record of `call` without a result, or the length. */
  function OpenCall(h: seq<CallRecord>, call: Call): (k: nat)
    ensures k <= |h| && (k < |h| ==> h[k] == CallRecord(call, None))
    ensures forall j :: k < j < |h| ==> h[j] != CallRecord(call, None)
    ensures k == |h| ==> CallRecord(call, None) !in h
  {
    if h == [] then 0 else
    if h[|h| - 1] == CallRecord(call, None) then |h| - 1 else
    var k := OpenCall(h[..|h| - 1], call);
    if k == |h| - 1 then |h| else k
  }

  // -------------------------------------------------------------------------
  // The detector
  // -------------------------------------------------------------------------

  class LoopDetector {
    var history: seq<CallRecord>

    constructor ()
      ensures history == []
    {
      history := [];
    }

    method Reset()
      modifies this
      ensures history == []
    {
      history := [];
    }

    method GetNoProgressStreak(call: Call) returns (count: nat)
      ensures count == NoProgress(history, call)
    {
      count := 0;
      var last: Option<string> := None;
      var i := |history|;
      assert history[..i] == history;
      while i > 0
        invariant 0 <= i <= |history| && count == |history| - i
        invariant count == 0 <==> last == None
        invariant last.Some? ==> history[|history| - 1] == CallRecord(call, last)
        invariant last.Some? ==> NoProgress(history, call) == count + SameRun(history[..i], call, last.value)
      {
        var entry := history[i - 1];
        assert history[..i][..i - 1] == history[..i - 1];
        if entry.call != call || entry.result == None || (last.Some? && entry.result != last) {
          break;
        }
        last := entry.result;
        count := count + 1;
        i := i - 1;
      }
    }

    /** The search, behind the last record, for the call that alternates with it. */
    method FindPaired(last: Call) returns (paired: Option<Call>)
      requires history != [] && last == history[|history| - 1].call
      ensures paired == Paired(history, last)
    {
      var i := |history| - 1;
      while i > 0
        invariant 0 <= i <= |history|
        invariant Paired(history, last) == Paired(history[..i], last)
      {
        assert history[..i][..i - 1] == history[..i - 1];
        if history[i - 1].call != last {
          return Some(history[i - 1].call);
        }
        i := i - 1;
      }
      paired := None;
    }

    method CountAlternation(last: Call, paired: Call) returns (streak: nat)
      ensures streak == AltStreak(history, last, paired)
    {
      streak := 0;
      assert history[..|history|] == history;
      while streak < |history|
        invariant streak <= |history|
        invariant AltStreak(history, last, paired) == streak
          + AltStreak(history[..|history| - streak], if streak % 2 == 0 then last else paired,
                      if streak % 2 == 0 then paired else last)
      {
        var rest := history[..|history| - streak];
        var expected := if streak % 2 == 0 then last else paired;
        assert rest[..|rest| - 1] == history[..|history| - streak - 1];
        if history[|history| - 1 - streak].call != expected {
          return;
        }
        streak := streak + 1;
      }
    }

    /** The pass over the alternation's results, with the first result of each of the two calls. */
    method ResultsAreStuck(start: nat, last: Call) returns (stuck: bool)
      requires start <= |history|
      ensures stuck == Stuck(history[start..], last)
    {
      hide Tracks, Unstuck, Stuck;
      var a: Option<string>, b: Option<string> := None, None;
      var all := true;
      TracksNothing(last);
      assert history[start..start] == [];
      for i := start to |history|
        invariant all ==> Tracks(history[start..i], last, a, b)
        invariant !all ==> Unstuck(history[start..i], last)
      {
        var entry := history[i];
        assert history[start..i + 1] == history[start..i] + [entry];
        if all {
          TracksStep(history[start..i], entry, last, a, b);
        } else {
          UnstuckGrows(history[start..i], entry, last);
        }
        if entry.result == None {
          all := false;
        } else if entry.call == last {
          if a == None {
            a := entry.result;
          } else if a != entry.result {
            all := false;
          }
        } else {
          if b == None {
            b := entry.result;
          } else if b != entry.result {
            all := false;
          }
        }
      }
      assert history[start..|history|] == history[start..];
      if all {
        TracksDecides(history[start..], last, a, b);
      } else {
        UnstuckIsNotStuck(history[start..], last);
      }
      if a == None || b == None {
        all := false;
      }
      stuck := all;
    }

    method GetPingPongStreak(call: Call) returns (streak: nat, stuck: bool)
      ensures (streak, stuck) == PingPongStreak(history, call)
    {
      if history == [] {
        return 0, false;
      }
      var last := history[|history| - 1].call;
      var paired := FindPaired(last);
      if paired == None || call != paired.value {
        return 0, false;
      }
      streak := CountAlternation(last, paired.value);
      if streak < 2 {
        return 0, false;
      }
      stuck := ResultsAreStuck(|history| - streak, last);
      streak := streak + 1;
    }

    method CountCalls(call: Call) returns (n: nat)
      ensures n == Count(history, call)
    {
      n := 0;
      assert history[..|history|] == history;
      for i := 0 to |history|
        invariant n == Count(history[..i], call)
      {
        assert history[..i + 1][..i] == history[..i];
        n := n + (if history[i].call == call then 1 else 0);
      }
    }

    method CheckCall(call: Call) returns (r: Option<Check>)
      ensures r == CheckOf(history, call)
    {
      hide NoProgress, PingPongStreak, Count;
      var same := GetNoProgressStreak(call);
      if same >= GLOBAL_CIRCUIT_BREAKER {
        return Some(Check(Critical, CircuitBreaker, same));
      }
      var alternating, stuck := GetPingPongStreak(call);
      if alternating >= CRITICAL_THRESHOLD && stuck {
        return Some(Check(Critical, PingPong, alternating));
      }
      if alternating >= WARNING_THRESHOLD {
        return Some(Check(Warning, PingPong, alternating));
      }
      var n := CountCalls(call);
      if n >= CRITICAL_THRESHOLD {
        return Some(Check(Critical, GenericRepeat, n));
      }
      if n >= WARNING_THRESHOLD {
        return Some(Check(Warning, GenericRepeat, n));
      }
      r := None;
    }

    method RecordCall(call: Call)
      modifies this
      ensures history == Pushed(old(history), CallRecord(call, None))
    {
      history := history + [CallRecord(call, None)];
      if |history| > HISTORY_SIZE {
        history := history[1..];
      }
    }

    method RecordOutcome(call: Call, result: string)
      modifies this
      ensures history == WithOutcome(old(history), call, result)
    {
      var i := |history|;
      while i > 0
        invariant 0 <= i <= |history|
        invariant forall j :: i <= j < |history| ==> history[j] != CallRecord(call, None)
        invariant history == old(history)
      {
        i := i - 1;
        if history[i].call == call && history[i].result == None {
          history := history[i := CallRecord(call, Some(result))];
          return;
        }
      }
      history := history + [CallRecord(call, Some(result))];
      if |history| > HISTORY_SIZE {
        history := history[1..];
      }
    }
  }

  /** So far every call has a result, `a` for `x` and `b` for the others; neither is set before it is seen. */
  ghost predicate Tracks(h: seq<CallRecord>, x: Call, a: Option<string>, b: Option<string>) {
    && (forall k :: 0 <= k < |h| ==> h[k].result.Some? && h[k].result == (if h[k].call == x then a else b))
    && (a.Some? ==> exists k :: 0 <= k < |h| && h[k].call == x)
    && (b.Some? ==> exists k :: 0 <= k < |h| && h[k].call != x)
  }

  lemma TracksNothing(x: Call)
    ensures Tracks([], x, None, None)
  {
  }

  lemma TracksStep(h: seq<CallRecord>, e: CallRecord, x: Call, a: Option<string>, b: Option<string>)
    requires Tracks(h, x, a, b)
    ensures e.result == None ==> Unstuck(h + [e], x)
    ensures e.result.Some? && e.call == x && (a == None || a == e.result) ==> Tracks(h + [e], x, e.result, b)
    ensures e.result.Some? && e.call == x && a.Some? && a != e.result ==> Unstuck(h + [e], x)
    ensures e.result.Some? && e.call != x && (b == None || b == e.result) ==> Tracks(h + [e], x, a, e.result)
    ensures e.result.Some? && e.call != x && b.Some? && b != e.result ==> Unstuck(h + [e], x)
  {
    var g := h + [e];
    assert g[|h|] == e && forall k :: 0 <= k < |h| ==> g[k] == h[k];
  }

  lemma TracksDecides(h: seq<CallRecord>, x: Call, a: Option<string>, b: Option<string>)
    requires Tracks(h, x, a, b)
    ensures Stuck(h, x) <==> a.Some? && b.Some?
  {
  }

  lemma UnstuckIsNotStuck(h: seq<CallRecord>, x: Call)
    requires Unstuck(h, x)
    ensures !Stuck(h, x)
  {
  }

  predicate Unstuck(h: seq<CallRecord>, x: Call) {
    || (exists k :: 0 <= k < |h| && h[k].result == None)
    || (exists j, k :: 0 <= j < |h| && 0 <= k < |h| && (h[j].call == x <==> h[k].call == x) && h[j].result != h[k].result)
  }

  lemma UnstuckGrows(h: seq<CallRecord>, e: CallRecord, x: Call)
    requires Unstuck(h, x)
    ensures Unstuck(h + [e], x)
  {
    var g := h + [e];
    if k :| 0 <= k < |h| && h[k].result == None {
      assert g[k].result == None;
    } else {
      var j, k :| 0 <= j < |h| && 0 <= k < |h| && (h[j].call == x <==> h[k].call == x) && h[j].result != h[k].result;
      assert g[j] == h[j] && g[k] == h[k];
    }
  }

  /** A call that is recorded and then gets its outcome is one finished record. */
  lemma OutcomeClosesTheCall(h: seq<CallRecord>, call: Call, r: string)
    ensures WithOutcome(Pushed(h, CallRecord(call, None)), call, r) == Pushed(h, CallRecord(call, Some(r)))
  {
  }
}
