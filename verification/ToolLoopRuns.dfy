/** What every run past the loop detector can and cannot execute
    (agent/src/core/tool_loop.rs, lines 52-278; agent/src/core/agent_loop.rs, lines 384-447). */
module ToolLoopRuns {
  import opened Base
  import opened ToolLoops

  /** An executed call and what it returned. */
  datatype Done = Done(call: Call, result: string)

  /** A call the model asks for: what it would return, and whether the turn is cancelled by then. */
  datatype Attempt = Attempt(call: Call, result: string, cancelled: bool)

  function Record(d: Done): CallRecord {
    CallRecord(d.call, Some(d.result))
  }

  /** The detector's history behind some executed calls. */
  function Window(done: seq<Done>): (h: seq<CallRecord>)
    ensures |h| <= HISTORY_SIZE
  {
    if done == [] then [] else Pushed(Window(done[..|done| - 1]), Record(done[|done| - 1]))
  }

  /** One pass of the tool loop: blocked and cancelled calls are not executed and not recorded. */
  function Passed(done: seq<Done>, a: Attempt): seq<Done> {
    if Blocked(Window(done), a.call) || a.cancelled then done else done + [Done(a.call, a.result)]
  }

  /** The calls a run executes. */
  function Executed(attempts: seq<Attempt>): seq<Done> {
    if attempts == [] then [] else Passed(Executed(attempts[..|attempts| - 1]), attempts[|attempts| - 1])
  }

  /** Every call got past the detector. */
  predicate Allowed(done: seq<Done>) {
    forall k :: 0 <= k < |done| ==> !Blocked(Window(done[..k]), done[k].call)
  }

  /** The detector driven by the tool loop keeps exactly the window of what was executed. */
  method Drive(detector: LoopDetector, ghost done: seq<Done>, a: Attempt) returns (executed: bool)
    requires detector.history == Window(done)
    modifies detector
    ensures detector.history == Window(Passed(done, a))
    ensures executed <==> Passed(done, a) != done
  {
    hide CheckOf, WithOutcome;
    var check := detector.CheckCall(a.call);
    if check.Some? && check.value.level == Critical {
      return false;
    }
    if a.cancelled {
      return false;
    }
    detector.RecordCall(a.call);
    detector.RecordOutcome(a.call, a.result);
    OutcomeClosesTheCall(Window(done), a.call, a.result);
    assert (done + [Done(a.call, a.result)])[..|done|] == done;
    executed := true;
  }

  lemma {:induction false} ExecutedIsAllowed(attempts: seq<Attempt>)
    ensures Allowed(Executed(attempts))
  {
    hide Blocked, Window;
    if attempts != [] {
      var before := Executed(attempts[..|attempts| - 1]);
      ExecutedIsAllowed(attempts[..|attempts| - 1]);
      var after := Executed(attempts);
      forall k | 0 <= k < |after| ensures !Blocked(Window(after[..k]), after[k].call) {
        if k < |before| {
          assert after[..k] == before[..k] && after[k] == before[k];
        } else {
          assert after[..k] == before;
        }
      }
    }
  }

  // -------------------------------------------------------------------------
  // The window
  // -------------------------------------------------------------------------

  function Least(a: nat, b: nat): nat {
    if a < b then a else b
  }

  /** The window is the last thirty executed calls. */
  lemma {:induction false} WindowIsLastThirty(done: seq<Done>)
    ensures |Window(done)| == Least(|done|, HISTORY_SIZE)
    ensures forall k :: 0 <= k < |Window(done)| ==> Window(done)[k] == Record(done[|done| - |Window(done)| + k])
  {
    if done != [] {
      var before := done[..|done| - 1];
      WindowIsLastThirty(before);
      var h, e := Window(before), Record(done[|done| - 1]);
      assert Window(done) == Pushed(h, e);
      if |h| + 1 > HISTORY_SIZE {
        assert forall k :: 0 <= k < |h| ==> (h + [e])[1..][k] == (h + [e])[k + 1];
      }
    }
  }

  // -------------------------------------------------------------------------
  // Identical calls
  // -------------------------------------------------------------------------

  lemma {:induction false} CountOfTail(h: seq<CallRecord>, call: Call, n: nat)
    requires n <= |h| && forall k :: |h| - n <= k < |h| ==> h[k].call == call
    ensures Count(h, call) >= n
  {
    if n > 0 { CountOfTail(h[..|h| - 1], call, n - 1); }
  }

  /** A call like the last one is no alternation. */
  lemma RepeatIsNoPingPong(h: seq<CallRecord>, call: Call)
    requires h != [] && h[|h| - 1].call == call
    ensures PingPongStreak(h, call) == (0, false)
  {
  }

  /** Twenty times the same call in a row block it. */
  lemma TwentyRepeatsBlock(h: seq<CallRecord>, call: Call)
    requires |h| >= CRITICAL_THRESHOLD && forall k :: |h| - CRITICAL_THRESHOLD <= k < |h| ==> h[k].call == call
    ensures Blocked(h, call)
  {
    hide Count, PingPongStreak, NoProgress;
    RepeatIsNoPingPong(h, call);
    CountOfTail(h, call, CRITICAL_THRESHOLD);
  }

  predicate SameCalls(done: seq<Done>, i: nat, j: nat)
    requires i <= j <= |done|
  {
    forall k :: i <= k < j ==> done[k].call == done[i].call
  }

  lemma AllowedRepeatsAtMostTwenty(done: seq<Done>, i: nat, j: nat)
    requires Allowed(done) && i <= j <= |done| && SameCalls(done, i, j)
    ensures j - i <= CRITICAL_THRESHOLD
  {
    hide Blocked, Window;
    if j - i > CRITICAL_THRESHOLD {
      var m := i + CRITICAL_THRESHOLD;
      var before := done[..m];
      WindowIsLastThirty(before);
      var h := Window(before);
      forall k | |h| - CRITICAL_THRESHOLD <= k < |h| ensures h[k].call == done[m].call {
        assert before[|before| - |h| + k] == done[m - |h| + k];
      }
      TwentyRepeatsBlock(h, done[m].call);
      assert false;
    }
  }

  /** No run executes more than twenty identical calls in a row, whatever they return. */
  lemma RepeatsAtMostTwenty(attempts: seq<Attempt>, i: nat, j: nat)
    requires i <= j <= |Executed(attempts)| && SameCalls(Executed(attempts), i, j)
    ensures j - i <= CRITICAL_THRESHOLD
  {
    ExecutedIsAllowed(attempts);
    AllowedRepeatsAtMostTwenty(Executed(attempts), i, j);
  }

  /** Hence the circuit breaker at thirty never fires. */
  lemma CircuitBreakerNeverFires(attempts: seq<Attempt>, call: Call)
    ensures var c := CheckOf(Window(Executed(attempts)), call); c.Some? ==> c.value.detector != CircuitBreaker
  {
    var done := Executed(attempts);
    var h := Window(done);
    WindowIsLastThirty(done);
    hide Window, Executed, PingPongStreak, Count;
    var n := NoProgress(h, call);
    hide NoProgress;
    if n >= GLOBAL_CIRCUIT_BREAKER {
      forall k | |done| - n <= k < |done| ensures done[k].call == call {
        assert h[k - (|done| - |h|)].call == call;
      }
      RepeatsAtMostTwenty(attempts, |done| - n, |done|);
      assert false;
    }
  }

  // -------------------------------------------------------------------------
  // Alternations
  // -------------------------------------------------------------------------

  predicate Alternates(done: seq<Done>, i: nat, j: nat)
    requires i <= j <= |done|
  {
    && (forall k :: i <= k && k + 2 < j ==> done[k].call == done[k + 2].call)
    && (i + 1 < j ==> done[i].call != done[i + 1].call)
  }

  /** Each call of the stretch always returned the same. */
  predicate ConstantResults(done: seq<Done>, i: nat, j: nat)
    requires i <= j <= |done|
  {
    forall k, l :: i <= k < j && i <= l < j && done[k].call == done[l].call ==> done[k].result == done[l].result
  }

  /** In an alternation, calls at an even distance are the same, at an odd distance the other. */
  lemma {:induction false} AlternationParity(done: seq<Done>, i: nat, j: nat, k: nat)
    requires i <= k < j <= |done| && i + 1 < j && Alternates(done, i, j)
    ensures done[k].call == done[if (k - i) % 2 == 0 then i else i + 1].call
    decreases k
  {
    if k >= i + 2 { AlternationParity(done, i, j, k - 2); }
  }

  /** Streak of an alternation that makes up the end of the window. */
  lemma {:induction false} AltStreakOfTail(h: seq<CallRecord>, n: nat, x: Call, y: Call)
    requires n <= |h|
    requires forall k :: |h| - n <= k < |h| ==> h[k].call == (if (|h| - 1 - k) % 2 == 0 then x else y)
    ensures AltStreak(h, x, y) >= n
    ensures n == |h| || h[|h| - 1 - n].call != (if n % 2 == 0 then x else y) ==> AltStreak(h, x, y) == n
    decreases n
  {
    if n > 0 {
      assert h[|h| - 1].call == x;
      var g := h[..|h| - 1];
      forall k | |g| - (n - 1) <= k < |g| ensures g[k].call == (if (|g| - 1 - k) % 2 == 0 then y else x) {
        assert g[k] == h[k];
      }
      AltStreakOfTail(g, n - 1, y, x);
    }
  }

  lemma PairedOfAlternation(h: seq<CallRecord>, x: Call, y: Call)
    requires |h| >= 2 && h[|h| - 1].call == x && h[|h| - 2].call == y && x != y
    ensures Paired(h, x) == Some(y)
  {
    var g := h[..|h| - 1];
    assert g[|g| - 1].call == y;
    assert Paired(h, x) == Paired(g, x);
  }

  /** An alternation that fills the end of the window, without progress, blocks the call that would go on. */
  lemma StuckAlternationBlocks(h: seq<CallRecord>, n: nat, x: Call, y: Call)
    requires 19 <= n <= |h| && x != y
    requires forall k :: |h| - n <= k < |h| ==> h[k].call == (if (|h| - 1 - k) % 2 == 0 then x else y)
    requires n == |h| || h[|h| - 1 - n].call != (if n % 2 == 0 then x else y)
    requires Stuck(h[|h| - n..], x)
    ensures Blocked(h, y)
  {
    hide NoProgress, Count, Stuck;
    assert h[|h| - 1].call == x && h[|h| - 2].call == y;
    PairedOfAlternation(h, x, y);
    AltStreakOfTail(h, n, x, y);
    hide Paired, AltStreak;
    assert PingPongStreak(h, y) == (n + 1, true);
  }

  /** The end of the window, as the calls it records. */
  lemma TailRecords(done: seq<Done>, m: nat, n: nat, h: seq<CallRecord>) returns (tail: seq<CallRecord>)
    requires n <= m <= |done| && n <= HISTORY_SIZE && h == Window(done[..m])
    ensures n <= |h| && tail == h[|h| - n..] && forall k :: 0 <= k < |tail| ==> tail[k] == Record(done[m - n + k])
  {
    WindowIsLastThirty(done[..m]);
    hide Window;
    tail := h[|h| - n..];
    forall k | 0 <= k < |tail| ensures tail[k] == Record(done[m - n + k]) {
      assert tail[k] == h[|h| - n + k];
      assert h[|h| - n + k] == Record(done[..m][m - |h| + (|h| - n + k)]);
    }
  }

  /** An alternation read from its end. */
  lemma AlternationBackwards(done: seq<Done>, i: nat, m: nat, k: nat)
    requires i + 1 < m + 1 <= |done| && i + 2 <= m && i <= k <= m && Alternates(done, i, m + 1)
    ensures done[m - 1].call != done[m].call
    ensures done[k].call == (if (m - 1 - k) % 2 == 0 then done[m - 1].call else done[m].call)
  {
    AlternationParity(done, i, m + 1, m - 1);
    AlternationParity(done, i, m + 1, m);
    AlternationParity(done, i, m + 1, k);
  }

  /** Constant results of two alternating calls are what the detector takes for no progress. */
  lemma ConstantIsStuck(seg: seq<Done>, tail: seq<CallRecord>, x: Call, y: Call)
    requires |tail| == |seg| >= 2 && forall k :: 0 <= k < |seg| ==> tail[k] == Record(seg[k])
    requires x != y && seg[|seg| - 1].call == x && seg[|seg| - 2].call == y
    requires forall k :: 0 <= k < |seg| ==> seg[k].call == x || seg[k].call == y
    requires ConstantResults(seg, 0, |seg|)
    ensures Stuck(tail, x)
  {
    forall j, k | 0 <= j < |tail| && 0 <= k < |tail| && (tail[j].call == x <==> tail[k].call == x)
      ensures tail[j].result == tail[k].result
    {
      assert seg[j].call == seg[k].call;
    }
    assert tail[|seg| - 1].call == x && tail[|seg| - 2].call != x;
  }

  /** The last calls of an alternation with constant results, as the window shows them. */
  lemma TailIsStuck(done: seq<Done>, i: nat, m: nat, n: nat, h: seq<CallRecord>)
    requires 2 <= n <= HISTORY_SIZE && i + n <= m < |done| && h == Window(done[..m])
    requires Alternates(done, i, m + 1) && ConstantResults(done, i, m + 1)
    ensures n <= |h| && done[m - 1].call != done[m].call
    ensures Stuck(h[|h| - n..], done[m - 1].call)
    ensures forall k :: |h| - n <= k < |h| ==> h[k].call == (if (|h| - 1 - k) % 2 == 0 then done[m - 1].call else done[m].call)
  {
    hide Stuck, Window, Alternates;
    var x, y := done[m - 1].call, done[m].call;
    var tail := TailRecords(done, m, n, h);
    var seg := done[m - n..m];
    AlternationBackwards(done, i, m, m - 2);
    forall k | |h| - n <= k < |h| ensures h[k].call == (if (|h| - 1 - k) % 2 == 0 then x else y) {
      assert h[k] == tail[k - (|h| - n)];
      AlternationBackwards(done, i, m, m - |h| + k);
    }
    forall k | 0 <= k < n ensures seg[k].call == x || seg[k].call == y {
      AlternationBackwards(done, i, m, m - n + k);
    }
    ConstantIsStuck(seg, tail, x, y);
  }

  /** Thirty alternating calls with constant results fill the window: the next one is blocked. */
  lemma AllowedAlternatesAtMostThirty(done: seq<Done>, i: nat, j: nat)
    requires Allowed(done) && i <= j <= |done| && Alternates(done, i, j) && ConstantResults(done, i, j)
    ensures j - i <= HISTORY_SIZE
  {
    hide Blocked, Window, Stuck;
    if j - i > HISTORY_SIZE {
      var m := i + HISTORY_SIZE;
      var h := Window(done[..m]);
      WindowIsLastThirty(done[..m]);
      TailIsStuck(done, i, m, HISTORY_SIZE, h);
      StuckAlternationBlocks(h, HISTORY_SIZE, done[m - 1].call, done[m].call);
      assert false;
    }
  }

  /** The alternation cannot be prolonged to the left. */
  predicate LeftMaximal(done: seq<Done>, i: nat)
    requires i + 1 < |done|
  {
    i == 0 || done[i - 1].call != done[i + 1].call
  }

  /** When the whole alternation had constant results, it ends after nineteen calls. */
  lemma AllowedWholeAlternationAtMostNineteen(done: seq<Done>, i: nat, j: nat)
    requires Allowed(done) && i + 1 < j <= |done| && Alternates(done, i, j) && ConstantResults(done, i, j)
    requires LeftMaximal(done, i)
    ensures j - i <= 19
  {
    hide Blocked, Window, Stuck;
    if j - i > 19 {
      var m := i + 19;
      var h := Window(done[..m]);
      WindowIsLastThirty(done[..m]);
      TailIsStuck(done, i, m, 19, h);
      if |h| > 19 {
        assert h[|h| - 20] == Record(done[..m][i - 1]);
        assert done[..m][i - 1] == done[i - 1];
        AlternationParity(done, i, j, m);
      }
      StuckAlternationBlocks(h, 19, done[m - 1].call, done[m].call);
      assert false;
    }
  }

  /** Alternations of two calls with constant results end after thirty calls, and after nineteen when they
      were constant from their start. */
  lemma AlternationsEnd(attempts: seq<Attempt>, i: nat, j: nat)
    requires i <= j <= |Executed(attempts)|
    requires Alternates(Executed(attempts), i, j) && ConstantResults(Executed(attempts), i, j)
    ensures j - i <= 30
    ensures i + 1 < j && LeftMaximal(Executed(attempts), i) ==> j - i <= 19
  {
    var done := Executed(attempts);
    ExecutedIsAllowed(attempts);
    hide Executed, Allowed, Alternates, ConstantResults, LeftMaximal;
    AllowedAlternatesAtMostThirty(done, i, j);
    if i + 1 < j && LeftMaximal(done, i) {
      AllowedWholeAlternationAtMostNineteen(done, i, j);
    }
  }

  // -------------------------------------------------------------------------
  // More than twenty calls in the window
  // -------------------------------------------------------------------------

  /** A call that stands twenty times in the window gets through exactly when it goes on with an alternation
      that is long enough for a warning and not yet stuck: the warning hides the generic check. */
  lemma PastTwentyExactlyInAlternations(attempts: seq<Attempt>, call: Call)
    requires Count(Window(Executed(attempts)), call) >= CRITICAL_THRESHOLD
    ensures var (streak, stuck) := PingPongStreak(Window(Executed(attempts)), call);
      Blocked(Window(Executed(attempts)), call) <==> (streak < WARNING_THRESHOLD || (streak >= CRITICAL_THRESHOLD && stuck))
  {
    CircuitBreakerNeverFires(attempts, call);
    hide PingPongStreak, NoProgress, Count, Window, Executed;
  }

  const A := Call("read", "")
  const B := Call("list", "")

  /** Sixteen times A, then B and A in turn. */
  function BusyCall(k: nat): Call {
    if k < 16 || k % 2 == 1 then A else B
  }

  function Busy(n: nat): (r: seq<Attempt>)
    ensures |r| == n && forall k :: 0 <= k < n ==> r[k] == Attempt(BusyCall(k), "same", false)
  {
    seq(n, (k: nat) => Attempt(BusyCall(k), "same", false))
  }

  function BusyDone(n: nat): (r: seq<Done>)
    ensures |r| == n && forall k :: 0 <= k < n ==> r[k] == Done(BusyCall(k), "same")
  {
    seq(n, (k: nat) => Done(BusyCall(k), "same"))
  }

  function BusyWindow(n: nat): (r: seq<CallRecord>)
    ensures |r| == n && forall k :: 0 <= k < n ==> r[k] == CallRecord(BusyCall(k), Some("same"))
  {
    seq(n, (k: nat) => CallRecord(BusyCall(k), Some("same")))
  }

  lemma {:induction false} BusyCount(n: nat)
    ensures Count(BusyWindow(n), A) == if n <= 16 then n else 16 + (n - 16) / 2
    ensures Count(BusyWindow(n), B) == if n <= 16 then 0 else (n - 15) / 2
  {
    if n > 0 {
      BusyCount(n - 1);
      assert BusyWindow(n)[..n - 1] == BusyWindow(n - 1);
    }
  }

  /** Two equal neighbours end an alternation. */
  lemma {:induction false} EqualNeighboursBreak(h: seq<CallRecord>, x: Call, y: Call, p: nat)
    requires x != y && p + 1 < |h| && h[p].call == h[p + 1].call
    ensures AltStreak(h, x, y) <= |h| - p - 1
    decreases |h|
  {
    if h[|h| - 1].call == x {
      var g := h[..|h| - 1];
      if p + 1 < |g| {
        EqualNeighboursBreak(g, y, x, p);
      } else {
        assert g[|g| - 1] == h[p];
      }
    }
  }

  lemma BusyStreakIsShort(n: nat)
    requires n < 30
    ensures PingPongStreak(BusyWindow(n), BusyCall(n)).0 < CRITICAL_THRESHOLD
  {
    hide Stuck;
    var h := BusyWindow(n);
    if n > 0 {
      var last := h[n - 1].call;
      var paired := Paired(h, last);
      if n >= 16 && paired.Some? {
        EqualNeighboursBreak(h, last, paired.value, 14);
      }
    }
  }

  lemma BusyStreakIsLong(n: nat)
    requires n >= 25 && n % 2 == 1
    ensures PingPongStreak(BusyWindow(n), A).0 >= WARNING_THRESHOLD
  {
    hide Stuck;
    var h := BusyWindow(n);
    PairedOfAlternation(h, B, A);
    AltStreakOfTail(h, 9, B, A);
    hide Paired, AltStreak;
  }

  lemma NothingBlocks(h: seq<CallRecord>, call: Call)
    requires |h| < GLOBAL_CIRCUIT_BREAKER && PingPongStreak(h, call).0 < CRITICAL_THRESHOLD
    requires Count(h, call) < CRITICAL_THRESHOLD || PingPongStreak(h, call).0 >= WARNING_THRESHOLD
    ensures !Blocked(h, call)
  {
    hide NoProgress, PingPongStreak, Count;
  }

  lemma BusyIsNotBlocked(n: nat)
    requires n < 30
    ensures !Blocked(BusyWindow(n), BusyCall(n))
  {
    hide NoProgress, PingPongStreak, Count, Blocked;
    BusyStreakIsShort(n);
    BusyCount(n);
    if n >= 25 && n % 2 == 1 { BusyStreakIsLong(n); }
    NothingBlocks(BusyWindow(n), BusyCall(n));
  }

  lemma BusySteps(n: nat)
    requires 0 < n <= 30
    ensures Busy(n)[..n - 1] == Busy(n - 1) && BusyDone(n)[..n - 1] == BusyDone(n - 1)
    ensures BusyDone(n) == BusyDone(n - 1) + [Done(BusyCall(n - 1), "same")]
    ensures Pushed(BusyWindow(n - 1), CallRecord(BusyCall(n - 1), Some("same"))) == BusyWindow(n)
  {
    hide BusyCall;
  }

  lemma {:induction false} BusyRun(n: nat)
    requires n <= 30
    ensures Executed(Busy(n)) == BusyDone(n) && Window(BusyDone(n)) == BusyWindow(n)
  {
    if n == 0 {
      assert Busy(0) == [] && BusyDone(0) == [];
    } else {
      hide Blocked, BusyCall, Pushed;
      BusyRun(n - 1);
      BusyIsNotBlocked(n - 1);
      BusySteps(n);
      assert Busy(n)[n - 1] == Attempt(BusyCall(n - 1), "same", false);
    }
  }

  /** So a call can stand in the window more often than the critical threshold. */
  lemma TwentyThreeInTheWindow()
    ensures Count(Window(Executed(Busy(30))), A) == 23
  {
    BusyRun(30);
    BusyCount(30);
  }
}
