/** How often one call can stand in the detector's window (agent/src/core/tool_loop.rs, lines 73-118). */
module ToolLoopWindows {
  import opened Base
  import opened ToolLoops
  import opened ToolLoopRuns

  /** How many of the executed calls from `lo` to `hi` are `call`. */
  function CountIn(done: seq<Done>, lo: nat, hi: nat, call: Call): (n: nat)
    requires lo <= hi <= |done|
    ensures n <= hi - lo
    decreases hi
  {
    if lo == hi then 0 else CountIn(done, lo, hi - 1, call) + (if done[hi - 1].call == call then 1 else 0)
  }

  lemma {:induction false} CountInSplit(done: seq<Done>, lo: nat, mid: nat, hi: nat, call: Call)
    requires lo <= mid <= hi <= |done|
    ensures CountIn(done, lo, hi, call) == CountIn(done, lo, mid, call) + CountIn(done, mid, hi, call)
    decreases hi
  {
    if mid < hi { CountInSplit(done, lo, mid, hi - 1, call); }
  }

  lemma {:induction false} CountOfRecords(h: seq<CallRecord>, done: seq<Done>, lo: nat, call: Call)
    requires lo + |h| <= |done| && forall k :: 0 <= k < |h| ==> h[k] == Record(done[lo + k])
    ensures Count(h, call) == CountIn(done, lo, lo + |h|, call)
    decreases |h|
  {
    if h != [] {
      CountOfRecords(h[..|h| - 1], done, lo, call);
      assert h[|h| - 1] == Record(done[lo + |h| - 1]);
    }
  }

  function Oldest(n: nat): nat {
    if n < HISTORY_SIZE then 0 else n - HISTORY_SIZE
  }

  /** Counting in the window is counting the last thirty executed calls. */
  lemma WindowCount(done: seq<Done>, n: nat, call: Call)
    requires n <= |done|
    ensures Count(Window(done[..n]), call) == CountIn(done, Oldest(n), n, call)
  {
    WindowIsLastThirty(done[..n]);
    hide Window;
    var h := Window(done[..n]);
    forall k | 0 <= k < |h| ensures h[k] == Record(done[Oldest(n) + k]) {
      assert done[..n][n - |h| + k] == done[Oldest(n) + k];
    }
    CountOfRecords(h, done, Oldest(n), call);
  }

  /** From `lo` on, every other executed call up to the last one is `call`. */
  predicate EveryOther(done: seq<Done>, lo: nat, hi: nat, call: Call)
    requires lo <= hi <= |done|
  {
    forall k :: lo <= k < hi ==> (done[k].call == call <==> (hi - 1 - k) % 2 == 0)
  }

  lemma {:induction false} EveryOtherCount(done: seq<Done>, lo: nat, hi: nat, call: Call)
    requires lo <= hi <= |done| && EveryOther(done, lo, hi, call)
    ensures CountIn(done, lo, hi, call) == (hi - lo + 1) / 2
    decreases hi
  {
    if lo + 1 < hi {
      EveryOtherCount(done, lo, hi - 2, call);
      assert done[hi - 1].call == call && done[hi - 2].call != call;
    }
  }

  /** What the streak counts, and the record that ends it. */
  lemma {:induction false} AltStreakShape(h: seq<CallRecord>, x: Call, y: Call)
    ensures var s := AltStreak(h, x, y);
      && (forall k :: |h| - s <= k < |h| ==> h[k].call == (if (|h| - 1 - k) % 2 == 0 then x else y))
      && (s < |h| ==> h[|h| - 1 - s].call != (if s % 2 == 0 then x else y))
    decreases |h|
  {
    if h != [] && h[|h| - 1].call == x {
      var g := h[..|h| - 1];
      AltStreakShape(g, y, x);
      var s := AltStreak(g, y, x);
      assert AltStreak(h, x, y) == s + 1;
      forall k | |g| - s <= k < |h| ensures h[k].call == (if (|h| - 1 - k) % 2 == 0 then x else y) {
        if k < |g| { assert g[k] == h[k]; }
      }
      if s < |g| { assert g[|g| - 1 - s] == h[|g| - 1 - s]; }
    }
  }

  lemma BlockedByCount(h: seq<CallRecord>, call: Call)
    requires !Blocked(h, call) && Count(h, call) >= CRITICAL_THRESHOLD
    ensures PingPongStreak(h, call).0 >= WARNING_THRESHOLD
  {
    hide Count, PingPongStreak, NoProgress;
  }

  /** A streak long enough for a warning, as the end of the window shows it. */
  lemma StreakShape(h: seq<CallRecord>, call: Call) returns (other: Call, s: nat)
    requires PingPongStreak(h, call).0 >= WARNING_THRESHOLD
    ensures other != call && WARNING_THRESHOLD <= s + 1 && s <= |h|
    ensures forall k :: |h| - s <= k < |h| ==> h[k].call == (if (|h| - 1 - k) % 2 == 0 then other else call)
    ensures s < |h| ==> h[|h| - 1 - s].call != (if s % 2 == 0 then other else call)
  {
    hide Stuck;
    other := h[|h| - 1].call;
    s := AltStreak(h, other, call);
    AltStreakShape(h, other, call);
    hide AltStreak;
  }

  /** The window's calls are the last executed ones. */
  lemma WindowCalls(done: seq<Done>, n: nat)
    requires n <= |done|
    ensures var h := Window(done[..n]);
      |h| == n - Oldest(n) && forall k :: 0 <= k < |h| ==> h[k].call == done[n - |h| + k].call
  {
    WindowIsLastThirty(done[..n]);
    hide Window;
    var h := Window(done[..n]);
    forall k | 0 <= k < |h| ensures h[k].call == done[n - |h| + k].call {
      assert h[k] == Record(done[..n][n - |h| + k]);
    }
  }

  /** A call that passes with a long streak goes on with an alternation of the last executed calls: `length` of them,
      itself included, with one before that breaks it unless the window ends there. */
  lemma PassedInAlternation(done: seq<Done>, call: Call) returns (other: Call, length: nat)
    requires done != [] && done[|done| - 1].call == call
    requires PingPongStreak(Window(done[..|done| - 1]), call).0 >= WARNING_THRESHOLD
    ensures other != call && WARNING_THRESHOLD <= length <= |done| && length <= HISTORY_SIZE + 1
    ensures forall k :: |done| - length <= k < |done| ==> done[k].call == (if (|done| - 1 - k) % 2 == 0 then call else other)
    ensures length == |Window(done[..|done| - 1])| + 1 ||
      (length < |done| && |done| - 1 - length >= Oldest(|done| - 1)
       && done[|done| - 1 - length].call != (if length % 2 == 0 then call else other))
  {
    hide Window, PingPongStreak;
    var n := |done| - 1;
    var h := Window(done[..n]);
    WindowCalls(done, n);
    var s: nat;
    other, s := StreakShape(h, call);
    length := s + 1;
    forall k | |done| - length <= k < |done| ensures done[k].call == (if (|done| - 1 - k) % 2 == 0 then call else other) {
      if k < n {
        assert h[k - (n - |h|)].call == done[k].call;
      }
    }
    if s < |h| {
      assert h[|h| - 1 - s].call == done[n - 1 - s].call;
    }
  }

  lemma ShortStreak(g: seq<CallRecord>, s: nat, call: Call, other: Call)
    requires 2 <= s < |g| && s + 1 < WARNING_THRESHOLD && other != call
    requires forall k :: |g| - s <= k < |g| ==> g[k].call == (if (|g| - 1 - k) % 2 == 0 then other else call)
    requires g[|g| - 1 - s].call != (if s % 2 == 0 then other else call)
    ensures PingPongStreak(g, call).0 < WARNING_THRESHOLD
  {
    hide Stuck;
    assert g[|g| - 1].call == other && g[|g| - 2].call == call;
    PairedOfAlternation(g, other, call);
    AltStreakOfTail(g, s, other, call);
    hide Paired, AltStreak;
  }

  /** Early in an alternation the streak is short, so the call stood in the window less than twenty times. */
  lemma EarlyInAlternation(done: seq<Done>, t: nat, p: nat, call: Call, other: Call)
    requires Allowed(done) && t < |done| && done[t].call == call && other != call && 3 <= p < WARNING_THRESHOLD
    requires p <= t && t - p >= Oldest(t)
    requires forall k :: t - p < k <= t ==> done[k].call == (if (t - k) % 2 == 0 then call else other)
    requires done[t - p].call != (if p % 2 == 0 then call else other)
    ensures CountIn(done, Oldest(t), t, call) < CRITICAL_THRESHOLD
  {
    hide Window, PingPongStreak, Blocked;
    var g := Window(done[..t]);
    assert !Blocked(Window(done[..t]), done[t].call);
    WindowCalls(done, t);
    var s := p - 1;
    forall k | |g| - s <= k < |g| ensures g[k].call == (if (|g| - 1 - k) % 2 == 0 then other else call) {
      assert g[k].call == done[t - |g| + k].call;
    }
    assert g[|g| - 1 - s].call == done[t - p].call;
    ShortStreak(g, s, call, other);
    WindowCount(done, t, call);
    if Count(g, call) >= CRITICAL_THRESHOLD { BlockedByCount(g, call); }
  }

  lemma {:induction false} CountInPrefix(done: seq<Done>, m: nat, lo: nat, hi: nat, call: Call)
    requires lo <= hi <= m <= |done|
    ensures CountIn(done[..m], lo, hi, call) == CountIn(done, lo, hi, call)
    decreases hi
  {
    if lo < hi { CountInPrefix(done, m, lo, hi - 1, call); }
  }

  lemma CountFromLater(done: seq<Done>, lo: nat, mid: nat, hi: nat, call: Call)
    requires lo <= mid <= hi <= |done|
    ensures CountIn(done, mid, hi, call) <= CountIn(done, lo, hi, call)
  {
    CountInSplit(done, lo, mid, hi, call);
  }

  /** The calls behind the early part of an alternation, added to what may stand in the window there. */
  lemma LateCount(done: seq<Done>, t: nat, lo: nat, call: Call)
    requires Oldest(t) <= lo <= t < |done| && done[t].call == call && (|done| - 1 - t) % 2 == 0
    requires CountIn(done, Oldest(t), t, call) < CRITICAL_THRESHOLD && EveryOther(done, t + 1, |done|, call)
    ensures CountIn(done, lo, |done|, call) <= 20 + (|done| - 1 - t) / 2
  {
    var n := |done|;
    CountFromLater(done, Oldest(t), lo, t, call);
    CountInSplit(done, lo, t, t + 1, call);
    CountInSplit(done, lo, t + 1, n, call);
    EveryOtherCount(done, t + 1, n, call);
    assert CountIn(done, t, t, call) == 0;
  }

  /** The calls of the alternation, added to anything in front of it. */
  lemma WideCount(done: seq<Done>, length: nat, lo: nat, call: Call)
    requires length <= |done| && lo <= |done| - length && |done| - lo <= HISTORY_SIZE
    requires EveryOther(done, |done| - length, |done|, call)
    ensures CountIn(done, lo, |done|, call) <= HISTORY_SIZE - length / 2
  {
    CountInSplit(done, lo, |done| - length, |done|, call);
    EveryOtherCount(done, |done| - length, |done|, call);
  }

  lemma AlternationIsEveryOther(done: seq<Done>, lo: nat, call: Call, other: Call)
    requires lo <= |done| && other != call
    requires forall k :: lo <= k < |done| ==> done[k].call == (if (|done| - 1 - k) % 2 == 0 then call else other)
    ensures EveryOther(done, lo, |done|, call)
  {
  }

  /** The last occurrence of the call in the early part of an alternation. */
  lemma EarlyOccurrence(done: seq<Done>, call: Call, other: Call, length: nat) returns (t: nat)
    requires Allowed(done) && other != call && WARNING_THRESHOLD <= length < |done|
    requires |done| - 1 - length >= Oldest(|done| - 1)
    requires forall k :: |done| - length <= k < |done| ==> done[k].call == (if (|done| - 1 - k) % 2 == 0 then call else other)
    requires done[|done| - 1 - length].call != (if length % 2 == 0 then call else other)
    ensures |done| - length < t < |done| && done[t].call == call
    ensures |done| - 1 - t == length - (if length % 2 == 0 then 8 else 9)
    ensures CountIn(done, Oldest(t), t, call) < CRITICAL_THRESHOLD
  {
    hide Allowed, CountIn;
    var p := if length % 2 == 0 then 8 else 9;
    t := |done| - 1 - (length - p);
    EarlyInAlternation(done, t, p, call, other);
  }

  /** Behind the early part of an alternation the call comes every other time, in front of it anything may stand: the
      two counts balance at twenty-three. */
  lemma BrokenAlternationBound(done: seq<Done>, call: Call, other: Call, length: nat)
    requires Allowed(done) && other != call && WARNING_THRESHOLD <= length < |done|
    requires |done| - 1 - length >= Oldest(|done| - 1)
    requires forall k :: |done| - length <= k < |done| ==> done[k].call == (if (|done| - 1 - k) % 2 == 0 then call else other)
    requires done[|done| - 1 - length].call != (if length % 2 == 0 then call else other)
    ensures CountIn(done, Oldest(|done|), |done|, call) <= 23
  {
    hide Allowed, CountIn;
    var t := EarlyOccurrence(done, call, other, length);
    AlternationIsEveryOther(done, t + 1, call, other);
    AlternationIsEveryOther(done, |done| - length, call, other);
    hide EveryOther;
    LateCount(done, t, Oldest(|done|), call);
    WideCount(done, length, Oldest(|done|), call);
  }

  /** An alternation that fills the window has the call in every other place. */
  lemma FullAlternationBound(done: seq<Done>, call: Call, other: Call, length: nat)
    requires other != call && length <= |done| && length >= |done| - Oldest(|done|)
    requires forall k :: |done| - length <= k < |done| ==> done[k].call == (if (|done| - 1 - k) % 2 == 0 then call else other)
    ensures CountIn(done, Oldest(|done|), |done|, call) <= 15
  {
    EveryOtherCount(done, Oldest(|done|), |done|, call);
  }

  lemma {:induction false} AllowedWindowBound(done: seq<Done>, call: Call)
    requires Allowed(done)
    ensures CountIn(done, Oldest(|done|), |done|, call) <= 23
    decreases |done|
  {
    hide Blocked, Window, PingPongStreak;
    if done != [] {
      var n := |done| - 1;
      CountInSplit(done, Oldest(n + 1), n, n + 1, call);
      CountFromLater(done, Oldest(n), Oldest(n + 1), n, call);
      if done[n].call != call {
        PrefixIsAllowed(done, n);
        AllowedWindowBound(done[..n], call);
        CountInPrefix(done, n, Oldest(n), n, call);
      } else if CountIn(done, Oldest(n), n, call) >= CRITICAL_THRESHOLD {
        WindowCount(done, n, call);
        assert !Blocked(Window(done[..n]), done[n].call);
        BlockedByCount(Window(done[..n]), call);
        var other, length := PassedInAlternation(done, call);
        if length == |Window(done[..n])| + 1 {
          WindowCalls(done, n);
          FullAlternationBound(done, call, other, length);
        } else {
          BrokenAlternationBound(done, call, other, length);
        }
      }
    }
  }

  lemma PrefixIsAllowed(done: seq<Done>, n: nat)
    requires Allowed(done) && n <= |done|
    ensures Allowed(done[..n])
  {
    hide Blocked, Window;
    forall k | 0 <= k < n ensures !Blocked(Window(done[..n][..k]), done[..n][k].call) {
      assert done[..n][..k] == done[..k];
    }
  }

  /** In no run does one call stand in the window of thirty more than twenty-three times; `TwentyThreeInTheWindow` is
      a run in which it does stand there that often. */
  lemma WindowHoldsAtMostTwentyThree(attempts: seq<Attempt>, call: Call)
    ensures Count(Window(Executed(attempts)), call) <= 23
  {
    hide Window, Executed, Allowed;
    var done := Executed(attempts);
    ExecutedIsAllowed(attempts);
    AllowedWindowBound(done, call);
    WindowCount(done, |done|, call);
    assert done[..|done|] == done;
  }
}
