/** What the store holds of a run's writes when the queue coalesces them
    (agent/src/core/cloud/replicator.rs, lines 80-182). */
module CoalescedWrites {
  import opened Base
  import opened Replicator
  import opened SessionLog
  import opened ReplicatedSessions
  import F = ReplicatorFreshness

  /** Auxiliary: for each pending write the write that pushed it and the last one coalesced into it, and for each stored
      key the write whose bytes it has; writes by their number in the run. */
  datatype Track = Track(pushed: seq<nat>, latest: seq<nat>, stored: map<Key, nat>)

  /** Everything before this write is settled. */
  function Frontier(writes: seq<Put>, t: Track): nat {
    if t.pushed == [] then |writes| else t.pushed[0]
  }

  ghost predicate PendingTracked(writes: seq<Put>, pend: seq<Put>, t: Track) {
    && |t.pushed| == |t.latest| == |pend|
    && (forall i :: 0 <= i < |pend| ==>
          t.pushed[i] <= t.latest[i] < |writes| && writes[t.latest[i]] == pend[i] && writes[t.pushed[i]].key == pend[i].key)
    && (forall i, j :: 0 <= i < j < |pend| ==> t.pushed[i] < t.pushed[j])
    && (forall i, j :: 0 <= i < j < |pend| && pend[i].key == pend[j].key ==> t.latest[i] < t.pushed[j])
  }

  ghost predicate Begun(writes: seq<Put>, n: nat, k: Key)
    requires n <= |writes|
  {
    exists x :: 0 <= x < n && writes[x].key == k
  }

  /** Each stored key has the bytes of one of its writes. */
  ghost predicate Versioned(writes: seq<Put>, store: map<Key, Bytes>, stored: map<Key, nat>) {
    && store.Keys == stored.Keys
    && forall k :: k in store ==> stored[k] < |writes| && writes[stored[k]] == Put(k, store[k])
  }

  ghost predicate OlderThanPending(pend: seq<Put>, t: Track)
    requires |t.pushed| == |pend|
  {
    forall k, i :: k in t.stored && 0 <= i < |pend| && pend[i].key == k ==> t.stored[k] < t.pushed[i]
  }

  /** The store has this write or a later one of its key. */
  predicate IsSettled(writes: seq<Put>, t: Track, x: nat)
    requires x < |writes|
  {
    writes[x].key in t.stored && x <= t.stored[writes[x].key]
  }

  predicate CoveredBy(writes: seq<Put>, pend: seq<Put>, t: Track, x: nat, i: nat)
    requires x < |writes| && i < |pend| && |t.pushed| == |t.latest| == |pend|
  {
    pend[i].key == writes[x].key && t.pushed[i] <= x <= t.latest[i]
  }

  ghost predicate AllAccounted(writes: seq<Put>, pend: seq<Put>, t: Track)
    requires |t.pushed| == |t.latest| == |pend|
  {
    forall x :: 0 <= x < |writes| ==> IsSettled(writes, t, x) || exists i :: 0 <= i < |pend| && CoveredBy(writes, pend, t, x, i)
  }

  ghost predicate Tracked(writes: seq<Put>, pend: seq<Put>, store: map<Key, Bytes>, t: Track) {
    && PendingTracked(writes, pend, t) && Versioned(writes, store, t.stored) && OlderThanPending(pend, t)
    && Frontier(writes, t) <= |writes| && AllAccounted(writes, pend, t)
    && forall k :: k in store ==> Begun(writes, Frontier(writes, t), k)
  }

  // -------------------------------------------------------------------------
  // Steps
  // -------------------------------------------------------------------------

  lemma PushIsTracked(writes: seq<Put>, pend: seq<Put>, store: map<Key, Bytes>, t: Track, w: Put)
    requires Tracked(writes, pend, store, t)
    ensures Tracked(writes + [w], pend + [w], store, Track(t.pushed + [|writes|], t.latest + [|writes|], t.stored))
  {
    var writes', pend', t' := writes + [w], pend + [w], Track(t.pushed + [|writes|], t.latest + [|writes|], t.stored);
    assert Frontier(writes', t') == Frontier(writes, t);
    PushKeepsPending(writes, pend, t, w);
    hide PendingTracked;
    forall x | 0 <= x < |writes'|
      ensures IsSettled(writes', t', x) || exists i :: 0 <= i < |pend'| && CoveredBy(writes', pend', t', x, i)
    {
      if x == |writes| {
        assert CoveredBy(writes', pend', t', x, |pend|);
      } else if !IsSettled(writes, t, x) {
        var i :| 0 <= i < |pend| && CoveredBy(writes, pend, t, x, i);
        assert CoveredBy(writes', pend', t', x, i);
      }
    }
    forall k | k in store ensures Begun(writes', Frontier(writes', t'), k) {
      BegunStays(writes, w, Frontier(writes, t), k);
    }
  }

  lemma PushKeepsPending(writes: seq<Put>, pend: seq<Put>, t: Track, w: Put)
    requires PendingTracked(writes, pend, t)
    ensures PendingTracked(writes + [w], pend + [w], Track(t.pushed + [|writes|], t.latest + [|writes|], t.stored))
    ensures |t.pushed| == |t.latest| == |pend| && (pend != [] ==> t.pushed[0] < |writes|)
  {
  }

  lemma BegunStays(writes: seq<Put>, w: Put, n: nat, k: Key)
    requires n <= |writes| && Begun(writes, n, k)
    ensures Begun(writes + [w], n, k)
  {
    var x :| 0 <= x < n && writes[x].key == k;
    assert (writes + [w])[x].key == k;
  }

  lemma CoalesceIsTracked(writes: seq<Put>, pend: seq<Put>, store: map<Key, Bytes>, t: Track, w: Put, p: nat)
    requires Tracked(writes, pend, store, t) && p < |pend| && pend[p].key == w.key
    requires forall j :: p < j < |pend| ==> pend[j].key != w.key
    ensures Tracked(writes + [w], pend[p := w], store, t.(latest := t.latest[p := |writes|]))
  {
    var writes', pend', t' := writes + [w], pend[p := w], t.(latest := t.latest[p := |writes|]);
    CoalesceKeepsPending(writes, pend, t, w, p);
    hide PendingTracked;
    assert Frontier(writes', t') == Frontier(writes, t);
    forall x | 0 <= x < |writes'|
      ensures IsSettled(writes', t', x) || exists i :: 0 <= i < |pend'| && CoveredBy(writes', pend', t', x, i)
    {
      if x == |writes| {
        assert CoveredBy(writes', pend', t', x, p);
      } else if !IsSettled(writes, t, x) {
        var i :| 0 <= i < |pend| && CoveredBy(writes, pend, t, x, i);
        assert CoveredBy(writes', pend', t', x, i);
      }
    }
    forall k | k in store ensures Begun(writes', Frontier(writes', t'), k) {
      BegunStays(writes, w, Frontier(writes, t), k);
    }
  }

  lemma CoalesceKeepsPending(writes: seq<Put>, pend: seq<Put>, t: Track, w: Put, p: nat)
    requires PendingTracked(writes, pend, t) && p < |pend| && pend[p].key == w.key
    requires forall j :: p < j < |pend| ==> pend[j].key != w.key
    ensures PendingTracked(writes + [w], pend[p := w], t.(latest := t.latest[p := |writes|]))
    ensures |t.pushed| == |t.latest| == |pend| && t.pushed[0] < |writes| && t.pushed[p] < |writes|
  {
  }

  /** Storing the first pending write settles it and what was coalesced into it. */
  lemma SettleIsTracked(writes: seq<Put>, pend: seq<Put>, store: map<Key, Bytes>, t: Track)
    requires Tracked(writes, pend, store, t) && pend != []
    ensures var e := pend[0];
      Tracked(writes, pend[1..], store[e.key := e.bytes], Track(t.pushed[1..], t.latest[1..], t.stored[e.key := t.latest[0]]))
  {
    var e := pend[0];
    var rest, store' := pend[1..], store[e.key := e.bytes];
    var t' := Track(t.pushed[1..], t.latest[1..], t.stored[e.key := t.latest[0]]);
    SettledPending(writes, pend, store, t);
    forall x | 0 <= x < |writes|
      ensures IsSettled(writes, t', x) || exists i :: 0 <= i < |rest| && CoveredBy(writes, rest, t', x, i)
    {
      SettledWrite(writes, pend, store, t, x);
    }
    assert t.pushed[0] < Frontier(writes, t') <= |writes|;
    forall k | k in store' ensures Begun(writes, Frontier(writes, t'), k) {
      if k == e.key {
        assert writes[t.pushed[0]].key == k;
      } else {
        assert Begun(writes, Frontier(writes, t), k);
        var x :| 0 <= x < Frontier(writes, t) && writes[x].key == k;
        assert x < Frontier(writes, t');
      }
    }
  }

  lemma SettledPending(writes: seq<Put>, pend: seq<Put>, store: map<Key, Bytes>, t: Track)
    requires Tracked(writes, pend, store, t) && pend != []
    ensures var e, rest := pend[0], pend[1..];
      var t' := Track(t.pushed[1..], t.latest[1..], t.stored[e.key := t.latest[0]]);
      PendingTracked(writes, rest, t') && Versioned(writes, store[e.key := e.bytes], t'.stored) && OlderThanPending(rest, t')
  {
    hide AllAccounted;
  }

  lemma SettledWrite(writes: seq<Put>, pend: seq<Put>, store: map<Key, Bytes>, t: Track, x: nat)
    requires Tracked(writes, pend, store, t) && pend != [] && x < |writes|
    ensures var e, rest := pend[0], pend[1..];
      var t' := Track(t.pushed[1..], t.latest[1..], t.stored[e.key := t.latest[0]]);
      IsSettled(writes, t', x) || exists i :: 0 <= i < |rest| && CoveredBy(writes, rest, t', x, i)
  {
    var e, rest := pend[0], pend[1..];
    var t' := Track(t.pushed[1..], t.latest[1..], t.stored[e.key := t.latest[0]]);
    if IsSettled(writes, t, x) {
      assert writes[x].key == e.key ==> t.stored[e.key] < t.pushed[0];
    } else {
      var i :| 0 <= i < |pend| && CoveredBy(writes, pend, t, x, i);
      if i > 0 { assert CoveredBy(writes, rest, t', x, i - 1); }
    }
  }

  // -------------------------------------------------------------------------
  // Runs
  // -------------------------------------------------------------------------

  /** No write is given up. */
  predicate BuriesNothing(c: Config, producers: nat, steps: seq<Step>) {
    steps == [] ||
    (BuriesNothing(c, producers, steps[..|steps| - 1])
     && !(steps[|steps| - 1].Bury? && Enabled(c, Run(c, producers, steps[..|steps| - 1]), steps[|steps| - 1])))
  }

  lemma AcceptPends(c: Config, s: State, step: Step) returns (p: nat)
    requires AcceptedBy(c, s, step).Some? && F.Distinct(s.shared.queue)
    ensures var w, pend, s' := AcceptedBy(c, s, step).value, PendingPuts(s), Apply(c, s, step);
      && s'.store == s.store && p <= |pend|
      && (p == |pend| ==> PendingPuts(s') == pend + [w])
      && (p < |pend| ==> pend[p].key == w.key && PendingPuts(s') == pend[p := w])
      && forall j :: p < j < |pend| ==> pend[j].key != w.key
  {
    var w, pend, s' := AcceptedBy(c, s, step).value, PendingPuts(s), Apply(c, s, step);
    var q := s.shared.queue;
    var i := FirstIndex(q, w.key);
    assert InFlight(s') == InFlight(s) && (InFlight(s) ==> s'.drainer == s.drainer);
    assert s'.shared.queue == Accept(q, w.key, w.bytes);
    var front := if InFlight(s) then [Put(s.drainer.item.key, s.drainer.item.bytes)] else [];
    p := |front| + i;
    if i == |q| {
      assert PutsOf(s'.shared.queue) == PutsOf(q) + [w];
      assert front + (PutsOf(q) + [w]) == front + PutsOf(q) + [w];
    } else {
      assert PutsOf(s'.shared.queue) == PutsOf(q)[i := w];
      assert (front + PutsOf(q))[p := w] == front + PutsOf(q)[i := w];
    }
  }

  /** On every run without late requeues and dead letters, coalescing included, the store has of every key begun before
      some write the bytes of that key's last write before it, or of a later one, and of no other key anything. */
  lemma {:induction false} RunsAreTracked(c: Config, producers: nat, steps: seq<Step>) returns (t: Track)
    requires F.NoLateRequeue(c, producers, steps) && BuriesNothing(c, producers, steps)
    ensures var s := Run(c, producers, steps); Tracked(WritesOf(c, producers, steps), PendingPuts(s), s.store, t)
    decreases |steps|
  {
    hide Tracked, AcceptedBy, PendingPuts, Enabled, Apply, F.LateRequeue;
    if steps == [] {
      t := Track([], [], map[]);
      NothingIsTracked(producers);
    } else {
      var before, last := steps[..|steps| - 1], steps[|steps| - 1];
      forall i | 0 <= i < |before| ensures !F.LateRequeue(c, Run(c, producers, before[..i]), before[i]) {
        assert before[..i] == steps[..i];
      }
      t := RunsAreTracked(c, producers, before);
      F.RunsWithoutLateRequeuesAreDistinct(c, producers, before);
      var s, writes := Run(c, producers, before), WritesOf(c, producers, before);
      var pend := PendingPuts(s);
      assert writes + [] == writes;
      if AcceptedBy(c, s, last).Some? {
        var w := AcceptedBy(c, s, last).value;
        var p := AcceptPends(c, s, last);
        if p == |pend| {
          PushIsTracked(writes, pend, s.store, t, w);
          t := Track(t.pushed + [|writes|], t.latest + [|writes|], t.stored);
        } else {
          CoalesceIsTracked(writes, pend, s.store, t, w, p);
          TracksPending(writes, pend, s.store, t);
          t := t.(latest := t.latest[p := |writes|]);
        }
      } else if last.PutOk? && Enabled(c, s, last) {
        PutOkPends(c, s);
        SettleIsTracked(writes, pend, s.store, t);
        TracksPending(writes, pend, s.store, t);
        t := Track(t.pushed[1..], t.latest[1..], t.stored[pend[0].key := t.latest[0]]);
      } else {
        OthersKeepPending(c, s, last);
      }
    }
  }

  lemma TracksPending(writes: seq<Put>, pend: seq<Put>, store: map<Key, Bytes>, t: Track)
    requires Tracked(writes, pend, store, t)
    ensures |t.pushed| == |t.latest| == |pend|
  {
  }

  lemma PutOkPends(c: Config, s: State)
    requires Enabled(c, s, PutOk)
    ensures var pend, s' := PendingPuts(s), Apply(c, s, PutOk);
      pend != [] && PendingPuts(s') == pend[1..] && s'.store == s.store[pend[0].key := pend[0].bytes]
  {
  }

  lemma NothingIsTracked(producers: nat)
    ensures Tracked([], PendingPuts(Init(producers)), Init(producers).store, Track([], [], map[]))
  {
    NothingIsPending(producers);
    assert Init(producers).store == map[];
    hide PendingPuts, Init;
  }
}
