/** Which bytes land last: key discipline of the queue, and exactly when the last accepted write of a
    key is the one that settles. */
module ReplicatorFreshness {
  import opened Base
  import opened Replicator

  // -------------------------------------------------------------------------
  // Keys
  // -------------------------------------------------------------------------

  ghost predicate Distinct(q: seq<PendingWrite>) {
    forall i, j :: 0 <= i < j < |q| ==> q[i].key != q[j].key
  }

  /** Queue keys are distinct while a write is in flight, and all but the front are when none is. */
  ghost predicate KeysInOrder(s: State) {
    Distinct(if InFlight(s) || s.shared.queue == [] then s.shared.queue else s.shared.queue[1..])
  }

  lemma AcceptKeepsTail(q: seq<PendingWrite>, key: Key, bytes: Bytes)
    requires q != [] ==> Distinct(q[1..])
    ensures Accept(q, key, bytes) != [] && Distinct(Accept(q, key, bytes)[1..])
    ensures Distinct(q) ==> Distinct(Accept(q, key, bytes))
  {
    var r := Accept(q, key, bytes);
    forall i, j | 0 <= i < j < |r[1..]| ensures r[1..][i].key != r[1..][j].key {
      assert r[1..][i] == r[i + 1] && r[1..][j] == r[j + 1];
      assert q[1..][i] == q[i + 1];
      if j + 1 < |q| { assert q[1..][j] == q[j + 1]; }
    }
  }

  lemma StepKeepsKeysInOrder(c: Config, s: State, step: Step)
    requires KeysInOrder(s)
    ensures KeysInOrder(Apply(c, s, step))
  {
    hide Accept, Distinct;
    if Enabled(c, s, step) {
      if InFlight(s) && s.shared.queue != [] { DistinctTail(s.shared.queue); }
      match step {
        case Enter(p, wake) => EnterKeepsKeysInOrder(c, s, p, wake);
        case Requeue(wake) =>
          assert RequeueStep(s, wake).shared.queue[1..] == s.shared.queue;
        case Look => LookKeepsKeysInOrder(s);
        case _ =>
          assert Apply(c, s, step).shared.queue == s.shared.queue;
          assert InFlight(Apply(c, s, step)) ==> InFlight(s);
      }
    }
  }

  lemma EnterKeepsKeysInOrder(c: Config, s: State, p: nat, wake: Option<Waiter>)
    requires KeysInOrder(s) && Enabled(c, s, Enter(p, wake))
    ensures KeysInOrder(EnterStep(c, s, p, wake))
  {
    hide Accept, Distinct;
    var s' := EnterStep(c, s, p, wake);
    assert InFlight(s') == InFlight(s);
    if EnqueueOutcomeOf(c, s.shared) == Accepted {
      if s.shared.queue == [] {
        EmptyIsDistinct();
      } else if InFlight(s) {
        DistinctTail(s.shared.queue);
      }
      AcceptKeepsTail(s.shared.queue, s.producers[p].key, s.producers[p].bytes);
      assert s'.shared.queue == Accept(s.shared.queue, s.producers[p].key, s.producers[p].bytes);
      assert InFlight(s) ==> Distinct(s'.shared.queue);
      assert !InFlight(s) ==> Distinct(s'.shared.queue[1..]);
    }
  }

  lemma EmptyIsDistinct()
    ensures Distinct([])
  {
  }

  lemma DistinctTail(q: seq<PendingWrite>)
    requires Distinct(q) && q != []
    ensures Distinct(q[1..])
  {
  }

  lemma LookKeepsKeysInOrder(s: State)
    requires KeysInOrder(s) && s.drainer.Locking?
    ensures KeysInOrder(LookStep(s))
  {
  }

  lemma {:induction false} EveryRunKeepsKeysInOrder(c: Config, producers: nat, steps: seq<Step>)
    ensures KeysInOrder(Run(c, producers, steps))
    decreases |steps|
  {
    if steps != [] {
      EveryRunKeepsKeysInOrder(c, producers, steps[..|steps| - 1]);
      StepKeepsKeysInOrder(c, Run(c, producers, steps[..|steps| - 1]), steps[|steps| - 1]);
    }
  }

  // -------------------------------------------------------------------------
  // Bytes
  // -------------------------------------------------------------------------

  /** The write in flight, then the queue: the order in which writes will settle. */
  function Pending(s: State): seq<PendingWrite> {
    (if InFlight(s) then [s.drainer.item] else []) + s.shared.queue
  }

  /** The bytes that will settle last for `key`. */
  function LastBytes(q: seq<PendingWrite>, key: Key): Option<Bytes> {
    if q == [] then None
    else if q[|q| - 1].key == key then Some(q[|q| - 1].bytes)
    else LastBytes(q[..|q| - 1], key)
  }

  /** The bytes reached the store, or surfaced as a dead letter. */
  ghost predicate Settled(s: State, key: Key, bytes: Bytes) {
    || (key in s.store && s.store[key] == bytes)
    || exists i :: 0 <= i < |s.shared.dead| && s.shared.dead[i].key == key && s.shared.dead[i].bytes == bytes
  }

  /** The last bytes accepted for a key are the last to settle for it. */
  ghost predicate FreshAt(s: State, key: Key) {
    key in s.hist.accepted ==>
      match LastBytes(Pending(s), key)
      case Some(b) => b == s.hist.accepted[key]
      case None => Settled(s, key, s.hist.accepted[key])
  }

  ghost predicate Fresh(s: State) {
    forall key :: FreshAt(s, key)
  }

  lemma {:induction false} LastBytesConcat(a: seq<PendingWrite>, b: seq<PendingWrite>, key: Key)
    ensures LastBytes(a + b, key) == if LastBytes(b, key).Some? then LastBytes(b, key) else LastBytes(a, key)
    decreases |b|
  {
    if b == [] {
      assert a + b == a;
    } else {
      assert (a + b)[..|a + b| - 1] == a + b[..|b| - 1];
      LastBytesConcat(a, b[..|b| - 1], key);
    }
  }

  lemma {:induction false} LastBytesAbsent(q: seq<PendingWrite>, key: Key)
    ensures LastBytes(q, key).None? <==> forall i :: 0 <= i < |q| ==> q[i].key != key
    decreases |q|
  {
    if q != [] {
      LastBytesAbsent(q[..|q| - 1], key);
    }
  }

  /** A write to `key` meets a queue that holds two entries for it: the one it coalesces into is not
      the last. A caller could see this in the queue before the call. */
  predicate StaleCoalesce(c: Config, s: State, step: Step) {
    && step.Enter? && Enabled(c, s, step) && EnqueueOutcomeOf(c, s.shared) == Accepted
    && var key := s.producers[step.p].key;
       var i := FirstIndex(s.shared.queue, key);
       i < |s.shared.queue| && FirstIndex(s.shared.queue[i + 1..], key) < |s.shared.queue| - i - 1
  }

  /** Splits a queue at its first entry for `key`. */
  lemma SplitAtFirst(q: seq<PendingWrite>, key: Key, bytes: Bytes)
    requires FirstIndex(q, key) < |q|
    ensures var i := FirstIndex(q, key);
      && q == q[..i] + [q[i]] + q[i + 1..]
      && Accept(q, key, bytes) == q[..i] + [q[i].(bytes := bytes)] + q[i + 1..]
  {
  }

  lemma LastOfOne(w: PendingWrite, key: Key)
    ensures LastBytes([w], key) == if w.key == key then Some(w.bytes) else None
  {
    assert [w][..0] == [];
  }

  /** What an accepted write does to the last bytes of every key. */
  lemma AcceptLastBytes(q: seq<PendingWrite>, key: Key, bytes: Bytes, k: Key)
    ensures var i := FirstIndex(q, key);
      LastBytes(Accept(q, key, bytes), k) ==
        if k != key then LastBytes(q, k)
        else if i < |q| && FirstIndex(q[i + 1..], key) < |q| - i - 1 then LastBytes(q, key)
        else Some(bytes)
  {
    var i := FirstIndex(q, key);
    if i < |q| {
      SplitAtFirst(q, key, bytes);
      var rest := q[i + 1..];
      LastBytesAbsent(rest, key);
      if FirstIndex(rest, key) < |rest| { assert rest[FirstIndex(rest, key)].key == key; }
      LastBytesConcat(q[..i] + [q[i]], rest, k);
      LastBytesConcat(q[..i] + [q[i].(bytes := bytes)], rest, k);
      LastBytesConcat(q[..i], [q[i]], k);
      LastBytesConcat(q[..i], [q[i].(bytes := bytes)], k);
      LastOfOne(q[i], k);
      LastOfOne(q[i].(bytes := bytes), k);
    } else {
      LastBytesConcat(q, [PendingWrite(key, bytes, 0)], k);
      LastOfOne(PendingWrite(key, bytes, 0), k);
    }
  }

  lemma PendingLast(s: State, key: Key)
    ensures LastBytes(Pending(s), key) ==
      if LastBytes(s.shared.queue, key).Some? then LastBytes(s.shared.queue, key)
      else if InFlight(s) && s.drainer.item.key == key then Some(s.drainer.item.bytes)
      else None
  {
    if InFlight(s) {
      LastBytesConcat([s.drainer.item], s.shared.queue, key);
      LastOfOne(s.drainer.item, key);
    } else {
      assert Pending(s) == s.shared.queue;
    }
  }

  /** The part of an accepted write that bears on freshness. */
  ghost predicate AcceptedInto(s: State, s': State, key: Key, bytes: Bytes) {
    && s'.shared == s.shared.(queue := Accept(s.shared.queue, key, bytes))
    && s'.store == s.store && InFlight(s') == InFlight(s) && (InFlight(s) ==> s'.drainer == s.drainer)
    && s'.hist.accepted == s.hist.accepted[key := bytes]
  }

  lemma AcceptKeepsOtherKeys(s: State, s': State, key: Key, bytes: Bytes, k: Key)
    requires AcceptedInto(s, s', key, bytes) && k != key && FreshAt(s, k)
    ensures FreshAt(s', k)
  {
    AcceptLastBytes(s.shared.queue, key, bytes, k);
    PendingLast(s, k);
    PendingLast(s', k);
  }

  lemma AcceptAtKey(s: State, s': State, key: Key, bytes: Bytes)
    requires AcceptedInto(s, s', key, bytes)
    ensures var q := s.shared.queue; var i := FirstIndex(q, key);
      FreshAt(s', key) <==>
        (i < |q| && FirstIndex(q[i + 1..], key) < |q| - i - 1 ==> LastBytes(q, key) == Some(bytes))
  {
    var q := s.shared.queue;
    var i := FirstIndex(q, key);
    AcceptLastBytes(q, key, bytes, key);
    PendingLast(s', key);
    LastBytesAbsent(q, key);
    if i < |q| { assert q[i].key == key; }
  }

  /** An accepted write keeps a fresh state fresh exactly when it does not coalesce into an entry that
      is not the key's last, or brings the very bytes that are already last. */
  lemma AcceptFreshness(c: Config, s: State, p: nat, wake: Option<Waiter>)
    requires Fresh(s) && Enabled(c, s, Enter(p, wake)) && EnqueueOutcomeOf(c, s.shared) == Accepted
    ensures Fresh(EnterStep(c, s, p, wake)) <==>
      (StaleCoalesce(c, s, Enter(p, wake)) ==>
         LastBytes(s.shared.queue, s.producers[p].key) == Some(s.producers[p].bytes))
  {
    var s' := EnterStep(c, s, p, wake);
    var key, bytes := s.producers[p].key, s.producers[p].bytes;
    assert AcceptedInto(s, s', key, bytes);
    AcceptAtKey(s, s', key, bytes);
    forall k | k != key ensures FreshAt(s', k) {
      assert FreshAt(s, k);
      AcceptKeepsOtherKeys(s, s', key, bytes, k);
    }
  }

  /** When the write in flight settles, the keys it was last for become settled. */
  lemma SettleKeepsFresh(s: State, s': State, key: Key)
    requires FreshAt(s, key) && InFlight(s) && !InFlight(s')
    requires s'.shared.queue == s.shared.queue && s'.hist.accepted == s.hist.accepted
    requires s'.store == s.store || s'.store == s.store[s.drainer.item.key := s.drainer.item.bytes]
    requires s.shared.dead <= s'.shared.dead
    requires Settled(s', s.drainer.item.key, s.drainer.item.bytes)
    ensures FreshAt(s', key)
  {
    PendingLast(s, key);
    PendingLast(s', key);
    if key in s.hist.accepted && LastBytes(s'.shared.queue, key).None? && s.drainer.item.key != key {
      var b := s.hist.accepted[key];
      assert Settled(s, key, b);
      if !(key in s.store && s.store[key] == b) {
        var i :| 0 <= i < |s.shared.dead| && s.shared.dead[i].key == key && s.shared.dead[i].bytes == b;
        assert s'.shared.dead[i] == s.shared.dead[i];
      }
    }
  }

  /** Taking from the queue and requeueing leave the order of pending writes alone. */
  lemma MovesKeepFresh(s: State, s': State)
    requires Fresh(s) && Pending(s') == Pending(s)
    requires s'.store == s.store && s'.shared.dead == s.shared.dead && s'.hist.accepted == s.hist.accepted
    ensures Fresh(s')
  {
    forall key ensures FreshAt(s', key) {
      assert FreshAt(s, key);
    }
  }

  lemma SettlingKeepsFresh(c: Config, s: State, step: Step)
    requires Fresh(s) && Enabled(c, s, step) && (step.PutOk? || step.Bury?)
    ensures Fresh(Apply(c, s, step))
  {
    var s' := Apply(c, s, step);
    if step.Bury? {
      assert s'.shared.dead[|s.shared.dead|] == DeadLetterOf(s.drainer.item, s.drainer.message);
    }
    forall key ensures FreshAt(s', key) {
      assert FreshAt(s, key);
      SettleKeepsFresh(s, s', key);
    }
  }

  lemma PutErrKeepsFresh(c: Config, s: State, message: string)
    requires Fresh(s) && s.drainer.Putting?
    ensures Fresh(PutErrStep(c, s, message))
  {
    var s' := PutErrStep(c, s, message);
    forall key ensures FreshAt(s', key) {
      assert FreshAt(s, key);
      PendingLast(s, key);
      PendingLast(s', key);
    }
  }

  lemma PendingUnmoved(c: Config, s: State, step: Step)
    requires Enabled(c, s, step)
    requires step.Call? || step.StopAll? || step.Announce? || step.Stamp? || step.Spurious? || step.Look?
             || step.Requeue? || (step.Enter? && EnqueueOutcomeOf(c, s.shared) != Accepted)
    ensures var s' := Apply(c, s, step);
      && Pending(s') == Pending(s) && s'.store == s.store && s'.shared.dead == s.shared.dead
      && s'.hist.accepted == s.hist.accepted
  {
  }

  /** Exactly when one step keeps the last accepted bytes last. */
  lemma StepFreshness(c: Config, s: State, step: Step)
    requires Fresh(s)
    ensures Fresh(Apply(c, s, step)) <==>
      (StaleCoalesce(c, s, step) ==>
         LastBytes(s.shared.queue, s.producers[step.p].key) == Some(s.producers[step.p].bytes))
  {
    if Enabled(c, s, step) {
      if step.Enter? && EnqueueOutcomeOf(c, s.shared) == Accepted {
        AcceptFreshness(c, s, step.p, step.wake);
      } else if step.PutOk? || step.Bury? {
        SettlingKeepsFresh(c, s, step);
      } else if step.PutErr? {
        PutErrKeepsFresh(c, s, step.message);
      } else {
        PendingUnmoved(c, s, step);
        MovesKeepFresh(s, Apply(c, s, step));
      }
    }
  }

  ghost predicate NoStaleCoalesce(c: Config, producers: nat, steps: seq<Step>) {
    forall i :: 0 <= i < |steps| ==> !StaleCoalesce(c, Run(c, producers, steps[..i]), steps[i])
  }

  lemma {:induction false} RunsWithoutStaleCoalescesStayFresh(c: Config, producers: nat, steps: seq<Step>)
    requires NoStaleCoalesce(c, producers, steps)
    ensures Fresh(Run(c, producers, steps))
    decreases |steps|
  {
    if steps != [] {
      hide StaleCoalesce, Fresh, Apply;
      var before := steps[..|steps| - 1];
      forall i | 0 <= i < |before| ensures !StaleCoalesce(c, Run(c, producers, before[..i]), before[i]) {
        assert before[..i] == steps[..i];
      }
      RunsWithoutStaleCoalescesStayFresh(c, producers, before);
      assert !StaleCoalesce(c, Run(c, producers, steps[..|steps| - 1]), steps[|steps| - 1]);
      StepFreshness(c, Run(c, producers, before), steps[|steps| - 1]);
    }
  }

  /** On such a run, once drained, the store or a dead letter holds the last accepted bytes of every key. */
  lemma DrainedRunHoldsLastBytes(c: Config, producers: nat, steps: seq<Step>, key: Key)
    requires NoStaleCoalesce(c, producers, steps)
    requires var s := Run(c, producers, steps); Pending(s) == [] && key in s.hist.accepted
    ensures var s := Run(c, producers, steps); Settled(s, key, s.hist.accepted[key])
  {
    RunsWithoutStaleCoalescesStayFresh(c, producers, steps);
    assert FreshAt(Run(c, producers, steps), key);
  }

  // -------------------------------------------------------------------------
  // Where stale coalesces come from
  // -------------------------------------------------------------------------

  /** A failing PUT comes back while a newer write of the same key is queued. */
  predicate LateRequeue(c: Config, s: State, step: Step) {
    step.Requeue? && s.drainer.BackingOff?
    && FirstIndex(s.shared.queue, s.drainer.item.key) < |s.shared.queue|
  }

  ghost predicate NoLateRequeue(c: Config, producers: nat, steps: seq<Step>) {
    forall i :: 0 <= i < |steps| ==> !LateRequeue(c, Run(c, producers, steps[..i]), steps[i])
  }

  lemma StepKeepsDistinct(c: Config, s: State, step: Step)
    requires Distinct(s.shared.queue) && !LateRequeue(c, s, step)
    ensures Distinct(Apply(c, s, step).shared.queue)
  {
    if Enabled(c, s, step) {
      match step {
        case Enter(p, wake) =>
          if EnqueueOutcomeOf(c, s.shared) == Accepted {
            AcceptKeepsTail(s.shared.queue, s.producers[p].key, s.producers[p].bytes);
          }
        case _ =>
      }
    }
  }

  lemma DistinctIsNeverStale(c: Config, s: State, step: Step)
    requires Distinct(s.shared.queue)
    ensures !StaleCoalesce(c, s, step)
  {
  }

  lemma {:induction false} RunsWithoutLateRequeuesAreDistinct(c: Config, producers: nat, steps: seq<Step>)
    requires NoLateRequeue(c, producers, steps)
    ensures Distinct(Run(c, producers, steps).shared.queue)
    ensures NoStaleCoalesce(c, producers, steps)
    decreases |steps|
  {
    if steps != [] {
      hide StaleCoalesce, LateRequeue, Distinct, Apply;
      var before := steps[..|steps| - 1];
      forall i | 0 <= i < |before| ensures !LateRequeue(c, Run(c, producers, before[..i]), before[i]) {
        assert before[..i] == steps[..i];
      }
      RunsWithoutLateRequeuesAreDistinct(c, producers, before);
      assert !LateRequeue(c, Run(c, producers, steps[..|steps| - 1]), steps[|steps| - 1]);
      StepKeepsDistinct(c, Run(c, producers, before), steps[|steps| - 1]);
      forall i | 0 <= i < |steps| ensures !StaleCoalesce(c, Run(c, producers, steps[..i]), steps[i]) {
        if i < |before| {
          assert before[..i] == steps[..i];
          assert !StaleCoalesce(c, Run(c, producers, before[..i]), before[i]);
        } else {
          DistinctIsNeverStale(c, Run(c, producers, before), steps[i]);
        }
      }
    }
  }

  /** When no write of a key is queued behind that key's failing PUT, the last accepted bytes settle. */
  lemma QuietRetriesSettleLastBytes(c: Config, producers: nat, steps: seq<Step>, key: Key)
    requires NoLateRequeue(c, producers, steps)
    requires var s := Run(c, producers, steps); Pending(s) == [] && key in s.hist.accepted
    ensures var s := Run(c, producers, steps); Settled(s, key, s.hist.accepted[key])
  {
    RunsWithoutLateRequeuesAreDistinct(c, producers, steps);
    DrainedRunHoldsLastBytes(c, producers, steps, key);
  }

  // -------------------------------------------------------------------------
  // The promise fails without that guard
  // -------------------------------------------------------------------------

  /** A newer write is queued behind a failing PUT, and a third coalesces into the requeued front. */
  lemma StaleRunPrefix(c: Config) returns (steps: seq<Step>)
    requires c == Config(8, 3)
    ensures var s := Run(c, 1, steps);
      && s.shared == Shared([PendingWrite("k", "v3", 1), PendingWrite("k", "v2", 0)], [], false)
      && s.producers == [Idle] && s.drainer.Locking? && s.hist.accepted == map["k" := "v3"]
  {
    assert Run(c, 1, []) == Init(1);
    hide Run;
    steps := RunWrite(c, [], "k", "v1");
    steps := RunTake(c, steps);
    steps := RunWrite(c, steps, "k", "v2");
    assert Run(c, 1, steps).shared.queue == [PendingWrite("k", "v2", 0)];
    steps := RunFail(c, steps);
    assert Run(c, 1, steps).shared.queue == [PendingWrite("k", "v1", 1), PendingWrite("k", "v2", 0)];
    steps := RunWrite(c, steps, "k", "v3");
  }

  /** A drained run without dead letters whose store does not hold the last accepted bytes. */
  lemma StaleBytesCanLandLast()
    ensures exists steps :: var s := Run(Config(8, 3), 1, steps);
      && Pending(s) == [] && s.shared.dead == []
      && "k" in s.hist.accepted && s.hist.accepted["k"] == "v3"
      && "k" in s.store && s.store["k"] == "v2"
  {
    hide Run;
    var c := Config(8, 3);
    var steps := StaleRunPrefix(c);
    steps := RunTake(c, steps);
    steps := RunStore(c, steps);
    steps := RunTake(c, steps);
    steps := RunStore(c, steps);
    var s := Run(c, 1, steps);
    assert s.shared.queue == [] && s.store["k"] == "v2";
  }
}
