/** No lost wakeups, bounded queue and orderly shutdown of the replicator. */
module ReplicatorWakeups {
  import opened Base
  import opened Replicator

  /** One in-flight write on top of a full queue still fits a `u32` length. */
  predicate Workable(c: Config) {
    1 <= c.queueMax < U32_MODULUS - 1
  }

  function Outstanding(s: State): nat {
    |s.shared.queue| + if InFlight(s) then 1 else 0
  }

  /** A sleeping drainer has nothing to do and nobody to serve. */
  predicate DrainerSleepsJustly(s: State) {
    s.drainer.Asleep? ==> s.shared.queue == [] && !s.shared.stopping && !ProducerWaits(s)
  }

  /** A sleeping producer faces a full queue, or the drainer is about to `notify_all`. */
  predicate ProducersSleepJustly(c: Config, s: State) {
    forall p: nat :: p < |s.producers| && s.producers[p].Waiting? ==>
      !s.shared.stopping && (Full(c, s.shared) || s.drainer.Announcing?)
  }

  predicate NoLostWakeup(c: Config, s: State) {
    DrainerSleepsJustly(s) && ProducersSleepJustly(c, s)
  }

  predicate Sound(c: Config, s: State) {
    && NoLostWakeup(c, s)
    && Outstanding(s) <= c.queueMax + 1
    && (s.drainer.Exited? ==> s.shared.stopping && s.shared.queue == [])
  }

  lemma StepKeepsSound(c: Config, s: State, step: Step)
    requires Workable(c) && Sound(c, s)
    ensures Sound(c, Apply(c, s, step))
  {
    if Enabled(c, s, step) {
      match step {
        case Enter(p, wake) => EnterKeepsSound(c, s, p, wake);
        case Requeue(wake) => RequeueKeepsSound(c, s, wake);
        case StopAll => assert forall p: nat :: p < |s.producers| ==> !WakeAll(s).producers[p].Waiting?;
        case Announce => assert forall p: nat :: p < |s.producers| ==> !WakeAll(s).producers[p].Waiting?;
        case _ =>
      }
    }
  }

  lemma EnterKeepsSound(c: Config, s: State, p: nat, wake: Option<Waiter>)
    requires Workable(c) && Sound(c, s) && Enabled(c, s, Enter(p, wake))
    ensures Sound(c, EnterStep(c, s, p, wake))
  {
    var s' := EnterStep(c, s, p, wake);
    if EnqueueOutcomeOf(c, s.shared) == MustWait {
      assert s'.producers[p].Waiting?;
    }
  }

  lemma RequeueKeepsSound(c: Config, s: State, wake: Option<Waiter>)
    requires Workable(c) && Sound(c, s) && Enabled(c, s, Requeue(wake))
    ensures Sound(c, RequeueStep(s, wake))
  {
  }

  /** Every reachable state, in every interleaving, is free of lost wakeups, holds at most one
      write more than the cap, and has an empty queue once the drainer has exited. */
  lemma {:induction false} EveryRunIsSound(c: Config, producers: nat, steps: seq<Step>)
    requires Workable(c)
    ensures Sound(c, Run(c, producers, steps))
    decreases |steps|
  {
    if steps != [] {
      EveryRunIsSound(c, producers, steps[..|steps| - 1]);
      StepKeepsSound(c, Run(c, producers, steps[..|steps| - 1]), steps[|steps| - 1]);
    }
  }

  // -------------------------------------------------------------------------
  // A blocked `enqueue` is woken
  // -------------------------------------------------------------------------

  predicate IsDrainerStep(step: Step) {
    step.Look? || step.Announce? || step.PutOk? || step.PutErr? || step.Stamp? || step.Bury? || step.Requeue?
  }

  ghost predicate DrainerCanStep(c: Config, s: State) {
    exists step :: IsDrainerStep(step) && Enabled(c, s, step)
  }

  /** A wakeup that `notify_one` may choose. */
  lemma SomeWakeIsLegal(s: State) returns (wake: Option<Waiter>)
    ensures LegalWake(s, wake)
  {
    if s.drainer.Asleep? {
      wake := Some(TheDrainer);
    } else if ProducerWaits(s) {
      var p: nat :| p < |s.producers| && s.producers[p].Waiting?;
      wake := Some(Producer(p));
    } else {
      wake := None;
    }
  }

  /** The drainer can always step, unless it sleeps or has exited. */
  lemma AwakeDrainerCanStep(c: Config, s: State)
    requires !s.drainer.Asleep? && !s.drainer.Exited?
    ensures DrainerCanStep(c, s)
  {
    match s.drainer
    case Locking => assert Enabled(c, s, Look);
    case Announcing(_) => assert Enabled(c, s, Announce);
    case Putting(_) => assert Enabled(c, s, PutOk);
    case Stamping => assert Enabled(c, s, Stamp);
    case Burying(_, _) => assert Enabled(c, s, Bury);
    case BackingOff(_) =>
      var wake := SomeWakeIsLegal(s);
      assert Enabled(c, s, Requeue(wake));
  }

  /** In every reachable state with a blocked producer or a queued write some drainer step is enabled; new calls,
      `stop` and spurious wakeups do not count as such. */
  lemma SomeThreadCanMove(c: Config, producers: nat, steps: seq<Step>)
    requires Workable(c)
    ensures var s := Run(c, producers, steps);
      ProducerWaits(s) || s.shared.queue != [] ==> DrainerCanStep(c, s)
  {
    hide Run;
    EveryRunIsSound(c, producers, steps);
    var s := Run(c, producers, steps);
    if ProducerWaits(s) || s.shared.queue != [] { AwakeDrainerCanStep(c, s); }
  }

  /** Drainer steps until its next `notify_all`, while a producer is blocked. */
  function ServiceRank(s: State): (r: nat)
    ensures r <= 4
  {
    match s.drainer
    case Announcing(_) => 1
    case Locking => 2
    case Stamping => 3
    case Burying(_, _) => 3
    case BackingOff(_) => 3
    case Putting(_) => 4
    case _ => 0
  }

  predicate IsBlocked(s: State, p: nat) {
    p < |s.producers| && s.producers[p].Waiting?
  }

  /** While `p` stays blocked a drainer step lowers the rank, and no other step changes it. */
  lemma ServiceStepRank(c: Config, s: State, p: nat, step: Step)
    requires Workable(c) && Sound(c, s) && IsBlocked(s, p) && Enabled(c, s, step)
    requires IsBlocked(Apply(c, s, step), p)
    ensures if IsDrainerStep(step) then ServiceRank(Apply(c, s, step)) < ServiceRank(s)
            else ServiceRank(Apply(c, s, step)) == ServiceRank(s)
  {
  }

  /** Whether `p` is blocked in the first state of a run and in every later one. */
  predicate BlockedThroughout(c: Config, s: State, p: nat, steps: seq<Step>)
    decreases |steps|
  {
    IsBlocked(s, p) && (steps == [] || BlockedThroughout(c, Apply(c, s, steps[0]), p, steps[1..]))
  }

  lemma {:induction false} BlockedRank(c: Config, s: State, p: nat, steps: seq<Step>)
    requires Workable(c) && Sound(c, s) && BlockedThroughout(c, s, p, steps)
    ensures DrainerSteps(c, s, steps) + ServiceRank(Continue(c, s, steps)) <= ServiceRank(s)
    ensures Sound(c, Continue(c, s, steps)) && IsBlocked(Continue(c, s, steps), p)
    decreases |steps|
  {
    hide Sound, ServiceRank, Enabled;
    if steps != [] {
      StepKeepsSound(c, s, steps[0]);
      if Enabled(c, s, steps[0]) { ServiceStepRank(c, s, p, steps[0]); }
      BlockedRank(c, Apply(c, s, steps[0]), p, steps[1..]);
    }
  }

  /** A producer blocked on a full queue is woken by the fourth drainer step at the latest, whatever the store, the
      other producers and the scheduler do: while it stays blocked the drainer takes at most three steps, and the
      next one is enabled. */
  lemma BlockedEnqueueIsWoken(c: Config, producers: nat, before: seq<Step>, p: nat, steps: seq<Step>)
    requires Workable(c) && BlockedThroughout(c, Run(c, producers, before), p, steps)
    ensures var s := Run(c, producers, before);
      DrainerSteps(c, s, steps) <= 3 && DrainerCanStep(c, Continue(c, s, steps))
  {
    hide Run, DrainerSteps, Continue, BlockedThroughout;
    EveryRunIsSound(c, producers, before);
    var s := Run(c, producers, before);
    BlockedRank(c, s, p, steps);
    AwakeDrainerCanStep(c, Continue(c, s, steps));
  }

  // -------------------------------------------------------------------------
  // Counting the drainer's steps
  // -------------------------------------------------------------------------

  function DrainerSteps(c: Config, s: State, steps: seq<Step>): nat
    decreases |steps|
  {
    if steps == [] then 0
    else (if IsDrainerStep(steps[0]) && Enabled(c, s, steps[0]) then 1 else 0)
         + DrainerSteps(c, Apply(c, s, steps[0]), steps[1..])
  }

  function Continue(c: Config, s: State, steps: seq<Step>): State
    decreases |steps|
  {
    if steps == [] then s else Continue(c, Apply(c, s, steps[0]), steps[1..])
  }

  // -------------------------------------------------------------------------
  // The guards are needed
  // -------------------------------------------------------------------------

  /** With a cap of zero a producer and the drainer both sleep, and nothing is stopping. */
  lemma ZeroCapDeadlocks(c: Config)
    requires c.queueMax == 0
    ensures exists steps :: !NoLostWakeup(c, Run(c, 1, steps))
  {
    var s1 := [Call(0, "k", "v")];
    var s2 := s1 + [Enter(0, None)];
    var s3 := s2 + [Look];
    RunSnoc(c, 1, [], Call(0, "k", "v"));
    assert [] + [Call(0, "k", "v")] == s1;
    RunSnoc(c, 1, s1, Enter(0, None));
    RunSnoc(c, 1, s2, Look);
    var s := Run(c, 1, s3);
    assert s.drainer.Asleep? && s.producers[0].Waiting?;
    assert !NoLostWakeup(c, s);
  }

  /** Below the `u32` edge, a positive cap is exactly what rules out lost wakeups. */
  lemma WakeupsAreSafeExactlyWithACap(c: Config)
    requires c.queueMax < U32_MODULUS - 1
    ensures (forall producers: nat, steps: seq<Step> :: NoLostWakeup(c, Run(c, producers, steps)))
            <==> c.queueMax >= 1
  {
    if c.queueMax >= 1 {
      forall producers: nat, steps: seq<Step> ensures NoLostWakeup(c, Run(c, producers, steps)) {
        EveryRunIsSound(c, producers, steps);
      }
    } else {
      ZeroCapDeadlocks(c);
    }
  }

  function Letters(n: nat): string {
    seq(n, i => 'a')
  }

  /** One producer's first write reaches the drainer's PUT. */
  lemma FirstPut(c: Config) returns (steps: seq<Step>)
    requires Workable(c)
    ensures Run(c, 1, steps) == State(Shared([], [], false), [Idle], Putting(PendingWrite("", "v", 0)), map[],
                                      Run(c, 1, steps).hist)
  {
    assert Run(c, 1, []) == Init(1);
    hide Run;
    steps := RunWrite(c, [], "", "v");
    assert Run(c, 1, steps).shared.queue == [PendingWrite("", "v", 0)];
    steps := RunTake(c, steps);
  }

  /** One producer fills the queue up to `n` entries while the drainer is in its PUT. */
  lemma {:induction false} FillWhilePutting(c: Config, n: nat) returns (steps: seq<Step>)
    requires Workable(c) && n <= c.queueMax
    ensures var s := Run(c, 1, steps);
      && s.drainer == Putting(PendingWrite("", "v", 0)) && s.producers == [Idle]
      && s.shared.queue == seq(n, (i: nat) => PendingWrite(Letters(i + 1), "v", 0)) && !s.shared.stopping
  {
    hide Run;
    if n == 0 {
      steps := FirstPut(c);
    } else {
      var before := FillWhilePutting(c, n - 1);
      var q := Run(c, 1, before).shared.queue;
      var key := Letters(n);
      forall j | 0 <= j < |q| ensures q[j].key != key { assert |q[j].key| == j + 1; }
      assert FirstIndex(q, key) == |q|;
      steps := RunWrite(c, before, key, "v");
    }
  }

  /** The bound of `Sound` is tight for every cap, once there are retries: a requeued write ignores backpressure, so the
      queue itself can hold one entry more than the cap. */
  lemma QueueCanExceedCap(c: Config)
    requires Workable(c) && 1 <= c.retryMax < 256
    ensures exists steps :: |Run(c, 1, steps).shared.queue| == c.queueMax + 1
  {
    var steps := FillWhilePutting(c, c.queueMax);
    steps := RunFail(c, steps);
    assert |Run(c, 1, steps).shared.queue| == c.queueMax + 1;
  }

  /** Without retries the queue stays within the cap. */
  predicate WithinCap(c: Config, s: State) {
    |s.shared.queue| <= c.queueMax && !s.drainer.BackingOff?
  }

  lemma StepKeepsWithinCap(c: Config, s: State, step: Step)
    requires c.queueMax < U32_MODULUS && c.retryMax == 0 && RetriesInRange(c, s) && WithinCap(c, s)
    ensures WithinCap(c, Apply(c, s, step))
  {
  }

  /** A cap of zero lets nothing in. */
  predicate NothingEnters(s: State) {
    s.shared.queue == [] && !InFlight(s)
  }

  lemma StepKeepsNothing(c: Config, s: State, step: Step)
    requires c.queueMax == 0 && NothingEnters(s)
    ensures NothingEnters(Apply(c, s, step))
  {
  }

  lemma {:induction false} RunsStayWithinCap(c: Config, producers: nat, steps: seq<Step>)
    requires c.queueMax < U32_MODULUS && (c.retryMax == 0 || c.queueMax == 0)
    ensures |Run(c, producers, steps).shared.queue| <= c.queueMax
    ensures if c.queueMax == 0 then NothingEnters(Run(c, producers, steps)) else WithinCap(c, Run(c, producers, steps))
    decreases |steps|
  {
    hide NothingEnters, WithinCap, RetriesInRange, Apply;
    if steps == [] {
      StartsEmpty(c, producers);
    } else {
      var before, last := steps[..|steps| - 1], steps[|steps| - 1];
      RunsStayWithinCap(c, producers, before);
      EveryRunKeepsRetriesInRange(c, producers, before);
      if c.queueMax == 0 {
        StepKeepsNothing(c, Run(c, producers, before), last);
      } else {
        StepKeepsWithinCap(c, Run(c, producers, before), last);
      }
      QueueIsWithinCap(c, Run(c, producers, steps));
    }
  }

  lemma StartsEmpty(c: Config, producers: nat)
    ensures NothingEnters(Init(producers)) && WithinCap(c, Init(producers)) && Init(producers).shared.queue == []
  {
  }

  lemma QueueIsWithinCap(c: Config, s: State)
    requires if c.queueMax == 0 then NothingEnters(s) else WithinCap(c, s)
    ensures |s.shared.queue| <= c.queueMax
  {
  }

  /** Below the `u32` edge the queue stays within the cap on every run exactly when there are no retries, or when the
      cap lets nothing in. */
  lemma CapHoldsExactlyWithoutRetries(c: Config)
    requires c.queueMax < U32_MODULUS - 1 && c.retryMax < 256
    ensures (forall producers: nat, steps: seq<Step> :: |Run(c, producers, steps).shared.queue| <= c.queueMax)
            <==> c.retryMax == 0 || c.queueMax == 0
  {
    hide Run;
    if c.retryMax == 0 || c.queueMax == 0 {
      forall producers: nat, steps: seq<Step> ensures |Run(c, producers, steps).shared.queue| <= c.queueMax {
        RunsStayWithinCap(c, producers, steps);
      }
    } else {
      QueueCanExceedCap(c);
    }
  }

  // -------------------------------------------------------------------------
  // Shutdown
  // -------------------------------------------------------------------------

  /** Work a write may still cost, given the retries it has left. */
  function Cost(c: Config, item: PendingWrite): nat {
    if item.retryCount <= c.retryMax then 5 * (c.retryMax - item.retryCount) else 0
  }

  function QueueCost(c: Config, q: seq<PendingWrite>): nat {
    if q == [] then 0 else Cost(c, q[0]) + 5 + QueueCost(c, q[1..])
  }

  /** Bound on the drainer's steps until it exits. */
  function Rank(c: Config, s: State): nat {
    QueueCost(c, s.shared.queue) +
    match s.drainer
    case Locking => 1
    case Asleep => 2
    case Announcing(item) => Cost(c, item) + 4
    case Putting(item) => Cost(c, item) + 3
    case Stamping => 2
    case Burying(_, _) => 2
    case BackingOff(item) => Cost(c, item) + 7
    case Exited => 0
  }

  predicate RetriesInRange(c: Config, s: State) {
    && (forall i :: 0 <= i < |s.shared.queue| ==> s.shared.queue[i].retryCount <= c.retryMax)
    && (s.drainer.Announcing? || s.drainer.Putting? || s.drainer.BackingOff? ==>
          s.drainer.item.retryCount <= c.retryMax)
  }

  lemma StepKeepsRetriesInRange(c: Config, s: State, step: Step)
    requires RetriesInRange(c, s)
    ensures RetriesInRange(c, Apply(c, s, step))
  {
  }

  lemma {:induction false} EveryRunKeepsRetriesInRange(c: Config, producers: nat, steps: seq<Step>)
    ensures RetriesInRange(c, Run(c, producers, steps))
    decreases |steps|
  {
    if steps != [] {
      EveryRunKeepsRetriesInRange(c, producers, steps[..|steps| - 1]);
      StepKeepsRetriesInRange(c, Run(c, producers, steps[..|steps| - 1]), steps[|steps| - 1]);
    }
  }

  lemma StoppingStepRank(c: Config, s: State, step: Step)
    requires c.retryMax < 255 && Sound(c, s) && RetriesInRange(c, s)
    requires s.shared.stopping && Enabled(c, s, step)
    ensures Apply(c, s, step).shared.stopping
    ensures if IsDrainerStep(step) then Rank(c, Apply(c, s, step)) < Rank(c, s)
            else Rank(c, Apply(c, s, step)) == Rank(c, s)
  {
    if step.Requeue? {
      assert RequeueStep(s, step.wake).shared.queue[1..] == s.shared.queue;
    }
  }

  /** After `stop` the drainer takes at most `Rank` more steps, whatever the store and the producers
      do; until it has exited, one of its steps is enabled. So `stop` is always followed by an exit. */
  lemma {:induction false} StopDrains(c: Config, s: State, steps: seq<Step>)
    requires Workable(c) && c.retryMax < 255 && Sound(c, s) && RetriesInRange(c, s) && s.shared.stopping
    ensures DrainerSteps(c, s, steps) + Rank(c, Continue(c, s, steps)) <= Rank(c, s)
    ensures var t := Continue(c, s, steps); t.drainer.Exited? || DrainerCanStep(c, t)
    decreases |steps|
  {
    if steps == [] {
      if !s.drainer.Exited? { AwakeDrainerCanStep(c, s); }
    } else {
      StepKeepsSound(c, s, steps[0]);
      StepKeepsRetriesInRange(c, s, steps[0]);
      if Enabled(c, s, steps[0]) {
        StoppingStepRank(c, s, steps[0]);
      }
      StopDrains(c, Apply(c, s, steps[0]), steps[1..]);
    }
  }
}
