/** Conservation of writes and surface-and-stop: every pushed write is in exactly one place, is
    attempted a bounded number of times, and is dead-lettered with an exact retry count. */
module ReplicatorTickets {
  import opened Base
  import opened Replicator

  /** Tickets of the writes in the queue, in flight, stored and dead-lettered. */
  function Places(s: State): multiset<nat> {
    multiset(s.hist.tickets) + (if InFlight(s) then multiset{s.hist.held} else multiset{})
    + multiset(s.hist.stored) + multiset(s.hist.buried)
  }

  /** Every ticket ever drawn is in exactly one place, and no other ticket is anywhere. */
  ghost predicate Conserved(s: State) {
    && |s.hist.keys| == |s.hist.attempts|
    && forall t: nat :: Places(s)[t] == if t < |s.hist.keys| then 1 else 0
  }

  /** What a queued, held, stored or buried ticket says about its write. */
  ghost predicate QueuedAs(c: Config, h: History, i: int, w: PendingWrite)
    requires 0 <= i < |h.tickets|
  {
    && h.tickets[i] < |h.keys| == |h.attempts|
    && w.key == h.keys[h.tickets[i]]
    && w.retryCount == h.attempts[h.tickets[i]] <= c.retryMax
  }

  ghost predicate Queued(c: Config, s: State) {
    && |s.hist.tickets| == |s.shared.queue|
    && forall i :: 0 <= i < |s.shared.queue| ==> QueuedAs(c, s.hist, i, s.shared.queue[i])
  }

  ghost predicate Held(c: Config, s: State) {
    InFlight(s) ==>
      && s.hist.held < |s.hist.keys| == |s.hist.attempts|
      && s.drainer.item.key == s.hist.keys[s.hist.held]
      && s.drainer.item.retryCount == s.hist.attempts[s.hist.held]
      && (if s.drainer.Burying? then s.drainer.item.retryCount == c.retryMax + 1
          else s.drainer.item.retryCount <= c.retryMax)
  }

  ghost predicate StoredAs(c: Config, h: History, store: map<Key, Bytes>, t: nat) {
    t < |h.keys| == |h.attempts| && h.keys[t] in store && 1 <= h.attempts[t] <= c.retryMax + 1
  }

  ghost predicate Stored(c: Config, s: State) {
    forall t :: t in s.hist.stored ==> StoredAs(c, s.hist, s.store, t)
  }

  ghost predicate BuriedAs(c: Config, h: History, i: int, d: DeadLetterEntry)
    requires 0 <= i < |h.buried|
  {
    && h.buried[i] < |h.keys| == |h.attempts|
    && d.key == h.keys[h.buried[i]]
    && d.retryCount == c.retryMax
    && h.attempts[h.buried[i]] == c.retryMax + 1
  }

  ghost predicate Buried(c: Config, s: State) {
    && |s.hist.buried| == |s.shared.dead|
    && forall i :: 0 <= i < |s.shared.dead| ==> BuriedAs(c, s.hist, i, s.shared.dead[i])
  }

  /** The accounting invariant. */
  ghost predicate Accounted(c: Config, s: State) {
    Conserved(s) && Queued(c, s) && Held(c, s) && Stored(c, s) && Buried(c, s)
  }

  /** A held ticket is nowhere else. */
  lemma HeldIsElsewhereNot(s: State)
    requires Conserved(s) && InFlight(s)
    ensures s.hist.held < |s.hist.keys|
    ensures s.hist.held !in s.hist.tickets && s.hist.held !in s.hist.stored && s.hist.held !in s.hist.buried
  {
    assert Places(s)[s.hist.held] >= 1;
  }

  /** A state that differs only in who sleeps is accounted for alike. */
  lemma SleepersDoNotCount(c: Config, s: State, s': State)
    requires Accounted(c, s) && s' == s.(drainer := s'.drainer, producers := s'.producers)
    requires s'.drainer == s.drainer || (!InFlight(s) && !InFlight(s'))
    ensures Accounted(c, s')
  {
    assert Places(s') == Places(s);
  }

  /** Accepting a write, on the history and the queue alone. */
  lemma AcceptKeepsAccounted(c: Config, s: State, key: Key, bytes: Bytes, s': State)
    requires Accounted(c, s)
    requires s' == s.(shared := s.shared.(queue := Accept(s.shared.queue, key, bytes)),
                      hist := NoteAccept(s.hist, s.shared.queue, key, bytes))
    ensures Accounted(c, s')
  {
    AcceptConserves(s, key, bytes, s');
    AcceptKeepsQueued(c, s, key, bytes, s');
    hide Conserved, Queued;
  }

  lemma AcceptConserves(s: State, key: Key, bytes: Bytes, s': State)
    requires Conserved(s)
    requires s' == s.(shared := s'.shared, hist := NoteAccept(s.hist, s.shared.queue, key, bytes))
    ensures Conserved(s')
  {
    if FirstIndex(s.shared.queue, key) < |s.shared.queue| {
      assert Places(s') == Places(s);
    } else {
      var t: nat := |s.hist.keys|;
      assert multiset(s'.hist.tickets) == multiset(s.hist.tickets) + multiset{t};
      assert Places(s') == Places(s) + multiset{t};
    }
  }

  lemma AcceptKeepsQueued(c: Config, s: State, key: Key, bytes: Bytes, s': State)
    requires Queued(c, s) && |s.hist.keys| == |s.hist.attempts|
    requires s' == s.(shared := s.shared.(queue := Accept(s.shared.queue, key, bytes)),
                      hist := NoteAccept(s.hist, s.shared.queue, key, bytes))
    ensures Queued(c, s')
  {
    forall i | 0 <= i < |s'.shared.queue| ensures QueuedAs(c, s'.hist, i, s'.shared.queue[i]) {
      if i < |s.shared.queue| { assert QueuedAs(c, s.hist, i, s.shared.queue[i]); }
    }
  }

  lemma EnterKeepsAccounted(c: Config, s: State, p: nat, wake: Option<Waiter>)
    requires Accounted(c, s) && Enabled(c, s, Enter(p, wake))
    ensures Accounted(c, EnterStep(c, s, p, wake))
  {
    var pc := s.producers[p];
    if EnqueueOutcomeOf(c, s.shared) == Accepted {
      var mid := s.(shared := s.shared.(queue := Accept(s.shared.queue, pc.key, pc.bytes)),
                    hist := NoteAccept(s.hist, s.shared.queue, pc.key, pc.bytes));
      AcceptKeepsAccounted(c, s, pc.key, pc.bytes, mid);
      SleepersDoNotCount(c, mid, EnterStep(c, s, p, wake));
    } else {
      SleepersDoNotCount(c, s, EnterStep(c, s, p, wake));
    }
  }

  lemma LookKeepsPlaces(s: State)
    requires Conserved(s) && |s.hist.tickets| == |s.shared.queue| && s.drainer.Locking?
    ensures Places(LookStep(s)) == Places(s)
  {
    if TakeOutcomeOf(s.shared).Take? {
      var first, rest := s.hist.tickets[0], s.hist.tickets[1..];
      assert s.hist.tickets == [first] + rest;
      assert multiset(s.hist.tickets) == multiset{first} + multiset(rest);
    }
  }

  lemma LookKeepsAccounted(c: Config, s: State)
    requires Accounted(c, s) && s.drainer.Locking?
    ensures Accounted(c, LookStep(s))
  {
    LookKeepsPlaces(s);
    LookKeepsQueued(c, s);
    hide Places, Queued, QueuedAs, Held;
  }

  lemma LookKeepsQueued(c: Config, s: State)
    requires Queued(c, s) && s.drainer.Locking?
    ensures Queued(c, LookStep(s)) && Held(c, LookStep(s))
  {
    var s' := LookStep(s);
    if TakeOutcomeOf(s.shared).Take? {
      assert QueuedAs(c, s.hist, 0, s.shared.queue[0]);
      forall i | 0 <= i < |s'.shared.queue| ensures QueuedAs(c, s'.hist, i, s'.shared.queue[i]) {
        assert QueuedAs(c, s.hist, i + 1, s.shared.queue[i + 1]);
      }
    }
  }

  /** Counting one more attempt of the held ticket leaves every other ticket alone. */
  lemma AttemptKeepsOthers(c: Config, s: State)
    requires Accounted(c, s) && InFlight(s)
    ensures var h := NoteAttempt(s.hist);
      && h.tickets == s.hist.tickets && h.buried == s.hist.buried
      && (forall i :: 0 <= i < |s.shared.queue| ==> QueuedAs(c, h, i, s.shared.queue[i]))
      && (forall t :: t in s.hist.stored ==> StoredAs(c, h, s.store, t))
      && (forall i :: 0 <= i < |s.shared.dead| ==> BuriedAs(c, h, i, s.shared.dead[i]))
  {
    HeldIsElsewhereNot(s);
    var h := NoteAttempt(s.hist);
    forall i | 0 <= i < |s.shared.queue| ensures QueuedAs(c, h, i, s.shared.queue[i]) {
      assert QueuedAs(c, s.hist, i, s.shared.queue[i]) && s.hist.tickets[i] != s.hist.held;
    }
    forall i | 0 <= i < |s.shared.dead| ensures BuriedAs(c, h, i, s.shared.dead[i]) {
      assert BuriedAs(c, s.hist, i, s.shared.dead[i]) && s.hist.buried[i] != s.hist.held;
    }
  }

  lemma PutErrKeepsAccounted(c: Config, s: State, message: string)
    requires c.retryMax < 255 && Accounted(c, s) && s.drainer.Putting?
    ensures Accounted(c, PutErrStep(c, s, message))
  {
    AttemptKeepsOthers(c, s);
    assert Places(PutErrStep(c, s, message)) == Places(s);
  }

  lemma PutOkKeepsAccounted(c: Config, s: State)
    requires Accounted(c, s) && s.drainer.Putting?
    ensures Accounted(c, PutOkStep(s))
  {
    AttemptKeepsOthers(c, s);
    var s' := PutOkStep(s);
    assert multiset(s'.hist.stored) == multiset(s.hist.stored) + multiset{s.hist.held};
    assert Places(s') == Places(s);
    var h := NoteAttempt(s.hist);
    forall i | 0 <= i < |s'.shared.queue| ensures QueuedAs(c, s'.hist, i, s'.shared.queue[i]) {
      assert QueuedAs(c, h, i, s.shared.queue[i]);
    }
    forall i | 0 <= i < |s'.shared.dead| ensures BuriedAs(c, s'.hist, i, s'.shared.dead[i]) {
      assert BuriedAs(c, h, i, s.shared.dead[i]);
    }
    forall t | t in s'.hist.stored ensures StoredAs(c, s'.hist, s'.store, t) {
      if t in s.hist.stored { assert StoredAs(c, h, s.store, t); }
    }
  }

  lemma BuryKeepsAccounted(c: Config, s: State)
    requires c.retryMax < 255 && Accounted(c, s) && s.drainer.Burying?
    ensures Accounted(c, BuryStep(s))
  {
    var s' := BuryStep(s);
    assert multiset(s'.hist.buried) == multiset(s.hist.buried) + multiset{s.hist.held};
    assert Places(s') == Places(s);
    forall i | 0 <= i < |s'.shared.queue| ensures QueuedAs(c, s'.hist, i, s'.shared.queue[i]) {
      assert QueuedAs(c, s.hist, i, s.shared.queue[i]);
    }
    forall i | 0 <= i < |s'.shared.dead| ensures BuriedAs(c, s'.hist, i, s'.shared.dead[i]) {
      if i < |s.shared.dead| { assert BuriedAs(c, s.hist, i, s.shared.dead[i]); }
    }
    forall t | t in s'.hist.stored ensures StoredAs(c, s'.hist, s'.store, t) {
      assert StoredAs(c, s.hist, s.store, t);
    }
  }

  lemma RequeueKeepsAccounted(c: Config, s: State, wake: Option<Waiter>)
    requires Accounted(c, s) && Enabled(c, s, Requeue(wake))
    ensures Accounted(c, RequeueStep(s, wake))
  {
    var mid := s.(shared := RequeueEffect(s.shared, s.drainer.item), drainer := Locking,
                  hist := s.hist.(tickets := [s.hist.held] + s.hist.tickets));
    assert multiset(mid.hist.tickets) == multiset{s.hist.held} + multiset(s.hist.tickets);
    assert Places(mid) == Places(s);
    forall i | 0 <= i < |mid.shared.queue| ensures QueuedAs(c, mid.hist, i, mid.shared.queue[i]) {
      if i > 0 { assert QueuedAs(c, s.hist, i - 1, s.shared.queue[i - 1]); }
    }
    forall i | 0 <= i < |mid.shared.dead| ensures BuriedAs(c, mid.hist, i, mid.shared.dead[i]) {
      assert BuriedAs(c, s.hist, i, s.shared.dead[i]);
    }
    forall t | t in mid.hist.stored ensures StoredAs(c, mid.hist, mid.store, t) {
      assert StoredAs(c, s.hist, s.store, t);
    }
    SleepersDoNotCount(c, mid, RequeueStep(s, wake));
  }

  lemma StepKeepsAccounted(c: Config, s: State, step: Step)
    requires c.retryMax < 255 && Accounted(c, s)
    ensures Accounted(c, Apply(c, s, step))
  {
    if Enabled(c, s, step) {
      match step {
        case Enter(p, wake) => EnterKeepsAccounted(c, s, p, wake);
        case Look => LookKeepsAccounted(c, s);
        case PutOk => PutOkKeepsAccounted(c, s);
        case PutErr(message) => PutErrKeepsAccounted(c, s, message);
        case Bury => BuryKeepsAccounted(c, s);
        case Requeue(wake) => RequeueKeepsAccounted(c, s, wake);
        case Call(p, key, bytes) => SleepersDoNotCount(c, s, Apply(c, s, step));
        case Stamp => SleepersDoNotCount(c, s, Apply(c, s, step));
        case Spurious(w) => SleepersDoNotCount(c, s, Apply(c, s, step));
        case Announce => AnnounceKeepsAccounted(c, s);
        case StopAll => StopKeepsAccounted(c, s);
      }
    }
  }

  lemma AnnounceKeepsAccounted(c: Config, s: State)
    requires Accounted(c, s) && s.drainer.Announcing?
    ensures Accounted(c, Apply(c, s, Announce))
  {
    assert Places(Apply(c, s, Announce)) == Places(s);
  }

  lemma StopKeepsAccounted(c: Config, s: State)
    requires Accounted(c, s)
    ensures Accounted(c, Apply(c, s, StopAll))
  {
    SleepersDoNotCount(c, s, WakeAll(s));
    assert Places(Apply(c, s, StopAll)) == Places(WakeAll(s));
  }

  /** On every run each pushed write is in exactly one of queue, flight, store and dead letter, its
      attempts never exceed `retryMax + 1`, and a dead letter carries exactly `retryMax` retries. */
  lemma {:induction false} EveryRunIsAccounted(c: Config, producers: nat, steps: seq<Step>)
    requires c.retryMax < 255
    ensures Accounted(c, Run(c, producers, steps))
    decreases |steps|
  {
    if steps != [] {
      EveryRunIsAccounted(c, producers, steps[..|steps| - 1]);
      StepKeepsAccounted(c, Run(c, producers, steps[..|steps| - 1]), steps[|steps| - 1]);
    }
  }

  /** The bound on attempts, for every ticket wherever its write is. */
  lemma AttemptsAreBounded(c: Config, producers: nat, steps: seq<Step>, t: nat)
    requires c.retryMax < 255 && t < |Run(c, producers, steps).hist.attempts|
    ensures Run(c, producers, steps).hist.attempts[t] <= c.retryMax + 1
  {
    var s := Run(c, producers, steps);
    EveryRunIsAccounted(c, producers, steps);
    assert Places(s)[t] == 1;
    if t in s.hist.tickets {
      var i :| 0 <= i < |s.hist.tickets| && s.hist.tickets[i] == t;
      assert QueuedAs(c, s.hist, i, s.shared.queue[i]);
    } else if t in s.hist.buried {
      var i :| 0 <= i < |s.hist.buried| && s.hist.buried[i] == t;
      assert BuriedAs(c, s.hist, i, s.shared.dead[i]);
    } else if t in s.hist.stored {
      assert StoredAs(c, s.hist, s.store, t);
    }
  }

  /** Once drained, every pushed write was either stored or surfaced as a dead letter, once. */
  lemma DrainedWritesAreSettled(c: Config, producers: nat, steps: seq<Step>, t: nat)
    requires c.retryMax < 255
    requires var s := Run(c, producers, steps); s.shared.queue == [] && !InFlight(s) && t < |s.hist.keys|
    ensures var h := Run(c, producers, steps).hist;
      multiset(h.stored)[t] + multiset(h.buried)[t] == 1
  {
    var s := Run(c, producers, steps);
    EveryRunIsAccounted(c, producers, steps);
    assert s.hist.tickets == [];
    assert Places(s)[t] == 1;
  }

  // -------------------------------------------------------------------------
  // With `retry_max` at the top of its type nothing is ever surfaced
  // -------------------------------------------------------------------------

  ghost predicate NeverSurfaces(s: State) {
    s.shared.dead == [] && !s.drainer.Burying?
  }

  lemma {:induction false} TopRetryMaxNeverSurfaces(c: Config, producers: nat, steps: seq<Step>)
    requires c.retryMax >= 255
    ensures NeverSurfaces(Run(c, producers, steps))
    decreases |steps|
  {
    if steps != [] {
      TopRetryMaxNeverSurfaces(c, producers, steps[..|steps| - 1]);
    }
  }

  /** A run in which one write fails `n` times. */
  lemma {:induction false} FailingRun(c: Config, n: nat) returns (steps: seq<Step>)
    requires c.queueMax >= 1 && c.retryMax < 255 && n <= c.retryMax
    ensures Run(c, 1, steps).drainer == Putting(PendingWrite("k", "v", n))
    ensures Run(c, 1, steps).shared == Shared([], [], false)
    ensures Run(c, 1, steps).producers == [Idle]
  {
    assert Run(c, 1, []) == Init(1);
    hide Run;
    if n == 0 {
      steps := RunWrite(c, [], "k", "v");
      assert Run(c, 1, steps).shared.queue == [PendingWrite("k", "v", 0)];
    } else {
      steps := FailingRun(c, n - 1);
      steps := RunFail(c, steps);
      assert Run(c, 1, steps).shared.queue == [PendingWrite("k", "v", n)];
    }
    steps := RunTake(c, steps);
  }

  /** A write that keeps failing surfaces exactly when `retry_max` is below the top of its type. */
  lemma SurfacesExactlyBelowTheTop(c: Config)
    requires c.queueMax >= 1
    ensures (exists steps :: Run(c, 1, steps).shared.dead != []) <==> c.retryMax < 255
  {
    if c.retryMax < 255 {
      var steps := FailingRun(c, c.retryMax);
      RunSnoc(c, 1, steps, PutErr("e"));
      RunSnoc(c, 1, steps + [PutErr("e")], Bury);
      assert Run(c, 1, steps + [PutErr("e")] + [Bury]).shared.dead != [];
    } else {
      forall steps ensures Run(c, 1, steps).shared.dead == [] {
        TopRetryMaxNeverSurfaces(c, 1, steps);
      }
    }
  }
}
