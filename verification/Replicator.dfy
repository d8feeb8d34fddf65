/** Write queue of the cloud tier: one drainer thread and any number of producers share a
    mutex and a single condition variable (agent/src/core/cloud/replicator.rs). */
module Replicator {
  import opened Base

  datatype PendingWrite = PendingWrite(key: Key, bytes: Bytes, retryCount: nat)

  datatype DeadLetterEntry = DeadLetterEntry(key: Key, bytes: Bytes, retryCount: nat, message: string)

  datatype Config = Config(queueMax: nat, retryMax: nat)

  /** What the mutex guards. */
  datatype Shared = Shared(queue: seq<PendingWrite>, dead: seq<DeadLetterEntry>, stopping: bool)

  /** `retry_count += 1` on a `u8`, wrapping as a release build does. */
  function Bump(retryCount: nat): nat {
    (retryCount + 1) % 256
  }

  // -------------------------------------------------------------------------
  // Critical sections as functions of the guarded state
  // -------------------------------------------------------------------------

  /** Index of the first pending write for `key`, or the queue length. */
  function FirstIndex(q: seq<PendingWrite>, key: Key): (i: nat)
    ensures i <= |q| && (i < |q| ==> q[i].key == key)
    ensures forall j :: 0 <= j < i ==> q[j].key != key
  {
    if q == [] || q[0].key == key then 0 else 1 + FirstIndex(q[1..], key)
  }

  predicate Full(c: Config, g: Shared) {
    AsU32(|g.queue|) >= c.queueMax
  }

  /** Coalesce into the first pending write for the key, else push to the back. */
  function Accept(q: seq<PendingWrite>, key: Key, bytes: Bytes): seq<PendingWrite> {
    var i := FirstIndex(q, key);
    if i < |q| then q[i := q[i].(bytes := bytes)] else q + [PendingWrite(key, bytes, 0)]
  }

  datatype EnqueueOutcome = MustWait | Dropped | Accepted

  function EnqueueOutcomeOf(c: Config, g: Shared): EnqueueOutcome {
    if Full(c, g) && !g.stopping then MustWait else if g.stopping then Dropped else Accepted
  }

  function EnqueueEffect(c: Config, g: Shared, key: Key, bytes: Bytes): Shared {
    if EnqueueOutcomeOf(c, g) == Accepted then g.(queue := Accept(g.queue, key, bytes)) else g
  }

  datatype TakeOutcome = Sleep | Exit | Take(item: PendingWrite)

  function TakeOutcomeOf(g: Shared): TakeOutcome {
    if g.queue == [] && !g.stopping then Sleep else if g.queue == [] then Exit else Take(g.queue[0])
  }

  function TakeEffect(g: Shared): Shared {
    if TakeOutcomeOf(g).Take? then g.(queue := g.queue[1..]) else g
  }

  function RequeueEffect(g: Shared, item: PendingWrite): Shared {
    g.(queue := [item] + g.queue)
  }

  function DeadLetterOf(item: PendingWrite, message: string): DeadLetterEntry {
    DeadLetterEntry(item.key, item.bytes, (item.retryCount + 255) % 256, message)
  }

  function BuryEffect(g: Shared, item: PendingWrite, message: string): Shared {
    g.(dead := g.dead + [DeadLetterOf(item, message)])
  }

  /** The mutex-guarded object. Each method is one critical section, from taking the lock to
      releasing it or to waiting on the condition variable. */
  class ReplicatorState {
    const cfg: Config
    var queue: seq<PendingWrite>
    var dead: seq<DeadLetterEntry>
    var stopping: bool

    function Guarded(): Shared
      reads this
    {
      Shared(queue, dead, stopping)
    }

    constructor (cfg: Config)
      ensures this.cfg == cfg && Guarded() == Shared([], [], false)
    {
      this.cfg := cfg;
      queue, dead, stopping := [], [], false;
    }

    /** One pass of `enqueue`: sleep on backpressure, drop when stopping, else coalesce or push. */
    method Enqueue(key: Key, bytes: Bytes) returns (outcome: EnqueueOutcome)
      modifies this
      ensures outcome == EnqueueOutcomeOf(cfg, old(Guarded()))
      ensures Guarded() == EnqueueEffect(cfg, old(Guarded()), key, bytes)
    {
      if AsU32(|queue|) >= cfg.queueMax && !stopping {
        return MustWait;
      }
      if stopping {
        return Dropped;
      }
      var i := 0;
      while i < |queue| && queue[i].key != key
        invariant 0 <= i <= |queue|
        invariant forall j :: 0 <= j < i ==> queue[j].key != key
        invariant Guarded() == old(Guarded())
      {
        i := i + 1;
      }
      assert i == FirstIndex(queue, key);
      if i < |queue| {
        queue := queue[i := queue[i].(bytes := bytes)];
      } else {
        queue := queue + [PendingWrite(key, bytes, 0)];
      }
      return Accepted;
    }

    method Stop()
      modifies this
      ensures Guarded() == old(Guarded()).(stopping := true)
    {
      stopping := true;
    }

    /** One pass of the drainer's wait loop. */
    method Take() returns (outcome: TakeOutcome)
      modifies this
      ensures outcome == TakeOutcomeOf(old(Guarded()))
      ensures Guarded() == TakeEffect(old(Guarded()))
    {
      if queue == [] && !stopping {
        return Sleep;
      }
      if stopping && queue == [] {
        return Exit;
      }
      outcome := TakeOutcome.Take(queue[0]);
      queue := queue[1..];
    }

    /** The drainer puts a failed write back in front. */
    method Requeue(item: PendingWrite)
      modifies this
      ensures Guarded() == RequeueEffect(old(Guarded()), item)
    {
      queue := [item] + queue;
    }

    /** The drainer demotes a write that exhausted its retries. */
    method Bury(item: PendingWrite, message: string)
      modifies this
      ensures Guarded() == BuryEffect(old(Guarded()), item, message)
    {
      dead := dead + [DeadLetterOf(item, message)];
    }
  }

  // -------------------------------------------------------------------------
  // The threads as a step system
  // -------------------------------------------------------------------------

  datatype ProducerPc =
    | Idle
    | AtLock(key: Key, bytes: Bytes)
    | Waiting(key: Key, bytes: Bytes)

  datatype DrainerPc =
    | Locking                                       // about to lock and look for work
    | Asleep                                        // in `cv.wait`
    | Announcing(item: PendingWrite)                // popped, about to `notify_all`
    | Putting(item: PendingWrite)                   // in `store.put`
    | Stamping                                      // stored, about to note the sync time
    | Burying(item: PendingWrite, message: string)  // retries exhausted, about to dead-letter
    | BackingOff(item: PendingWrite)                // sleeping, then about to requeue
    | Exited

  datatype Waiter = TheDrainer | Producer(p: nat)

  /** Auxiliary history, read by no step of the program: a ticket for every pushed entry. */
  datatype History = History(
    tickets: seq<nat>,         // ticket of each queued entry, front first
    held: nat,                 // ticket of the write in flight
    stored: seq<nat>,          // tickets of the writes that reached the store
    buried: seq<nat>,          // tickets of the writes that were dead-lettered
    keys: seq<Key>,            // key pushed under each ticket
    attempts: seq<nat>,        // PUT attempts so far, by ticket
    accepted: map<Key, Bytes>) // last bytes accepted for each key

  datatype State = State(
    shared: Shared,
    producers: seq<ProducerPc>,
    drainer: DrainerPc,
    store: map<Key, Bytes>,
    hist: History)

  datatype Step =
    | Call(p: nat, key: Key, bytes: Bytes)     // a producer calls `enqueue`
    | Enter(p: nat, wake: Option<Waiter>)      // its critical section
    | StopAll                                  // `stop`
    | Look                                     // the drainer's critical section
    | Announce                                 // its `notify_all`
    | PutOk
    | PutErr(message: string)
    | Stamp
    | Bury
    | Requeue(wake: Option<Waiter>)            // end of the backoff
    | Spurious(w: Waiter)                      // a wakeup without a notification

  function Init(producers: nat): State {
    State(Shared([], [], false), seq(producers, i => Idle), Locking, map[],
          History([], 0, [], [], [], [], map[]))
  }

  predicate InFlight(s: State) {
    s.drainer.Announcing? || s.drainer.Putting? || s.drainer.Burying? || s.drainer.BackingOff?
  }

  predicate IsWaiting(s: State, w: Waiter) {
    match w
    case TheDrainer => s.drainer.Asleep?
    case Producer(p) => p < |s.producers| && s.producers[p].Waiting?
  }

  predicate ProducerWaits(s: State) {
    exists p: nat :: p < |s.producers| && s.producers[p].Waiting?
  }

  /** `notify_one` wakes some waiter, and nobody only when nobody waits. */
  predicate LegalWake(s: State, wake: Option<Waiter>) {
    if wake.None? then !s.drainer.Asleep? && !ProducerWaits(s) else IsWaiting(s, wake.value)
  }

  function Awaken(pc: ProducerPc): ProducerPc {
    if pc.Waiting? then AtLock(pc.key, pc.bytes) else pc
  }

  function WakeOne(s: State, w: Waiter): State
    requires IsWaiting(s, w)
  {
    match w
    case TheDrainer => s.(drainer := Locking)
    case Producer(p) => s.(producers := s.producers[p := Awaken(s.producers[p])])
  }

  function WakeLegal(s: State, wake: Option<Waiter>): (r: State)
    requires LegalWake(s, wake)
    ensures r == s.(drainer := r.drainer, producers := r.producers)
    ensures r.drainer == s.drainer || (s.drainer.Asleep? && r.drainer == Locking)
  {
    if wake.None? then s else WakeOne(s, wake.value)
  }

  function WakeAll(s: State): State {
    s.(drainer := if s.drainer.Asleep? then Locking else s.drainer,
       producers := seq(|s.producers|, i requires 0 <= i < |s.producers| => Awaken(s.producers[i])))
  }

  predicate Enabled(c: Config, s: State, step: Step) {
    match step
    case Call(p, _, _) => p < |s.producers| && s.producers[p].Idle?
    case Enter(p, wake) =>
      && p < |s.producers| && s.producers[p].AtLock?
      && (if EnqueueOutcomeOf(c, s.shared) == Accepted then LegalWake(s, wake) else wake.None?)
    case StopAll => true
    case Look => s.drainer.Locking?
    case Announce => s.drainer.Announcing?
    case PutOk => s.drainer.Putting?
    case PutErr(_) => s.drainer.Putting?
    case Stamp => s.drainer.Stamping?
    case Bury => s.drainer.Burying?
    case Requeue(wake) => s.drainer.BackingOff? && LegalWake(s, wake)
    case Spurious(w) => IsWaiting(s, w)
  }

  /** History of an accepted write: a push draws a new ticket, a coalesced write does not. */
  function NoteAccept(h: History, q: seq<PendingWrite>, key: Key, bytes: Bytes): History {
    var noted := h.(accepted := h.accepted[key := bytes]);
    if FirstIndex(q, key) < |q| then noted
    else noted.(tickets := h.tickets + [|h.keys|], keys := h.keys + [key], attempts := h.attempts + [0])
  }

  function NoteTake(h: History): History {
    if h.tickets == [] then h else h.(held := h.tickets[0], tickets := h.tickets[1..])
  }

  function NoteAttempt(h: History): History {
    if h.held < |h.attempts| then h.(attempts := h.attempts[h.held := h.attempts[h.held] + 1]) else h
  }

  function EnterStep(c: Config, s: State, p: nat, wake: Option<Waiter>): State
    requires Enabled(c, s, Enter(p, wake))
  {
    var pc := s.producers[p];
    match EnqueueOutcomeOf(c, s.shared)
    case MustWait => s.(producers := s.producers[p := Waiting(pc.key, pc.bytes)])
    case Dropped => s.(producers := s.producers[p := Idle])
    case Accepted =>
      WakeLegal(s, wake).(
        shared := EnqueueEffect(c, s.shared, pc.key, pc.bytes),
        producers := WakeLegal(s, wake).producers[p := Idle],
        hist := NoteAccept(s.hist, s.shared.queue, pc.key, pc.bytes))
  }

  function LookStep(s: State): State {
    match TakeOutcomeOf(s.shared)
    case Sleep => s.(drainer := Asleep)
    case Exit => s.(drainer := Exited)
    case Take(item) =>
      s.(shared := TakeEffect(s.shared), drainer := Announcing(item), hist := NoteTake(s.hist))
  }

  function PutOkStep(s: State): State
    requires s.drainer.Putting?
  {
    var item := s.drainer.item;
    s.(drainer := Stamping,
       store := s.store[item.key := item.bytes],
       hist := NoteAttempt(s.hist).(stored := s.hist.stored + [s.hist.held]))
  }

  function PutErrStep(c: Config, s: State, message: string): State
    requires s.drainer.Putting?
  {
    var item := s.drainer.item.(retryCount := Bump(s.drainer.item.retryCount));
    s.(drainer := if item.retryCount > c.retryMax then Burying(item, message) else BackingOff(item),
       hist := NoteAttempt(s.hist))
  }

  function BuryStep(s: State): State
    requires s.drainer.Burying?
  {
    s.(shared := BuryEffect(s.shared, s.drainer.item, s.drainer.message),
       drainer := Locking,
       hist := s.hist.(buried := s.hist.buried + [s.hist.held]))
  }

  function RequeueStep(s: State, wake: Option<Waiter>): State
    requires s.drainer.BackingOff? && LegalWake(s, wake)
  {
    WakeLegal(s, wake).(
      shared := RequeueEffect(s.shared, s.drainer.item),
      drainer := Locking,
      hist := s.hist.(tickets := [s.hist.held] + s.hist.tickets))
  }

  /** One step; a step that is not enabled leaves the state alone. */
  function Apply(c: Config, s: State, step: Step): State {
    if !Enabled(c, s, step) then s else
    match step
    case Call(p, key, bytes) => s.(producers := s.producers[p := AtLock(key, bytes)])
    case Enter(p, wake) => EnterStep(c, s, p, wake)
    case StopAll => WakeAll(s).(shared := s.shared.(stopping := true))
    case Look => LookStep(s)
    case Announce => WakeAll(s).(drainer := Putting(s.drainer.item))
    case PutOk => PutOkStep(s)
    case PutErr(message) => PutErrStep(c, s, message)
    case Stamp => s.(drainer := Locking)
    case Bury => BuryStep(s)
    case Requeue(wake) => RequeueStep(s, wake)
    case Spurious(w) => WakeOne(s, w)
  }

  /** The state after a run; every interleaving of the threads is such a run. */
  function Run(c: Config, producers: nat, steps: seq<Step>): State {
    if steps == [] then Init(producers)
    else Apply(c, Run(c, producers, steps[..|steps| - 1]), steps[|steps| - 1])
  }

  /** Evaluates a run one step at a time. */
  lemma RunSnoc(c: Config, producers: nat, steps: seq<Step>, step: Step)
    ensures Run(c, producers, steps + [step]) == Apply(c, Run(c, producers, steps), step)
  {
    assert (steps + [step])[..|steps|] == steps;
  }

  // Single steps of a run with one producer, for building concrete runs.

  lemma RunWrite(c: Config, steps: seq<Step>, key: Key, bytes: Bytes) returns (longer: seq<Step>)
    requires var s := Run(c, 1, steps);
      s.producers == [Idle] && !s.drainer.Asleep? && EnqueueOutcomeOf(c, s.shared) == Accepted
    ensures var s := Run(c, 1, steps);
      Run(c, 1, longer) == s.(shared := s.shared.(queue := Accept(s.shared.queue, key, bytes)),
                              hist := NoteAccept(s.hist, s.shared.queue, key, bytes))
    ensures longer == steps + [Call(0, key, bytes)] + [Enter(0, None)]
  {
    hide Run, Accept, NoteAccept;
    var s := Run(c, 1, steps);
    RunSnoc(c, 1, steps, Call(0, key, bytes));
    longer := steps + [Call(0, key, bytes)];
    assert Run(c, 1, longer) == s.(producers := [AtLock(key, bytes)]);
    RunSnoc(c, 1, longer, Enter(0, None));
    longer := longer + [Enter(0, None)];
  }

  lemma RunTake(c: Config, steps: seq<Step>) returns (longer: seq<Step>)
    requires var s := Run(c, 1, steps); s.producers == [Idle] && s.drainer.Locking? && s.shared.queue != []
    ensures var s := Run(c, 1, steps);
      Run(c, 1, longer) == s.(shared := s.shared.(queue := s.shared.queue[1..]),
                              drainer := Putting(s.shared.queue[0]), hist := NoteTake(s.hist))
    ensures longer == steps + [Look] + [Announce]
  {
    hide Run, NoteTake;
    RunSnoc(c, 1, steps, Look);
    longer := steps + [Look];
    RunSnoc(c, 1, longer, Announce);
    longer := longer + [Announce];
    assert WakeAll(Run(c, 1, steps + [Look])).producers == [Idle];
  }

  lemma RunStore(c: Config, steps: seq<Step>) returns (longer: seq<Step>)
    requires Run(c, 1, steps).drainer.Putting?
    ensures Run(c, 1, longer) == PutOkStep(Run(c, 1, steps)).(drainer := Locking)
    ensures longer == steps + [PutOk] + [Stamp]
  {
    hide Run;
    RunSnoc(c, 1, steps, PutOk);
    longer := steps + [PutOk];
    RunSnoc(c, 1, longer, Stamp);
    longer := longer + [Stamp];
  }

  lemma RunFail(c: Config, steps: seq<Step>) returns (longer: seq<Step>)
    requires var s := Run(c, 1, steps);
      s.producers == [Idle] && s.drainer.Putting? && s.drainer.item.retryCount < c.retryMax < 256
    ensures var s := Run(c, 1, steps); var item := s.drainer.item.(retryCount := s.drainer.item.retryCount + 1);
      Run(c, 1, longer) == s.(shared := s.shared.(queue := [item] + s.shared.queue), drainer := Locking,
                              hist := Run(c, 1, longer).hist)
      && Run(c, 1, longer).hist.accepted == s.hist.accepted
  {
    hide Run;
    RunSnoc(c, 1, steps, PutErr("e"));
    longer := steps + [PutErr("e")];
    RunSnoc(c, 1, longer, Requeue(None));
    longer := longer + [Requeue(None)];
  }
}
