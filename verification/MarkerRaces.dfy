/** A run in which the marker overtakes the base that it stands for: the queue coalesces the marker into one that is
    already queued, and the base into none, because the one before it is in flight
    (agent/src/core/sessions/mod.rs, lines 617-667; agent/src/core/cloud/replicator.rs, lines 80-182). */
module MarkerRaces {
  import opened Base
  import opened SessionKeys
  import opened CloudCaching
  import opened SessionLog
  import opened Replicator
  import opened ReplicatedSessions
  import opened CoalescedWrites
  import F = ReplicatorFreshness

  // -------------------------------------------------------------------------
  // Runs without retries
  // -------------------------------------------------------------------------

  predicate IsCalm(step: Step) {
    !step.Bury? && !step.Requeue?
  }

  predicate Calm(steps: seq<Step>) {
    forall i :: 0 <= i < |steps| ==> IsCalm(steps[i])
  }

  lemma {:induction false} CalmRunsAreOrderly(c: Config, producers: nat, steps: seq<Step>)
    requires Calm(steps)
    ensures F.NoLateRequeue(c, producers, steps) && BuriesNothing(c, producers, steps)
    decreases |steps|
  {
    hide Run, Enabled;
    assert forall i :: 0 <= i < |steps| ==> IsCalm(steps[i]);
    if steps != [] {
      CalmRunsAreOrderly(c, producers, steps[..|steps| - 1]);
    }
  }

  /** A calm run of one producer, between its calls. */
  ghost predicate Reaches(c: Config, steps: seq<Step>, writes: seq<Put>, queue: seq<PendingWrite>, drainer: DrainerPc,
                          store: map<Key, Bytes>)
  {
    var s := Run(c, 1, steps);
    && Calm(steps) && WritesOf(c, 1, steps) == writes && s.producers == [Idle]
    && s.shared == Shared(queue, [], false) && s.drainer == drainer && s.store == store
  }

  lemma WritesSnoc(c: Config, steps: seq<Step>, step: Step)
    ensures var w := AcceptedBy(c, Run(c, 1, steps), step);
      WritesOf(c, 1, steps + [step]) == WritesOf(c, 1, steps) + (if w.Some? then [w.value] else [])
  {
    assert (steps + [step])[..|steps|] == steps;
  }

  /** No write is accepted but by `Enter`. */
  lemma SilentSnoc(c: Config, steps: seq<Step>, step: Step)
    requires !step.Enter?
    ensures WritesOf(c, 1, steps + [step]) == WritesOf(c, 1, steps)
  {
    WritesSnoc(c, steps, step);
    hide WritesOf, Run, Enabled;
    assert WritesOf(c, 1, steps) + [] == WritesOf(c, 1, steps);
  }

  lemma CalmSnoc(steps: seq<Step>, step: Step)
    requires Calm(steps) && IsCalm(step)
    ensures Calm(steps + [step])
  {
  }

  lemma CalledRun(c: Config, steps: seq<Step>, key: Key, bytes: Bytes)
    requires Run(c, 1, steps).producers == [Idle]
    ensures Run(c, 1, steps + [Call(0, key, bytes)]) == Run(c, 1, steps).(producers := [AtLock(key, bytes)])
  {
    hide Run, EnterStep, LookStep, PutOkStep, PutErrStep, BuryStep, RequeueStep, WakeAll, WakeOne;
    RunSnoc(c, 1, steps, Call(0, key, bytes));
    assert [Idle][0 := AtLock(key, bytes)] == [AtLock(key, bytes)];
  }

  lemma Write(c: Config, steps: seq<Step>, writes: seq<Put>, queue: seq<PendingWrite>, drainer: DrainerPc,
              store: map<Key, Bytes>, w: Put) returns (longer: seq<Step>)
    requires Reaches(c, steps, writes, queue, drainer, store) && !drainer.Asleep? && |queue| < c.queueMax < U32_MODULUS
    ensures Reaches(c, longer, writes + [w], Accept(queue, w.key, w.bytes), drainer, store)
  {
    hide Run, WritesOf, Accept, NoteAccept, Calm;
    longer := RunWrite(c, steps, w.key, w.bytes);
    var called := steps + [Call(0, w.key, w.bytes)];
    CalmSnoc(steps, Call(0, w.key, w.bytes));
    CalmSnoc(called, Enter(0, None));
    SilentSnoc(c, steps, Call(0, w.key, w.bytes));
    WritesSnoc(c, called, Enter(0, None));
    CalledRun(c, steps, w.key, w.bytes);
    assert AcceptedBy(c, Run(c, 1, called), Enter(0, None)) == Some(w);
  }

  /** The drainer takes the first write and stores it. */
  lemma Take(c: Config, steps: seq<Step>, writes: seq<Put>, queue: seq<PendingWrite>, store: map<Key, Bytes>)
    returns (longer: seq<Step>)
    requires Reaches(c, steps, writes, queue, Locking, store) && queue != []
    ensures Reaches(c, longer, writes, queue[1..], Putting(queue[0]), store)
  {
    hide Run, WritesOf, Calm, NoteTake;
    longer := RunTake(c, steps);
    CalmSnoc(steps, Look);
    CalmSnoc(steps + [Look], Announce);
    SilentSnoc(c, steps, Look);
    SilentSnoc(c, steps + [Look], Announce);
  }

  lemma Store(c: Config, steps: seq<Step>, writes: seq<Put>, queue: seq<PendingWrite>, item: PendingWrite,
              store: map<Key, Bytes>)
    returns (longer: seq<Step>)
    requires Reaches(c, steps, writes, queue, Putting(item), store)
    ensures Reaches(c, longer, writes, queue, Locking, store[item.key := item.bytes])
  {
    hide Run, WritesOf, Calm;
    longer := RunStore(c, steps);
    CalmSnoc(steps, PutOk);
    CalmSnoc(steps + [PutOk], Stamp);
    SilentSnoc(c, steps, PutOk);
    SilentSnoc(c, steps + [PutOk], Stamp);
  }

  // -------------------------------------------------------------------------
  // The race
  // -------------------------------------------------------------------------

  function Item(w: Put): PendingWrite {
    PendingWrite(w.key, w.bytes, 0)
  }

  lemma PushesBehind(queue: seq<PendingWrite>, w: Put)
    requires forall i :: 0 <= i < |queue| ==> queue[i].key != w.key
    ensures Accept(queue, w.key, w.bytes) == queue + [Item(w)]
  {
  }

  lemma CoalescesAt(queue: seq<PendingWrite>, w: Put, i: nat)
    requires i < |queue| && queue[i].key == w.key && queue[i].retryCount == 0
    requires forall j :: 0 <= j < i ==> queue[j].key != w.key
    ensures Accept(queue, w.key, w.bytes) == queue[i := Item(w)]
  {
    assert FirstIndex(queue, w.key) == i;
  }

  lemma Push(c: Config, steps: seq<Step>, writes: seq<Put>, queue: seq<PendingWrite>, drainer: DrainerPc,
             store: map<Key, Bytes>, w: Put, writes': seq<Put>, queue': seq<PendingWrite>) returns (longer: seq<Step>)
    requires Reaches(c, steps, writes, queue, drainer, store) && !drainer.Asleep? && |queue| < c.queueMax < U32_MODULUS
    requires forall i :: 0 <= i < |queue| ==> queue[i].key != w.key
    requires writes' == writes + [w] && queue' == queue + [Item(w)]
    ensures Reaches(c, longer, writes', queue', drainer, store)
  {
    hide Reaches;
    PushesBehind(queue, w);
    longer := Write(c, steps, writes, queue, drainer, store, w);
  }

  lemma Coalesce(c: Config, steps: seq<Step>, writes: seq<Put>, queue: seq<PendingWrite>, drainer: DrainerPc,
                 store: map<Key, Bytes>, w: Put, i: nat, writes': seq<Put>, queue': seq<PendingWrite>)
    returns (longer: seq<Step>)
    requires Reaches(c, steps, writes, queue, drainer, store) && !drainer.Asleep? && |queue| < c.queueMax < U32_MODULUS
    requires i < |queue| && queue[i].key == w.key && queue[i].retryCount == 0
    requires forall j :: 0 <= j < i ==> queue[j].key != w.key
    requires writes' == writes + [w] && queue' == queue[i := Item(w)]
    ensures Reaches(c, longer, writes', queue', drainer, store)
  {
    hide Reaches;
    CoalescesAt(queue, w, i);
    longer := Write(c, steps, writes, queue, drainer, store, w);
  }

  lemma TakeFirst(c: Config, steps: seq<Step>, writes: seq<Put>, item: PendingWrite, queue: seq<PendingWrite>,
                  store: map<Key, Bytes>) returns (longer: seq<Step>)
    requires Reaches(c, steps, writes, [item] + queue, Locking, store)
    ensures Reaches(c, longer, writes, queue, Putting(item), store)
  {
    hide Reaches;
    assert ([item] + queue)[1..] == queue;
    longer := Take(c, steps, writes, [item] + queue, store);
  }

  lemma ThreeQueued(log: Put, base: Put, mark: Put) returns (steps: seq<Step>)
    requires log.key != base.key && base.key != mark.key && mark.key != log.key
    ensures Reaches(Config(8, 3), steps, [log, base, mark], [Item(log), Item(base), Item(mark)], Locking, map[])
  {
    hide Reaches;
    var c := Config(8, 3);
    var l, b, m := Item(log), Item(base), Item(mark);
    steps := OneQueued(c, log);
    assert [log] + [base] == [log, base] && [l] + [b] == [l, b];
    steps := Push(c, steps, [log], [l], Locking, map[], base, [log, base], [l, b]);
    assert [log, base] + [mark] == [log, base, mark] && [l, b] + [m] == [l, b, m];
    steps := Push(c, steps, [log, base], [l, b], Locking, map[], mark, [log, base, mark], [l, b, m]);
  }

  lemma OneQueued(c: Config, w: Put) returns (steps: seq<Step>)
    requires 0 < c.queueMax < U32_MODULUS
    ensures Reaches(c, steps, [w], [Item(w)], Locking, map[])
  {
    hide Reaches;
    NothingReached(c);
    assert [] + [w] == [w] && [] + [Item(w)] == [Item(w)];
    steps := Push(c, [], [], [], Locking, map[], w, [w], [Item(w)]);
  }

  /** A log, its base and its marker are written, the log is stored and the base in flight. */
  lemma BaseInFlight(log: Put, base: Put, mark: Put) returns (steps: seq<Step>)
    requires log.key != base.key && base.key != mark.key && mark.key != log.key
    ensures Reaches(Config(8, 3), steps, [log, base, mark], [Item(mark)], Putting(Item(base)), map[log.key := log.bytes])
  {
    hide Reaches;
    var c := Config(8, 3);
    var l, b, m := Item(log), Item(base), Item(mark);
    var writes := [log, base, mark];
    steps := ThreeQueued(log, base, mark);
    assert [l, b, m] == [l] + [b, m] && [b, m] == [b] + [m];
    steps := TakeFirst(c, steps, writes, l, [b, m], map[]);
    steps := Store(c, steps, writes, [b, m], l, map[]);
    steps := TakeFirst(c, steps, writes, b, [m], map[log.key := log.bytes]);
  }

  /** A log, its base and its marker are queued; while the base is in flight the next log is written and folded. */
  lemma FoldDuringPut(log: Put, base: Put, mark: Put, log1: Put, log2: Put, base2: Put, mark2: Put)
    returns (steps: seq<Step>)
    requires log1.key == log2.key && base.key == base2.key && mark.key == mark2.key
    requires log.key != base.key && base.key != mark.key && mark.key != log.key
    requires log1.key !in {log.key, base.key, mark.key}
    ensures Reaches(Config(8, 3), steps, [log, base, mark, log1, log2, base2, mark2],
                    [Item(mark2), Item(log2), Item(base2)], Putting(Item(base)), map[log.key := log.bytes])
  {
    hide Reaches;
    var c, store := Config(8, 3), map[log.key := log.bytes];
    var b, m, l1, l2, b2, m2 := Item(base), Item(mark), Item(log1), Item(log2), Item(base2), Item(mark2);
    var w3, w4 := [log, base, mark], [log, base, mark, log1];
    var w5, w6 := [log, base, mark, log1, log2], [log, base, mark, log1, log2, base2];
    steps := BaseInFlight(log, base, mark);
    steps := Push(c, steps, w3, [m], Putting(b), store, log1, w4, [m, l1]);
    steps := Coalesce(c, steps, w4, [m, l1], Putting(b), store, log2, 1, w5, [m, l2]);
    steps := Push(c, steps, w5, [m, l2], Putting(b), store, base2, w6, [m, l2, b2]);
    steps := Coalesce(c, steps, w6, [m, l2, b2], Putting(b), store, mark2, 0, w6 + [mark2], [m2, l2, b2]);
    assert w6 + [mark2] == [log, base, mark, log1, log2, base2, mark2];
  }

  /** The base is stored, and then the marker and the log that were coalesced behind it; the new base waits. */
  lemma MarkerOvertakesBase(log: Put, base: Put, mark: Put, log1: Put, log2: Put, base2: Put, mark2: Put)
    returns (steps: seq<Step>)
    requires log1.key == log2.key && base.key == base2.key && mark.key == mark2.key
    requires log.key != base.key && base.key != mark.key && mark.key != log.key
    requires log1.key !in {log.key, base.key, mark.key}
    ensures Reaches(Config(8, 3), steps, [log, base, mark, log1, log2, base2, mark2], [Item(base2)], Locking,
                    map[log.key := log.bytes][base.key := base.bytes][mark2.key := mark2.bytes][log2.key := log2.bytes])
  {
    hide Reaches;
    var c := Config(8, 3);
    var l2, b2, m2, writes := Item(log2), Item(base2), Item(mark2), [log, base, mark, log1, log2, base2, mark2];
    var s1 := map[log.key := log.bytes];
    var s2 := s1[base.key := base.bytes];
    var s3 := s2[mark2.key := mark2.bytes];
    steps := FoldDuringPut(log, base, mark, log1, log2, base2, mark2);
    steps := Store(c, steps, writes, [m2, l2, b2], Item(base), s1);
    assert [m2, l2, b2] == [m2] + [l2, b2] && [l2, b2] == [l2] + [b2];
    steps := TakeFirst(c, steps, writes, m2, [l2, b2], s2);
    steps := Store(c, steps, writes, [l2, b2], m2, s2);
    steps := TakeFirst(c, steps, writes, l2, [b2], s3);
    steps := Store(c, steps, writes, [b2], l2, s3);
  }

  lemma NothingReached(c: Config)
    ensures Reaches(c, [], [], [], Locking, map[])
  {
  }

  // -------------------------------------------------------------------------
  // What a chat reads as behind it
  // -------------------------------------------------------------------------

  /** Three appends to a fresh chat: the first fills log 0, the second begins log 1 and the third fills it. */
  function ThreeAppends(chat: string, x: Bytes, y: Bytes, z: Bytes): seq<Append> {
    [Append(chat, x), Append(chat, y), Append(chat, z)]
  }

  lemma ReplaySnoc(a: seq<Append>, op: Append, threshold: nat)
    ensures Replay(a + [op], threshold) == AfterAppend(Replay(a, threshold), op.chat, op.lines, threshold)
    ensures AllPuts(a + [op], threshold)
         == AllPuts(a, threshold) + AppendPuts(Replay(a, threshold), op.chat, op.lines, threshold)
  {
    assert (a + [op])[..|a|] == a;
  }

  lemma FirstAppend(chat: string, x: Bytes, threshold: nat)
    requires threshold <= |x|
    ensures AppendPuts(map[], chat, x, threshold)
         == [Put(LogKey(chat, 0), x), Put(BaseKey(chat), x), Put(MetaKey(chat), MarkerBytes(0))]
    ensures AfterAppend(map[], chat, x, threshold)
         == map[LogKey(chat, 0) := x][BaseKey(chat) := x][MetaKey(chat) := MarkerBytes(0)]
  {
    hide LogKey, BaseKey, MetaKey, MarkerBytes;
    BaseAndMetaAreNotLogs(chat);
    assert "" + x == x;
    hide ApplyPuts;
    ThreePuts(map[], Put(LogKey(chat, 0), x), Put(BaseKey(chat), x), Put(MetaKey(chat), MarkerBytes(0)));
  }

  /** A chat whose log 0 is folded. */
  ghost predicate FoldedOnce(m: map<Key, Bytes>, chat: string, x: Bytes, y: Bytes) {
    && Lookup(m, BaseKey(chat)) == Some(x) && Lookup(m, MetaKey(chat)) == Some(MarkerBytes(0))
    && GetOrEmpty(m, LogKey(chat, 1)) == y
  }

  lemma FoldedOnceIs(m: map<Key, Bytes>, chat: string, x: Bytes, y: Bytes)
    requires FoldedOnce(m, chat, x, y)
    ensures ActiveIndex(m, chat) == 1
  {
    ParseMarkerOfMarker(0);
  }

  lemma SecondAppend(m: map<Key, Bytes>, chat: string, x: Bytes, y: Bytes, threshold: nat)
    requires FoldedOnce(m, chat, x, "") && |y| < threshold
    ensures AppendPuts(m, chat, y, threshold) == [Put(LogKey(chat, 1), y)]
    ensures FoldedOnce(AfterAppend(m, chat, y, threshold), chat, x, y)
  {
    FoldedOnceIs(m, chat, x, "");
    BaseAndMetaAreNotLogs(chat);
    hide LogKey, BaseKey, MetaKey, MarkerBytes, ActiveIndex;
    assert "" + y == y;
    var log := Put(LogKey(chat, 1), y);
    ThreePuts(m, log, log, log);
  }

  lemma ThirdAppend(m: map<Key, Bytes>, chat: string, x: Bytes, y: Bytes, z: Bytes, threshold: nat)
    requires FoldedOnce(m, chat, x, y) && threshold <= |y + z|
    ensures AppendPuts(m, chat, z, threshold)
         == [Put(LogKey(chat, 1), y + z), Put(BaseKey(chat), x + (y + z)), Put(MetaKey(chat), MarkerBytes(1))]
  {
    FoldedOnceIs(m, chat, x, y);
    BaseAndMetaAreNotLogs(chat);
    hide LogKey, BaseKey, MetaKey, MarkerBytes, ActiveIndex;
  }

  lemma WritesOfThree(chat: string, x: Bytes, y: Bytes, z: Bytes, threshold: nat)
    requires |y| < threshold <= |x| && threshold <= |y + z|
    ensures AllPuts(ThreeAppends(chat, x, y, z), threshold)
         == [Put(LogKey(chat, 0), x), Put(BaseKey(chat), x), Put(MetaKey(chat), MarkerBytes(0)), Put(LogKey(chat, 1), y),
             Put(LogKey(chat, 1), y + z), Put(BaseKey(chat), x + (y + z)), Put(MetaKey(chat), MarkerBytes(1))]
  {
    hide LogKey, BaseKey, MetaKey, MarkerBytes, AppendPuts, AfterAppend, FoldedOnce;
    var a, b, c := Append(chat, x), Append(chat, y), Append(chat, z);
    FirstAppend(chat, x, threshold);
    FoldedByFirst(chat, x);
    var m1 := AfterAppend(map[], chat, x, threshold);
    SecondAppend(m1, chat, x, y, threshold);
    ThirdAppend(AfterAppend(m1, chat, y, threshold), chat, x, y, z, threshold);
    assert [] + [a] == [a] && [a] + [b] == [a, b] && [a, b] + [c] == ThreeAppends(chat, x, y, z);
    ReplaySnoc([], a, threshold);
    ReplaySnoc([a], b, threshold);
    ReplaySnoc([a, b], c, threshold);
  }

  lemma FoldedByFirst(chat: string, x: Bytes)
    ensures FoldedOnce(map[LogKey(chat, 0) := x][BaseKey(chat) := x][MetaKey(chat) := MarkerBytes(0)], chat, x, "")
  {
    BaseAndMetaAreNotLogs(chat);
    if LogKey(chat, 1) == LogKey(chat, 0) { LogKeysAreDistinct(chat, 1, 0); }
    hide LogKey, BaseKey, MetaKey, MarkerBytes;
  }

  /** All writes are accepted and only the last base is pending, behind the writes of the first two appends; the store has
      the log with the second append's lines, but the chat reads as the first append alone. */
  lemma StoredLinesCanBeUnread(chat: string, x: Bytes, y: Bytes, z: Bytes, threshold: nat) returns (steps: seq<Step>)
    requires |y| < threshold <= |x| && threshold <= |y + z|
    ensures var c, s := Config(8, 3), Run(Config(8, 3), 1, steps);
      && F.NoLateRequeue(c, 1, steps) && BuriesNothing(c, 1, steps)
      && WritesOf(c, 1, steps) == AllPuts(ThreeAppends(chat, x, y, z), threshold)
      && PendingPuts(s) == [Put(BaseKey(chat), x + (y + z))]
      && Lookup(s.store, LogKey(chat, 1)) == Some(y + z)
      && ChatText(s.store, chat) == x
  {
    hide LogKey, BaseKey, MetaKey, MarkerBytes, ChatText, AllPuts, Run, WritesOf, BuriesNothing, F.NoLateRequeue, Calm;
    WritesOfThree(chat, x, y, z, threshold);
    BaseAndMetaAreNotLogs(chat);
    LogsDiffer(chat);
    var log, mark, mark2 := Put(LogKey(chat, 0), x), Put(MetaKey(chat), MarkerBytes(0)), Put(MetaKey(chat), MarkerBytes(1));
    var base, base2 := Put(BaseKey(chat), x), Put(BaseKey(chat), x + (y + z));
    var log1, log2 := Put(LogKey(chat, 1), y), Put(LogKey(chat, 1), y + z);
    steps := MarkerOvertakesBase(log, base, mark, log1, log2, base2, mark2);
    CalmRunsAreOrderly(Config(8, 3), 1, steps);
    var s := Run(Config(8, 3), 1, steps);
    assert PendingPuts(s) == [base2] by { assert PutsOf([Item(base2)]) == [base2]; }
    ReadsBehindMarker(s.store, chat, x, y + z);
  }

  lemma LogsDiffer(chat: string)
    ensures LogKey(chat, 0) != LogKey(chat, 1)
  {
    if LogKey(chat, 1) == LogKey(chat, 0) { LogKeysAreDistinct(chat, 1, 0); }
  }

  lemma ReadsBehindMarker(store: map<Key, Bytes>, chat: string, x: Bytes, v: Bytes)
    requires store == map[LogKey(chat, 0) := x][BaseKey(chat) := x][MetaKey(chat) := MarkerBytes(1)][LogKey(chat, 1) := v]
    ensures ChatText(store, chat) == x
  {
    hide LogKey, BaseKey, MetaKey, MarkerBytes, ParseMarker, LogsFrom;
    ParseMarkerOfMarker(1);
    BaseAndMetaAreNotLogs(chat);
    assert Lookup(store, BaseKey(chat)) == Some(x) && FirstUnabsorbed(store, chat) == 2;
    forall n: nat | n >= 2 ensures LogKey(chat, n) !in store {
      if LogKey(chat, n) == LogKey(chat, 0) { LogKeysAreDistinct(chat, n, 0); }
      if LogKey(chat, n) == LogKey(chat, 1) { LogKeysAreDistinct(chat, n, 1); }
    }
    NoLogsAbove(store, chat, 2);
  }
}
