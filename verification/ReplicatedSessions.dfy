/** Sessions behind the replicator: what a crash leaves of a chat when the writes go through the queue
    (agent/src/core/sessions/mod.rs, lines 617-667; agent/src/core/cloud/replicator.rs, lines 80-182). */
module ReplicatedSessions {
  import opened Base
  import opened Replicator
  import opened SessionLog
  import opened SessionEntries
  import opened SessionTree
  import opened SessionHistory

  /** The write a step accepts, if any. */
  function AcceptedBy(c: Config, s: State, step: Step): Option<Put> {
    if step.Enter? && Enabled(c, s, step) && EnqueueOutcomeOf(c, s.shared) == Accepted
    then Some(Put(s.producers[step.p].key, s.producers[step.p].bytes))
    else None
  }

  /** All accepted writes of a run, in order. */
  function WritesOf(c: Config, producers: nat, steps: seq<Step>): seq<Put> {
    if steps == [] then [] else
    var before, last := steps[..|steps| - 1], steps[|steps| - 1];
    var w := AcceptedBy(c, Run(c, producers, before), last);
    WritesOf(c, producers, before) + (if w.Some? then [w.value] else [])
  }

  /** A step that neither coalesces a write into a queued one nor gives one up. PUTs may fail and be retried. */
  predicate IsOrderly(c: Config, s: State, step: Step) {
    var w := AcceptedBy(c, s, step);
    && (w.Some? ==> FirstIndex(s.shared.queue, w.value.key) == |s.shared.queue|)
    && !(step.Bury? && Enabled(c, s, step))
  }

  predicate OrderlyRun(c: Config, producers: nat, steps: seq<Step>) {
    steps == [] ||
    (OrderlyRun(c, producers, steps[..|steps| - 1])
     && IsOrderly(c, Run(c, producers, steps[..|steps| - 1]), steps[|steps| - 1]))
  }

  function PutsOf(q: seq<PendingWrite>): (r: seq<Put>)
    ensures |r| == |q| && forall i :: 0 <= i < |q| ==> r[i] == Put(q[i].key, q[i].bytes)
  {
    seq(|q|, (i: nat) requires i < |q| => Put(q[i].key, q[i].bytes))
  }

  /** The writes still to be stored: the one in flight, then the queue. */
  function PendingPuts(s: State): seq<Put> {
    (if InFlight(s) then [Put(s.drainer.item.key, s.drainer.item.bytes)] else []) + PutsOf(s.shared.queue)
  }

  /** The store has the first writes of the run, and the rest are pending in order. */
  ghost predicate StoredInOrder(writes: seq<Put>, n: nat, s: State) {
    n <= |writes| && writes[n..] == PendingPuts(s) && s.store == ApplyPuts(map[], writes[..n])
  }

  lemma AcceptedIsLast(c: Config, s: State, step: Step, writes: seq<Put>, n: nat)
    requires IsOrderly(c, s, step) && AcceptedBy(c, s, step).Some? && StoredInOrder(writes, n, s)
    ensures StoredInOrder(writes + [AcceptedBy(c, s, step).value], n, Apply(c, s, step))
  {
    hide ApplyPuts;
    var w, s' := AcceptedBy(c, s, step).value, Apply(c, s, step);
    assert s'.shared.queue == s.shared.queue + [PendingWrite(w.key, w.bytes, 0)];
    assert PutsOf(s'.shared.queue) == PutsOf(s.shared.queue) + [w];
    assert InFlight(s') == InFlight(s);
    assert PendingPuts(s') == PendingPuts(s) + [w];
    assert (writes + [w])[n..] == writes[n..] + [w] && (writes + [w])[..n] == writes[..n];
  }

  lemma StoredNext(s: State, writes: seq<Put>, n: nat)
    requires s.drainer.Putting? && StoredInOrder(writes, n, s)
    ensures StoredInOrder(writes, n + 1, PutOkStep(s))
  {
    assert PendingPuts(s)[0] == writes[n] && PendingPuts(s)[1..] == PutsOf(s.shared.queue);
    assert writes[n..][1..] == writes[n + 1..];
    assert writes[..n + 1] == writes[..n] + [writes[n]];
    assert writes[..n + 1][..n] == writes[..n];
  }

  /** Every other step leaves the store and the order of what is pending alone. */
  lemma OthersKeepPending(c: Config, s: State, step: Step)
    requires AcceptedBy(c, s, step).None? && !(step.PutOk? && Enabled(c, s, step)) && !(step.Bury? && Enabled(c, s, step))
    ensures PendingPuts(Apply(c, s, step)) == PendingPuts(s) && Apply(c, s, step).store == s.store
  {
    hide PutsOf, EnqueueEffect, NoteAccept;
    if Enabled(c, s, step) {
      match step {
        case Look => LookKeepsPending(s);
        case Requeue(wake) => RequeueKeepsPending(s, wake);
        case _ =>
      }
    }
  }

  lemma LookKeepsPending(s: State)
    requires s.drainer.Locking?
    ensures PendingPuts(LookStep(s)) == PendingPuts(s)
  {
    hide PutsOf, NoteTake;
    var q := s.shared.queue;
    if q != [] {
      assert q == [q[0]] + q[1..];
      PutsCons(q[0], q[1..]);
    }
  }

  lemma PutsCons(item: PendingWrite, q: seq<PendingWrite>)
    ensures PutsOf([item] + q) == [Put(item.key, item.bytes)] + PutsOf(q)
  {
  }

  lemma RequeueKeepsPending(s: State, wake: Option<Waiter>)
    requires s.drainer.BackingOff? && LegalWake(s, wake)
    ensures PendingPuts(RequeueStep(s, wake)) == PendingPuts(s)
  {
    hide PutsOf;
    PutsCons(s.drainer.item, s.shared.queue);
  }

  /** On every run without coalescing and dead letters, at every point, the store holds a first part of the accepted
      writes, applied in order; retries do not disturb it. */
  lemma {:induction false} OrderlyRunsStoreInOrder(c: Config, producers: nat, steps: seq<Step>) returns (n: nat)
    requires OrderlyRun(c, producers, steps)
    ensures StoredInOrder(WritesOf(c, producers, steps), n, Run(c, producers, steps))
    decreases |steps|
  {
    hide IsOrderly, AcceptedBy, PendingPuts, Enabled, ApplyPuts, Apply;
    if steps == [] {
      n := 0;
      NothingIsPending(producers);
      assert WritesOf(c, producers, steps)[..0] == [];
    } else {
      var before, last := steps[..|steps| - 1], steps[|steps| - 1];
      n := OrderlyRunsStoreInOrder(c, producers, before);
      var s, writes := Run(c, producers, before), WritesOf(c, producers, before);
      assert writes + [] == writes;
      if AcceptedBy(c, s, last).Some? {
        AcceptedIsLast(c, s, last, writes, n);
      } else if last.PutOk? && Enabled(c, s, last) {
        PutOkApplies(c, s);
        StoredNext(s, writes, n);
        n := n + 1;
      } else {
        OrderlyBuriesNothing(c, s, last);
        OthersKeepPending(c, s, last);
      }
    }
  }

  lemma OrderlyBuriesNothing(c: Config, s: State, step: Step)
    requires IsOrderly(c, s, step)
    ensures !(step.Bury? && Enabled(c, s, step))
  {
  }

  lemma PutOkApplies(c: Config, s: State)
    requires Enabled(c, s, PutOk)
    ensures s.drainer.Putting? && Apply(c, s, PutOk) == PutOkStep(s)
  {
  }

  lemma NothingIsPending(producers: nat)
    ensures PendingPuts(Init(producers)) == [] && ApplyPuts(map[], []) == map[]
  {
  }

  /** A crash at any point of such a run, while the sessions enqueue the writes of legal appends: the store, as the
      replicator leaves it, gives every chat the branch of some whole number of the appends. */
  lemma ReplicatedCrashKeepsTheBranch(c: Config, producers: nat, steps: seq<Step>,
                                      fmt: LineFormat, ops: seq<EntryAppend>, threshold: nat) returns (whole: nat)
    requires OrderlyRun(c, producers, steps)
    requires WritesOf(c, producers, steps) <= AllPuts(AsAppends(fmt, ops, threshold), threshold)
    requires Faithful(fmt) && |ops| + 1 < U32_MODULUS && LegalAppends(ops)
    ensures whole <= |ops|
    ensures forall chat ::
      var restored := Load(fmt, ChatText(Run(c, producers, steps).store, chat));
      var history := SessionHistory.History(ops[..whole], chat);
      Terminates(restored) && Terminates(history) && Branch(restored) == Branch(history) && IsChain(Branch(history))
  {
    hide OrderlyRun, WritesOf, Run, AllPuts, AsAppends, ApplyPuts, Load, ChatText, SessionHistory.History,
      Terminates, Branch, IsChain, LegalAppends,
      PendingPuts, Faithful;
    var n := OrderlyRunsStoreInOrder(c, producers, steps);
    var all, writes := AllPuts(AsAppends(fmt, ops, threshold), threshold), WritesOf(c, producers, steps);
    assert all[..n] == writes[..n];
    assert Run(c, producers, steps).store == ApplyPuts(map[], all[..n]);
    whole := CrashKeepsTheBranch(fmt, ops, threshold, n);
  }
}
