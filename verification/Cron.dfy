/** Scheduled jobs: next runs, error backoff, and the job store with its rollback
    (agent/src/core/cron.rs, lines 10-31, 40-94, 159-337 and 401-466; agent/src/core/cloud/strict.rs, lines 19-47). */
module Cron {
  import opened Base
  import opened CloudCaching
  import opened ObjectStores

  const CRON_CLOUD_KEY: Key := "sys/cron.json"
  const MAX_CONSECUTIVE_ERRORS: nat := 10
  const U64_MODULUS: nat := 0x1_0000_0000_0000_0000

  // -------------------------------------------------------------------------
  // Schedules
  // -------------------------------------------------------------------------

  datatype Schedule = At(atMs: nat) | Every(everyMs: nat, anchorMs: Option<nat>)

  function Interval(everyMs: nat): (i: nat)
    ensures i >= 1
  {
    if everyMs < 1 then 1 else everyMs
  }

  function NextPoint(interval: nat, anchor: nat, now: nat): nat
    requires interval >= 1
  {
    if now < anchor then anchor else
    var periods := (now - anchor + interval - 1) / interval;
    anchor + (if periods < 1 then 1 else periods) * interval
  }

  function NextRun(s: Schedule, now: nat): Option<nat> {
    match s
    case At(at) => if at > now then Some(at) else None
    case Every(every, anchor) => Some(NextPoint(Interval(every), if anchor.Some? then anchor.value else now, now))
  }

  /** A point of the schedule's grid behind the anchor. */
  ghost predicate IsPoint(interval: nat, anchor: nat, t: nat) {
    exists k: nat :: k >= 1 && t == PointAt(interval, anchor, k)
  }

  function PointAt(interval: nat, anchor: nat, k: nat): nat {
    anchor + k * interval
  }

  lemma CeilingDivision(n: nat, d: nat)
    requires d >= 1
    ensures var q := (n + d - 1) / d; q * d >= n && (q > 0 ==> (q - 1) * d < n)
  {
    var q := (n + d - 1) / d;
    var r := (n + d - 1) % d;
    assert n + d - 1 == q * d + r;
    assert (q - 1) * d == q * d - d;
  }

  lemma TimesGrows(a: nat, b: nat, d: nat)
    requires a <= b
    ensures a * d <= b * d
  {
  }

  /** Behind the anchor, the next run is the least grid point that is not before now. */
  lemma NextPointIsLeast(interval: nat, anchor: nat, now: nat, t: nat)
    requires interval >= 1 && now >= anchor
    ensures var r := NextPoint(interval, anchor, now);
      IsPoint(interval, anchor, r) && r >= now && r > anchor && (IsPoint(interval, anchor, t) && t >= now ==> r <= t)
  {
    var n := now - anchor;
    CeilingDivision(n, interval);
    var q := (n + interval - 1) / interval;
    var periods := if q < 1 then 1 else q;
    assert NextPoint(interval, anchor, now) == PointAt(interval, anchor, periods);
    TimesGrows(1, periods, interval);
    TimesGrows(q, periods, interval);
    if IsPoint(interval, anchor, t) && t >= now {
      var k: nat :| k >= 1 && t == PointAt(interval, anchor, k);
      if k < periods {
        TimesGrows(k, periods - 1, interval);
        assert false;
      }
      TimesGrows(periods, k, interval);
    }
  }

  /** The next run can be now itself: exactly when now is a grid point behind the anchor. */
  lemma NextRunIsNowExactlyOnTheGrid(interval: nat, anchor: nat, now: nat)
    requires interval >= 1
    ensures NextPoint(interval, anchor, now) == now <==> now > anchor && IsPoint(interval, anchor, now)
  {
    if now >= anchor {
      NextPointIsLeast(interval, anchor, now, now);
    }
  }

  /** Within these bounds nothing overflows 64 bits. */
  lemma NextPointFits(interval: nat, anchor: nat, now: nat)
    requires interval >= 1 && now + interval < U64_MODULUS && anchor + interval < U64_MODULUS
    ensures NextPoint(interval, anchor, now) < U64_MODULUS
    ensures now >= anchor ==> now - anchor + interval - 1 < U64_MODULUS
  {
    if now >= anchor {
      CeilingDivision(now - anchor, interval);
      var q := (now - anchor + interval - 1) / interval;
      if q > 0 { assert (q - 1) * interval == q * interval - interval; }
    }
  }

  // -------------------------------------------------------------------------
  // Jobs
  // -------------------------------------------------------------------------

  datatype Job = Job(
    id: string,
    enabled: bool,
    deleteAfterRun: bool,
    schedule: Schedule,
    nextRunAt: Option<nat>,
    lastRunAt: Option<nat>,
    lastOk: Option<bool>,
    errors: nat,
    runningAt: Option<nat>,
    updatedAt: nat
  )

  function Backoff(errors: nat): nat {
    var schedule := [30_000, 60_000, 300_000, 900_000, 3_600_000];
    var i := if errors < 1 then 0 else errors - 1;
    schedule[if i < 4 then i else 4]
  }

  lemma BackoffNeverShrinks(a: nat, b: nat)
    requires a <= b
    ensures 30_000 <= Backoff(a) <= Backoff(b) <= 3_600_000
  {
  }

  predicate IsDue(job: Job, now: nat) {
    job.enabled && job.runningAt.None? && job.nextRunAt.Some? && job.nextRunAt.value <= now
  }

  /** The job with the outcome noted, before its next run is computed. */
  function Noted(job: Job, success: bool, now: nat): (r: Job)
    ensures r.id == job.id && r.schedule == job.schedule && r.deleteAfterRun == job.deleteAfterRun
  {
    var errors := if success then 0 else job.errors + 1;
    job.(lastOk := Some(success), errors := errors, lastRunAt := Some(now), runningAt := None,
         enabled := job.enabled && errors < MAX_CONSECUTIVE_ERRORS)
  }

  function Rescheduled(job: Job, now: nat): (r: Job)
    ensures r.id == job.id && r.schedule == job.schedule
  {
    var next := NextRun(job.schedule, now);
    var early := job.errors > 0 && next.Some? && next.value < now + Backoff(job.errors);
    var delayed := if early then Some(now + Backoff(job.errors)) else next;
    job.(nextRunAt := delayed, updatedAt := now)
  }

  /** The job after a run that keeps it. */
  function AfterRun(job: Job, success: bool, now: nat): Job {
    Rescheduled(Noted(job, success, now), now)
  }

  /** A failure pushes the next run behind the backoff, and never pulls it before the schedule's own next run. */
  lemma FailureBacksOff(job: Job, now: nat)
    ensures var after := AfterRun(job, false, now);
      && after.errors == job.errors + 1
      && (after.nextRunAt.Some? <==> NextRun(job.schedule, now).Some?)
      && (after.nextRunAt.Some? ==> after.nextRunAt.value >= now + Backoff(after.errors))
      && (after.nextRunAt.Some? ==> after.nextRunAt.value >= NextRun(job.schedule, now).value)
  {
  }

  /** What a job becomes, and how often it is run, when it is looked at at some times and every run fails. */
  function Failing(job: Job, times: seq<nat>): (Job, nat) {
    if times == [] then (job, 0) else
    var (before, fired) := Failing(job, times[..|times| - 1]);
    var now := times[|times| - 1];
    if IsDue(before, now) then (AfterRun(before, false, now), fired + 1) else (before, fired)
  }

  lemma {:induction false} FailingCounts(job: Job, times: seq<nat>)
    requires job.errors < MAX_CONSECUTIVE_ERRORS
    ensures var (after, fired) := Failing(job, times);
      && after.errors == job.errors + fired <= MAX_CONSECUTIVE_ERRORS
      && (after.enabled <==> job.enabled && after.errors < MAX_CONSECUTIVE_ERRORS)
    decreases |times|
  {
    if times != [] {
      FailingCounts(job, times[..|times| - 1]);
    }
  }

  /** Whenever it is looked at, a job that always fails is run at most ten times, and is disabled after the tenth. */
  lemma FailingJobsStop(job: Job, times: seq<nat>)
    requires job.errors == 0
    ensures var (after, fired) := Failing(job, times); fired <= 10 && (fired == 10 ==> !after.enabled)
  {
    FailingCounts(job, times);
  }

  /** A one-shot job that fails is not run again. */
  lemma OneShotsRunOnce(job: Job, times: seq<nat>)
    requires job.schedule.At? && (job.nextRunAt.Some? ==> job.nextRunAt.value == job.schedule.atMs)
    ensures var (after, fired) := Failing(job, times);
      fired <= 1 && after.schedule == job.schedule && (fired == 1 ==> after.nextRunAt.None?) && (fired == 0 ==> after == job)
    decreases |times|
  {
    if times != [] {
      OneShotsRunOnce(job, times[..|times| - 1]);
    }
  }

  method NoteOutcome(job: Job, success: bool, now: nat) returns (r: Job)
    ensures r == Noted(job, success, now)
  {
    r := job;
    if success {
      r := r.(lastOk := Some(true), errors := 0);
    } else {
      r := r.(lastOk := Some(false), errors := r.errors + 1);
    }
    r := r.(lastRunAt := Some(now), runningAt := None);
    if r.errors >= MAX_CONSECUTIVE_ERRORS {
      r := r.(enabled := false);
    }
  }

  method Reschedule(job: Job, now: nat) returns (r: Job)
    ensures r == Rescheduled(job, now)
  {
    hide NextRun, Backoff;
    r := job.(nextRunAt := NextRun(job.schedule, now));
    if r.errors > 0 {
      var backoff := Backoff(r.errors);
      if r.nextRunAt.Some? {
        r := r.(nextRunAt := Some(if r.nextRunAt.value < now + backoff then now + backoff else r.nextRunAt.value));
      }
    }
    r := r.(updatedAt := now);
  }

  // -------------------------------------------------------------------------
  // Strict writes
  // -------------------------------------------------------------------------

  /** Up to `retryMax + 1` attempts; the first that succeeds ends it. */
  method StrictPut(store: ObjectStore, key: Key, bytes: Bytes, retryMax: nat) returns (ok: bool)
    modifies store`ops, store`objects
    ensures ok <==> exists i: nat :: i <= retryMax && !store.fails(AttemptAt(old(store.ops), i))
    ensures store.objects == if ok then old(store.objects)[key := bytes] else old(store.objects)
    ensures old(store.ops) < store.ops <= old(store.ops) + retryMax + 1
    ensures forall i: nat :: AttemptAt(old(store.ops), i) < store.ops - 1 ==> store.fails(AttemptAt(old(store.ops), i))
  {
    for attempt := 0 to retryMax + 1
      invariant store.ops == old(store.ops) + attempt && store.objects == old(store.objects)
      invariant forall i: nat :: i < attempt ==> store.fails(AttemptAt(old(store.ops), i))
    {
      assert AttemptAt(old(store.ops), attempt) == store.ops;
      ok := store.Put(key, bytes);
      if ok {
        return;
      }
    }
    ok := false;
  }

  function AttemptAt(from: nat, i: nat): nat {
    from + i
  }

  // -------------------------------------------------------------------------
  // The job store
  // -------------------------------------------------------------------------

  class CronStore {
    var jobs: map<string, Job>
    /** None without a cloud tier. */
    const store: ObjectStore?
    const cache: CloudCache
    const retryMax: nat
    /** The job file's text. */
    const encode: map<string, Job> -> Bytes
    var file: Bytes

    constructor (store: ObjectStore?, cache: CloudCache, retryMax: nat, encode: map<string, Job> -> Bytes)
      ensures jobs == map[] && this.store == store && this.cache == cache && this.retryMax == retryMax && this.encode == encode
    {
      jobs, file := map[], "";
      this.store, this.cache, this.retryMax, this.encode := store, cache, retryMax, encode;
    }

    /** One of the strict write's attempts will succeed; without a cloud tier there is none to fail. */
    ghost predicate CloudTakes()
      reads this, store
    {
      store != null ==> exists i: nat :: i <= retryMax && !store.fails(AttemptAt(store.ops, i))
    }

    /** Cache first, then the strict write, then the file; the cache keeps what the store refused. */
    method Save(diskOk: bool) returns (ok: bool)
      modifies this`file, cache, store
      ensures ok <==> old(CloudTakes()) && diskOk
      ensures store != null ==>
        store.objects == if old(CloudTakes()) then old(store.objects)[CRON_CLOUD_KEY := encode(jobs)] else old(store.objects)
      ensures store != null ==> cache.entries == old(cache.entries)[CRON_CLOUD_KEY := encode(jobs)]
      ensures store == null ==> cache.entries == old(cache.entries)
      ensures file == if ok then encode(jobs) else old(file)
    {
      var data := encode(jobs);
      if store != null {
        cache.Put(CRON_CLOUD_KEY, data);
        ok := StrictPut(store, CRON_CLOUD_KEY, data, retryMax);
        if !ok {
          return;
        }
      }
      ok := diskOk;
      if ok {
        file := data;
      }
    }

    /** A failed add removes the id again, which restores the jobs exactly when the id was new: an older job under the
        same id is lost. */
    method Add(job: Job, diskOk: bool) returns (ok: bool)
      modifies this, cache, store
      ensures ok <==> old(CloudTakes()) && diskOk
      ensures jobs == if ok then old(jobs)[job.id := job] else old(jobs) - {job.id}
      ensures !ok ==> (jobs == old(jobs) <==> job.id !in old(jobs))
      ensures ok ==> file == encode(jobs)
    {
      jobs := jobs[job.id := job];
      ok := Save(diskOk);
      if !ok {
        jobs := jobs - {job.id};
        assert jobs == old(jobs) - {job.id};
        assert job.id in old(jobs) ==> job.id !in jobs;
      }
    }

    /** A failed removal puts the job back. */
    method Remove(id: string, diskOk: bool) returns (ok: bool)
      requires forall k :: k in jobs ==> jobs[k].id == k
      modifies this, cache, store
      ensures ok <==> id !in old(jobs) || (old(CloudTakes()) && diskOk)
      ensures jobs == if ok then old(jobs) - {id} else old(jobs)
    {
      if id !in jobs {
        assert jobs - {id} == jobs;
        return true;
      }
      var prev := jobs[id];
      jobs := jobs - {id};
      ok := Save(diskOk);
      if !ok {
        jobs := jobs[prev.id := prev];
        assert jobs == old(jobs);
      }
    }

    /** A failed update puts back what the store held when it was called. */
    method Update(job: Job, diskOk: bool) returns (ok: bool)
      modifies this, cache, store
      ensures ok <==> job.id !in old(jobs) || (old(CloudTakes()) && diskOk)
      ensures job.id !in old(jobs) ==> jobs == old(jobs)
      ensures job.id in old(jobs) ==> jobs == if ok then old(jobs)[job.id := job] else old(jobs)
    {
      if job.id !in jobs {
        return true;
      }
      var prev := jobs[job.id];
      jobs := jobs[job.id := job];
      ok := Save(diskOk);
      if !ok {
        jobs := jobs[job.id := prev];
        assert jobs == old(jobs);
      }
    }

    /** The outcome of a run. The job is changed in place before it is handed to the update, so a failed save rolls
        back to the changed job: in memory the outcome is the same whether the save succeeds or not. A one-shot that ran
        well and whose removal failed is due again whenever it was before it started. */
    method ApplyJobResult(id: string, success: bool, now: nat, diskOk: bool)
      requires forall k :: k in jobs ==> jobs[k].id == k
      modifies this, cache, store
      ensures id !in old(jobs) ==> jobs == old(jobs)
      ensures id in old(jobs) && !(old(jobs)[id].deleteAfterRun && success) ==>
        jobs == old(jobs)[id := AfterRun(old(jobs)[id], success, now)]
      ensures id in old(jobs) && old(jobs)[id].deleteAfterRun && success ==>
        jobs == if old(CloudTakes()) && diskOk then old(jobs) - {id} else old(jobs)[id := Noted(old(jobs)[id], success, now)]
      ensures id in old(jobs) && old(jobs)[id].deleteAfterRun && success && !(old(CloudTakes()) && diskOk) ==>
        id in jobs && forall later :: IsDue(jobs[id], later) <==> IsDue(old(jobs)[id].(runningAt := None), later)
    {
      if id !in jobs {
        return;
      }
      hide Noted, Rescheduled;
      var deleteAfterRun := jobs[id].deleteAfterRun;
      var job := NoteOutcome(jobs[id], success, now);
      jobs := jobs[id := job];
      if deleteAfterRun && success {
        var removed := Remove(id, diskOk);
        assert old(jobs)[id := job] - {id} == old(jobs) - {id};
      } else {
        job := Reschedule(job, now);
        jobs := jobs[id := job];
        var updated := Update(job, diskOk);
        assert jobs == old(jobs)[id := job];
      }
    }
  }
}
