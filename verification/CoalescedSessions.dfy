/** Crashes of a session whose writes are coalesced on their way to the store
    (agent/src/core/sessions/mod.rs, lines 617-809; agent/src/core/cloud/replicator.rs, lines 80-182). */
module CoalescedSessions {
  import opened Base
  import opened SessionKeys
  import opened CloudCaching
  import opened SessionLog
  import opened SessionEntries
  import opened SessionTree
  import opened CoalescedWrites
  import F = ReplicatorFreshness
  import H = SessionHistory
  import R = Replicator
  import RS = ReplicatedSessions

  // -------------------------------------------------------------------------
  // One step of a chat's files
  // -------------------------------------------------------------------------

  function LogText(m: map<Key, Bytes>, chat: string, i: nat): Bytes {
    GetOrEmpty(m, LogKey(chat, i))
  }

  function BaseText(m: map<Key, Bytes>, chat: string): Bytes {
    GetOrEmpty(m, BaseKey(chat))
  }

  /** Every log but the active one stays. */
  ghost predicate OtherLogsStay(m: map<Key, Bytes>, m': map<Key, Bytes>, chat: string) {
    forall i: nat :: i != FirstUnabsorbed(m, chat) ==> Lookup(m', LogKey(chat, i)) == Lookup(m, LogKey(chat, i))
  }

  /** The step writes no base. */
  ghost predicate Grew(m: map<Key, Bytes>, m': map<Key, Bytes>, chat: string) {
    && FirstUnabsorbed(m', chat) == FirstUnabsorbed(m, chat) && BaseText(m', chat) == BaseText(m, chat)
    && OtherLogsStay(m, m', chat)
  }

  /** The step folds the active log. */
  ghost predicate Folded(m: map<Key, Bytes>, m': map<Key, Bytes>, chat: string) {
    var f := FirstUnabsorbed(m, chat);
    && FirstUnabsorbed(m', chat) == f + 1 && OtherLogsStay(m, m', chat)
    && BaseText(m', chat) == ChatText(m', chat) == BaseText(m, chat) + LogText(m', chat, f)
  }

  lemma SameChatGrew(m: map<Key, Bytes>, m': map<Key, Bytes>, chat: string)
    requires SameChat(m, m', chat)
    ensures Grew(m, m', chat)
  {
    SameChatReadsAlike(m, m', chat);
    hide LogKey, BaseKey, MetaKey, ChatText, FirstUnabsorbed, LogsFrom;
    forall i: nat ensures Lookup(m', LogKey(chat, i)) == Lookup(m, LogKey(chat, i)) {
      ChatKeysShareThePrefix(chat, i);
    }
    ChatKeysShareThePrefix(chat, 0);
    assert Lookup(m, BaseKey(chat)) == Lookup(m', BaseKey(chat));
  }

  lemma LogWriteGrew(m: map<Key, Bytes>, chat: string, lines: Bytes, room: nat)
    requires InOrder(m, chat, room)
    ensures Grew(m, WithLog(m, chat, lines), chat)
    ensures ActiveIndex(m, chat) == FirstUnabsorbed(m, chat)
    ensures LogText(WithLog(m, chat, lines), chat, FirstUnabsorbed(m, chat))
         == LogText(m, chat, FirstUnabsorbed(m, chat)) + lines
  {
    hide LogKey, BaseKey, MetaKey, ChatText, FirstUnabsorbed, ActiveIndex, InOrder;
    LogWriteKeepsOrder(m, chat, lines, room);
    TextOfInOrder(m, chat, room);
    var f, m' := FirstUnabsorbed(m, chat), WithLog(m, chat, lines);
    BaseAndMetaAreNotLogs(chat);
    forall i: nat | i != f ensures Lookup(m', LogKey(chat, i)) == Lookup(m, LogKey(chat, i)) {
      if LogKey(chat, i) == LogKey(chat, f) { LogKeysAreDistinct(chat, i, f); }
    }
  }

  lemma MarkerWriteFolded(m: map<Key, Bytes>, chat: string, lines: Bytes, room: nat)
    requires InOrder(m, chat, room + 1)
    ensures Folded(m, WithMarker(m, chat, lines), chat)
  {
    hide LogKey, BaseKey, MetaKey, ChatText, FirstUnabsorbed, ActiveIndex, InOrder, WithMarker, WithLog;
    LogWriteGrew(m, chat, lines, room + 1);
    MarkerWriteKeepsOrder(m, chat, lines, room);
    MarkerWriteText(m, chat, lines, room);
    TextOfInOrder(m, chat, room + 1);
    FoldWritesNoLog(m, chat, lines);
    var f, m' := FirstUnabsorbed(m, chat), WithMarker(m, chat, lines);
    assert Lookup(m', LogKey(chat, f)) == Lookup(WithLog(m, chat, lines), LogKey(chat, f));
  }

  lemma FoldWritesNoLog(m: map<Key, Bytes>, chat: string, lines: Bytes)
    ensures forall i: nat ::
              Lookup(WithMarker(m, chat, lines), LogKey(chat, i)) == Lookup(WithLog(m, chat, lines), LogKey(chat, i))
  {
    hide LogKey, BaseKey, MetaKey, ActiveIndex, WithLog, MarkerBytes;
    BaseAndMetaAreNotLogs(chat);
  }

  lemma AppendGrewOrFolded(m: map<Key, Bytes>, op: Append, threshold: nat, chat: string, room: nat)
    requires InOrder(m, chat, room + 1)
    ensures var m' := AfterAppend(m, op.chat, op.lines, threshold); Grew(m, m', chat) || Folded(m, m', chat)
  {
    hide InOrder, Grew, Folded, AppendPuts, WithLog, WithMarker, WithBase, SafeChatId, ApplyPuts;
    if SafeChatId(op.chat) == SafeChatId(chat) {
      SameSafeIdSameKeys(op.chat, chat, m, op.lines, threshold);
      AppendPutsStages(m, chat, op.lines, threshold);
      var puts := AppendPuts(m, chat, op.lines, threshold);
      if |puts| == 3 {
        MarkerWriteFolded(m, chat, op.lines, room);
      } else {
        assert puts[..1] == puts;
        LogWriteGrew(m, chat, op.lines, room + 1);
      }
    } else {
      AppendPutsStayInChat(m, op.chat, op.lines, threshold);
      PutsTouchOneChat(m, AppendPuts(m, op.chat, op.lines, threshold), op.chat, chat);
      SameChatGrew(m, AfterAppend(m, op.chat, op.lines, threshold), chat);
    }
  }

  // -------------------------------------------------------------------------
  // The files of a chat over a run
  // -------------------------------------------------------------------------

  /** The files after the first `p` appends. */
  function At(a: seq<Append>, threshold: nat, p: nat): map<Key, Bytes>
    requires p <= |a|
  {
    Replay(a[..p], threshold)
  }

  function FirstAt(a: seq<Append>, threshold: nat, p: nat, chat: string): nat
    requires p <= |a|
  {
    FirstUnabsorbed(At(a, threshold, p), chat)
  }

  function BaseAt(a: seq<Append>, threshold: nat, p: nat, chat: string): Bytes
    requires p <= |a|
  {
    BaseText(At(a, threshold, p), chat)
  }

  function LogAt(a: seq<Append>, threshold: nat, p: nat, chat: string, i: nat): Bytes
    requires p <= |a|
  {
    LogText(At(a, threshold, p), chat, i)
  }

  function TextAt(a: seq<Append>, threshold: nat, p: nat, chat: string): Bytes
    requires p <= |a|
  {
    ChatText(At(a, threshold, p), chat)
  }

  lemma StepAt(a: seq<Append>, threshold: nat, p: nat, chat: string)
    requires p < |a| && |a| + 1 < U32_MODULUS
    ensures var m, m' := At(a, threshold, p), At(a, threshold, p + 1); Grew(m, m', chat) || Folded(m, m', chat)
  {
    hide InOrder, Grew, Folded, AfterAppend;
    assert a[..p + 1][..p] == a[..p];
    ChatReadsWhatWasAppended(a[..p], threshold, chat, 1);
    AppendGrewOrFolded(At(a, threshold, p), a[p], threshold, chat, 0);
  }

  lemma TextAtIs(a: seq<Append>, threshold: nat, p: nat, chat: string)
    requires p <= |a| && |a| + 1 < U32_MODULUS
    ensures TextAt(a, threshold, p, chat)
         == BaseAt(a, threshold, p, chat) + LogAt(a, threshold, p, chat, FirstAt(a, threshold, p, chat))
    ensures InOrder(At(a, threshold, p), chat, 0)
  {
    ChatReadsWhatWasAppended(a[..p], threshold, chat, 0);
    hide InOrder, ChatText, FirstUnabsorbed, ActiveIndex;
    TextOfInOrder(At(a, threshold, p), chat, 0);
  }

  /** What later appends keep of the files. */
  lemma {:induction false} LaterFiles(a: seq<Append>, threshold: nat, p: nat, q: nat, chat: string)
    requires p <= q <= |a| && |a| + 1 < U32_MODULUS
    ensures FirstAt(a, threshold, p, chat) <= FirstAt(a, threshold, q, chat)
    ensures FirstAt(a, threshold, p, chat) == FirstAt(a, threshold, q, chat) ==>
              BaseAt(a, threshold, p, chat) == BaseAt(a, threshold, q, chat)
    decreases q
  {
    hide At, ChatText, FirstUnabsorbed, LogText, BaseText, OtherLogsStay;
    if p < q {
      LaterFiles(a, threshold, p, q - 1, chat);
      StepAt(a, threshold, q - 1, chat);
    }
  }

  lemma EmptyBaseIsText(a: seq<Append>, threshold: nat, chat: string)
    requires |a| + 1 < U32_MODULUS
    ensures TextAt(a, threshold, 0, chat) == BaseAt(a, threshold, 0, chat)
  {
    TextAtIs(a, threshold, 0, chat);
    assert At(a, threshold, 0) == map[];
  }

  /** The base is what the chat read as when it was last folded. */
  lemma {:induction false} BaseIsText(a: seq<Append>, threshold: nat, p: nat, chat: string) returns (w: nat)
    requires p <= |a| && |a| + 1 < U32_MODULUS
    ensures w <= p && FirstAt(a, threshold, w, chat) == FirstAt(a, threshold, p, chat)
    ensures TextAt(a, threshold, w, chat) == BaseAt(a, threshold, p, chat)
    decreases p
  {
    hide At, ChatText, FirstUnabsorbed, LogText, BaseText, OtherLogsStay;
    if p == 0 {
      w := 0;
      EmptyBaseIsText(a, threshold, chat);
    } else {
      w := BaseIsText(a, threshold, p - 1, chat);
      StepAt(a, threshold, p - 1, chat);
      if FirstAt(a, threshold, p, chat) != FirstAt(a, threshold, p - 1, chat) { w := p; }
    }
  }

  /** What a later version of the active log adds to the base is what the chat read as some time since. */
  lemma {:induction false} LogIsText(a: seq<Append>, threshold: nat, j: nat, r: nat, chat: string) returns (w: nat)
    requires j <= r <= |a| && |a| + 1 < U32_MODULUS
    ensures var f := FirstAt(a, threshold, j, chat);
      && j <= w <= r && TextAt(a, threshold, w, chat) == BaseAt(a, threshold, j, chat) + LogAt(a, threshold, r, chat, f)
      && (FirstAt(a, threshold, w, chat) == f || (j < w && FirstAt(a, threshold, w - 1, chat) == f))
    decreases r
  {
    hide At, ChatText, FirstUnabsorbed, BaseText, InOrder;
    var f := FirstAt(a, threshold, j, chat);
    LaterFiles(a, threshold, j, r, chat);
    if FirstAt(a, threshold, r, chat) == f {
      w := r;
      TextAtIs(a, threshold, r, chat);
    } else {
      LaterFiles(a, threshold, j, r - 1, chat);
      StepAt(a, threshold, r - 1, chat);
      if FirstAt(a, threshold, r - 1, chat) == f {
        w := r;
      } else {
        w := LogIsText(a, threshold, j, r - 1, chat);
        assert Lookup(At(a, threshold, r), LogKey(chat, f)) == Lookup(At(a, threshold, r - 1), LogKey(chat, f));
      }
    }
  }

  /** The stored marker has absorbed a log that the stored base does not have. */
  predicate MarkerAhead(a: seq<Append>, threshold: nat, store: map<Key, Bytes>, chat: string, j: nat)
    requires j <= |a|
  {
    FirstUnabsorbed(store, chat) > FirstAt(a, threshold, j, chat) && BaseText(store, chat) == BaseAt(a, threshold, j, chat)
  }

  /** Base, marker and active log from different points of the run, none from before `j`: the chat reads as it did after
      `w1` appends, followed by a part that already stood at the end of what it read as after `w2`. */
  lemma MixedText(a: seq<Append>, threshold: nat, store: map<Key, Bytes>, chat: string, j: nat, p: nat, q: nat, r: nat)
    returns (w0: nat, w1: nat, w2: nat, part: Bytes)
    requires j <= p <= |a| && j <= q <= |a| && j <= r <= |a| && |a| + 1 < U32_MODULUS
    requires BaseText(store, chat) == BaseAt(a, threshold, p, chat)
    requires FirstUnabsorbed(store, chat) == FirstAt(a, threshold, q, chat)
    requires LogText(store, chat, FirstAt(a, threshold, j, chat)) == LogAt(a, threshold, r, chat, FirstAt(a, threshold, j, chat))
    requires forall i: nat :: i > FirstAt(a, threshold, j, chat) ==> LogKey(chat, i) !in store
    ensures w0 <= w2 <= w1 <= |a|
    ensures ChatText(store, chat) == TextAt(a, threshold, w1, chat) + part
    ensures TextAt(a, threshold, w2, chat) == TextAt(a, threshold, w0, chat) + part
    ensures j <= w2 || MarkerAhead(a, threshold, store, chat, j)
    ensures MarkerAhead(a, threshold, store, chat, j) ==> ChatText(store, chat) == BaseAt(a, threshold, j, chat)
    ensures MarkerAhead(a, threshold, store, chat, j) ==> j < |a|
  {
    hide At, FirstAt, BaseAt, LogAt, TextAt, ChatText, FirstUnabsorbed, LogText, BaseText, LogKey;
    var f := FirstAt(a, threshold, j, chat);
    LaterFiles(a, threshold, j, p, chat);
    LaterFiles(a, threshold, j, q, chat);
    MixedIs(a, threshold, store, chat, j, q);
    var u := LogIsText(a, threshold, j, r, chat);
    if FirstAt(a, threshold, q, chat) == f && FirstAt(a, threshold, p, chat) == f {
      w0, w1, w2, part := u, u, u, "";
      assert TextAt(a, threshold, u, chat) + "" == TextAt(a, threshold, u, chat);
    } else {
      w1 := BaseIsText(a, threshold, p, chat);
      if w1 < j { LaterFiles(a, threshold, w1, j, chat); }
      if FirstAt(a, threshold, q, chat) == f {
        w0 := BaseIsText(a, threshold, j, chat);
        w2, part := u, LogAt(a, threshold, r, chat, f);
        if w1 < w2 { LaterFiles(a, threshold, w1, w2 - 1, chat); LaterFiles(a, threshold, w1, w2, chat); }
      } else {
        w0, w2, part := w1, w1, "";
        assert TextAt(a, threshold, w1, chat) + "" == TextAt(a, threshold, w1, chat);
      }
    }
  }

  lemma FirstIsU32(a: seq<Append>, threshold: nat, q: nat, chat: string)
    requires q <= |a| && |a| + 1 < U32_MODULUS
    ensures FirstAt(a, threshold, q, chat) < U32_MODULUS
  {
    hide At, ChatText, FirstUnabsorbed;
    TextAtIs(a, threshold, q, chat);
  }

  lemma MixedIs(a: seq<Append>, threshold: nat, store: map<Key, Bytes>, chat: string, j: nat, q: nat)
    requires j <= q <= |a| && |a| + 1 < U32_MODULUS
    requires FirstUnabsorbed(store, chat) == FirstAt(a, threshold, q, chat) >= FirstAt(a, threshold, j, chat)
    requires forall i: nat :: i > FirstAt(a, threshold, j, chat) ==> LogKey(chat, i) !in store
    ensures FirstAt(a, threshold, q, chat) == FirstAt(a, threshold, j, chat) ==>
              ChatText(store, chat) == BaseText(store, chat) + LogText(store, chat, FirstAt(a, threshold, j, chat))
    ensures FirstAt(a, threshold, q, chat) > FirstAt(a, threshold, j, chat) ==> ChatText(store, chat) == BaseText(store, chat)
  {
    hide At, LogKey, BaseKey, MetaKey, FirstUnabsorbed;
    FirstIsU32(a, threshold, q, chat);
    NoLogsAbove(store, chat, FirstAt(a, threshold, j, chat) + 1);
    if FirstAt(a, threshold, q, chat) > FirstAt(a, threshold, j, chat) {
      NoLogsAbove(store, chat, FirstAt(a, threshold, q, chat));
    }
  }

  // -------------------------------------------------------------------------
  // The writes of a run
  // -------------------------------------------------------------------------

  lemma {:induction false} PutsUpTo(a: seq<Append>, threshold: nat, p: nat)
    requires p <= |a|
    ensures AllPuts(a[..p], threshold) <= AllPuts(a, threshold)
    decreases |a|
  {
    hide AppendPuts, Replay;
    if p == |a| {
      assert a[..p] == a;
    } else {
      var before := a[..|a| - 1];
      PutsUpTo(before, threshold, p);
      assert before[..p] == a[..p];
    }
  }

  lemma PutsOfStep(a: seq<Append>, threshold: nat, p: nat)
    requires p < |a|
    ensures AllPuts(a[..p + 1], threshold)
         == AllPuts(a[..p], threshold) + AppendPuts(At(a, threshold, p), a[p].chat, a[p].lines, threshold)
  {
    assert a[..p + 1][..p] == a[..p];
  }

  /** How many of the first `p` appends have all their writes among the first `n`. */
  function AppendsWithin(a: seq<Append>, threshold: nat, n: nat, p: nat): (j: nat)
    requires p <= |a|
    ensures j <= p && |AllPuts(a[..j], threshold)| <= n
    ensures j < p ==> n < |AllPuts(a[..j + 1], threshold)|
  {
    if p == 0 || |AllPuts(a[..p], threshold)| <= n then p else AppendsWithin(a, threshold, n, p - 1)
  }

  /** The appends whose writes all stand in front of the oldest pending one. */
  function SettledAppends(a: seq<Append>, threshold: nat, writes: seq<Put>, t: Track): (j: nat)
    ensures j <= |a|
  {
    AppendsWithin(a, threshold, Frontier(writes, t), |a|)
  }

  lemma PrefixIsNoLonger<T>(a: seq<T>, b: seq<T>)
    requires a <= b
    ensures |a| <= |b|
  {
  }

  lemma {:induction false} UnwrittenIsAbsent(puts: seq<Put>, k: Key)
    requires forall x :: 0 <= x < |puts| ==> puts[x].key != k
    ensures Lookup(ApplyPuts(map[], puts), k) == None
    decreases |puts|
  {
    if puts != [] {
      UnwrittenIsAbsent(puts[..|puts| - 1], k);
    }
  }

  lemma {:induction false} LastWriteStands(puts: seq<Put>, v: nat)
    requires v < |puts| && forall x :: v < x < |puts| ==> puts[x].key != puts[v].key
    ensures Lookup(ApplyPuts(map[], puts), puts[v].key) == Some(puts[v].bytes)
    decreases |puts|
  {
    if v < |puts| - 1 {
      LastWriteStands(puts[..|puts| - 1], v);
    }
  }

  lemma AppendWritesKeysOnce(m: map<Key, Bytes>, chat: string, lines: Bytes, threshold: nat)
    ensures var puts := AppendPuts(m, chat, lines, threshold);
      forall x, y :: 0 <= x < y < |puts| ==> puts[x].key != puts[y].key
  {
    hide LogKey, BaseKey, MetaKey, ActiveIndex, MarkerBytes;
    BaseAndMetaAreNotLogs(chat);
  }

  /** A write's bytes are those of its key behind its append. */
  lemma WriteStandsBehindItsAppend(a: seq<Append>, threshold: nat, o: nat, v: nat)
    requires o < |a| && |AllPuts(a[..o], threshold)| <= v < |AllPuts(a[..o + 1], threshold)|
    ensures v < |AllPuts(a, threshold)|
    ensures var w := AllPuts(a, threshold)[v]; Lookup(At(a, threshold, o + 1), w.key) == Some(w.bytes)
  {
    hide AppendPuts, ApplyPuts, AllPuts;
    PutsUpTo(a, threshold, o + 1);
    PutsOfStep(a, threshold, o);
    AppendWritesKeysOnce(At(a, threshold, o), a[o].chat, a[o].lines, threshold);
    var puts := AllPuts(a[..o + 1], threshold);
    forall x | v < x < |puts| ensures puts[x].key != puts[v].key {
      var own, n := AppendPuts(At(a, threshold, o), a[o].chat, a[o].lines, threshold), |AllPuts(a[..o], threshold)|;
      assert puts[x] == own[x - n] && puts[v] == own[v - n];
    }
    LastWriteStands(puts, v);
    StoreMirrorsCache(a[..o + 1], threshold);
  }

  // -------------------------------------------------------------------------
  // What the store has of every file
  // -------------------------------------------------------------------------

  /** The store has this key as it was after some number of appends, `j` or more. */
  ghost predicate HasSince(a: seq<Append>, threshold: nat, store: map<Key, Bytes>, k: Key, j: nat) {
    exists p :: j <= p <= |a| && Lookup(store, k) == Lookup(At(a, threshold, p), k)
  }

  lemma BeforeFrontierIsSettled(writes: seq<Put>, pend: seq<Put>, store: map<Key, Bytes>, t: Track, x: nat)
    requires Tracked(writes, pend, store, t) && x < Frontier(writes, t)
    ensures x < |writes| && IsSettled(writes, t, x)
  {
    forall i | 0 <= i < |pend| ensures !CoveredBy(writes, pend, t, x, i) {
      assert t.pushed[0] <= t.pushed[i];
    }
  }

  lemma StoreHasSince(a: seq<Append>, threshold: nat, writes: seq<Put>, pend: seq<Put>, store: map<Key, Bytes>,
                      t: Track, j: nat, k: Key)
    requires Tracked(writes, pend, store, t) && writes <= AllPuts(a, threshold)
    requires j <= |a| && |AllPuts(a[..j], threshold)| <= Frontier(writes, t)
    ensures HasSince(a, threshold, store, k, j)
  {
    hide Tracked, AllPuts, ApplyPuts, AppendPuts, At, IsSettled;
    var puts := AllPuts(a[..j], threshold);
    PutsUpTo(a, threshold, j);
    TrackedIs(writes, pend, store, t);
    forall x | 0 <= x < |puts| ensures puts[x] == writes[x] && IsSettled(writes, t, x) {
      BeforeFrontierIsSettled(writes, pend, store, t, x);
    }
    if k in store && t.stored[k] >= |puts| {
      var v := t.stored[k];
      assert a[..|a|] == a;
      var o := AppendsWithin(a, threshold, v, |a|);
      if o < j { PutsUpToBoth(a, threshold, o + 1, j); }
      WriteStandsBehindItsAppend(a, threshold, o, v);
      assert Lookup(store, k) == Lookup(At(a, threshold, o + 1), k);
    } else {
      SettledPrefixIs(writes, store, t, puts, k);
      AtIsPuts(a, threshold, j);
      assert Lookup(store, k) == Lookup(At(a, threshold, j), k);
    }
  }

  lemma AtIsPuts(a: seq<Append>, threshold: nat, j: nat)
    requires j <= |a|
    ensures At(a, threshold, j) == ApplyPuts(map[], AllPuts(a[..j], threshold))
  {
    StoreMirrorsCache(a[..j], threshold);
  }

  lemma TrackedIs(writes: seq<Put>, pend: seq<Put>, store: map<Key, Bytes>, t: Track)
    requires Tracked(writes, pend, store, t)
    ensures Versioned(writes, store, t.stored) && Frontier(writes, t) <= |writes|
  {
  }

  lemma PutsUpToBoth(a: seq<Append>, threshold: nat, p: nat, q: nat)
    requires p <= q <= |a|
    ensures |AllPuts(a[..p], threshold)| <= |AllPuts(a[..q], threshold)|
  {
    PutsUpTo(a[..q], threshold, p);
    assert a[..q][..p] == a[..p];
  }

  /** A key whose stored write is among settled first writes is stored as those leave it. */
  lemma SettledPrefixIs(writes: seq<Put>, store: map<Key, Bytes>, t: Track, puts: seq<Put>, k: Key)
    requires Versioned(writes, store, t.stored) && puts <= writes
    requires forall x :: 0 <= x < |puts| ==> IsSettled(writes, t, x)
    requires k in store ==> t.stored[k] < |puts|
    ensures Lookup(store, k) == Lookup(ApplyPuts(map[], puts), k)
  {
    hide ApplyPuts;
    if k in store {
      var v := t.stored[k];
      assert writes[v] == Put(k, store[k]);
      forall x | v < x < |puts| ensures puts[x].key != k { assert IsSettled(writes, t, x); }
      LastWriteStands(puts, v);
    } else {
      forall x | 0 <= x < |puts| ensures puts[x].key != k { assert IsSettled(writes, t, x); }
      UnwrittenIsAbsent(puts, k);
    }
  }

  /** No log is in the store but those up to the active one of that point. */
  lemma NoLaterLogs(a: seq<Append>, threshold: nat, writes: seq<Put>, pend: seq<Put>, store: map<Key, Bytes>, t: Track,
                    j: nat, chat: string, i: nat)
    requires Tracked(writes, pend, store, t) && writes <= AllPuts(a, threshold)
    requires j <= |a| && |AllPuts(a[..j], threshold)| <= Frontier(writes, t) && |a| + 1 < U32_MODULUS
    requires if j < |a| then Frontier(writes, t) < |AllPuts(a[..j + 1], threshold)|
             else Frontier(writes, t) == |AllPuts(a[..j], threshold)|
    requires i > FirstAt(a, threshold, j, chat)
    ensures LogKey(chat, i) !in store
  {
    hide Tracked, AllPuts, ApplyPuts, AppendPuts, At, LogKey;
    var k := LogKey(chat, i);
    if k in store {
      TrackedBegun(writes, pend, store, t, k);
      TrackedIs(writes, pend, store, t);
      var x :| 0 <= x < Frontier(writes, t) && writes[x].key == k;
      var u := if j < |a| then j + 1 else j;
      PutsUpTo(a, threshold, u);
      AtIsPuts(a, threshold, u);
      WrittenIsThere(AllPuts(a[..u], threshold), x);
      LogsOfStep(a, threshold, j, chat, i);
    }
  }

  lemma TrackedBegun(writes: seq<Put>, pend: seq<Put>, store: map<Key, Bytes>, t: Track, k: Key)
    requires Tracked(writes, pend, store, t) && k in store
    ensures Frontier(writes, t) <= |writes| && Begun(writes, Frontier(writes, t), k)
  {
  }

  lemma {:induction false} WrittenIsThere(puts: seq<Put>, x: nat)
    requires x < |puts|
    ensures puts[x].key in ApplyPuts(map[], puts)
    decreases |puts|
  {
    if x < |puts| - 1 {
      WrittenIsThere(puts[..|puts| - 1], x);
    }
  }

  lemma LogsOfStep(a: seq<Append>, threshold: nat, j: nat, chat: string, i: nat)
    requires j <= |a| && |a| + 1 < U32_MODULUS && i > FirstAt(a, threshold, j, chat)
    ensures LogKey(chat, i) !in At(a, threshold, j) && (j < |a| ==> LogKey(chat, i) !in At(a, threshold, j + 1))
  {
    hide At, LogKey, FirstUnabsorbed, BaseText, LogText, ChatText;
    TextAtIs(a, threshold, j, chat);
    assert Lookup(At(a, threshold, j), LogKey(chat, i)) == None;
    if j < |a| {
      StepAt(a, threshold, j, chat);
      assert Lookup(At(a, threshold, j + 1), LogKey(chat, i)) == None;
    }
  }

  // -------------------------------------------------------------------------
  // What the entries say
  // -------------------------------------------------------------------------

  lemma {:induction false} HistoryGrows(ops: seq<H.EntryAppend>, p: nat, q: nat, chat: string)
    requires p <= q <= |ops|
    ensures H.History(ops[..p], chat) <= H.History(ops[..q], chat)
    decreases q
  {
    if p < q {
      HistoryGrows(ops, p, q - 1, chat);
      H.HistoryStep(ops, q - 1, chat);
    }
  }

  /** Walks from inside a closed map stay in it. */
  lemma {:induction false} WalkStaysInside(m: map<string, SessionEntry>, m': map<string, SessionEntry>,
                                           cur: Option<string>, n: nat)
    requires Closed(m) && EndsIn(m, cur, n) && (cur.Some? ==> cur.value in m)
    requires forall k :: k in m ==> k in m' && m'[k] == m[k]
    ensures EndsIn(m', cur, n) && Walk(m', cur, n) == Walk(m, cur, n)
    decreases n
  {
    if !AtRoot(m, cur) {
      WalkStaysInside(m, m', ParentOf(m[cur.value]), n - 1);
    }
  }

  lemma LaterEntriesKeepEarlier(a: seq<SessionEntry>, b: seq<SessionEntry>, k: string)
    requires DistinctIds(b) && a <= b && k in IdMap(a)
    ensures k in IdMap(b) && IdMap(b)[k] == IdMap(a)[k]
  {
    IdMapDomain(a, k);
    var i :| 0 <= i < |a| && a[i] == IdMap(a)[k] && EntryId(a[i]) == Some(k);
    assert b[i] == a[i];
    IdMapAt(b, i);
  }

  lemma RepeatedEntriesKeepIds(all: seq<SessionEntry>, part: seq<SessionEntry>)
    requires DistinctIds(all) && forall i :: 0 <= i < |part| ==> part[i] in all
    ensures IdMap(all + part) == IdMap(all)
  {
    IdMapConcat(all, part);
    forall k | k in IdMap(part) ensures k in IdMap(all) && IdMap(all)[k] == IdMap(part)[k] {
      IdMapDomain(part, k);
      var i :| 0 <= i < |part| && part[i] == IdMap(part)[k] && EntryId(part[i]) == Some(k);
      var l :| 0 <= l < |all| && all[l] == part[i];
      IdMapAt(all, l);
    }
  }

  /** Entries of which a part that ends an earlier state is repeated at their end: the branch is that earlier state's, or
      their own when the part names no leaf. */
  lemma BranchOfRepeated(all: seq<SessionEntry>, earlier: seq<SessionEntry>, start: seq<SessionEntry>,
                         part: seq<SessionEntry>)
    returns (own: bool)
    requires Good(all) && Good(earlier) && earlier <= all && earlier == start + part
    ensures var state := if own then all else earlier;
      Terminates(all + part) && Terminates(state) && Branch(all + part) == Branch(state) && IsChain(Branch(state))
    ensures earlier == all ==> own
  {
    hide Good, IdMap, LeafOf, Closed, IsChain;
    forall i | 0 <= i < |part| ensures part[i] in all {
      assert part[i] == earlier[|start| + i] == all[|start| + i];
    }
    GoodIds(all);
    RepeatedEntriesKeepIds(all, part);
    LeafOfConcat(all, part);
    LeafOfConcat(start, part);
    GoodBranchIsChain(all);
    GoodBranchIsChain(earlier);
    own := LeafOf(all + part) == LeafOf(all);
    if own {
      SameViewSameBranch(all + part, all);
    } else {
      assert LeafOf(all + part) == LeafOf(earlier);
      GoodIsClosed(earlier);
      GoodTerminates(earlier);
      LeafIsThere(earlier);
      forall k | k in IdMap(earlier) ensures k in IdMap(all) && IdMap(all)[k] == IdMap(earlier)[k] {
        LaterEntriesKeepEarlier(earlier, all, k);
      }
      WalkStaysInside(IdMap(earlier), IdMap(all), LeafOf(earlier), |earlier|);
      BranchIs(earlier, |earlier|);
      BranchIs(all + part, |earlier|);
    }
  }

  lemma GoodIds(es: seq<SessionEntry>)
    requires Good(es)
    ensures DistinctIds(es)
  {
  }

  lemma LeafIsThere(es: seq<SessionEntry>)
    requires Good(es)
    ensures LeafOf(es).Some? ==> LeafOf(es).value in IdMap(es)
  {
    if LeafOf(es).Some? { IdMapDomain(es, LeafOf(es).value); }
  }

  lemma TextLoadsHistory(fmt: LineFormat, ops: seq<H.EntryAppend>, threshold: nat, w: nat, chat: string)
    requires Faithful(fmt) && w <= |ops| && |ops| + 1 < U32_MODULUS
    ensures var text := TextAt(H.AsAppends(fmt, ops, threshold), threshold, w, chat);
      WholeLines(fmt, text) && Load(fmt, text) == H.History(ops[..w], chat)
  {
    hide H.AsAppends, H.History, Load, Faithful, WholeLines, H.Whole, InOrder, ChatText;
    H.AppendsOfPrefix(fmt, ops, threshold, w);
    H.RunsLoadTheirHistory(fmt, ops[..w], threshold, 0);
    var m := At(H.AsAppends(fmt, ops, threshold), threshold, w);
    assert H.Faithfully(fmt, m, chat, H.History(ops[..w], chat), 0);
    H.WholeTextLoads(fmt, m, chat, 0);
  }

  lemma LegalUpTo(ops: seq<H.EntryAppend>, w: nat, chat: string)
    requires H.LegalAppends(ops) && w <= |ops|
    ensures Good(H.History(ops[..w], chat))
  {
    hide H.History, Good, Appendable;
    forall j | 0 <= j < w ensures Appendable(H.History(ops[..w][..j], ops[..w][j].chat), ops[..w][j].entry) {
      assert ops[..w][..j] == ops[..j];
    }
    H.LegalHistoryIsGood(ops[..w], chat);
  }

  lemma MixedEntries(fmt: LineFormat, ops: seq<H.EntryAppend>, threshold: nat, chat: string,
                     w0: nat, w1: nat, w2: nat, part: Bytes) returns (whole: nat)
    requires Faithful(fmt) && |ops| + 1 < U32_MODULUS && H.LegalAppends(ops) && w0 <= w2 <= w1 <= |ops|
    requires var a := H.AsAppends(fmt, ops, threshold);
      TextAt(a, threshold, w2, chat) == TextAt(a, threshold, w0, chat) + part
    ensures w2 <= whole <= |ops|
    ensures var a := H.AsAppends(fmt, ops, threshold);
      var restored, history := Load(fmt, TextAt(a, threshold, w1, chat) + part), H.History(ops[..whole], chat);
      Terminates(restored) && Terminates(history) && Branch(restored) == Branch(history) && IsChain(Branch(history))
  {
    hide TextAt, H.AsAppends, H.History, Load, Faithful, H.LegalAppends, Good, Terminates, Branch, IsChain;
    TextLoadsHistory(fmt, ops, threshold, w0, chat);
    TextLoadsHistory(fmt, ops, threshold, w1, chat);
    TextLoadsHistory(fmt, ops, threshold, w2, chat);
    var a := H.AsAppends(fmt, ops, threshold);
    LoadAfterEncode(fmt, Load(fmt, TextAt(a, threshold, w1, chat)), part);
    LoadAfterEncode(fmt, Load(fmt, TextAt(a, threshold, w0, chat)), part);
    HistoryGrows(ops, w2, w1, chat);
    LegalUpTo(ops, w1, chat);
    LegalUpTo(ops, w2, chat);
    var all, earlier, start := H.History(ops[..w1], chat), H.History(ops[..w2], chat), H.History(ops[..w0], chat);
    var own := BranchOfRepeated(all, earlier, start, Load(fmt, part));
    whole := if own then w1 else w2;
  }

  // -------------------------------------------------------------------------
  // Crashes
  // -------------------------------------------------------------------------

  /** All writes are accepted, and none is pending. */
  predicate AllStored(c: R.Config, producers: nat, steps: seq<R.Step>, puts: seq<Put>) {
    RS.WritesOf(c, producers, steps) == puts && RS.PendingPuts(R.Run(c, producers, steps)) == []
  }

  /** A crash at any point of a run without late requeues and dead letters, while the sessions enqueue the writes of
      legal appends and the queue coalesces them: the store gives the chat the branch of some whole number of the
      appends, and of all of them once everything is drained. It is no earlier than the appends written in front of the
      oldest pending write, unless the stored marker is ahead of the stored base; then the chat reads as that base. */
  lemma CoalescedCrashKeepsTheBranch(c: R.Config, producers: nat, steps: seq<R.Step>,
                                     fmt: LineFormat, ops: seq<H.EntryAppend>, threshold: nat, chat: string)
    returns (t: Track, whole: nat)
    requires F.NoLateRequeue(c, producers, steps) && BuriesNothing(c, producers, steps)
    requires RS.WritesOf(c, producers, steps) <= AllPuts(H.AsAppends(fmt, ops, threshold), threshold)
    requires Faithful(fmt) && |ops| + 1 < U32_MODULUS && H.LegalAppends(ops)
    ensures whole <= |ops|
    ensures var store := R.Run(c, producers, steps).store;
      var restored, history := Load(fmt, ChatText(store, chat)), H.History(ops[..whole], chat);
      Terminates(restored) && Terminates(history) && Branch(restored) == Branch(history) && IsChain(Branch(history))
    ensures var s, a := R.Run(c, producers, steps), H.AsAppends(fmt, ops, threshold);
      var writes := RS.WritesOf(c, producers, steps);
      var settled := SettledAppends(a, threshold, writes, t);
      && Tracked(writes, RS.PendingPuts(s), s.store, t)
      && (settled <= whole || MarkerAhead(a, threshold, s.store, chat, settled))
      && (MarkerAhead(a, threshold, s.store, chat, settled) ==>
            ChatText(s.store, chat) == BaseAt(a, threshold, settled, chat))
    ensures AllStored(c, producers, steps, AllPuts(H.AsAppends(fmt, ops, threshold), threshold)) ==> whole == |ops|
  {
    hide TextAt, H.AsAppends, AllPuts, H.History, Load, Faithful, H.LegalAppends, Terminates, Branch, IsChain,
      ChatText, RS.WritesOf, RS.PendingPuts, R.Run, Tracked, F.NoLateRequeue, BuriesNothing, Frontier, MarkerAhead,
      SettledAppends, BaseAt;
    t := RunsAreTracked(c, producers, steps);
    var s, writes, a := R.Run(c, producers, steps), RS.WritesOf(c, producers, steps), H.AsAppends(fmt, ops, threshold);
    var w0, w1, w2, part := StoreText(a, threshold, writes, RS.PendingPuts(s), s.store, t, chat);
    whole := MixedEntries(fmt, ops, threshold, chat, w0, w1, w2, part);
  }

  lemma StoreText(a: seq<Append>, threshold: nat, writes: seq<Put>, pend: seq<Put>, store: map<Key, Bytes>, t: Track,
                  chat: string)
    returns (w0: nat, w1: nat, w2: nat, part: Bytes)
    requires Tracked(writes, pend, store, t) && writes <= AllPuts(a, threshold) && |a| + 1 < U32_MODULUS
    ensures w0 <= w2 <= w1 <= |a|
    ensures ChatText(store, chat) == TextAt(a, threshold, w1, chat) + part
    ensures TextAt(a, threshold, w2, chat) == TextAt(a, threshold, w0, chat) + part
    ensures var j := SettledAppends(a, threshold, writes, t);
      && (j <= w2 || MarkerAhead(a, threshold, store, chat, j))
      && (MarkerAhead(a, threshold, store, chat, j) ==> ChatText(store, chat) == BaseAt(a, threshold, j, chat))
    ensures writes == AllPuts(a, threshold) && pend == [] ==> w2 == |a|
  {
    hide Tracked, AllPuts, At, LogKey, BaseKey, MetaKey, TextAt, ChatText, LogsFrom, ParseMarker;
    assert a[..|a|] == a;
    TrackedIs(writes, pend, store, t);
    TracksPending(writes, pend, store, t);
    PrefixIsNoLonger(writes, AllPuts(a, threshold));
    var j := SettledAppends(a, threshold, writes, t);
    var f := FirstAt(a, threshold, j, chat);
    StoreHasSince(a, threshold, writes, pend, store, t, j, BaseKey(chat));
    StoreHasSince(a, threshold, writes, pend, store, t, j, MetaKey(chat));
    StoreHasSince(a, threshold, writes, pend, store, t, j, LogKey(chat, f));
    var p :| j <= p <= |a| && Lookup(store, BaseKey(chat)) == Lookup(At(a, threshold, p), BaseKey(chat));
    var q :| j <= q <= |a| && Lookup(store, MetaKey(chat)) == Lookup(At(a, threshold, q), MetaKey(chat));
    var r :| j <= r <= |a| && Lookup(store, LogKey(chat, f)) == Lookup(At(a, threshold, r), LogKey(chat, f));
    forall i: nat | i > f ensures LogKey(chat, i) !in store {
      NoLaterLogs(a, threshold, writes, pend, store, t, j, chat, i);
    }
    w0, w1, w2, part := MixedText(a, threshold, store, chat, j, p, q, r);
  }
}
