/** A chat in the cloud tier: `base.jsonl`, numbered logs and a "highest absorbed" marker that must
    read as one append-only stream (agent/src/core/sessions/mod.rs, lines 471-667). */
module SessionLog {
  import opened Base
  import opened SessionKeys
  import opened CloudCaching

  // -------------------------------------------------------------------------
  // Reading
  // -------------------------------------------------------------------------

  function Absorbed(m: map<Key, Bytes>, chat: string): Option<nat> {
    if MetaKey(chat) in m then ParseMarker(m[MetaKey(chat)]) else None
  }

  /** The log that appends go to; `n + 1` wraps on a `u32`. */
  function ActiveIndex(m: map<Key, Bytes>, chat: string): nat {
    match Absorbed(m, chat)
    case None => 0
    case Some(n) => AsU32(n + 1)
  }

  function FirstUnabsorbed(m: map<Key, Bytes>, chat: string): nat {
    match Absorbed(m, chat)
    case None => 0
    case Some(n) => n + 1
  }

  function GetOrEmpty(m: map<Key, Bytes>, key: Key): Bytes {
    if key in m then m[key] else ""
  }

  /** The logs numbered from `i`, in numeric order. */
  function LogsFrom(m: map<Key, Bytes>, chat: string, i: nat): Bytes
    decreases U32_MODULUS - i
  {
    if i >= U32_MODULUS then "" else GetOrEmpty(m, LogKey(chat, i)) + LogsFrom(m, chat, i + 1)
  }

  /** What a chat reads as: the base, then the unabsorbed logs in numeric order. */
  function ChatText(m: map<Key, Bytes>, chat: string): Bytes {
    GetOrEmpty(m, BaseKey(chat)) + LogsFrom(m, chat, FirstUnabsorbed(m, chat))
  }

  /** Every log key of the chat is spelled as the program spells it. */
  ghost predicate Canonical(m: map<Key, Bytes>, chat: string) {
    forall k :: k in m && LogIndexOf(chat, k).Some? ==> k == LogKey(chat, LogIndexOf(chat, k).value)
  }

  /** The numbers of the logs a reader takes. */
  predicate Unabsorbed(m: map<Key, Bytes>, chat: string, n: nat) {
    FirstUnabsorbed(m, chat) <= n < U32_MODULUS && LogKey(chat, n) in m
  }

  predicate Ascending(s: seq<nat>) {
    forall i, j :: 0 <= i < j < |s| ==> s[i] < s[j]
  }

  function ConcatLogs(m: map<Key, Bytes>, chat: string, indices: seq<nat>): Bytes {
    if indices == [] then ""
    else ConcatLogs(m, chat, indices[..|indices| - 1]) + GetOrEmpty(m, LogKey(chat, indices[|indices| - 1]))
  }

  lemma {:induction false} ConcatLogsCons(m: map<Key, Bytes>, chat: string, n: nat, rest: seq<nat>)
    ensures ConcatLogs(m, chat, [n] + rest) == GetOrEmpty(m, LogKey(chat, n)) + ConcatLogs(m, chat, rest)
    decreases |rest|
  {
    hide GetOrEmpty, LogKey;
    if rest == [] {
      assert [n] + rest == [n];
      assert ConcatLogs(m, chat, [n][..0]) == "";
    } else {
      assert ([n] + rest)[..|rest|] == [n] + rest[..|rest| - 1];
      ConcatLogsCons(m, chat, n, rest[..|rest| - 1]);
    }
  }

  lemma ConcatLogsNone(m: map<Key, Bytes>, chat: string)
    ensures ConcatLogs(m, chat, []) == ""
  {
  }

  lemma ConcatLogsSnoc(m: map<Key, Bytes>, chat: string, indices: seq<nat>, i: nat)
    requires i < |indices|
    ensures ConcatLogs(m, chat, indices[..i + 1])
         == ConcatLogs(m, chat, indices[..i]) + GetOrEmpty(m, LogKey(chat, indices[i]))
  {
    assert indices[..i + 1][..i] == indices[..i];
  }

  /** `indices` lists, in ascending order, exactly the logs present from `lo` on. */
  ghost predicate ListsLogsFrom(m: map<Key, Bytes>, chat: string, indices: seq<nat>, lo: nat) {
    && Ascending(indices)
    && (forall k :: 0 <= k < |indices| ==> lo <= indices[k] < U32_MODULUS)
    && forall n: nat :: n in indices <==> lo <= n < U32_MODULUS && LogKey(chat, n) in m
  }

  lemma ListFirst(m: map<Key, Bytes>, chat: string, indices: seq<nat>, lo: nat)
    requires ListsLogsFrom(m, chat, indices, lo) && indices != []
    ensures ListsLogsFrom(m, chat, indices[1..], indices[0] + 1)
    ensures lo <= indices[0] < U32_MODULUS
    ensures forall n: nat :: lo <= n < indices[0] ==> LogKey(chat, n) !in m
  {
    var first, rest := indices[0], indices[1..];
    assert indices == [first] + rest;
    assert forall n: nat :: n in indices <==> n == first || n in rest;
    forall n: nat | n in rest ensures first < n {
      var j :| 0 <= j < |rest| && rest[j] == n;
      assert indices[j + 1] == n;
    }
  }

  lemma {:induction false} SkipAbsentLogs(m: map<Key, Bytes>, chat: string, lo: nat, hi: nat)
    requires lo <= hi <= U32_MODULUS
    requires forall n: nat :: lo <= n < hi ==> LogKey(chat, n) !in m
    ensures LogsFrom(m, chat, lo) == LogsFrom(m, chat, hi)
    decreases hi - lo
  {
    if lo < hi {
      SkipAbsentLogs(m, chat, lo + 1, hi);
    }
  }

  /** Visiting the present logs in ascending order yields exactly the logs in numeric order. */
  lemma {:induction false} AscendingVisitReadsAll(m: map<Key, Bytes>, chat: string, indices: seq<nat>, lo: nat)
    requires ListsLogsFrom(m, chat, indices, lo) && lo <= U32_MODULUS
    ensures ConcatLogs(m, chat, indices) == LogsFrom(m, chat, lo)
    decreases |indices|
  {
    hide GetOrEmpty, LogKey;
    if indices == [] {
      SkipAbsentLogs(m, chat, lo, U32_MODULUS);
    } else {
      var first, rest := indices[0], indices[1..];
      assert indices == [first] + rest;
      ListFirst(m, chat, indices, lo);
      SkipAbsentLogs(m, chat, lo, first);
      LogsFromPresent(m, chat, first);
      hide ListsLogsFrom, LogsFrom, ConcatLogs;
      AscendingVisitReadsAll(m, chat, rest, first + 1);
      ConcatLogsCons(m, chat, first, rest);
    }
  }

  lemma LogsFromPresent(m: map<Key, Bytes>, chat: string, i: nat)
    requires i < U32_MODULUS
    ensures LogsFrom(m, chat, i) == GetOrEmpty(m, LogKey(chat, i)) + LogsFrom(m, chat, i + 1)
  {
  }

  // -------------------------------------------------------------------------
  // Byte counts
  // -------------------------------------------------------------------------

  /** Bytes of the logs numbered from `i` whose number is in `seen`. */
  function LogBytes(m: map<Key, Bytes>, chat: string, i: nat, seen: set<nat>): nat
    decreases U32_MODULUS - i
  {
    if i >= U32_MODULUS then 0
    else (if i in seen then |GetOrEmpty(m, LogKey(chat, i))| else 0) + LogBytes(m, chat, i + 1, seen)
  }

  lemma {:induction false} LogBytesAdd(m: map<Key, Bytes>, chat: string, i: nat, seen: set<nat>, n: nat)
    requires n !in seen && n < U32_MODULUS
    ensures LogBytes(m, chat, i, seen + {n})
         == LogBytes(m, chat, i, seen) + if i <= n then |GetOrEmpty(m, LogKey(chat, n))| else 0
    decreases U32_MODULUS - i
  {
    if i < U32_MODULUS {
      LogBytesAdd(m, chat, i + 1, seen, n);
    }
  }

  lemma {:induction false} LogBytesEmpty(m: map<Key, Bytes>, chat: string, i: nat)
    ensures LogBytes(m, chat, i, {}) == 0
    decreases U32_MODULUS - i
  {
    if i < U32_MODULUS {
      LogBytesEmpty(m, chat, i + 1);
    }
  }

  lemma {:induction false} LogBytesAll(m: map<Key, Bytes>, chat: string, i: nat, seen: set<nat>)
    requires forall n: nat :: i <= n < U32_MODULUS && LogKey(chat, n) in m ==> n in seen
    ensures LogBytes(m, chat, i, seen) == |LogsFrom(m, chat, i)|
    decreases U32_MODULUS - i
  {
    if i < U32_MODULUS {
      LogBytesAll(m, chat, i + 1, seen);
    }
  }

  // -------------------------------------------------------------------------
  // Writing
  // -------------------------------------------------------------------------

  /** One write, put into the cache and enqueued to the replicator. */
  datatype Put = Put(key: Key, bytes: Bytes)

  function ApplyPuts(m: map<Key, Bytes>, puts: seq<Put>): map<Key, Bytes> {
    if puts == [] then m
    else ApplyPuts(m, puts[..|puts| - 1])[puts[|puts| - 1].key := puts[|puts| - 1].bytes]
  }

  lemma {:induction false} ApplyPutsConcat(m: map<Key, Bytes>, a: seq<Put>, b: seq<Put>)
    ensures ApplyPuts(m, a + b) == ApplyPuts(ApplyPuts(m, a), b)
    decreases |b|
  {
    if b == [] {
      assert a + b == a;
    } else {
      assert (a + b)[..|a + b| - 1] == a + b[..|b| - 1];
      ApplyPutsConcat(m, a, b[..|b| - 1]);
    }
  }

  lemma ThreePuts(m: map<Key, Bytes>, a: Put, b: Put, c: Put)
    ensures ApplyPuts(m, [a]) == m[a.key := a.bytes]
    ensures ApplyPuts(m, [a, b, c]) == m[a.key := a.bytes][b.key := b.bytes][c.key := c.bytes]
  {
    var all := [a, b, c];
    assert [a][..0] == [] && [a, b][..1] == [a] && all[..2] == [a, b];
    assert ApplyPuts(m, [a]) == m[a.key := a.bytes];
    assert ApplyPuts(m, [a, b]) == ApplyPuts(m, [a])[b.key := b.bytes];
    assert ApplyPuts(m, all) == ApplyPuts(m, [a, b])[c.key := c.bytes];
  }

  /** The writes that fold the active log into the base and move the marker. */
  function FoldPuts(m: map<Key, Bytes>, chat: string, idx: nat): seq<Put> {
    [Put(BaseKey(chat), GetOrEmpty(m, BaseKey(chat)) + GetOrEmpty(m, LogKey(chat, idx))),
     Put(MetaKey(chat), MarkerBytes(idx))]
  }

  /** The writes of one append: the grown log, then the fold once the log reaches the threshold. */
  function AppendPuts(m: map<Key, Bytes>, chat: string, lines: Bytes, threshold: nat): seq<Put> {
    var idx := ActiveIndex(m, chat);
    var log := Put(LogKey(chat, idx), GetOrEmpty(m, LogKey(chat, idx)) + lines);
    if |log.bytes| >= threshold then [log] + FoldPuts(m[log.key := log.bytes], chat, idx) else [log]
  }

  function AfterAppend(m: map<Key, Bytes>, chat: string, lines: Bytes, threshold: nat): map<Key, Bytes> {
    ApplyPuts(m, AppendPuts(m, chat, lines, threshold))
  }

  // -------------------------------------------------------------------------
  // The stream grows by exactly what is appended
  // -------------------------------------------------------------------------

  /** States reached by appends: nothing above the active log, and room left for its number. */
  ghost predicate InOrder(m: map<Key, Bytes>, chat: string, room: nat) {
    && Canonical(m, chat)
    && FirstUnabsorbed(m, chat) + room < U32_MODULUS
    && forall n: nat :: n > FirstUnabsorbed(m, chat) ==> LogKey(chat, n) !in m
  }

  lemma {:induction false} NoLogsAbove(m: map<Key, Bytes>, chat: string, i: nat)
    requires forall n: nat :: i <= n ==> LogKey(chat, n) !in m
    ensures LogsFrom(m, chat, i) == ""
    decreases U32_MODULUS - i
  {
    if i < U32_MODULUS {
      NoLogsAbove(m, chat, i + 1);
    }
  }

  lemma TextOfInOrder(m: map<Key, Bytes>, chat: string, room: nat)
    requires InOrder(m, chat, room)
    ensures ActiveIndex(m, chat) == FirstUnabsorbed(m, chat)
    ensures ChatText(m, chat) == GetOrEmpty(m, BaseKey(chat)) + GetOrEmpty(m, LogKey(chat, ActiveIndex(m, chat)))
  {
    NoLogsAbove(m, chat, FirstUnabsorbed(m, chat) + 1);
  }

  /** The cache after the log write alone. */
  function WithLog(m: map<Key, Bytes>, chat: string, lines: Bytes): map<Key, Bytes> {
    var key := LogKey(chat, ActiveIndex(m, chat));
    m[key := GetOrEmpty(m, key) + lines]
  }

  /** And after the base write as well, with the marker still behind. */
  function WithBase(m: map<Key, Bytes>, chat: string, lines: Bytes): map<Key, Bytes> {
    var l := WithLog(m, chat, lines);
    l[BaseKey(chat) := GetOrEmpty(l, BaseKey(chat)) + GetOrEmpty(l, LogKey(chat, ActiveIndex(m, chat)))]
  }

  function WithMarker(m: map<Key, Bytes>, chat: string, lines: Bytes): map<Key, Bytes> {
    WithBase(m, chat, lines)[MetaKey(chat) := MarkerBytes(ActiveIndex(m, chat))]
  }

  lemma AppendPutsStages(m: map<Key, Bytes>, chat: string, lines: Bytes, threshold: nat)
    ensures var puts := AppendPuts(m, chat, lines, threshold);
      && (|puts| == 1 || |puts| == 3)
      && ApplyPuts(m, puts[..0]) == m
      && ApplyPuts(m, puts[..1]) == WithLog(m, chat, lines)
      && (|puts| == 3 ==> ApplyPuts(m, puts[..2]) == WithBase(m, chat, lines))
      && (|puts| == 3 ==> ApplyPuts(m, puts) == WithMarker(m, chat, lines))
  {
    var puts := AppendPuts(m, chat, lines, threshold);
    assert puts[..1][..0] == [] && puts[..1] == [puts[0]];
    if |puts| == 3 {
      assert puts[..2][..1] == puts[..1];
      assert puts[..|puts| - 1] == puts[..2];
    }
  }

  lemma LogWriteKeepsOrder(m: map<Key, Bytes>, chat: string, lines: Bytes, room: nat)
    requires InOrder(m, chat, room)
    ensures InOrder(WithLog(m, chat, lines), chat, room)
    ensures FirstUnabsorbed(WithLog(m, chat, lines), chat) == FirstUnabsorbed(m, chat)
    ensures ChatText(WithLog(m, chat, lines), chat) == ChatText(m, chat) + lines
  {
    hide LogKey, BaseKey, MetaKey, LogIndexOf, LogsFrom;
    var idx := ActiveIndex(m, chat);
    var m' := WithLog(m, chat, lines);
    TextOfInOrder(m, chat, room);
    BaseAndMetaAreNotLogs(chat);
    LogIndexOfLogKey(chat, idx);
    forall n: nat | n > idx ensures LogKey(chat, n) !in m' {
      if LogKey(chat, n) == LogKey(chat, idx) { LogKeysAreDistinct(chat, n, idx); }
    }
    TextOfInOrder(m', chat, room);
  }

  /** What folding leaves in the cache. */
  lemma FoldedState(m: map<Key, Bytes>, chat: string, lines: Bytes, room: nat)
    requires InOrder(m, chat, room)
    ensures var l, f := WithLog(m, chat, lines), WithMarker(m, chat, lines);
      && GetOrEmpty(f, BaseKey(chat)) == GetOrEmpty(l, BaseKey(chat)) + GetOrEmpty(l, LogKey(chat, ActiveIndex(m, chat)))
      && Absorbed(f, chat) == Some(ActiveIndex(m, chat))
      && (forall k :: k in f && LogIndexOf(chat, k).Some? ==> k in l)
      && (forall n: nat :: LogKey(chat, n) in f ==> LogKey(chat, n) in l)
  {
    hide LogKey, BaseKey, MetaKey, LogIndexOf, LogsFrom, ParseMarker, MarkerBytes;
    TextOfInOrder(m, chat, room);
    BaseAndMetaAreNotLogs(chat);
    ParseMarkerOfMarker(ActiveIndex(m, chat));
  }

  lemma MarkerWriteKeepsOrder(m: map<Key, Bytes>, chat: string, lines: Bytes, room: nat)
    requires InOrder(m, chat, room + 1)
    ensures InOrder(WithMarker(m, chat, lines), chat, room)
    ensures FirstUnabsorbed(WithMarker(m, chat, lines), chat) == FirstUnabsorbed(m, chat) + 1
  {
    LogWriteKeepsOrder(m, chat, lines, room + 1);
    TextOfInOrder(m, chat, room + 1);
    FoldedState(m, chat, lines, room + 1);
  }

  lemma MarkerWriteText(m: map<Key, Bytes>, chat: string, lines: Bytes, room: nat)
    requires InOrder(m, chat, room + 1)
    ensures ChatText(WithMarker(m, chat, lines), chat) == ChatText(m, chat) + lines
    ensures GetOrEmpty(WithMarker(m, chat, lines), BaseKey(chat)) == ChatText(m, chat) + lines
  {
    var l, f := WithLog(m, chat, lines), WithMarker(m, chat, lines);
    MarkerWriteKeepsOrder(m, chat, lines, room);
    LogWriteKeepsOrder(m, chat, lines, room + 1);
    TextOfInOrder(m, chat, room + 1);
    TextOfInOrder(l, chat, room + 1);
    FoldedState(m, chat, lines, room + 1);
    TextOfInOrder(f, chat, room);
    assert LogKey(chat, ActiveIndex(f, chat)) !in l;
  }

  /** One append, folding or not, grows the chat by exactly the appended lines. */
  lemma AppendGrowsText(m: map<Key, Bytes>, chat: string, lines: Bytes, threshold: nat, room: nat)
    requires InOrder(m, chat, room + 1)
    ensures InOrder(AfterAppend(m, chat, lines, threshold), chat, room)
    ensures ChatText(AfterAppend(m, chat, lines, threshold), chat) == ChatText(m, chat) + lines
  {
    var puts := AppendPuts(m, chat, lines, threshold);
    AppendPutsStages(m, chat, lines, threshold);
    LogWriteKeepsOrder(m, chat, lines, room + 1);
    if |puts| == 3 {
      MarkerWriteKeepsOrder(m, chat, lines, room);
      MarkerWriteText(m, chat, lines, room);
    } else {
      assert puts[..1] == puts;
    }
  }

  // -------------------------------------------------------------------------
  // Other chats
  // -------------------------------------------------------------------------

  /** Two stores agree on every key of a chat. */
  ghost predicate SameChat(m: map<Key, Bytes>, m': map<Key, Bytes>, chat: string) {
    forall k :: StartsWith(k, Prefix(chat)) ==> Lookup(m, k) == Lookup(m', k)
  }

  lemma ChatKeysShareThePrefix(chat: string, n: nat)
    ensures StartsWith(BaseKey(chat), Prefix(chat)) && StartsWith(MetaKey(chat), Prefix(chat))
    ensures StartsWith(LogKey(chat, n), Prefix(chat))
  {
    assert LogKey(chat, n)[..|Prefix(chat)|] == Prefix(chat);
  }

  lemma {:induction false} SameChatSameLogs(m: map<Key, Bytes>, m': map<Key, Bytes>, chat: string, i: nat)
    requires SameChat(m, m', chat)
    ensures LogsFrom(m, chat, i) == LogsFrom(m', chat, i)
    decreases U32_MODULUS - i
  {
    if i < U32_MODULUS {
      ChatKeysShareThePrefix(chat, i);
      assert Lookup(m, LogKey(chat, i)) == Lookup(m', LogKey(chat, i));
      SameChatSameLogs(m, m', chat, i + 1);
    }
  }

  lemma SameChatReadsAlike(m: map<Key, Bytes>, m': map<Key, Bytes>, chat: string)
    requires SameChat(m, m', chat)
    ensures ChatText(m, chat) == ChatText(m', chat)
    ensures FirstUnabsorbed(m, chat) == FirstUnabsorbed(m', chat)
  {
    ChatKeysShareThePrefix(chat, 0);
    assert Lookup(m, BaseKey(chat)) == Lookup(m', BaseKey(chat));
    assert Lookup(m, MetaKey(chat)) == Lookup(m', MetaKey(chat));
    SameChatSameLogs(m, m', chat, FirstUnabsorbed(m, chat));
  }

  lemma SameChatSameOrder(m: map<Key, Bytes>, m': map<Key, Bytes>, chat: string, room: nat)
    requires SameChat(m, m', chat) && InOrder(m, chat, room)
    ensures InOrder(m', chat, room)
  {
    SameChatReadsAlike(m, m', chat);
    forall n: nat | n > FirstUnabsorbed(m', chat) ensures LogKey(chat, n) !in m' {
      ChatKeysShareThePrefix(chat, n);
      assert Lookup(m, LogKey(chat, n)) == Lookup(m', LogKey(chat, n));
    }
    forall k | k in m' && LogIndexOf(chat, k).Some?
      ensures k == LogKey(chat, LogIndexOf(chat, k).value)
    {
      assert k[..|Prefix(chat)|] == LogPrefix(chat)[..|Prefix(chat)|] == Prefix(chat);
      assert Lookup(m, k) == Lookup(m', k);
    }
  }

  lemma {:induction false} PutsTouchOneChat(m: map<Key, Bytes>, puts: seq<Put>, chat: string, other: string)
    requires forall i :: 0 <= i < |puts| ==> StartsWith(puts[i].key, Prefix(chat))
    requires SafeChatId(chat) != SafeChatId(other)
    ensures SameChat(m, ApplyPuts(m, puts), other)
    decreases |puts|
  {
    if puts != [] {
      PutsTouchOneChat(m, puts[..|puts| - 1], chat, other);
      var last := puts[|puts| - 1];
      if StartsWith(last.key, Prefix(other)) {
        ChatsAreDisjoint(chat, other, last.key);
      }
    }
  }

  lemma AppendPutsStayInChat(m: map<Key, Bytes>, chat: string, lines: Bytes, threshold: nat)
    ensures var puts := AppendPuts(m, chat, lines, threshold);
      forall i :: 0 <= i < |puts| ==> StartsWith(puts[i].key, Prefix(chat))
  {
    ChatKeysShareThePrefix(chat, ActiveIndex(m, chat));
  }

  // -------------------------------------------------------------------------
  // Runs of appends over any chats
  // -------------------------------------------------------------------------

  datatype Append = Append(chat: string, lines: Bytes)

  function Replay(ops: seq<Append>, threshold: nat): map<Key, Bytes> {
    if ops == [] then map[]
    else AfterAppend(Replay(ops[..|ops| - 1], threshold), ops[|ops| - 1].chat, ops[|ops| - 1].lines, threshold)
  }

  /** Everything appended to chats whose sanitized id is that of `chat`. */
  function Appended(ops: seq<Append>, chat: string): Bytes {
    if ops == [] then ""
    else Appended(ops[..|ops| - 1], chat)
         + if SafeChatId(ops[|ops| - 1].chat) == SafeChatId(chat) then ops[|ops| - 1].lines else ""
  }

  /** From an empty cache, for every threshold and every interleaving of chats, a chat reads as exactly
      what was appended to it. The bound is where the log number would overflow its `u32`. */
  lemma {:induction false} ChatReadsWhatWasAppended(ops: seq<Append>, threshold: nat, chat: string, room: nat)
    requires |ops| + room < U32_MODULUS
    ensures ChatText(Replay(ops, threshold), chat) == Appended(ops, chat)
    ensures InOrder(Replay(ops, threshold), chat, room)
    decreases |ops|
  {
    if ops == [] {
      NoLogsAbove(map[], chat, 0);
    } else {
      var before, op := ops[..|ops| - 1], ops[|ops| - 1];
      var m := Replay(before, threshold);
      ChatReadsWhatWasAppended(before, threshold, chat, room + 1);
      if SafeChatId(op.chat) == SafeChatId(chat) {
        SameSafeIdSameKeys(op.chat, chat, m, op.lines, threshold);
        AppendGrowsText(m, chat, op.lines, threshold, room);
      } else {
        AppendPutsStayInChat(m, op.chat, op.lines, threshold);
        PutsTouchOneChat(m, AppendPuts(m, op.chat, op.lines, threshold), op.chat, chat);
        SameChatReadsAlike(m, AfterAppend(m, op.chat, op.lines, threshold), chat);
        SameChatSameOrder(m, AfterAppend(m, op.chat, op.lines, threshold), chat, room + 1);
      }
    }
  }

  lemma SameSafeIdSameKeys(a: string, b: string, m: map<Key, Bytes>, lines: Bytes, threshold: nat)
    requires SafeChatId(a) == SafeChatId(b)
    ensures AfterAppend(m, a, lines, threshold) == AfterAppend(m, b, lines, threshold)
  {
    assert Prefix(a) == Prefix(b) && LogPrefix(a) == LogPrefix(b);
    assert forall n: nat :: LogKey(a, n) == LogKey(b, n);
    assert AppendPuts(m, a, lines, threshold) == AppendPuts(m, b, lines, threshold);
  }

  // -------------------------------------------------------------------------
  // The store mirrors the cache
  // -------------------------------------------------------------------------

  /** Every write of a run, in the order it is enqueued. */
  function AllPuts(ops: seq<Append>, threshold: nat): seq<Put> {
    if ops == [] then []
    else AllPuts(ops[..|ops| - 1], threshold)
         + AppendPuts(Replay(ops[..|ops| - 1], threshold), ops[|ops| - 1].chat, ops[|ops| - 1].lines, threshold)
  }

  lemma {:induction false} StoreMirrorsCache(ops: seq<Append>, threshold: nat)
    ensures ApplyPuts(map[], AllPuts(ops, threshold)) == Replay(ops, threshold)
    decreases |ops|
  {
    if ops != [] {
      var before, op := ops[..|ops| - 1], ops[|ops| - 1];
      StoreMirrorsCache(before, threshold);
      ApplyPutsConcat(map[], AllPuts(before, threshold),
                      AppendPuts(Replay(before, threshold), op.chat, op.lines, threshold));
    }
  }

  lemma PrefixInsideLast(before: seq<Append>, puts: seq<Put>, all: seq<Put>, threshold: nat, n: nat)
    requires all == AllPuts(before, threshold) + puts && |AllPuts(before, threshold)| <= n <= |all|
    ensures ApplyPuts(map[], all[..n])
         == ApplyPuts(Replay(before, threshold), puts[..n - |AllPuts(before, threshold)|])
  {
    var earlier := AllPuts(before, threshold);
    assert all[..n] == earlier + puts[..n - |earlier|];
    StoreMirrorsCache(before, threshold);
    ApplyPutsConcat(map[], earlier, puts[..n - |earlier|]);
  }

  /** The store holds all of the first `j` appends and the first `k` writes of the next one. */
  predicate StandsAt(ops: seq<Append>, threshold: nat, store: map<Key, Bytes>, j: nat, k: nat) {
    && j <= |ops|
    && var m := Replay(ops[..j], threshold);
       if j == |ops| then store == m
       else
         var puts := AppendPuts(m, ops[j].chat, ops[j].lines, threshold);
         k < |puts| && store == ApplyPuts(m, puts[..k])
  }

  lemma StandsAtLonger(before: seq<Append>, op: Append, threshold: nat, store: map<Key, Bytes>, j: nat, k: nat)
    requires StandsAt(before, threshold, store, j, k) && (j == |before| ==> k == 0)
    ensures StandsAt(before + [op], threshold, store, j, k)
  {
    var ops := before + [op];
    assert ops[..j] == before[..j];
    if j == |before| {
      var puts := AppendPuts(Replay(before[..j], threshold), op.chat, op.lines, threshold);
      assert puts[..0] == [];
    }
  }

  lemma StandsInsideLast(before: seq<Append>, op: Append, threshold: nat, n: nat)
    requires |AllPuts(before, threshold)| <= n < |AllPuts(before + [op], threshold)|
    ensures StandsAt(before + [op], threshold, ApplyPuts(map[], AllPuts(before + [op], threshold)[..n]),
                     |before|, n - |AllPuts(before, threshold)|)
  {
    var ops := before + [op];
    var puts := AppendPuts(Replay(before, threshold), op.chat, op.lines, threshold);
    assert ops[..|before|] == before;
    PrefixInsideLast(before, puts, AllPuts(ops, threshold), threshold, n);
  }

  lemma StandsAtEnd(ops: seq<Append>, threshold: nat)
    ensures var all := AllPuts(ops, threshold);
      StandsAt(ops, threshold, ApplyPuts(map[], all[..|all|]), |ops|, 0)
  {
    var all := AllPuts(ops, threshold);
    assert all[..|all|] == all && ops[..|ops|] == ops;
    StoreMirrorsCache(ops, threshold);
  }

  lemma PutsOfPrefix(before: seq<Append>, op: Append, threshold: nat, n: nat)
    requires n < |AllPuts(before, threshold)|
    ensures n < |AllPuts(before + [op], threshold)|
    ensures AllPuts(before + [op], threshold)[..n] == AllPuts(before, threshold)[..n]
  {
    assert (before + [op])[..|before|] == before;
  }

  /** A store that received some prefix of a run's writes stands inside one append. */
  lemma {:induction false} CrashStandsInsideOneAppend(ops: seq<Append>, threshold: nat, n: nat)
    returns (j: nat, k: nat)
    requires n <= |AllPuts(ops, threshold)|
    ensures StandsAt(ops, threshold, ApplyPuts(map[], AllPuts(ops, threshold)[..n]), j, k)
    ensures j <= |ops| && (j == |ops| ==> k == 0)
    decreases |ops|
  {
    hide ApplyPuts, StandsAt, Replay, AppendPuts;
    if n == |AllPuts(ops, threshold)| {
      j, k := |ops|, 0;
      StandsAtEnd(ops, threshold);
    } else {
      var before, op := ops[..|ops| - 1], ops[|ops| - 1];
      assert ops == before + [op];
      if n < |AllPuts(before, threshold)| {
        j, k := CrashStandsInsideOneAppend(before, threshold, n);
        PutsOfPrefix(before, op, threshold, n);
        StandsAtLonger(before, op, threshold, ApplyPuts(map[], AllPuts(ops, threshold)[..n]), j, k);
      } else {
        j, k := |before|, n - |AllPuts(before, threshold)|;
        StandsInsideLast(before, op, threshold, n);
      }
    }
  }
}
