/** Restoring chats at boot: full within the size budget, else the tail of the highest log, else quarantine
    (agent/src/core/cloud/boot.rs, lines 88-110 and 182-386), and the lazy restore of one chat
    (agent/src/core/sessions/mod.rs, lines 520-551). */
module Boots {
  import opened Base
  import opened Text
  import opened SessionKeys
  import opened CloudCaching
  import opened SessionLog
  import opened Sessions
  import opened ObjectStores

  datatype BootConfig = BootConfig(sessionMaxBytes: nat, logCompactionBytes: nat, validJsonl: Bytes -> bool)

  datatype Warning = Truncated(originalSize: nat, keptSize: nat) | Quarantined

  // -------------------------------------------------------------------------
  // Keys of a chat
  // -------------------------------------------------------------------------

  /** Boot takes chat ids from the keys as they are. */
  function ChatPrefix(id: string): Key {
    "sys/sessions/" + id + "/"
  }

  function ChatQuarantine(id: string): Key {
    ChatPrefix(id) + ".quarantine/"
  }

  predicate IsSessionKey(id: string, k: Key) {
    ChatPrefix(id) <= k && !(ChatQuarantine(id) <= k)
  }

  function SessionKeysOf(m: map<Key, Bytes>, id: string): set<Key> {
    set k | k in m && IsSessionKey(id, k)
  }

  lemma SafeIdsAgree(chat: string)
    ensures ChatPrefix(SafeChatId(chat)) == Prefix(chat) && ChatQuarantine(SafeChatId(chat)) == QuarantinePrefix(chat)
  {
  }

  /** Number of a log, as boot parses it. */
  function LogNumber(id: string, k: Key): Option<nat> {
    var p := ChatPrefix(id) + "log-";
    if !StartsWith(k, p) then None else
    var rest := k[|p|..];
    if !EndsWith(rest, ".jsonl") then None else ParseU32(rest[..|rest| - 6])
  }

  // -------------------------------------------------------------------------
  // Sizes
  // -------------------------------------------------------------------------

  /** Bytes of the objects under some keys. */
  ghost function TotalBytes(m: map<Key, Bytes>, ks: set<Key>): nat
    requires ks <= m.Keys
  {
    if ks == {} then 0 else
    var k :| k in ks;
    |m[k]| + TotalBytes(m, ks - {k})
  }

  lemma {:induction false} TotalBytesWithout(m: map<Key, Bytes>, ks: set<Key>, x: Key)
    requires ks <= m.Keys && x in ks
    ensures TotalBytes(m, ks) == |m[x]| + TotalBytes(m, ks - {x})
    decreases ks
  {
    var k :| k in ks && TotalBytes(m, ks) == |m[k]| + TotalBytes(m, ks - {k});
    if k != x {
      TotalBytesWithout(m, ks - {k}, x);
      TotalBytesWithout(m, ks - {x}, k);
      assert ks - {k} - {x} == ks - {x} - {k};
    }
  }

  function KeySet(keys: seq<Key>): set<Key> {
    set k | k in keys
  }

  predicate NoDuplicates(keys: seq<Key>) {
    forall i, j :: 0 <= i < j < |keys| ==> keys[i] != keys[j]
  }

  lemma TotalBytesGrows(m: map<Key, Bytes>, keys: seq<Key>, i: nat)
    requires i < |keys| && NoDuplicates(keys) && KeySet(keys) <= m.Keys
    ensures KeySet(keys[..i + 1]) == KeySet(keys[..i]) + {keys[i]} && keys[i] !in KeySet(keys[..i])
    ensures KeySet(keys[..i + 1]) <= m.Keys
    ensures TotalBytes(m, KeySet(keys[..i + 1])) == TotalBytes(m, KeySet(keys[..i])) + |m[keys[i]]|
  {
    assert keys[..i + 1] == keys[..i] + [keys[i]];
    assert forall k :: k in keys[..i + 1] ==> k in keys;
    TotalBytesWithout(m, KeySet(keys[..i + 1]), keys[i]);
    assert KeySet(keys[..i + 1]) - {keys[i]} == KeySet(keys[..i]);
  }

  // -------------------------------------------------------------------------
  // Pieces of the restore
  // -------------------------------------------------------------------------

  /** The cache with the store's objects under some keys put over it. */
  function Overlay(cache: map<Key, Bytes>, store: map<Key, Bytes>, ks: set<Key>): map<Key, Bytes>
    requires ks <= store.Keys
  {
    cache + map k | k in ks :: store[k]
  }

  method ListSessionKeys(store: ObjectStore, id: string) returns (r: Result<seq<Key>, S3Error>)
    modifies store`ops
    ensures r.Err? ==> store.fails(old(store.ops))
    ensures r.Ok? ==> NoDuplicates(r.value) && KeySet(r.value) == SessionKeysOf(store.objects, id)
  {
    var listed := store.List(ChatPrefix(id));
    if listed.Err? {
      return Err(S3Error);
    }
    var keys: seq<Key> := [];
    for i := 0 to |listed.value|
      invariant forall k :: k in keys <==> k in listed.value[..i] && !(ChatQuarantine(id) <= k)
      invariant NoDuplicates(keys)
    {
      assert listed.value[..i + 1] == listed.value[..i] + [listed.value[i]];
      assert listed.value[i] !in listed.value[..i];
      if !(ChatQuarantine(id) <= listed.value[i]) {
        keys := keys + [listed.value[i]];
      }
    }
    assert listed.value[..|listed.value|] == listed.value;
    r := Ok(keys);
  }

  /** A HEAD for each key: sizes and their total. */
  method Measure(store: ObjectStore, keys: seq<Key>) returns (r: Result<nat, S3Error>, sizes: seq<nat>)
    requires NoDuplicates(keys) && KeySet(keys) <= store.objects.Keys
    modifies store`ops
    ensures r.Err? ==> !store.Reliable()
    ensures r.Ok? ==> r.value == TotalBytes(store.objects, KeySet(keys))
    ensures r.Ok? ==> |sizes| == |keys|
    ensures r.Ok? ==> forall i :: 0 <= i < |keys| ==> keys[i] in store.objects && sizes[i] == |store.objects[keys[i]]|
  {
    hide TotalBytes;
    sizes := [];
    var total := 0;
    assert KeySet(keys[..0]) == {} by { assert keys[..0] == []; }
    NoBytes(store.objects);
    for i := 0 to |keys|
      invariant |sizes| == i && forall j :: 0 <= j < i ==> keys[j] in store.objects && sizes[j] == |store.objects[keys[j]]|
      invariant KeySet(keys[..i]) <= store.objects.Keys && total == TotalBytes(store.objects, KeySet(keys[..i]))
    {
      assert keys[i] in KeySet(keys);
      TotalBytesGrows(store.objects, keys, i);
      var head := store.Head(keys[i]);
      if head.Err? {
        return Err(S3Error), sizes;
      }
      var len := if head.value.Some? then head.value.value else 0;
      sizes := sizes + [len];
      total := total + len;
    }
    assert keys[..|keys|] == keys;
    r := Ok(total);
  }

  lemma NoBytes(m: map<Key, Bytes>)
    ensures TotalBytes(m, {}) == 0
  {
  }

  /** How many of the next `n` operations succeed before the first that does not. */
  function Successes(fails: nat -> bool, from: nat, n: nat): (k: nat)
    ensures k <= n && (k < n ==> fails(from + k))
    ensures (forall i: nat :: !fails(i)) ==> k == n
    decreases n
  {
    if n == 0 || fails(from) then 0 else 1 + Successes(fails, from + 1, n - 1)
  }

  lemma OverlayMore(cache: map<Key, Bytes>, store: map<Key, Bytes>, ks: set<Key>, k: Key)
    requires ks <= store.Keys && k in store
    ensures Overlay(cache, store, ks)[k := store[k]] == Overlay(cache, store, ks + {k})
  {
  }

  /** A GET for each key into the cache, up to the first that fails: what came before it stays cached. */
  method FetchAll(store: ObjectStore, cache: CloudCache, keys: seq<Key>) returns (got: nat)
    requires KeySet(keys) <= store.objects.Keys
    modifies store`ops, cache
    ensures got == Successes(store.fails, old(store.ops), |keys|)
    ensures KeySet(keys[..got]) <= store.objects.Keys
    ensures cache.entries == Overlay(old(cache.entries), store.objects, KeySet(keys[..got]))
  {
    hide Overlay;
    got := 0;
    assert keys[..0] == [] && KeySet([]) == {};
    OverlayNothing(cache.entries, store.objects);
    while got < |keys|
      invariant got <= |keys| && KeySet(keys[..got]) <= store.objects.Keys && store.ops == old(store.ops) + got
      invariant cache.entries == Overlay(old(cache.entries), store.objects, KeySet(keys[..got]))
      invariant Successes(store.fails, old(store.ops), |keys|) == got + Successes(store.fails, store.ops, |keys| - got)
    {
      assert keys[got] in KeySet(keys);
      var bytes := store.Get(keys[got]);
      if bytes.Err? {
        return;
      }
      cache.Put(keys[got], bytes.value);
      OverlayMore(old(cache.entries), store.objects, KeySet(keys[..got]), keys[got]);
      assert keys[..got + 1] == keys[..got] + [keys[got]];
      assert KeySet(keys[..got + 1]) == KeySet(keys[..got]) + {keys[got]};
      got := got + 1;
    }
  }

  lemma OverlayNothing(cache: map<Key, Bytes>, store: map<Key, Bytes>)
    ensures Overlay(cache, store, {}) == cache
  {
  }

  // -------------------------------------------------------------------------
  // The tail of the highest log
  // -------------------------------------------------------------------------

  predicate NotAbove(n: Option<nat>, most: nat) {
    n.Some? ==> n.value <= most
  }

  predicate IsHighestLog(id: string, ks: set<Key>, k: Key) {
    k in ks && LogNumber(id, k).Some?
    && forall j :: j in ks ==> NotAbove(LogNumber(id, j), LogNumber(id, k).value)
  }

  method HighestLog(id: string, keys: seq<Key>) returns (best: Option<nat>)
    ensures best.Some? ==> best.value < |keys| && IsHighestLog(id, KeySet(keys), keys[best.value])
    ensures best.Some? ==> forall j :: best.value < j < |keys| ==> LogNumber(id, keys[j]) != LogNumber(id, keys[best.value])
    ensures best.None? ==> forall k :: k in keys ==> LogNumber(id, k).None?
  {
    hide LogNumber;
    best := None;
    for i := 0 to |keys|
      invariant best.Some? ==> best.value < i && LogNumber(id, keys[best.value]).Some?
      invariant best.Some? ==> forall j :: 0 <= j < i ==> NotAbove(LogNumber(id, keys[j]), LogNumber(id, keys[best.value]).value)
      invariant best.Some? ==> forall j :: best.value < j < i ==> LogNumber(id, keys[j]) != LogNumber(id, keys[best.value])
      invariant best.None? ==> forall j :: 0 <= j < i ==> LogNumber(id, keys[j]).None?
    {
      var n := LogNumber(id, keys[i]);
      if n.Some? && (best.None? || n.value >= LogNumber(id, keys[best.value]).value) {
        best := Some(i);
      }
    }
  }

  /** What is kept of a tail: everything behind its first newline, or all of it. */
  function CutTail(tail: Bytes): Bytes {
    var i := IndexFrom(tail, '\n', 0);
    if i < |tail| then tail[i + 1..] else tail
  }

  /** The last `n` bytes. */
  function TailOf(s: Bytes, n: nat): Bytes {
    if n < |s| then s[|s| - n..] else s
  }

  /** What a truncated restore keeps of a log. */
  function Kept(log: Bytes, cfg: BootConfig): Bytes {
    CutTail(TailOf(log, cfg.logCompactionBytes))
  }

  /** It is a suffix of the log within the budget, cut behind a newline when the tail has one. */
  lemma KeptIsASuffix(log: Bytes, cfg: BootConfig)
    ensures var kept := Kept(log, cfg);
      && |kept| <= cfg.logCompactionBytes && |kept| <= |log| && kept == log[|log| - |kept|..]
      && ('\n' in TailOf(log, cfg.logCompactionBytes) ==> |kept| < |log| && log[|log| - |kept| - 1] == '\n')
      && ('\n' !in TailOf(log, cfg.logCompactionBytes) ==> kept == TailOf(log, cfg.logCompactionBytes))
  {
    var tail := TailOf(log, cfg.logCompactionBytes);
    var i := IndexFrom(tail, '\n', 0);
    assert tail == log[|log| - |tail|..];
    if i < |tail| {
      assert log[|log| - |tail| + i] == tail[i];
    }
  }

  predicate LineStarts(log: Bytes, p: nat)
    requires p <= |log|
  {
    p == 0 || log[p - 1] == '\n'
  }

  /** Of the lines that lie in the tail a whole one is lost exactly when the tail begins with one and has a newline: the
      first line is dropped whether it was cut or not, also from a log within the budget. */
  lemma WholeLineIsLostExactly(log: Bytes, cfg: BootConfig)
    ensures var tail, kept := TailOf(log, cfg.logCompactionBytes), Kept(log, cfg);
      && |kept| <= |tail| <= |log|
      && ((exists p :: |log| - |tail| <= p < |log| - |kept| && LineStarts(log, p))
          <==> '\n' in tail && LineStarts(log, |log| - |tail|))
  {
    var tail, kept := TailOf(log, cfg.logCompactionBytes), Kept(log, cfg);
    var a := |log| - |tail|;
    assert tail == log[a..];
    forall p | a < p < |log| - |kept| ensures !LineStarts(log, p) {
      assert log[p - 1] == tail[p - 1 - a];
    }
    if '\n' in tail && LineStarts(log, a) {
      assert a < |log| - |kept|;
    }
  }

  /** So a log of whole lines within the budget always loses its first one. */
  lemma SmallLogLosesItsFirstLine(line: Bytes, rest: Bytes, cfg: BootConfig)
    requires '\n' !in line && |line| + 1 + |rest| <= cfg.logCompactionBytes
    ensures Kept(line + "\n" + rest, cfg) == rest
  {
    var log := line + "\n" + rest;
    assert log[|line|] == '\n' && forall i :: 0 <= i < |line| ==> log[i] == line[i];
    assert IndexFrom(log, '\n', 0) == |line|;
    assert log[|line| + 1..] == rest;
  }

  /** The log boot falls back to can be used: the store has it, its tail is not empty, and what is kept is JSON lines. */
  predicate Usable(store: map<Key, Bytes>, k: Key, cfg: BootConfig) {
    k in store && store[k] != "" && cfg.logCompactionBytes > 0 && cfg.validJsonl(Kept(store[k], cfg))
  }

  // -------------------------------------------------------------------------
  // Quarantine
  // -------------------------------------------------------------------------

  function QuarantineKey(id: string, k: Key): Key {
    ChatQuarantine(id) + (if ChatPrefix(id) <= k then k[|ChatPrefix(id)|..] else k)
  }

  /** After a quarantine: no new session key; keys outside the chat are as they were. */
  ghost predicate OnlyLoses(before: map<Key, Bytes>, after: map<Key, Bytes>, id: string) {
    && SessionKeysOf(after, id) <= SessionKeysOf(before, id)
    && (forall k :: k in SessionKeysOf(after, id) ==> after[k] == before[k])
    && (forall k :: !(ChatPrefix(id) <= k) ==> Lookup(after, k) == Lookup(before, k))
  }

  /** Every session key is gone and stands under the quarantine prefix. */
  predicate Moved(before: map<Key, Bytes>, after: map<Key, Bytes>, id: string, ks: set<Key>) {
    && (forall k :: k in ks ==> k !in after)
    && (forall k :: k in ks && k in before ==> Lookup(after, QuarantineKey(id, k)) == Some(before[k]))
  }

  lemma QuarantineKeysApart(id: string, k: Key, j: Key)
    requires IsSessionKey(id, k) && IsSessionKey(id, j)
    ensures !IsSessionKey(id, QuarantineKey(id, k)) && ChatPrefix(id) <= QuarantineKey(id, k)
    ensures QuarantineKey(id, k) == QuarantineKey(id, j) ==> k == j
    ensures QuarantineKey(id, k) != j
  {
    var p, q := ChatPrefix(id), ChatQuarantine(id);
    assert q <= QuarantineKey(id, k) by { assert QuarantineKey(id, k)[..|q|] == q; }
    assert p <= q by { assert q[..|p|] == p; }
    assert k == p + k[|p|..] && j == p + j[|p|..];
    assert QuarantineKey(id, k)[|q|..] == k[|p|..];
    assert QuarantineKey(id, j)[|q|..] == j[|p|..];
  }

  /** One key's move keeps what the earlier ones established. */
  lemma MoveOne(s0: map<Key, Bytes>, s: map<Key, Bytes>, id: string, ks: set<Key>, k: Key, copied: bool, deleted: bool)
    requires OnlyLoses(s0, s, id) && IsSessionKey(id, k) && k !in ks
    requires forall j :: j in ks ==> IsSessionKey(id, j)
    requires Lookup(s, k) == Lookup(s0, k)
    ensures var s1 := if copied && k in s then s[QuarantineKey(id, k) := s[k]] else s;
      var s2 := if deleted then s1 - {k} else s1;
      && OnlyLoses(s0, s2, id)
      && (forall j :: IsSessionKey(id, j) && j != k ==> Lookup(s2, j) == Lookup(s, j))
      && (copied && deleted && Moved(s0, s, id, ks) ==> Moved(s0, s2, id, ks + {k}))
  {
    var q := QuarantineKey(id, k);
    hide IsSessionKey, QuarantineKey, ChatPrefix;
    QuarantineKeysApart(id, k, k);
    forall j | IsSessionKey(id, j) ensures q != j {
      QuarantineKeysApart(id, k, j);
    }
    forall j | j in ks ensures QuarantineKey(id, j) != q && QuarantineKey(id, j) != k {
      QuarantineKeysApart(id, j, k);
    }
    PrefixOfSessionKey(id, k);
  }

  lemma PrefixOfSessionKey(id: string, k: Key)
    requires IsSessionKey(id, k)
    ensures ChatPrefix(id) <= k
  {
  }

  method Quarantine(store: ObjectStore, id: string, keys: seq<Key>)
    requires NoDuplicates(keys) && KeySet(keys) == SessionKeysOf(store.objects, id)
    modifies store
    ensures OnlyLoses(old(store.objects), store.objects, id)
    ensures store.Reliable() ==>
              Moved(old(store.objects), store.objects, id, KeySet(keys)) && SessionKeysOf(store.objects, id) == {}
  {
    hide OnlyLoses, Moved, QuarantineKey, IsSessionKey, ChatPrefix;
    ghost var s0 := store.objects;
    NothingMoved(s0, id);
    assert keys[..0] == [] && KeySet([]) == {};
    ListedAreSessionKeys(s0, id, keys);
    for i := 0 to |keys|
      invariant OnlyLoses(s0, store.objects, id)
      invariant forall j :: i <= j < |keys| ==> Lookup(store.objects, keys[j]) == Lookup(s0, keys[j])
      invariant store.Reliable() ==> Moved(s0, store.objects, id, KeySet(keys[..i]))
    {
      var key := keys[i];
      assert keys[..i + 1] == keys[..i] + [key] && KeySet(keys[..i + 1]) == KeySet(keys[..i]) + {key};
      ghost var s := store.objects;
      var bytes := store.Get(key);
      var copied := false;
      if bytes.Ok? {
        copied := store.Put(QuarantineKey(id, key), bytes.value);
      }
      var deleted := store.Delete(key);
      MoveOne(s0, s, id, KeySet(keys[..i]), key, copied, deleted);
      assert key in KeySet(keys);
    }
    assert keys[..|keys|] == keys;
    if store.Reliable() { MovedLeavesNothing(s0, store.objects, id); }
  }

  lemma ListedAreSessionKeys(m: map<Key, Bytes>, id: string, keys: seq<Key>)
    requires KeySet(keys) == SessionKeysOf(m, id)
    ensures forall j :: 0 <= j < |keys| ==> IsSessionKey(id, keys[j])
  {
    hide IsSessionKey;
    forall j | 0 <= j < |keys| ensures IsSessionKey(id, keys[j]) {
      assert keys[j] in KeySet(keys);
    }
  }

  lemma NothingMoved(s: map<Key, Bytes>, id: string)
    ensures OnlyLoses(s, s, id) && Moved(s, s, id, {})
  {
  }

  lemma MovedLeavesNothing(s0: map<Key, Bytes>, s: map<Key, Bytes>, id: string)
    requires OnlyLoses(s0, s, id) && Moved(s0, s, id, SessionKeysOf(s0, id))
    ensures SessionKeysOf(s, id) == {}
  {
    hide IsSessionKey, QuarantineKey;
    forall k ensures k !in SessionKeysOf(s, id) {
      if k in SessionKeysOf(s0, id) { assert k !in s; }
    }
  }

  // -------------------------------------------------------------------------
  // One chat
  // -------------------------------------------------------------------------

  /** A truncated restore: of all the chat's files the cache gets the end of the highest log. */
  ghost predicate KeepsTail(id: string, store: map<Key, Bytes>, before: map<Key, Bytes>, after: map<Key, Bytes>,
                            cfg: BootConfig, w: Warning) {
    exists k :: IsHighestLog(id, SessionKeysOf(store, id), k) && KeepsTailOf(k, store, before, after, cfg, w)
  }

  ghost predicate KeepsTailOf(k: Key, store: map<Key, Bytes>, before: map<Key, Bytes>, after: map<Key, Bytes>,
                              cfg: BootConfig, w: Warning) {
    && Usable(store, k, cfg) && after == before[k := Kept(store[k], cfg)]
    && w == Truncated(|store[k]|, |Kept(store[k], cfg)|)
  }

  /** No log, or a highest log whose tail cannot be used. */
  ghost predicate HasNoTail(id: string, store: map<Key, Bytes>, cfg: BootConfig) {
    || (forall k :: k in SessionKeysOf(store, id) ==> LogNumber(id, k).None?)
    || (exists k :: IsHighestLog(id, SessionKeysOf(store, id), k) && !Usable(store, k, cfg))
  }

  /** The fallback behind the budget: the highest log's tail, or quarantine. */
  method TailOrQuarantine(store: ObjectStore, cache: CloudCache, id: string, keys: seq<Key>, sizes: seq<nat>,
                          cfg: BootConfig)
    returns (w: Warning)
    requires NoDuplicates(keys) && KeySet(keys) == SessionKeysOf(store.objects, id)
    requires |sizes| == |keys|
    requires forall i :: 0 <= i < |keys| ==> keys[i] in store.objects && sizes[i] == |store.objects[keys[i]]|
    modifies store, cache
    ensures w.Truncated? ==> store.objects == old(store.objects)
    ensures w.Truncated? ==> KeepsTail(id, store.objects, old(cache.entries), cache.entries, cfg, w)
    ensures w.Quarantined? ==> cache.entries == old(cache.entries) && OnlyLoses(old(store.objects), store.objects, id)
    ensures w.Quarantined? && store.Reliable() ==> HasNoTail(id, old(store.objects), cfg)
    ensures w.Quarantined? && store.Reliable() ==> Moved(old(store.objects), store.objects, id, KeySet(keys))
    ensures w.Quarantined? && store.Reliable() ==> SessionKeysOf(store.objects, id) == {}
  {
    hide LogNumber, OnlyLoses, Moved, CutTail;
    var highest := HighestLog(id, keys);
    if highest.None? {
      Quarantine(store, id, keys);
      return Quarantined;
    }
    var logKey, totalLen := keys[highest.value], sizes[highest.value];
    var tailSize := if cfg.logCompactionBytes < totalLen then cfg.logCompactionBytes else totalLen;
    if tailSize == 0 {
      Quarantine(store, id, keys);
      return Quarantined;
    }
    var offset := totalLen - tailSize;
    var bytes := store.GetRange(logKey, offset, tailSize);
    if bytes.Err? {
      Quarantine(store, id, keys);
      return Quarantined;
    }
    assert bytes.value == TailOf(store.objects[logKey], cfg.logCompactionBytes);
    var kept := CutTail(bytes.value);
    if !cfg.validJsonl(kept) {
      Quarantine(store, id, keys);
      return Quarantined;
    }
    cache.Put(logKey, kept);
    w := Truncated(totalLen, |kept|);
  }

  ghost predicate InBudget(store: map<Key, Bytes>, id: string, cfg: BootConfig) {
    TotalBytes(store, SessionKeysOf(store, id)) <= cfg.sessionMaxBytes
  }

  /** What the fallback leaves behind, from the cache as it found it. */
  ghost predicate FellBack(id: string, store0: map<Key, Bytes>, store: map<Key, Bytes>, cache0: map<Key, Bytes>,
                           cache: map<Key, Bytes>, cfg: BootConfig, w: Warning, reliable: bool)
  {
    match w
    case Truncated(_, _) => store == store0 && KeepsTail(id, store0, cache0, cache, cfg, w)
    case Quarantined =>
      && cache == cache0 && OnlyLoses(store0, store, id)
      && (reliable ==> HasNoTail(id, store0, cfg) && SessionKeysOf(store, id) == {})
      && (reliable ==> Moved(store0, store, id, SessionKeysOf(store0, id)))
  }

  /** A partial fetch: some of the chat's files, in an order the store chose. */
  ghost predicate PartlyFetched(id: string, store: map<Key, Bytes>, before: map<Key, Bytes>, mid: map<Key, Bytes>) {
    exists ks: set<Key> :: ks < SessionKeysOf(store, id) && mid == Overlay(before, store, ks)
  }

  /** One chat's restore.
      No warning: the cache has every session file of the chat (there may be none). A warning over the budget: the
      fallback, from the cache as it was. A warning within the budget: a GET failed, and the fallback comes on top of
      the files that were fetched before it. */
  method RestoreChat(store: ObjectStore, cache: CloudCache, id: string, cfg: BootConfig)
    returns (r: Result<Option<Warning>, S3Error>)
    modifies store, cache
    ensures store.Reliable() ==> r.Ok? && (r.value.None? <==> InBudget(old(store.objects), id, cfg))
    ensures r.Err? ==> store.objects == old(store.objects) && cache.entries == old(cache.entries)
    ensures r == Ok(None) ==> store.objects == old(store.objects) && InBudget(store.objects, id, cfg)
    ensures r == Ok(None) ==> cache.entries == Overlay(old(cache.entries), store.objects, SessionKeysOf(store.objects, id))
    ensures r.Ok? && r.value.Some? && !InBudget(old(store.objects), id, cfg) ==>
      FellBack(id, old(store.objects), store.objects, old(cache.entries), cache.entries, cfg, r.value.value, store.Reliable())
    ensures r.Ok? && r.value.Some? && InBudget(old(store.objects), id, cfg) ==>
      PartlyFellBack(id, old(store.objects), store.objects, old(cache.entries), cache.entries, cfg, r.value.value)
  {
    hide TotalBytes, OnlyLoses, Moved, KeepsTail, HasNoTail, Overlay, IsSessionKey, NoDuplicates;
    var keys := ListSessionKeys(store, id);
    if keys.Err? {
      return Err(S3Error);
    }
    assert KeySet(keys.value) == SessionKeysOf(store.objects, id);
    if keys.value == [] {
      assert KeySet([]) == {};
      NoBytes(store.objects);
      OverlayNothing(cache.entries, store.objects);
      return Ok(None);
    }
    var total, sizes := Measure(store, keys.value);
    if total.Err? {
      return Err(S3Error);
    }
    if total.value <= cfg.sessionMaxBytes {
      var got := FetchAll(store, cache, keys.value);
      if got == |keys.value| {
        assert keys.value[..got] == keys.value;
        return Ok(None);
      }
      ghost var mid := cache.entries;
      SomeAreMissing(keys.value, got);
      var w := TailOrQuarantine(store, cache, id, keys.value, sizes, cfg);
      assert PartlyFetched(id, old(store.objects), old(cache.entries), mid);
      return Ok(Some(w));
    }
    var w := TailOrQuarantine(store, cache, id, keys.value, sizes, cfg);
    r := Ok(Some(w));
  }

  ghost predicate PartlyFellBack(id: string, store0: map<Key, Bytes>, store: map<Key, Bytes>,
                                 cache0: map<Key, Bytes>, cache: map<Key, Bytes>, cfg: BootConfig, w: Warning)
  {
    exists mid :: PartlyFetched(id, store0, cache0, mid) && FellBack(id, store0, store, mid, cache, cfg, w, false)
  }

  lemma SomeAreMissing(keys: seq<Key>, got: nat)
    requires NoDuplicates(keys) && got < |keys|
    ensures KeySet(keys[..got]) < KeySet(keys)
  {
    assert keys[got] in KeySet(keys) && keys[got] !in KeySet(keys[..got]);
    assert forall k :: k in keys[..got] ==> k in keys;
  }

  // -------------------------------------------------------------------------
  // What a restored chat reads as
  // -------------------------------------------------------------------------

  /** The two maps hold the same base, marker and logs of a chat. */
  ghost predicate SameFiles(m: map<Key, Bytes>, m': map<Key, Bytes>, chat: string) {
    && Lookup(m, BaseKey(chat)) == Lookup(m', BaseKey(chat)) && Lookup(m, MetaKey(chat)) == Lookup(m', MetaKey(chat))
    && forall n: nat :: Lookup(m, LogKey(chat, n)) == Lookup(m', LogKey(chat, n))
  }

  lemma {:induction false} SameFilesSameLogs(m: map<Key, Bytes>, m': map<Key, Bytes>, chat: string, i: nat)
    requires SameFiles(m, m', chat)
    ensures LogsFrom(m, chat, i) == LogsFrom(m', chat, i)
    decreases U32_MODULUS - i
  {
    hide LogKey, BaseKey, MetaKey;
    if i < U32_MODULUS {
      assert Lookup(m, LogKey(chat, i)) == Lookup(m', LogKey(chat, i));
      SameFilesSameLogs(m, m', chat, i + 1);
    }
  }

  lemma SameFilesReadAlike(m: map<Key, Bytes>, m': map<Key, Bytes>, chat: string)
    requires SameFiles(m, m', chat)
    ensures ChatText(m, chat) == ChatText(m', chat) && FirstUnabsorbed(m, chat) == FirstUnabsorbed(m', chat)
    ensures ActiveIndex(m, chat) == ActiveIndex(m', chat)
  {
    hide LogKey, BaseKey, MetaKey;
    SameFilesSameLogs(m, m', chat, FirstUnabsorbed(m, chat));
  }

  /** The files that make up a chat are session keys, none of them in quarantine. */
  lemma FilesAreSessionKeys(chat: string, n: nat)
    ensures var id := SafeChatId(chat);
      IsSessionKey(id, BaseKey(chat)) && IsSessionKey(id, MetaKey(chat)) && IsSessionKey(id, LogKey(chat, n))
  {
    var p := |Prefix(chat)|;
    assert QuarantinePrefix(chat)[p] == '.';
    LogKeyHasLogPrefix(chat, n);
    var log := LogKey(chat, n);
    assert log[p] == LogPrefix(chat)[p] == 'l';
    assert BaseKey(chat)[p] == 'b' && MetaKey(chat)[p] == 'b';
    assert log[..p] == LogPrefix(chat)[..p] == Prefix(chat);
    assert BaseKey(chat)[..p] == Prefix(chat) && MetaKey(chat)[..p] == Prefix(chat);
  }

  /** Every file of the chat comes from the store. */
  lemma OverlayHasTheFiles(cache: map<Key, Bytes>, store: map<Key, Bytes>, chat: string)
    requires forall k :: k in cache ==> !IsSessionKey(SafeChatId(chat), k)
    ensures SameFiles(store, Overlay(cache, store, SessionKeysOf(store, SafeChatId(chat))), chat)
  {
    hide IsSessionKey, LogKey, BaseKey, MetaKey, SafeChatId;
    forall n: nat
      ensures Lookup(store, LogKey(chat, n))
           == Lookup(Overlay(cache, store, SessionKeysOf(store, SafeChatId(chat))), LogKey(chat, n))
    {
      FilesAreSessionKeys(chat, n);
    }
    FilesAreSessionKeys(chat, 0);
  }

  /** A full restore changes nothing a reader sees: the chat reads from the cache as it stands in the store, and
      appends go on where they would have gone. */
  lemma FullRestoreIsTransparent(cache: map<Key, Bytes>, store: map<Key, Bytes>, chat: string)
    requires forall k :: k in cache ==> !IsSessionKey(SafeChatId(chat), k)
    ensures var restored := Overlay(cache, store, SessionKeysOf(store, SafeChatId(chat)));
      ChatText(restored, chat) == ChatText(store, chat) && ActiveIndex(restored, chat) == ActiveIndex(store, chat)
  {
    hide IsSessionKey, LogKey, BaseKey, MetaKey, SafeChatId, Overlay;
    OverlayHasTheFiles(cache, store, chat);
    SameFilesReadAlike(store, Overlay(cache, store, SessionKeysOf(store, SafeChatId(chat))), chat);
  }

  // -------------------------------------------------------------------------
  // Booting again
  // -------------------------------------------------------------------------

  lemma NothingIsInBudget(store: map<Key, Bytes>, id: string, cfg: BootConfig)
    requires SessionKeysOf(store, id) == {}
    ensures InBudget(store, id, cfg)
  {
    NoBytes(store);
  }

  /** A chat that was quarantined by a boot whose operations succeeded raises no warning at the next boot. */
  method BootTwice(store: ObjectStore, first: CloudCache, second: CloudCache, id: string, cfg: BootConfig)
    returns (w: Option<Warning>, w': Option<Warning>)
    requires store.Reliable()
    modifies store, first, second
    ensures w == Some(Quarantined) ==> w' == None
    ensures w == None ==> w' == None
  {
    hide InBudget, OnlyLoses, Moved, KeepsTail, HasNoTail, SessionKeysOf;
    var r := RestoreChat(store, first, id, cfg);
    w := r.value;
    if w == Some(Quarantined) {
      NothingIsInBudget(store.objects, id, cfg);
    }
    var r' := RestoreChat(store, second, id, cfg);
    w' := r'.value;
  }

  // -------------------------------------------------------------------------
  // All chats
  // -------------------------------------------------------------------------

  /** The chat a key belongs to; ids are not empty and do not start with a dot. */
  function ChatOf(k: Key): Option<string> {
    var root := "sys/sessions/";
    if !(root <= k) then None else
    var rest := k[|root|..];
    var slash := IndexFrom(rest, '/', 0);
    if slash == |rest| || slash == 0 || rest[0] == '.' then None else Some(rest[..slash])
  }

  method UniqueChatIds(keys: seq<Key>) returns (ids: set<string>)
    ensures forall id :: id in ids <==> exists k :: k in keys && ChatOf(k) == Some(id)
  {
    hide ChatOf;
    ids := {};
    for i := 0 to |keys|
      invariant forall id :: id in ids <==> exists j :: 0 <= j < i && ChatOf(keys[j]) == Some(id)
    {
      var id := ChatOf(keys[i]);
      if id.Some? {
        ids := ids + {id.value};
      }
    }
  }

  /** Session keys of some chats. */
  ghost function KeysOfAll(m: map<Key, Bytes>, ids: set<string>): set<Key> {
    set k, id | id in ids && k in SessionKeysOf(m, id) :: k
  }

  lemma OverlayTwice(cache: map<Key, Bytes>, store: map<Key, Bytes>, a: set<Key>, b: set<Key>)
    requires a <= store.Keys && b <= store.Keys
    ensures Overlay(Overlay(cache, store, a), store, b) == Overlay(cache, store, a + b)
  {
  }

  /** Boot restores the chats one after the other; a chat whose restore fails is skipped. When nothing fails and
      every chat is within the budget, the cache holds every session file and there are no warnings. */
  method BootRestore(store: ObjectStore, cache: CloudCache, cfg: BootConfig)
    returns (r: Result<seq<(string, Warning)>, S3Error>)
    modifies store, cache
    ensures r.Err? ==> store.objects == old(store.objects) && cache.entries == old(cache.entries)
    ensures store.Reliable() && (forall id :: InBudget(old(store.objects), id, cfg)) ==>
      r == Ok([]) && store.objects == old(store.objects) && HasAllChats(old(cache.entries), store.objects, cache.entries)
  {
    hide InBudget, OnlyLoses, Moved, KeepsTail, HasNoTail, SessionKeysOf, Overlay, ChatOf;
    var listed := store.List("sys/sessions/");
    if listed.Err? {
      return Err(S3Error);
    }
    var ids := UniqueChatIds(listed.value);
    var warnings: seq<(string, Warning)> := [];
    ghost var fine := store.Reliable() && forall id :: InBudget(store.objects, id, cfg);
    ghost var s0, all := store.objects, ids;
    ghost var done: set<string> := {};
    assert KeysOfAll(s0, {}) == {};
    OverlayNothing(cache.entries, s0);
    while ids != {}
      invariant ids + done == all
      invariant fine ==> warnings == [] && store.objects == s0
      invariant fine ==> KeysOfAll(s0, done) <= s0.Keys && cache.entries == Overlay(old(cache.entries), s0, KeysOfAll(s0, done))
      decreases ids
    {
      var id :| id in ids;
      ids := ids - {id};
      ghost var c := cache.entries;
      var restored := RestoreChat(store, cache, id, cfg);
      if restored.Ok? && restored.value.Some? {
        warnings := warnings + [(id, restored.value.value)];
      }
      if fine {
        KeysAreStored(s0, id);
        OverlayTwice(old(cache.entries), s0, KeysOfAll(s0, done), SessionKeysOf(s0, id));
        assert KeysOfAll(s0, done + {id}) == KeysOfAll(s0, done) + SessionKeysOf(s0, id);
      }
      done := done + {id};
    }
    if fine { AllIsAll(s0, all, listed.value); }
    r := Ok(warnings);
  }

  lemma KeysAreStored(m: map<Key, Bytes>, id: string)
    ensures SessionKeysOf(m, id) <= m.Keys
  {
  }

  /** The cache has the store's version of every key that is a session key of some chat, and is otherwise as before. */
  ghost predicate HasAllChats(before: map<Key, Bytes>, store: map<Key, Bytes>, after: map<Key, Bytes>) {
    exists ks: set<Key> :: ks <= store.Keys && after == Overlay(before, store, ks)
      && forall k :: k in store && ChatOf(k).Some? && IsSessionKey(ChatOf(k).value, k) ==> k in ks
  }

  lemma AllIsAll(store: map<Key, Bytes>, all: set<string>, keys: seq<Key>)
    requires forall id :: id in all <==> exists k :: k in keys && ChatOf(k) == Some(id)
    requires forall k :: k in keys <==> k in store && "sys/sessions/" <= k
    ensures KeysOfAll(store, all) <= store.Keys
    ensures forall k :: k in store && ChatOf(k).Some? && IsSessionKey(ChatOf(k).value, k) ==> k in KeysOfAll(store, all)
  {
    hide IsSessionKey;
    forall k | k in store && ChatOf(k).Some? && IsSessionKey(ChatOf(k).value, k) ensures k in KeysOfAll(store, all) {
      assert k in keys && ChatOf(k).value in all;
      assert k in SessionKeysOf(store, ChatOf(k).value);
    }
  }

  // -------------------------------------------------------------------------
  // Lazy restore
  // -------------------------------------------------------------------------

  /** Every key is as it was, or was absent and is now what the store has under that session key. */
  ghost predicate Hydrated(id: string, store: map<Key, Bytes>, before: map<Key, Bytes>, after: map<Key, Bytes>) {
    && (forall k :: k in before ==> Lookup(after, k) == Some(before[k]))
    && (forall k :: k in after && k !in before ==> IsSessionKey(id, k) && Lookup(store, k) == Some(after[k]))
  }

  /** Fetches the chat's files that the cache does not have; what it has is never overwritten. */
  method Hydrate(store: ObjectStore, cache: CloudCache, id: string) returns (listed: bool)
    modifies store`ops, cache
    ensures Hydrated(id, store.objects, old(cache.entries), cache.entries)
    ensures !listed ==> cache.entries == old(cache.entries)
    ensures store.Reliable() ==> listed && forall k :: k in SessionKeysOf(store.objects, id) ==> k in cache.entries
  {
    hide ChatPrefix, ChatQuarantine, Hydrated;
    NothingHydrated(id, store.objects, cache.entries);
    var keys := store.List(ChatPrefix(id));
    if keys.Err? {
      return false;
    }
    assert forall k :: k in SessionKeysOf(store.objects, id) ==> k in keys.value;
    for i := 0 to |keys.value|
      invariant Hydrated(id, store.objects, old(cache.entries), cache.entries)
      invariant store.Reliable() ==> HasThese(id, keys.value[..i], cache.entries)
    {
      var key := keys.value[i];
      assert keys.value[..i + 1] == keys.value[..i] + [key];
      if ChatQuarantine(id) <= key {
        continue;
      }
      var cached := cache.Get(key);
      if cached.Some? {
        continue;
      }
      assert key in keys.value;
      var bytes := store.Get(key);
      if bytes.Ok? {
        HydratedOneMore(id, store.objects, old(cache.entries), cache.entries, key);
        cache.Put(key, bytes.value);
      }
    }
    assert keys.value[..|keys.value|] == keys.value;
    listed := true;
  }

  predicate HasThese(id: string, keys: seq<Key>, m: map<Key, Bytes>) {
    forall k :: k in keys && !(ChatQuarantine(id) <= k) ==> k in m
  }

  lemma NothingHydrated(id: string, store: map<Key, Bytes>, m: map<Key, Bytes>)
    ensures Hydrated(id, store, m, m)
  {
  }

  lemma HydratedOneMore(id: string, store: map<Key, Bytes>, before: map<Key, Bytes>, after: map<Key, Bytes>, key: Key)
    requires Hydrated(id, store, before, after) && key !in after && key in store && IsSessionKey(id, key)
    ensures Hydrated(id, store, before, after[key := store[key]])
  {
    hide IsSessionKey;
  }

  /** What the cache has of a chat's files it has as the store has them. */
  ghost predicate CopiedFrom(id: string, store: map<Key, Bytes>, m: map<Key, Bytes>) {
    forall k :: k in m && IsSessionKey(id, k) ==> Lookup(store, k) == Some(m[k])
  }

  /** The cache after fetching every file of a chat that it lacks. */
  function Filled(m: map<Key, Bytes>, store: map<Key, Bytes>, id: string): map<Key, Bytes> {
    (map k | k in SessionKeysOf(store, id) :: store[k]) + m
  }

  /** What a reader gets: the cached text, and only when that is nothing the text behind fetching what is missing. */
  function LazyText(m: map<Key, Bytes>, store: map<Key, Bytes>, chat: string): Bytes {
    if ChatText(m, chat) != "" then ChatText(m, chat) else ChatText(Filled(m, store, SafeChatId(chat)), chat)
  }

  /** Reading a chat: the cache first; only when that reads as nothing, the store's files. */
  method CloudLoadText(sessions: SessionManager, store: ObjectStore?, cache: CloudCache, chat: string)
    returns (out: Bytes)
    requires Canonical(cache.entries, chat) && (store != null ==> Canonical(store.objects, chat))
    modifies store, cache
    ensures out == ChatText(cache.entries, chat) && (store != null ==> store.objects == old(store.objects))
    ensures old(ChatText(cache.entries, chat)) != "" || store == null ==> cache.entries == old(cache.entries)
    ensures store != null ==> Hydrated(SafeChatId(chat), store.objects, old(cache.entries), cache.entries)
    ensures store != null && store.Reliable() ==> out == LazyText(old(cache.entries), store.objects, chat)
  {
    hide ChatText, IsSessionKey, SafeChatId, LogIndexOf, SessionKeysOf;
    out := sessions.ReadChatFromCache(chat, cache);
    if out != "" || store == null {
      return;
    }
    ghost var before := cache.entries;
    var listed := Hydrate(store, cache, SafeChatId(chat));
    HydratedIsCanonical(SafeChatId(chat), store.objects, before, cache.entries, chat);
    if listed {
      out := sessions.ReadChatFromCache(chat, cache);
    }
    if store.Reliable() { HydratedIsFilled(SafeChatId(chat), store.objects, before, cache.entries); }
  }

  lemma HydratedIsCanonical(id: string, store: map<Key, Bytes>, before: map<Key, Bytes>, after: map<Key, Bytes>,
                            chat: string)
    requires Hydrated(id, store, before, after) && Canonical(before, chat) && Canonical(store, chat)
    ensures Canonical(after, chat)
  {
    hide IsSessionKey, LogIndexOf, LogKey;
  }

  lemma NoFilesNoText(m: map<Key, Bytes>, chat: string)
    requires forall k :: k in m ==> !IsSessionKey(SafeChatId(chat), k)
    ensures ChatText(m, chat) == ""
  {
    hide IsSessionKey, LogKey, BaseKey, MetaKey, SafeChatId;
    forall n: nat ensures LogKey(chat, n) !in m {
      FilesAreSessionKeys(chat, n);
    }
    FilesAreSessionKeys(chat, 0);
    NoLogsAbove(m, chat, FirstUnabsorbed(m, chat));
  }

  lemma HydratedIsFilled(id: string, store: map<Key, Bytes>, before: map<Key, Bytes>, after: map<Key, Bytes>)
    requires Hydrated(id, store, before, after) && forall k :: k in SessionKeysOf(store, id) ==> k in after
    ensures after == Filled(before, store, id)
  {
    hide IsSessionKey;
    var filled := Filled(before, store, id);
    forall k ensures Lookup(after, k) == Lookup(filled, k) {
      if k in before {
        assert Lookup(after, k) == Some(before[k]);
      } else if k in after {
        assert k in SessionKeysOf(store, id) && Lookup(store, k) == Some(after[k]);
      }
    }
    SameLookups(after, filled);
  }

  lemma SameLookups(a: map<Key, Bytes>, b: map<Key, Bytes>)
    requires forall k :: Lookup(a, k) == Lookup(b, k)
    ensures a == b
  {
    assert forall k :: k in a <==> Lookup(a, k).Some?;
    assert forall k :: k in b <==> Lookup(b, k).Some?;
    assert forall k :: k in a ==> Lookup(a, k) == Some(a[k]);
  }

  /** Filled up from the store, a cache with nothing but copies has the store's files. */
  lemma FilledHasTheFiles(m: map<Key, Bytes>, store: map<Key, Bytes>, chat: string)
    requires CopiedFrom(SafeChatId(chat), store, m)
    ensures SameFiles(store, Filled(m, store, SafeChatId(chat)), chat)
    ensures ChatText(Filled(m, store, SafeChatId(chat)), chat) == ChatText(store, chat)
  {
    hide IsSessionKey, LogKey, BaseKey, MetaKey, SafeChatId, ChatText;
    var filled := Filled(m, store, SafeChatId(chat));
    forall n: nat ensures Lookup(store, LogKey(chat, n)) == Lookup(filled, LogKey(chat, n)) {
      FilesAreSessionKeys(chat, n);
    }
    FilesAreSessionKeys(chat, 0);
    SameFilesReadAlike(store, filled, chat);
  }

  // -------------------------------------------------------------------------
  // Deleting, and what a lazy restore brings back
  // -------------------------------------------------------------------------

  /** `delete` on the cache leaves nothing of the chat there. */
  lemma DeletedLeavesNoFiles(before: map<Key, Bytes>, after: map<Key, Bytes>, chat: string)
    requires Dropped(before, after, Prefix(chat))
    ensures forall k :: k in after ==> !IsSessionKey(SafeChatId(chat), k)
    ensures ChatText(after, chat) == ""
  {
    SafeIdsAgree(chat);
    hide SafeChatId, LogKey, BaseKey, MetaKey, ChatText, Prefix, ChatPrefix, ChatQuarantine;
    forall k | k in after ensures !IsSessionKey(SafeChatId(chat), k) {
      assert Lookup(after, k).Some?;
    }
    NoFilesNoText(after, chat);
  }

  lemma LogsHaveThePrefix(chat: string, k: Key)
    requires LogIndexOf(chat, k).Some?
    ensures Prefix(chat) <= k
  {
  }

  /** `delete` without the store's part: the next read restores the chat, so it reads as what the store has, and as
      nothing exactly when the store has nothing. */
  method DeletedFromTheCacheComesBack(sessions: SessionManager, store: ObjectStore, chat: string) returns (out: Bytes)
    requires sessions.cache != null && store.Reliable() && Canonical(store.objects, chat)
    modifies store, sessions`files, sessions.cache
    ensures store.objects == old(store.objects)
    ensures out == ChatText(store.objects, chat) == ChatText(sessions.cache.entries, chat)
  {
    hide ChatText, IsSessionKey, SafeChatId, Prefix, LogIndexOf, Canonical;
    ghost var cached := sessions.cache.entries;
    sessions.Delete(chat);
    DeletedLeavesNoFiles(cached, sessions.cache.entries, chat);
    DeletedIsCanonical(cached, sessions.cache.entries, chat);
    FilledHasTheFiles(sessions.cache.entries, store.objects, chat);
    out := CloudLoadText(sessions, store, sessions.cache, chat);
  }

  lemma DeletedIsCanonical(before: map<Key, Bytes>, after: map<Key, Bytes>, chat: string)
    requires Dropped(before, after, Prefix(chat))
    ensures Canonical(after, chat)
  {
    hide LogIndexOf, Prefix, LogKey;
    forall k | k in after ensures LogIndexOf(chat, k).None? {
      assert Lookup(after, k).Some?;
      if LogIndexOf(chat, k).Some? { LogsHaveThePrefix(chat, k); }
    }
  }

  /** Best-effort deletes in the store, then the cache: nothing else of the store changes, and when the deletes
      succeed a later lazy restore finds nothing either. */
  method DeleteWithStore(sessions: SessionManager, store: ObjectStore, chat: string)
    requires sessions.cache != null
    modifies store, sessions`files, sessions.cache
    ensures Dropped(old(sessions.cache.entries), sessions.cache.entries, Prefix(chat))
    ensures forall k :: !(Prefix(chat) <= k) ==> Lookup(store.objects, k) == Lookup(old(store.objects), k)
    ensures store.Reliable() ==> ChatText(store.objects, chat) == "" && ChatText(sessions.cache.entries, chat) == ""
  {
    hide ChatText, SafeChatId, Prefix;
    var keys := store.List(Prefix(chat));
    if keys.Ok? {
      ghost var all := store.objects;
      for i := 0 to |keys.value|
        invariant sessions.cache.entries == old(sessions.cache.entries)
        invariant forall k :: k in store.objects ==> k in all
        invariant forall k :: !(Prefix(chat) <= k) ==> Lookup(store.objects, k) == Lookup(all, k)
        invariant store.Reliable() ==> forall j :: 0 <= j < i ==> keys.value[j] !in store.objects
      {
        assert keys.value[i] in keys.value;
        var deleted := store.Delete(keys.value[i]);
      }
    }
    ghost var cached := sessions.cache.entries;
    sessions.Delete(chat);
    DeletedLeavesNoFiles(cached, sessions.cache.entries, chat);
    if store.Reliable() {
      forall k | k in store.objects ensures !IsSessionKey(SafeChatId(chat), k) {
        SafeIdsAgree(chat);
      }
      NoFilesNoText(store.objects, chat);
    }
  }
}
