/** What a chat reads as behind a restore that did not fetch all of it
    (agent/src/core/cloud/boot.rs, lines 252-359; agent/src/core/sessions/mod.rs, lines 520-551 and 617-667). */
module RestoredChats {
  import opened Base
  import opened SessionKeys
  import opened CloudCaching
  import opened SessionLog
  import opened Boots

  // -------------------------------------------------------------------------
  // Behind a truncated restore of a chat that was not cached
  // -------------------------------------------------------------------------

  lemma OtherLogsDiffer(chat: string, n: nat)
    ensures forall i: nat :: i != n ==> LogKey(chat, i) != LogKey(chat, n)
    ensures LogKey(chat, n) != BaseKey(chat) && LogKey(chat, n) != MetaKey(chat)
  {
    BaseAndMetaAreNotLogs(chat);
    hide LogKey, BaseKey, MetaKey;
    forall i: nat | i != n ensures LogKey(chat, i) != LogKey(chat, n) {
      if LogKey(chat, i) == LogKey(chat, n) { LogKeysAreDistinct(chat, i, n); }
    }
  }

  lemma LogsStep(m: map<Key, Bytes>, chat: string, i: nat)
    requires i < U32_MODULUS
    ensures LogsFrom(m, chat, i) == GetOrEmpty(m, LogKey(chat, i)) + LogsFrom(m, chat, i + 1)
  {
  }

  /** What a truncated restore leaves of a chat: one log and no other file. */
  ghost predicate HoldsOnlyLog(m: map<Key, Bytes>, chat: string, n: nat, kept: Bytes) {
    && n < U32_MODULUS && BaseKey(chat) !in m && MetaKey(chat) !in m && Lookup(m, LogKey(chat, n)) == Some(kept)
    && forall i: nat :: i != n ==> LogKey(chat, i) !in m
  }

  /** The logs behind the first, whatever was written under log 0. */
  lemma LogsBehindTheFirst(m: map<Key, Bytes>, chat: string, n: nat, kept: Bytes)
    requires n < U32_MODULUS && (n > 0 ==> Lookup(m, LogKey(chat, n)) == Some(kept))
    requires forall i: nat :: i != n && i != 0 ==> LogKey(chat, i) !in m
    ensures LogsFrom(m, chat, 1) == if n == 0 then "" else kept
  {
    hide LogKey;
    if n == 0 {
      NoLogsAbove(m, chat, 1);
    } else {
      OneLogReads(m, chat, n, 1);
    }
  }

  lemma TextWithoutMarker(m: map<Key, Bytes>, chat: string, n: nat, kept: Bytes)
    requires n < U32_MODULUS && (n > 0 ==> Lookup(m, LogKey(chat, n)) == Some(kept))
    requires forall i: nat :: i != n && i != 0 ==> LogKey(chat, i) !in m
    requires BaseKey(chat) !in m && MetaKey(chat) !in m
    ensures ChatText(m, chat) == GetOrEmpty(m, LogKey(chat, 0)) + (if n == 0 then "" else kept)
    ensures ActiveIndex(m, chat) == 0
  {
    hide LogKey, BaseKey, MetaKey;
    LogsStep(m, chat, 0);
    LogsBehindTheFirst(m, chat, n, kept);
    var logs := LogsFrom(m, chat, 0);
    hide LogsFrom;
    assert "" + logs == logs;
  }

  /** The text behind an append that folds log 0 into the base. */
  lemma TextBehindFold(m: map<Key, Bytes>, chat: string, n: nat, kept: Bytes, lines: Bytes)
    requires HoldsOnlyLog(m, chat, n, kept) && ActiveIndex(m, chat) == 0
    ensures ChatText(WithMarker(m, chat, lines), chat)
      == GetOrEmpty(m, LogKey(chat, 0)) + lines + (if n == 0 then "" else kept)
  {
    FoldedEntries(m, chat, n, kept, lines);
    ParseMarkerOfMarker(0);
    hide LogKey, BaseKey, MetaKey, ParseMarker, MarkerBytes, LogsFrom, ActiveIndex, WithMarker, HoldsOnlyLog;
    LogsBehindTheFirst(WithMarker(m, chat, lines), chat, n, kept);
  }

  lemma FoldedEntries(m: map<Key, Bytes>, chat: string, n: nat, kept: Bytes, lines: Bytes)
    requires HoldsOnlyLog(m, chat, n, kept) && ActiveIndex(m, chat) == 0
    ensures var f := WithMarker(m, chat, lines);
      && Lookup(f, MetaKey(chat)) == Some(MarkerBytes(0))
      && Lookup(f, BaseKey(chat)) == Some(GetOrEmpty(m, LogKey(chat, 0)) + lines)
      && (n > 0 ==> Lookup(f, LogKey(chat, n)) == Some(kept))
      && forall i: nat :: i != n && i != 0 ==> LogKey(chat, i) !in f
  {
    OtherLogsDiffer(chat, n);
    OtherLogsDiffer(chat, 0);
    BaseIsNotMarker(chat);
    FilesDiffer(chat);
    hide LogKey, BaseKey, MetaKey, MarkerBytes, ActiveIndex;
    var grown := GetOrEmpty(m, LogKey(chat, 0)) + lines;
    assert "" + grown == grown;
  }

  lemma FilesDiffer(chat: string)
    ensures forall i: nat :: LogKey(chat, i) != BaseKey(chat) && LogKey(chat, i) != MetaKey(chat)
  {
    hide LogKey, BaseKey, MetaKey;
    forall i: nat ensures LogKey(chat, i) != BaseKey(chat) && LogKey(chat, i) != MetaKey(chat) {
      OtherLogsDiffer(chat, i);
    }
  }

  lemma BaseIsNotMarker(chat: string)
    ensures BaseKey(chat) != MetaKey(chat)
  {
    assert BaseKey(chat)[|BaseKey(chat)| - 1] == 'l';
    assert MetaKey(chat)[|MetaKey(chat)| - 1] != 'l';
  }

  /** A truncated restore leaves no marker, so appends restart at log 0: what is appended next reads behind the kept
      text when that was log 0, and in front of it otherwise, folding or not. */
  lemma TruncatedRestoreRestartsAtZero(m: map<Key, Bytes>, chat: string, n: nat, kept: Bytes, lines: Bytes,
                                       threshold: nat)
    requires HoldsOnlyLog(m, chat, n, kept)
    ensures ChatText(m, chat) == kept && ActiveIndex(m, chat) == 0
    ensures ChatText(AfterAppend(m, chat, lines, threshold), chat) == if n == 0 then kept + lines else lines + kept
  {
    hide LogKey, BaseKey, MetaKey, ChatText, ActiveIndex, LogsFrom;
    TextWithoutMarker(m, chat, n, kept);
    var first := GetOrEmpty(m, LogKey(chat, 0));
    assert first == if n == 0 then kept else "";
    assert first + (if n == 0 then "" else kept) == kept;
    assert first + lines + (if n == 0 then "" else kept) == if n == 0 then kept + lines else lines + kept;
    AppendPutsStages(m, chat, lines, threshold);
    var puts := AppendPuts(m, chat, lines, threshold);
    if |puts| == 3 {
      TextBehindFold(m, chat, n, kept, lines);
    } else {
      assert puts[..1] == puts;
      OtherLogsDiffer(chat, 0);
      TextWithoutMarker(WithLog(m, chat, lines), chat, n, kept);
    }
  }

  /** An append behind a truncated restore reads behind the kept text exactly when the kept log was log 0, or when
      the order of the two texts makes no difference. */
  lemma TruncatedRestoreKeepsOrderExactly(m: map<Key, Bytes>, chat: string, n: nat, kept: Bytes, lines: Bytes,
                                          threshold: nat)
    requires HoldsOnlyLog(m, chat, n, kept)
    ensures ChatText(AfterAppend(m, chat, lines, threshold), chat) == kept + lines
      <==> n == 0 || lines + kept == kept + lines
  {
    hide HoldsOnlyLog, ChatText, AfterAppend;
    TruncatedRestoreRestartsAtZero(m, chat, n, kept, lines, threshold);
  }

  lemma LogNumberIsIndex(chat: string, k: Key)
    requires LogNumber(SafeChatId(chat), k).Some?
    ensures LogIndexOf(chat, k) == LogNumber(SafeChatId(chat), k)
  {
    SafeIdsAgree(chat);
  }

  /** Boot's fallback, from a cache without files of the chat and a store whose logs are spelled as the program
      spells them, leaves just that: the highest log of the store, cut. */
  lemma FallbackHoldsOnlyTheHighestLog(chat: string, store: map<Key, Bytes>, before: map<Key, Bytes>,
                                       after: map<Key, Bytes>, cfg: BootConfig, w: Warning) returns (k: Key, n: nat)
    requires KeepsTail(SafeChatId(chat), store, before, after, cfg, w) && Canonical(store, chat)
    requires forall j :: j in before ==> !IsSessionKey(SafeChatId(chat), j)
    ensures IsHighestLog(SafeChatId(chat), SessionKeysOf(store, SafeChatId(chat)), k)
    ensures LogNumber(SafeChatId(chat), k) == Some(n) && HoldsOnlyLog(after, chat, n, Kept(store[k], cfg))
  {
    hide LogNumber, LogIndexOf, Kept, IsSessionKey, LogKey, BaseKey, MetaKey, SafeChatId;
    var id := SafeChatId(chat);
    k :| IsHighestLog(id, SessionKeysOf(store, id), k) && KeepsTailOf(k, store, before, after, cfg, w);
    n := LogNumber(id, k).value;
    LogNumberIsIndex(chat, k);
    LogNumberIsSmall(id, k);
    assert k == LogKey(chat, n);
    OtherLogsDiffer(chat, n);
    forall i: nat ensures IsSessionKey(id, LogKey(chat, i)) {
      FilesAreSessionKeys(chat, i);
    }
    FilesAreSessionKeys(chat, n);
  }

  lemma LogNumberIsSmall(id: string, k: Key)
    requires LogNumber(id, k).Some?
    ensures LogNumber(id, k).value < U32_MODULUS
  {
  }

  lemma OneLogReads(m: map<Key, Bytes>, chat: string, n: nat, lo: nat)
    requires lo <= n < U32_MODULUS && forall i: nat :: i >= lo && i != n ==> LogKey(chat, i) !in m
    ensures LogsFrom(m, chat, lo) == GetOrEmpty(m, LogKey(chat, n))
  {
    hide LogKey;
    SkipAbsentLogs(m, chat, lo, n);
    NoLogsAbove(m, chat, n + 1);
  }

  // -------------------------------------------------------------------------
  // What such an append does to the store
  // -------------------------------------------------------------------------

  lemma {:induction false} SameLogsFrom(a: map<Key, Bytes>, b: map<Key, Bytes>, chat: string, i: nat)
    requires forall n: nat :: i <= n ==> Lookup(a, LogKey(chat, n)) == Lookup(b, LogKey(chat, n))
    ensures LogsFrom(a, chat, i) == LogsFrom(b, chat, i)
    decreases U32_MODULUS - i
  {
    hide LogKey;
    if i < U32_MODULUS {
      assert Lookup(a, LogKey(chat, i)) == Lookup(b, LogKey(chat, i));
      SameLogsFrom(a, b, chat, i + 1);
    }
  }

  /** What such an append writes to log 0. */
  function FirstLog(n: nat, kept: Bytes, lines: Bytes): Bytes {
    if n == 0 then kept + lines else lines
  }

  /** The writes of such an append. */
  lemma PutsBehindRestore(m: map<Key, Bytes>, chat: string, n: nat, kept: Bytes, lines: Bytes, threshold: nat)
    requires HoldsOnlyLog(m, chat, n, kept)
    ensures var x := FirstLog(n, kept, lines);
      AppendPuts(m, chat, lines, threshold) ==
        if |x| >= threshold then [Put(LogKey(chat, 0), x), Put(BaseKey(chat), x), Put(MetaKey(chat), MarkerBytes(0))]
        else [Put(LogKey(chat, 0), x)]
  {
    TextWithoutMarker(m, chat, n, kept);
    FilesDiffer(chat);
    hide LogKey, BaseKey, MetaKey, MarkerBytes, ActiveIndex, ChatText, LogsFrom;
    var x := FirstLog(n, kept, lines);
    assert GetOrEmpty(m, LogKey(chat, 0)) == if n == 0 then kept else "";
    assert GetOrEmpty(m, LogKey(chat, 0)) + lines == x by { assert "" + lines == lines; }
    assert "" + x == x;
  }

  /** The store's files behind the append's writes. */
  lemma StoreBehindAppend(m: map<Key, Bytes>, store: map<Key, Bytes>, chat: string, n: nat, kept: Bytes,
                          lines: Bytes, threshold: nat)
    requires HoldsOnlyLog(m, chat, n, kept)
    ensures var x, after := FirstLog(n, kept, lines), ApplyPuts(store, AppendPuts(m, chat, lines, threshold));
      && Lookup(after, LogKey(chat, 0)) == Some(x)
      && (forall i: nat :: i > 0 ==> Lookup(after, LogKey(chat, i)) == Lookup(store, LogKey(chat, i)))
      && Lookup(after, BaseKey(chat)) == (if |x| >= threshold then Some(x) else Lookup(store, BaseKey(chat)))
      && Lookup(after, MetaKey(chat)) == (if |x| >= threshold then Some(MarkerBytes(0)) else Lookup(store, MetaKey(chat)))
  {
    hide LogKey, BaseKey, MetaKey, MarkerBytes, HoldsOnlyLog, AppendPuts, FirstLog;
    PutsBehindRestore(m, chat, n, kept, lines, threshold);
    OtherLogsDiffer(chat, 0);
    FilesDiffer(chat);
    BaseIsNotMarker(chat);
    var x := FirstLog(n, kept, lines);
    var a, b, c := Put(LogKey(chat, 0), x), Put(BaseKey(chat), x), Put(MetaKey(chat), MarkerBytes(0));
    ThreePuts(store, a, b, c);
    hide ApplyPuts;
    var after := ApplyPuts(store, AppendPuts(m, chat, lines, threshold));
    assert forall k :: Untouched(k, a, b, c) ==> Lookup(after, k) == Lookup(store, k);
    forall i: nat | i > 0 ensures Lookup(after, LogKey(chat, i)) == Lookup(store, LogKey(chat, i)) {
      assert Untouched(LogKey(chat, i), a, b, c);
    }
  }

  predicate Untouched(k: Key, a: Put, b: Put, c: Put) {
    k != a.key && k != b.key && k != c.key
  }

  /** A text from log 0 on, when that log and maybe the base were written. */
  lemma TextBehindWrites(after: map<Key, Bytes>, store: map<Key, Bytes>, chat: string, x: Bytes)
    requires Lookup(after, LogKey(chat, 0)) == Some(x) && Lookup(after, BaseKey(chat)) == Lookup(store, BaseKey(chat))
    requires Lookup(after, MetaKey(chat)) == Lookup(store, MetaKey(chat))
    requires forall i: nat :: i > 0 ==> Lookup(after, LogKey(chat, i)) == Lookup(store, LogKey(chat, i))
    ensures ChatText(after, chat) ==
      if FirstUnabsorbed(store, chat) == 0 then GetOrEmpty(store, BaseKey(chat)) + (x + LogsFrom(store, chat, 1))
      else ChatText(store, chat)
  {
    hide LogKey, BaseKey, MetaKey, FirstUnabsorbed, LogsFrom;
    SameMarkerSameFirst(after, store, chat);
    SameLogsFrom(after, store, chat, 1);
    if FirstUnabsorbed(store, chat) == 0 {
      LogsStep(after, chat, 0);
    } else {
      SameLogsFrom(after, store, chat, FirstUnabsorbed(store, chat));
    }
  }

  lemma TextBehindFoldedWrites(after: map<Key, Bytes>, store: map<Key, Bytes>, chat: string, x: Bytes)
    requires Lookup(after, BaseKey(chat)) == Some(x) && Lookup(after, MetaKey(chat)) == Some(MarkerBytes(0))
    requires forall i: nat :: i > 0 ==> Lookup(after, LogKey(chat, i)) == Lookup(store, LogKey(chat, i))
    ensures ChatText(after, chat) == x + LogsFrom(store, chat, 1)
  {
    ParseMarkerOfMarker(0);
    hide LogKey, BaseKey, MetaKey, MarkerBytes, ParseMarker, LogsFrom;
    SameLogsFrom(after, store, chat, 1);
  }

  /** The append's writes replace the store's log 0, or fold it into a new base: this is what the store then reads as. */
  lemma StoreReadsBehindAppend(m: map<Key, Bytes>, store: map<Key, Bytes>, chat: string, n: nat, kept: Bytes,
                               lines: Bytes, threshold: nat)
    requires HoldsOnlyLog(m, chat, n, kept)
    ensures var x, after := FirstLog(n, kept, lines), ApplyPuts(store, AppendPuts(m, chat, lines, threshold));
      ChatText(after, chat) ==
        if |x| >= threshold then x + LogsFrom(store, chat, 1)
        else if FirstUnabsorbed(store, chat) == 0 then GetOrEmpty(store, BaseKey(chat)) + (x + LogsFrom(store, chat, 1))
        else ChatText(store, chat)
  {
    StoreBehindAppend(m, store, chat, n, kept, lines, threshold);
    hide LogKey, BaseKey, MetaKey, MarkerBytes, ApplyPuts, AppendPuts, HoldsOnlyLog, ChatText, LogsFrom, FirstLog,
      FirstUnabsorbed;
    var x, after := FirstLog(n, kept, lines), ApplyPuts(store, AppendPuts(m, chat, lines, threshold));
    if |x| >= threshold {
      TextBehindFoldedWrites(after, store, chat, x);
    } else {
      TextBehindWrites(after, store, chat, x);
    }
  }

  lemma TextFromTheStart(m: map<Key, Bytes>, chat: string)
    requires FirstUnabsorbed(m, chat) == 0
    ensures ChatText(m, chat) == GetOrEmpty(m, BaseKey(chat)) + (GetOrEmpty(m, LogKey(chat, 0)) + LogsFrom(m, chat, 1))
  {
    LogsStep(m, chat, 0);
  }

  lemma SameBehind(a: Bytes, b: Bytes, tail: Bytes)
    ensures a + tail == b + tail <==> a == b
  {
    assert (a + tail)[..|a|] == a && (b + tail)[..|b|] == b;
  }

  lemma SameInFront(head: Bytes, a: Bytes, b: Bytes)
    ensures head + a == head + b <==> a == b
  {
    assert (head + a)[|head|..] == a && (head + b)[|head|..] == b;
  }

  /** Texts that grew at both ends are the same only if nothing stood in front. */
  lemma NothingInFront(front: Bytes, mid: Bytes, lines: Bytes)
    ensures lines + mid == front + mid + lines <==> front == "" && lines + mid == mid + lines
  {
    if front == "" { assert front + mid == mid; }
    assert |lines + mid| == |lines| + |mid| && |front + mid + lines| == |front| + |mid| + |lines|;
  }

  /** When the store still has the old text and the new lines. */
  predicate HasOldAndNew(store: map<Key, Bytes>, chat: string, n: nat, kept: Bytes, lines: Bytes, threshold: nat) {
    var folds, first := |FirstLog(n, kept, lines)| >= threshold, FirstUnabsorbed(store, chat);
    var base, log, logs := GetOrEmpty(store, BaseKey(chat)), GetOrEmpty(store, LogKey(chat, 0)), LogsFrom(store, chat, 1);
    if first == 0 then
      (folds ==> base == "") && (if n == 0 then kept == log else log == "" && lines + logs == logs + lines)
    else if folds then FirstLog(n, kept, lines) + logs == ChatText(store, chat) + lines
    else lines == ""
  }

  /** Behind a truncated restore of highest log `n` an append reaches the store without harm exactly then. Without a
      marker: when log 0 was restored uncut, or there was none and the order makes no difference, and no base is
      written over. With one: below the threshold the new lines are never read. */
  lemma StoreKeepsOldAndNewExactly(m: map<Key, Bytes>, store: map<Key, Bytes>, chat: string, n: nat, kept: Bytes,
                                   lines: Bytes, threshold: nat)
    requires HoldsOnlyLog(m, chat, n, kept) && |kept| <= |GetOrEmpty(store, LogKey(chat, n))|
    requires forall i: nat :: n < i < U32_MODULUS ==> LogKey(chat, i) !in store
    ensures ChatText(ApplyPuts(store, AppendPuts(m, chat, lines, threshold)), chat) == ChatText(store, chat) + lines
      <==> HasOldAndNew(store, chat, n, kept, lines, threshold)
  {
    StoreReadsBehindAppend(m, store, chat, n, kept, lines, threshold);
    hide LogKey, BaseKey, MetaKey, ApplyPuts, AppendPuts, HoldsOnlyLog, ChatText, LogsFrom, FirstUnabsorbed,
      GetOrEmpty;
    var x, first := FirstLog(n, kept, lines), FirstUnabsorbed(store, chat);
    var base, log, logs := GetOrEmpty(store, BaseKey(chat)), GetOrEmpty(store, LogKey(chat, 0)), LogsFrom(store, chat, 1);
    if first == 0 {
      TextFromTheStart(store, chat);
      if n == 0 { NoLogsBehind(store, chat); }
      StartCases(base, log, logs, n, kept, lines, |x| >= threshold);
    } else if |x| < threshold {
      SameInFront(ChatText(store, chat), "", lines);
      assert ChatText(store, chat) + "" == ChatText(store, chat);
    }
  }

  lemma NoLogsBehind(store: map<Key, Bytes>, chat: string)
    requires forall i: nat :: 0 < i < U32_MODULUS ==> LogKey(chat, i) !in store
    ensures LogsFrom(store, chat, 1) == ""
  {
    hide LogKey, LogsFrom;
    NoLogText(store, chat, 1);
  }

  lemma StartCases(base: Bytes, log: Bytes, logs: Bytes, n: nat, kept: Bytes, lines: Bytes, folds: bool)
    requires n == 0 ==> |kept| <= |log| && logs == ""
    ensures (if folds then FirstLog(n, kept, lines) + logs else base + (FirstLog(n, kept, lines) + logs))
         == base + (log + logs) + lines
      <==> (folds ==> base == "") && (if n == 0 then kept == log else log == "" && lines + logs == logs + lines)
  {
    var x := FirstLog(n, kept, lines);
    var was := log + logs + lines;
    assert base + (log + logs) + lines == base + was;
    SameInFront(base, x + logs, was);
    if n == 0 {
      assert x + logs == kept + lines && was == log + lines;
      SameBehind(kept, log, lines);
      assert |kept + lines| <= |was|;
    } else {
      NothingInFront(log, logs, lines);
      assert |x + logs| == |lines| + |logs| <= |was|;
    }
    if base == "" { assert base + was == was; }
    assert |base + was| == |base| + |was|;
  }

  // -------------------------------------------------------------------------
  // Texts of which a part is missing
  // -------------------------------------------------------------------------

  /** A file is cached as the store has it, or reads as nothing. */
  predicate Partial(m: map<Key, Bytes>, store: map<Key, Bytes>, k: Key) {
    GetOrEmpty(m, k) == "" || GetOrEmpty(m, k) == GetOrEmpty(store, k)
  }

  predicate SameLog(m: map<Key, Bytes>, store: map<Key, Bytes>, chat: string, n: nat) {
    GetOrEmpty(m, LogKey(chat, n)) == GetOrEmpty(store, LogKey(chat, n))
  }

  lemma {:induction false} PartialLogs(m: map<Key, Bytes>, store: map<Key, Bytes>, chat: string, i: nat)
    requires forall n: nat :: Partial(m, store, LogKey(chat, n))
    ensures |LogsFrom(m, chat, i)| <= |LogsFrom(store, chat, i)|
    ensures |LogsFrom(m, chat, i)| == |LogsFrom(store, chat, i)|
      <==> forall n: nat :: i <= n < U32_MODULUS ==> SameLog(m, store, chat, n)
    ensures (forall n: nat :: i <= n < U32_MODULUS ==> SameLog(m, store, chat, n)) ==>
      LogsFrom(m, chat, i) == LogsFrom(store, chat, i)
    decreases U32_MODULUS - i
  {
    hide LogKey, GetOrEmpty;
    if i < U32_MODULUS {
      PartialLogs(m, store, chat, i + 1);
      assert Partial(m, store, LogKey(chat, i));
      if |LogsFrom(m, chat, i)| == |LogsFrom(store, chat, i)| {
        assert SameLog(m, store, chat, i);
      }
      assert (forall n: nat :: i <= n < U32_MODULUS ==> SameLog(m, store, chat, n)) ==> SameLog(m, store, chat, i);
    }
  }

  lemma {:induction false} NoLogText(m: map<Key, Bytes>, chat: string, i: nat)
    ensures LogsFrom(m, chat, i) == "" <==> forall n: nat :: i <= n < U32_MODULUS ==> GetOrEmpty(m, LogKey(chat, n)) == ""
    decreases U32_MODULUS - i
  {
    hide LogKey, GetOrEmpty;
    if i < U32_MODULUS {
      NoLogText(m, chat, i + 1);
    }
  }

  /** No file a reader takes holds anything. */
  ghost predicate HoldsNothing(m: map<Key, Bytes>, chat: string, first: nat) {
    && GetOrEmpty(m, BaseKey(chat)) == ""
    && forall n: nat :: first <= n < U32_MODULUS ==> GetOrEmpty(m, LogKey(chat, n)) == ""
  }

  /** Every file a reader takes and that holds anything in the store is cached. */
  ghost predicate HoldsAll(m: map<Key, Bytes>, store: map<Key, Bytes>, chat: string, first: nat) {
    && GetOrEmpty(m, BaseKey(chat)) == GetOrEmpty(store, BaseKey(chat))
    && forall n: nat :: first <= n < U32_MODULUS ==> SameLog(m, store, chat, n)
  }

  lemma PartialText(m: map<Key, Bytes>, store: map<Key, Bytes>, chat: string)
    requires Partial(m, store, BaseKey(chat)) && forall n: nat :: Partial(m, store, LogKey(chat, n))
    requires FirstUnabsorbed(m, chat) == FirstUnabsorbed(store, chat)
    ensures ChatText(m, chat) == ChatText(store, chat) <==> HoldsAll(m, store, chat, FirstUnabsorbed(store, chat))
    ensures ChatText(m, chat) == "" <==> HoldsNothing(m, chat, FirstUnabsorbed(store, chat))
  {
    hide LogKey, BaseKey, MetaKey, LogsFrom, GetOrEmpty, FirstUnabsorbed;
    var first := FirstUnabsorbed(store, chat);
    PartialLogs(m, store, chat, first);
    NoLogText(m, chat, first);
  }

  lemma OneFileIsCopied(m: map<Key, Bytes>, store: map<Key, Bytes>, chat: string, k: Key)
    requires CopiedFrom(SafeChatId(chat), store, m) && IsSessionKey(SafeChatId(chat), k)
    ensures Partial(m, store, k)
  {
  }

  /** Copies of some files, the marker among them if there is one, read as the original exactly when all of its text
      is there. */
  lemma CopiedText(m: map<Key, Bytes>, store: map<Key, Bytes>, chat: string)
    requires CopiedFrom(SafeChatId(chat), store, m) && (MetaKey(chat) in store ==> MetaKey(chat) in m)
    ensures FirstUnabsorbed(m, chat) == FirstUnabsorbed(store, chat)
    ensures ChatText(m, chat) == ChatText(store, chat) <==> HoldsAll(m, store, chat, FirstUnabsorbed(store, chat))
    ensures ChatText(m, chat) == "" <==> HoldsNothing(m, chat, FirstUnabsorbed(store, chat))
  {
    hide LogKey, BaseKey, MetaKey, LogsFrom, IsSessionKey, SafeChatId, ChatText, HoldsAll, HoldsNothing, Partial;
    forall n: nat ensures Partial(m, store, LogKey(chat, n)) {
      FilesAreSessionKeys(chat, n);
      OneFileIsCopied(m, store, chat, LogKey(chat, n));
    }
    FilesAreSessionKeys(chat, 0);
    OneFileIsCopied(m, store, chat, BaseKey(chat));
    PartialText(m, store, chat);
  }

  // -------------------------------------------------------------------------
  // Behind a lazy restore with failing operations
  // -------------------------------------------------------------------------

  /** The lazy restore goes on behind a failing GET. When it fetched the marker, if there is one, that read gives the
      store's text exactly when all of it was fetched; the next read, when the store answers, does so as well when
      nothing of it was fetched. Otherwise the chat stays cut: what reads as something is never completed. */
  lemma PartialHydrationReadsTheSameExactly(before: map<Key, Bytes>, store: map<Key, Bytes>, after: map<Key, Bytes>,
                                            chat: string)
    requires forall k :: k in before ==> !IsSessionKey(SafeChatId(chat), k)
    requires Hydrated(SafeChatId(chat), store, before, after) && (MetaKey(chat) in store ==> MetaKey(chat) in after)
    ensures var first := FirstUnabsorbed(store, chat);
      && (ChatText(after, chat) == ChatText(store, chat) <==> HoldsAll(after, store, chat, first))
      && (LazyText(after, store, chat) == ChatText(store, chat)
          <==> HoldsNothing(after, chat, first) || HoldsAll(after, store, chat, first))
  {
    hide LogKey, BaseKey, MetaKey, IsSessionKey, SafeChatId, ChatText, HoldsAll, HoldsNothing, Filled;
    HydratedIsCopied(SafeChatId(chat), before, store, after);
    CopiedText(after, store, chat);
    FilledHasTheFiles(after, store, chat);
  }

  lemma HydratedIsCopied(id: string, before: map<Key, Bytes>, store: map<Key, Bytes>, after: map<Key, Bytes>)
    requires forall k :: k in before ==> !IsSessionKey(id, k)
    requires Hydrated(id, store, before, after)
    ensures CopiedFrom(id, store, after)
  {
    hide IsSessionKey;
  }

  // -------------------------------------------------------------------------
  // Behind a boot whose restore broke off
  // -------------------------------------------------------------------------

  /** What boot's fallback leaves of a chat in the cache: some of the store's files, and over them the end of the
      highest log. */
  ghost predicate TailOver(chat: string, store: map<Key, Bytes>, before: map<Key, Bytes>, ks: set<Key>,
                           after: map<Key, Bytes>, n: nat, kept: Bytes)
  {
    && n < U32_MODULUS && (forall k :: k in before ==> !IsSessionKey(SafeChatId(chat), k))
    && ks <= SessionKeysOf(store, SafeChatId(chat)) && ks <= store.Keys
    && after == Overlay(before, store, ks)[LogKey(chat, n) := kept]
    && LogKey(chat, n) in store && store[LogKey(chat, n)] != ""
    && (kept == store[LogKey(chat, n)] || |kept| < |store[LogKey(chat, n)]|)
    && forall i: nat :: n < i < U32_MODULUS ==> LogKey(chat, i) !in store
  }

  /** No file is longer than the store's. */
  ghost predicate NoLonger(m: map<Key, Bytes>, store: map<Key, Bytes>, chat: string) {
    && |GetOrEmpty(m, BaseKey(chat))| <= |GetOrEmpty(store, BaseKey(chat))|
    && forall n: nat :: |GetOrEmpty(m, LogKey(chat, n))| <= |GetOrEmpty(store, LogKey(chat, n))|
  }

  lemma {:induction false} ShorterLogs(m: map<Key, Bytes>, store: map<Key, Bytes>, chat: string, i: nat, n: nat)
    requires NoLonger(m, store, chat)
    ensures |LogsFrom(m, chat, i)| <= |LogsFrom(store, chat, i)|
    ensures i <= n < U32_MODULUS && |GetOrEmpty(m, LogKey(chat, n))| < |GetOrEmpty(store, LogKey(chat, n))| ==>
      |LogsFrom(m, chat, i)| < |LogsFrom(store, chat, i)|
    decreases U32_MODULUS - i
  {
    hide LogKey, BaseKey, GetOrEmpty;
    if i < U32_MODULUS {
      ShorterLogs(m, store, chat, i + 1, n);
      assert |GetOrEmpty(m, LogKey(chat, i))| <= |GetOrEmpty(store, LogKey(chat, i))|;
    }
  }

  /** A text that lacks some of a log that is read is another text. */
  lemma ShorterText(m: map<Key, Bytes>, store: map<Key, Bytes>, chat: string, n: nat)
    requires NoLonger(m, store, chat) && FirstUnabsorbed(m, chat) == FirstUnabsorbed(store, chat) <= n < U32_MODULUS
    requires |GetOrEmpty(m, LogKey(chat, n))| < |GetOrEmpty(store, LogKey(chat, n))|
    ensures |ChatText(m, chat)| < |ChatText(store, chat)|
  {
    hide LogKey, BaseKey, LogsFrom, FirstUnabsorbed;
    ShorterLogs(m, store, chat, FirstUnabsorbed(store, chat), n);
  }

  /** The files of such a cache, and of the cache after fetching the rest. */
  lemma TailFiles(chat: string, store: map<Key, Bytes>, before: map<Key, Bytes>, ks: set<Key>,
                  after: map<Key, Bytes>, n: nat, kept: Bytes)
    requires TailOver(chat, store, before, ks, after, n, kept)
    ensures var filled := Filled(after, store, SafeChatId(chat));
      && Lookup(after, LogKey(chat, n)) == Lookup(filled, LogKey(chat, n)) == Some(kept)
      && (forall i: nat :: i != n ==> Lookup(filled, LogKey(chat, i)) == Lookup(store, LogKey(chat, i)))
      && Lookup(filled, BaseKey(chat)) == Lookup(store, BaseKey(chat))
      && Lookup(filled, MetaKey(chat)) == Lookup(store, MetaKey(chat))
      && (forall i: nat :: i != n ==>
            Lookup(after, LogKey(chat, i)) == None || Lookup(after, LogKey(chat, i)) == Lookup(store, LogKey(chat, i)))
      && (Lookup(after, BaseKey(chat)) == None || Lookup(after, BaseKey(chat)) == Lookup(store, BaseKey(chat)))
      && Lookup(after, MetaKey(chat)) == if MetaKey(chat) in ks then Lookup(store, MetaKey(chat)) else None
  {
    OtherLogsDiffer(chat, n);
    hide IsSessionKey, LogKey, BaseKey, MetaKey, SafeChatId;
    forall i: nat ensures IsSessionKey(SafeChatId(chat), LogKey(chat, i)) {
      FilesAreSessionKeys(chat, i);
    }
    FilesAreSessionKeys(chat, n);
  }

  lemma TailIsNoLonger(chat: string, store: map<Key, Bytes>, before: map<Key, Bytes>, ks: set<Key>,
                       after: map<Key, Bytes>, n: nat, kept: Bytes)
    requires TailOver(chat, store, before, ks, after, n, kept)
    ensures NoLonger(after, store, chat) && NoLonger(Filled(after, store, SafeChatId(chat)), store, chat)
  {
    TailFiles(chat, store, before, ks, after, n, kept);
    hide TailOver, Filled, LogKey, BaseKey, MetaKey, SafeChatId;
    LogIsNoLonger(chat, store, before, ks, after, n, kept);
    var filled := Filled(after, store, SafeChatId(chat));
    forall i: nat
      ensures |GetOrEmpty(after, LogKey(chat, i))| <= |GetOrEmpty(store, LogKey(chat, i))|
      ensures |GetOrEmpty(filled, LogKey(chat, i))| <= |GetOrEmpty(store, LogKey(chat, i))|
    {
      if i != n {
        assert Lookup(after, LogKey(chat, i)) == None || Lookup(after, LogKey(chat, i)) == Lookup(store, LogKey(chat, i));
        assert Lookup(filled, LogKey(chat, i)) == Lookup(store, LogKey(chat, i));
      }
    }
  }

  lemma LogIsNoLonger(chat: string, store: map<Key, Bytes>, before: map<Key, Bytes>, ks: set<Key>,
                      after: map<Key, Bytes>, n: nat, kept: Bytes)
    requires TailOver(chat, store, before, ks, after, n, kept)
    ensures |kept| <= |GetOrEmpty(store, LogKey(chat, n))| && GetOrEmpty(store, LogKey(chat, n)) != ""
  {
  }

  /** With a highest log that is absorbed, the text is the base. */
  lemma AbsorbedHighest(m: map<Key, Bytes>, chat: string, n: nat)
    requires n < FirstUnabsorbed(m, chat) && forall i: nat :: n < i < U32_MODULUS ==> LogKey(chat, i) !in m
    ensures ChatText(m, chat) == GetOrEmpty(m, BaseKey(chat))
  {
    hide LogKey, BaseKey, LogsFrom;
    NoLogText(m, chat, FirstUnabsorbed(m, chat));
    assert GetOrEmpty(m, BaseKey(chat)) + "" == GetOrEmpty(m, BaseKey(chat));
  }

  lemma NoneAbove(chat: string, store: map<Key, Bytes>, before: map<Key, Bytes>, ks: set<Key>,
                  after: map<Key, Bytes>, n: nat, kept: Bytes)
    requires TailOver(chat, store, before, ks, after, n, kept)
    ensures forall i: nat :: n < i < U32_MODULUS ==>
      LogKey(chat, i) !in store && LogKey(chat, i) !in after && LogKey(chat, i) !in Filled(after, store, SafeChatId(chat))
  {
    TailFiles(chat, store, before, ks, after, n, kept);
    hide LogKey, BaseKey, MetaKey, SafeChatId, Filled, Overlay;
    forall i: nat | n < i < U32_MODULUS
      ensures LogKey(chat, i) !in store && LogKey(chat, i) !in after
      ensures LogKey(chat, i) !in Filled(after, store, SafeChatId(chat))
    {
      assert Lookup(store, LogKey(chat, i)) == None;
      assert Lookup(Filled(after, store, SafeChatId(chat)), LogKey(chat, i)) == None;
      assert Lookup(after, LogKey(chat, i)) == None;
    }
  }

  lemma SameMarkerSameFirst(a: map<Key, Bytes>, b: map<Key, Bytes>, chat: string)
    requires Lookup(a, MetaKey(chat)) == Lookup(b, MetaKey(chat))
    ensures FirstUnabsorbed(a, chat) == FirstUnabsorbed(b, chat)
  {
  }

  /** Fetching the rest brings the store's text back exactly when the cut log is absorbed, or was not cut. */
  lemma FilledTailText(chat: string, store: map<Key, Bytes>, before: map<Key, Bytes>, ks: set<Key>,
                       after: map<Key, Bytes>, n: nat, kept: Bytes)
    requires TailOver(chat, store, before, ks, after, n, kept)
    ensures ChatText(Filled(after, store, SafeChatId(chat)), chat) == ChatText(store, chat)
      <==> n < FirstUnabsorbed(store, chat) || kept == GetOrEmpty(store, LogKey(chat, n))
  {
    TailFiles(chat, store, before, ks, after, n, kept);
    TailIsNoLonger(chat, store, before, ks, after, n, kept);
    NoneAbove(chat, store, before, ks, after, n, kept);
    LogIsNoLonger(chat, store, before, ks, after, n, kept);
    hide LogKey, BaseKey, MetaKey, SafeChatId, Filled, ChatText, FirstUnabsorbed;
    var filled := Filled(after, store, SafeChatId(chat));
    SameMarkerSameFirst(filled, store, chat);
    var first := FirstUnabsorbed(store, chat);
    if n < first {
      AbsorbedHighest(filled, chat, n);
      AbsorbedHighest(store, chat, n);
    } else if kept == GetOrEmpty(store, LogKey(chat, n)) {
      assert SameFiles(filled, store, chat) by { InStore(chat, store, before, ks, after, n, kept); }
      SameFilesReadAlike(filled, store, chat);
    } else {
      Shorter(chat, store, before, ks, after, n, kept);
      ShorterText(filled, store, chat, n);
    }
  }

  lemma InStore(chat: string, store: map<Key, Bytes>, before: map<Key, Bytes>, ks: set<Key>, after: map<Key, Bytes>,
                n: nat, kept: Bytes)
    requires TailOver(chat, store, before, ks, after, n, kept)
    ensures Lookup(store, LogKey(chat, n)) == Some(GetOrEmpty(store, LogKey(chat, n)))
  {
  }

  lemma Shorter(chat: string, store: map<Key, Bytes>, before: map<Key, Bytes>, ks: set<Key>, after: map<Key, Bytes>,
                n: nat, kept: Bytes)
    requires TailOver(chat, store, before, ks, after, n, kept) && kept != GetOrEmpty(store, LogKey(chat, n))
    ensures |kept| < |GetOrEmpty(store, LogKey(chat, n))| && n < U32_MODULUS
  {
  }

  lemma TailIsCopied(chat: string, store: map<Key, Bytes>, before: map<Key, Bytes>, ks: set<Key>,
                     after: map<Key, Bytes>, n: nat, kept: Bytes)
    requires TailOver(chat, store, before, ks, after, n, kept) && kept == GetOrEmpty(store, LogKey(chat, n))
    ensures CopiedFrom(SafeChatId(chat), store, after)
  {
    hide IsSessionKey, SafeChatId, LogKey;
  }

  /** A log that holds something and is read makes the text non-empty. */
  lemma ReadLogShows(m: map<Key, Bytes>, chat: string, n: nat)
    requires FirstUnabsorbed(m, chat) <= n < U32_MODULUS && GetOrEmpty(m, LogKey(chat, n)) != ""
    ensures ChatText(m, chat) != ""
  {
    hide LogKey, BaseKey, LogsFrom, FirstUnabsorbed, GetOrEmpty;
    NoLogText(m, chat, FirstUnabsorbed(m, chat));
  }

  /** With the marker fetched, if there is one: the chat reads as in the store exactly when the highest log is absorbed,
      or when nothing was cut off it and everything else of the text was fetched as well. */
  lemma TailReadsTheSameExactly(chat: string, store: map<Key, Bytes>, before: map<Key, Bytes>, ks: set<Key>,
                                after: map<Key, Bytes>, n: nat, kept: Bytes)
    requires TailOver(chat, store, before, ks, after, n, kept) && (MetaKey(chat) in store ==> MetaKey(chat) in ks)
    ensures var first := FirstUnabsorbed(store, chat);
      LazyText(after, store, chat) == ChatText(store, chat)
      <==> n < first || (kept == GetOrEmpty(store, LogKey(chat, n)) && HoldsAll(after, store, chat, first))
  {
    TailFiles(chat, store, before, ks, after, n, kept);
    TailIsNoLonger(chat, store, before, ks, after, n, kept);
    NoneAbove(chat, store, before, ks, after, n, kept);
    LogIsNoLonger(chat, store, before, ks, after, n, kept);
    FilledTailText(chat, store, before, ks, after, n, kept);
    hide LogKey, BaseKey, MetaKey, SafeChatId, Filled, ChatText, FirstUnabsorbed, HoldsAll;
    SameMarkerSameFirst(after, store, chat);
    var first := FirstUnabsorbed(store, chat);
    if n < first {
      AbsorbedHighest(after, chat, n);
      AbsorbedHighest(store, chat, n);
    } else {
      InRange(chat, store, before, ks, after, n, kept);
      if kept == GetOrEmpty(store, LogKey(chat, n)) {
        TailIsCopied(chat, store, before, ks, after, n, kept);
        CopiedText(after, store, chat);
        ReadLogShows(after, chat, n);
      } else {
        Shorter(chat, store, before, ks, after, n, kept);
        ShorterText(after, store, chat, n);
      }
    }
  }

  lemma InRange(chat: string, store: map<Key, Bytes>, before: map<Key, Bytes>, ks: set<Key>, after: map<Key, Bytes>,
                n: nat, kept: Bytes)
    requires TailOver(chat, store, before, ks, after, n, kept)
    ensures n < U32_MODULUS && (MetaKey(chat) in ks ==> MetaKey(chat) in after)
  {
    hide LogKey, MetaKey, SafeChatId, IsSessionKey;
  }

  /** With a marker that was not fetched absorbed logs are read again: the chat reads as in the store exactly when the
      two texts agree, or when nothing is read and the highest log is absorbed. */
  lemma TailWithoutMarkerReadsTheSameExactly(chat: string, store: map<Key, Bytes>, before: map<Key, Bytes>,
                                             ks: set<Key>, after: map<Key, Bytes>, n: nat, kept: Bytes)
    requires TailOver(chat, store, before, ks, after, n, kept) && MetaKey(chat) in store && MetaKey(chat) !in ks
    ensures FirstUnabsorbed(after, chat) == 0
    ensures LazyText(after, store, chat) == ChatText(store, chat)
      <==> ChatText(after, chat) == ChatText(store, chat) || (ChatText(after, chat) == "" && n < FirstUnabsorbed(store, chat))
  {
    TailFiles(chat, store, before, ks, after, n, kept);
    LogIsNoLonger(chat, store, before, ks, after, n, kept);
    InRange(chat, store, before, ks, after, n, kept);
    FilledTailText(chat, store, before, ks, after, n, kept);
    hide LogKey, BaseKey, MetaKey, SafeChatId, Filled, ChatText;
    assert FirstUnabsorbed(after, chat) == 0;
    hide FirstUnabsorbed;
    if ChatText(after, chat) == "" {
      if kept != "" { ReadLogShows(after, chat, n); }
      if n >= FirstUnabsorbed(store, chat) { ReadLogShows(store, chat, n); }
    }
  }

  /** A kept text that is empty: the next read fetches every other file and leaves that log out, which is the store's
      text exactly when the log is absorbed. */
  lemma EmptyTailIsSkipped(chat: string, store: map<Key, Bytes>, before: map<Key, Bytes>, after: map<Key, Bytes>,
                           n: nat)
    requires TailOver(chat, store, before, {}, after, n, "")
    ensures ChatText(after, chat) == "" && LazyText(after, store, chat) == ChatText(store[LogKey(chat, n) := ""], chat)
    ensures LazyText(after, store, chat) == ChatText(store, chat) <==> n < FirstUnabsorbed(store, chat)
  {
    TailFiles(chat, store, before, {}, after, n, "");
    LogIsNoLonger(chat, store, before, {}, after, n, "");
    FilledTailText(chat, store, before, {}, after, n, "");
    LogsAreApart(chat, n);
    OnlyTail(chat, store, before, after, n);
    hide LogKey, BaseKey, MetaKey, SafeChatId, Filled, ChatText;
    var filled, cut := Filled(after, store, SafeChatId(chat)), store[LogKey(chat, n) := ""];
    assert SameFiles(filled, cut, chat);
    SameFilesReadAlike(filled, cut, chat);
  }

  lemma LogsAreApart(chat: string, n: nat)
    ensures forall i: nat :: i != n ==> LogKey(chat, i) != LogKey(chat, n)
    ensures LogKey(chat, n) != BaseKey(chat) && LogKey(chat, n) != MetaKey(chat)
  {
    OtherLogsDiffer(chat, n);
  }

  lemma OnlyTail(chat: string, store: map<Key, Bytes>, before: map<Key, Bytes>, after: map<Key, Bytes>, n: nat)
    requires TailOver(chat, store, before, {}, after, n, "")
    ensures ChatText(after, chat) == ""
  {
    OtherLogsDiffer(chat, n);
    hide LogKey, BaseKey, MetaKey, SafeChatId, IsSessionKey, LogsFrom;
    forall i: nat ensures GetOrEmpty(after, LogKey(chat, i)) == "" {
      FilesAreSessionKeys(chat, i);
      if i != n { assert LogKey(chat, i) != LogKey(chat, n); }
    }
    FilesAreSessionKeys(chat, n);
    NoLogText(after, chat, FirstUnabsorbed(after, chat));
  }

  /** What a reader takes behind a quarantine: the fetched files, and what the quarantine failed to delete if those hold
      nothing of the text. With the marker among it, if there was one, that is the old text exactly when all of the old
      text is there. */
  lemma QuarantinedReadsTheSameExactly(chat: string, store: map<Key, Bytes>, store': map<Key, Bytes>,
                                       before: map<Key, Bytes>, ks: set<Key>)
    requires forall k :: k in before ==> !IsSessionKey(SafeChatId(chat), k)
    requires ks <= SessionKeysOf(store, SafeChatId(chat)) && ks <= store.Keys && OnlyLoses(store, store', SafeChatId(chat))
    ensures var mid := Overlay(before, store, ks);
      var m := if ChatText(mid, chat) != "" then mid else Filled(mid, store', SafeChatId(chat));
      (MetaKey(chat) in store ==> MetaKey(chat) in m) ==>
        (LazyText(mid, store', chat) == ChatText(store, chat) <==> HoldsAll(m, store, chat, FirstUnabsorbed(store, chat)))
  {
    hide ChatText, HoldsAll, HoldsNothing, FirstUnabsorbed, LogKey, BaseKey, MetaKey;
    LeftoversAreCopies(SafeChatId(chat), store, store', before, ks);
    var mid := Overlay(before, store, ks);
    var m := if ChatText(mid, chat) != "" then mid else Filled(mid, store', SafeChatId(chat));
    if MetaKey(chat) in store ==> MetaKey(chat) in m { CopiedText(m, store, chat); }
  }

  lemma LeftoversAreCopies(id: string, store: map<Key, Bytes>, store': map<Key, Bytes>, before: map<Key, Bytes>,
                           ks: set<Key>)
    requires forall k :: k in before ==> !IsSessionKey(id, k)
    requires ks <= SessionKeysOf(store, id) && ks <= store.Keys && OnlyLoses(store, store', id)
    ensures CopiedFrom(id, store, Overlay(before, store, ks))
    ensures CopiedFrom(id, store, Filled(Overlay(before, store, ks), store', id))
  {
    hide IsSessionKey;
    var filled := Filled(Overlay(before, store, ks), store', id);
    forall k | k in filled && IsSessionKey(id, k) ensures Lookup(store, k) == Some(filled[k]) {
      if k !in ks {
        assert k in SessionKeysOf(store', id);
        assert k in SessionKeysOf(store, id);
      }
    }
  }

  /** What a reader finds behind a restore that a failing GET broke off: the fetched files `ks` under the cut highest log
      `n`, or what is left of them and of the store behind a quarantine. */
  ghost predicate ReadsAsKnown(chat: string, store: map<Key, Bytes>, store': map<Key, Bytes>, after: map<Key, Bytes>,
                               w: Warning, ks: set<Key>, n: nat, kept: Bytes)
  {
    var first, same := FirstUnabsorbed(store, chat), LazyText(after, store', chat) == ChatText(store, chat);
    match w
    case Truncated(_, _) =>
      if MetaKey(chat) in store && MetaKey(chat) !in ks
      then same <==> ChatText(after, chat) == ChatText(store, chat) || (ChatText(after, chat) == "" && n < first)
      else same <==> n < first || (kept == GetOrEmpty(store, LogKey(chat, n)) && HoldsAll(after, store, chat, first))
    case Quarantined =>
      var m := if ChatText(after, chat) != "" then after else Filled(after, store', SafeChatId(chat));
      (MetaKey(chat) in store ==> MetaKey(chat) in m) ==> (same <==> HoldsAll(m, store, chat, first))
  }

  /** A boot within the budget whose fetching broke off, and whether the chat then reads as it did in the store. */
  lemma BrokenRestoreReadsTheSameExactly(chat: string, store: map<Key, Bytes>, store': map<Key, Bytes>,
                                         before: map<Key, Bytes>, after: map<Key, Bytes>, cfg: BootConfig, w: Warning)
    returns (ks: set<Key>, n: nat, kept: Bytes)
    requires PartlyFellBack(SafeChatId(chat), store, store', before, after, cfg, w) && Canonical(store, chat)
    requires forall k :: k in before ==> !IsSessionKey(SafeChatId(chat), k)
    ensures ks < SessionKeysOf(store, SafeChatId(chat)) && ks <= store.Keys
    ensures w.Truncated? ==> TailOver(chat, store, before, ks, after, n, kept) && kept == Kept(store[LogKey(chat, n)], cfg)
    ensures w.Quarantined? ==> after == Overlay(before, store, ks)
    ensures ReadsAsKnown(chat, store, store', after, w, ks, n, kept)
  {
    hide IsSessionKey, LogKey, BaseKey, MetaKey, SafeChatId, Kept, KeepsTail, OnlyLoses, Canonical, TailOver,
      LazyText, ChatText, HoldsAll,
      FirstUnabsorbed, Filled, Overlay;
    var id := SafeChatId(chat);
    KeysAreStored(store, id);
    var mid :| PartlyFetched(id, store, before, mid) && FellBack(id, store, store', mid, after, cfg, w, false);
    ks :| ks < SessionKeysOf(store, id) && mid == Overlay(before, store, ks);
    n, kept := 0, "";
    if w.Truncated? {
      n, kept := TailOfFallback(chat, store, before, ks, mid, after, cfg, w);
      if MetaKey(chat) in store && MetaKey(chat) !in ks {
        TailWithoutMarkerReadsTheSameExactly(chat, store, before, ks, after, n, kept);
      } else {
        TailReadsTheSameExactly(chat, store, before, ks, after, n, kept);
      }
    } else {
      QuarantinedReadsTheSameExactly(chat, store, store', before, ks);
    }
  }

  lemma TailOfFallback(chat: string, store: map<Key, Bytes>, before: map<Key, Bytes>, ks: set<Key>,
                       mid: map<Key, Bytes>,
                       after: map<Key, Bytes>, cfg: BootConfig, w: Warning) returns (n: nat, kept: Bytes)
    requires KeepsTail(SafeChatId(chat), store, mid, after, cfg, w) && Canonical(store, chat)
    requires forall k :: k in before ==> !IsSessionKey(SafeChatId(chat), k)
    requires ks <= SessionKeysOf(store, SafeChatId(chat)) && ks <= store.Keys && mid == Overlay(before, store, ks)
    ensures TailOver(chat, store, before, ks, after, n, kept) && kept == Kept(store[LogKey(chat, n)], cfg)
  {
    hide LogNumber, LogIndexOf, Kept, IsSessionKey, LogKey, SafeChatId, Overlay;
    var id := SafeChatId(chat);
    var k :| IsHighestLog(id, SessionKeysOf(store, id), k) && KeepsTailOf(k, store, mid, after, cfg, w);
    n := LogNumber(id, k).value;
    kept := Kept(store[k], cfg);
    LogNumberIsIndex(chat, k);
    LogNumberIsSmall(id, k);
    assert k == LogKey(chat, n);
    KeptIsASuffix(store[k], cfg);
    forall i: nat | n < i < U32_MODULUS ensures LogKey(chat, i) !in store {
      NumberOfLog(chat, i);
      FilesAreSessionKeys(chat, i);
      assert LogKey(chat, i) in store ==> LogKey(chat, i) in SessionKeysOf(store, id);
    }
  }

  lemma NumberOfLog(chat: string, i: nat)
    requires i < U32_MODULUS
    ensures LogNumber(SafeChatId(chat), LogKey(chat, i)) == Some(i)
  {
    SafeIdsAgree(chat);
    LogIndexOfLogKey(chat, i);
  }
}
