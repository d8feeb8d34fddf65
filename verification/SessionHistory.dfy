/** The parent-pointer history over the cloud log: runs of `append`, crashes inside one, `clear` and
    `delete` (agent/src/core/sessions/mod.rs, lines 557-667, 677-809 and 820-893). */
module SessionHistory {
  import opened Base
  import opened SessionKeys
  import opened CloudCaching
  import opened SessionLog
  import opened SessionEntries
  import opened SessionTree
  import opened Sessions

  // -------------------------------------------------------------------------
  // Runs of entry appends
  // -------------------------------------------------------------------------

  datatype EntryAppend = EntryAppend(chat: string, entry: SessionEntry)

  /** The bytes `append` writes, its parent link computed from what the chat reads as. */
  function LinesOf(fmt: LineFormat, m: map<Key, Bytes>, op: EntryAppend): Bytes {
    Encode(fmt, AppendedEntries(op.entry, LeafOf(Load(fmt, ChatText(m, op.chat)))))
  }

  /** The run at the level of bytes. */
  function AsAppends(fmt: LineFormat, ops: seq<EntryAppend>, threshold: nat): (r: seq<Append>)
    ensures |r| == |ops|
  {
    if ops == [] then [] else
    var before := AsAppends(fmt, ops[..|ops| - 1], threshold);
    var op := ops[|ops| - 1];
    before + [Append(op.chat, LinesOf(fmt, Replay(before, threshold), op))]
  }

  /** The run at the level of entries: what a chat's history should be. */
  function History(ops: seq<EntryAppend>, chat: string): seq<SessionEntry> {
    if ops == [] then [] else
    var before, op := History(ops[..|ops| - 1], chat), ops[|ops| - 1];
    if SafeChatId(op.chat) == SafeChatId(chat) then AppendEntry(before, op.entry) else before
  }

  /** The base and the active log hold whole lines. */
  ghost predicate Whole(fmt: LineFormat, m: map<Key, Bytes>, chat: string) {
    && WholeLines(fmt, GetOrEmpty(m, BaseKey(chat)))
    && WholeLines(fmt, GetOrEmpty(m, LogKey(chat, ActiveIndex(m, chat))))
  }

  lemma WholeNothing(fmt: LineFormat)
    ensures WholeLines(fmt, "") && Load(fmt, "") == []
  {
  }

  lemma WholeTextLoads(fmt: LineFormat, m: map<Key, Bytes>, chat: string, room: nat)
    requires Faithful(fmt) && InOrder(m, chat, room) && Whole(fmt, m, chat)
    ensures WholeLines(fmt, ChatText(m, chat))
    ensures Load(fmt, ChatText(m, chat)) == Load(fmt, GetOrEmpty(m, BaseKey(chat)))
                                          + Load(fmt, GetOrEmpty(m, LogKey(chat, ActiveIndex(m, chat))))
  {
    TextOfInOrder(m, chat, room);
    WholeLinesConcat(fmt, GetOrEmpty(m, BaseKey(chat)), GetOrEmpty(m, LogKey(chat, ActiveIndex(m, chat))));
  }

  lemma LogWriteKeepsWhole(fmt: LineFormat, m: map<Key, Bytes>, chat: string, lines: Bytes, room: nat)
    requires Faithful(fmt) && InOrder(m, chat, room) && Whole(fmt, m, chat) && WholeLines(fmt, lines)
    ensures Whole(fmt, WithLog(m, chat, lines), chat)
    ensures ActiveIndex(WithLog(m, chat, lines), chat) == ActiveIndex(m, chat)
    ensures GetOrEmpty(WithLog(m, chat, lines), BaseKey(chat)) == GetOrEmpty(m, BaseKey(chat))
  {
    hide WholeLines, Load, LogKey, BaseKey, MetaKey;
    LogWriteKeepsOrder(m, chat, lines, room);
    TextOfInOrder(m, chat, room);
    TextOfInOrder(WithLog(m, chat, lines), chat, room);
    BaseAndMetaAreNotLogs(chat);
    WholeLinesConcat(fmt, GetOrEmpty(m, LogKey(chat, ActiveIndex(m, chat))), lines);
  }

  lemma MarkerWriteKeepsWhole(fmt: LineFormat, m: map<Key, Bytes>, chat: string, lines: Bytes, room: nat)
    requires Faithful(fmt) && InOrder(m, chat, room + 1) && Whole(fmt, m, chat) && WholeLines(fmt, lines)
    ensures Whole(fmt, WithMarker(m, chat, lines), chat)
  {
    hide WholeLines, Load, LogKey, BaseKey, MetaKey, Whole, WithMarker, ChatText, InOrder;
    var f := WithMarker(m, chat, lines);
    MarkerWriteKeepsOrder(m, chat, lines, room);
    MarkerWriteText(m, chat, lines, room);
    WholeTextLoads(fmt, m, chat, room + 1);
    WholeLinesConcat(fmt, ChatText(m, chat), lines);
    NextLogIsAbsent(m, chat, lines, room);
    WholeNothing(fmt);
    WholeFrom(fmt, f, chat);
  }

  lemma WholeFrom(fmt: LineFormat, m: map<Key, Bytes>, chat: string)
    requires WholeLines(fmt, GetOrEmpty(m, BaseKey(chat)))
    requires WholeLines(fmt, GetOrEmpty(m, LogKey(chat, ActiveIndex(m, chat))))
    ensures Whole(fmt, m, chat)
  {
  }

  lemma NextLogIsAbsent(m: map<Key, Bytes>, chat: string, lines: Bytes, room: nat)
    requires InOrder(m, chat, room + 1)
    ensures var f := WithMarker(m, chat, lines); GetOrEmpty(f, LogKey(chat, ActiveIndex(f, chat))) == ""
  {
    hide LogKey, BaseKey, MetaKey;
    MarkerWriteKeepsOrder(m, chat, lines, room);
    LogWriteKeepsOrder(m, chat, lines, room + 1);
    TextOfInOrder(WithMarker(m, chat, lines), chat, room);
    FoldedState(m, chat, lines, room + 1);
  }

  lemma AppendKeepsWhole(fmt: LineFormat, m: map<Key, Bytes>, chat: string, lines: Bytes, threshold: nat, room: nat)
    requires Faithful(fmt) && InOrder(m, chat, room + 1) && Whole(fmt, m, chat) && WholeLines(fmt, lines)
    ensures Whole(fmt, AfterAppend(m, chat, lines, threshold), chat)
  {
    hide Whole, InOrder;
    var puts := AppendPuts(m, chat, lines, threshold);
    AppendPutsStages(m, chat, lines, threshold);
    if |puts| == 3 {
      MarkerWriteKeepsWhole(fmt, m, chat, lines, room);
    } else {
      assert puts[..1] == puts;
      LogWriteKeepsWhole(fmt, m, chat, lines, room + 1);
    }
  }

  lemma SameChatSameWhole(fmt: LineFormat, m: map<Key, Bytes>, m': map<Key, Bytes>, chat: string)
    requires SameChat(m, m', chat) && Whole(fmt, m, chat)
    ensures Whole(fmt, m', chat)
  {
    hide WholeLines, Load, LogKey, BaseKey, MetaKey;
    SameChatReadsAlike(m, m', chat);
    ChatKeysShareThePrefix(chat, ActiveIndex(m, chat));
    assert Lookup(m, BaseKey(chat)) == Lookup(m', BaseKey(chat));
    assert Lookup(m, MetaKey(chat)) == Lookup(m', MetaKey(chat));
    assert Lookup(m, LogKey(chat, ActiveIndex(m, chat))) == Lookup(m', LogKey(chat, ActiveIndex(m, chat)));
  }

  /** What a run keeps for every chat. */
  ghost predicate Faithfully(fmt: LineFormat, m: map<Key, Bytes>, chat: string, es: seq<SessionEntry>, room: nat) {
    InOrder(m, chat, room) && Whole(fmt, m, chat) && Load(fmt, ChatText(m, chat)) == es
  }

  lemma LinesLoad(fmt: LineFormat, m: map<Key, Bytes>, op: EntryAppend)
    requires Faithful(fmt)
    ensures WholeLines(fmt, LinesOf(fmt, m, op))
    ensures Load(fmt, LinesOf(fmt, m, op)) == AppendedEntries(op.entry, LeafOf(Load(fmt, ChatText(m, op.chat))))
  {
    var es := AppendedEntries(op.entry, LeafOf(Load(fmt, ChatText(m, op.chat))));
    EncodedIsWhole(fmt, es);
    LoadOfEncode(fmt, es);
  }

  lemma OwnAppend(fmt: LineFormat, m: map<Key, Bytes>, op: EntryAppend, threshold: nat, es: seq<SessionEntry>,
                  room: nat)
    requires Faithful(fmt) && Faithfully(fmt, m, op.chat, es, room + 1)
    ensures Faithfully(fmt, AfterAppend(m, op.chat, LinesOf(fmt, m, op), threshold), op.chat, AppendEntry(es, op.entry), room)
  {
    hide InOrder, Whole, LinesOf, AfterAppend, AppendedEntries;
    var lines := LinesOf(fmt, m, op);
    LinesLoad(fmt, m, op);
    AppendGrowsText(m, op.chat, lines, threshold, room);
    AppendKeepsWhole(fmt, m, op.chat, lines, threshold, room);
    WholeTextLoads(fmt, m, op.chat, room + 1);
    WholeLinesConcat(fmt, ChatText(m, op.chat), lines);
  }

  lemma OtherAppend(fmt: LineFormat, m: map<Key, Bytes>, op: EntryAppend, chat: string, threshold: nat,
                    es: seq<SessionEntry>, room: nat)
    requires Faithfully(fmt, m, chat, es, room + 1) && SafeChatId(op.chat) != SafeChatId(chat)
    ensures Faithfully(fmt, AfterAppend(m, op.chat, LinesOf(fmt, m, op), threshold), chat, es, room)
  {
    hide Whole, LinesOf, Load;
    var lines := LinesOf(fmt, m, op);
    var m' := AfterAppend(m, op.chat, lines, threshold);
    AppendPutsStayInChat(m, op.chat, lines, threshold);
    PutsTouchOneChat(m, AppendPuts(m, op.chat, lines, threshold), op.chat, chat);
    SameChatReadsAlike(m, m', chat);
    SameChatSameOrder(m, m', chat, room + 1);
    SameChatSameWhole(fmt, m, m', chat);
  }

  /** Chats with the same sanitized id are the same chat. */
  lemma SameSafeIdReadsAlike(fmt: LineFormat, a: string, b: string, m: map<Key, Bytes>, es: seq<SessionEntry>,
                             room: nat)
    requires SafeChatId(a) == SafeChatId(b) && Faithfully(fmt, m, a, es, room)
    ensures Faithfully(fmt, m, b, es, room)
  {
    hide LogKey, BaseKey, MetaKey, LogIndexOf, LogsFrom, WholeLines, Load, SafeChatId;
    SameSafeIdSameNames(a, b);
    assert FirstUnabsorbed(m, a) == FirstUnabsorbed(m, b) && ActiveIndex(m, a) == ActiveIndex(m, b);
    SameLogs(a, b, m, FirstUnabsorbed(m, a));
    assert ChatText(m, a) == ChatText(m, b);
  }

  lemma SameSafeIdSameNames(a: string, b: string)
    requires SafeChatId(a) == SafeChatId(b)
    ensures Prefix(a) == Prefix(b) && BaseKey(a) == BaseKey(b) && MetaKey(a) == MetaKey(b)
    ensures forall n: nat :: LogKey(a, n) == LogKey(b, n)
    ensures forall k :: LogIndexOf(a, k) == LogIndexOf(b, k)
  {
  }

  lemma {:induction false} SameLogs(a: string, b: string, m: map<Key, Bytes>, i: nat)
    requires SafeChatId(a) == SafeChatId(b)
    ensures LogsFrom(m, a, i) == LogsFrom(m, b, i)
    decreases U32_MODULUS - i
  {
    if i < U32_MODULUS {
      SameLogs(a, b, m, i + 1);
    }
  }

  ghost predicate AllFaithfully(fmt: LineFormat, m: map<Key, Bytes>, ops: seq<EntryAppend>, room: nat) {
    forall chat :: Faithfully(fmt, m, chat, History(ops, chat), room)
  }

  lemma RunStepIsFaithful(fmt: LineFormat, m: map<Key, Bytes>, before: seq<EntryAppend>, op: EntryAppend,
                          threshold: nat, chat: string, room: nat)
    requires Faithful(fmt) && AllFaithfully(fmt, m, before, room + 1)
    ensures Faithfully(fmt, AfterAppend(m, op.chat, LinesOf(fmt, m, op), threshold), chat, History(before + [op], chat), room)
  {
    assert (before + [op])[..|before|] == before;
    hide Faithfully, LinesOf, AfterAppend, SafeChatId, AppendEntry;
    if SafeChatId(op.chat) == SafeChatId(chat) {
      SameHistory(before, op.chat, chat);
      assert Faithfully(fmt, m, op.chat, History(before, op.chat), room + 1);
      OwnAppend(fmt, m, op, threshold, History(before, op.chat), room);
      SameSafeIdReadsAlike(fmt, op.chat, chat, AfterAppend(m, op.chat, LinesOf(fmt, m, op), threshold),
                           AppendEntry(History(before, op.chat), op.entry), room);
    } else {
      assert Faithfully(fmt, m, chat, History(before, chat), room + 1);
      OtherAppend(fmt, m, op, chat, threshold, History(before, chat), room);
    }
  }

  lemma NothingIsFaithful(fmt: LineFormat, chat: string, room: nat)
    requires room < U32_MODULUS
    ensures Faithfully(fmt, map[], chat, [], room)
  {
    NoLogsAbove(map[], chat, 0);
    WholeNothing(fmt);
  }

  /** From an empty cache, for every threshold and interleaving of chats, each chat loads as exactly the
      history of its appends: every entry linked to the leaf, each followed by the new leaf. */
  lemma {:induction false} RunsLoadTheirHistory(fmt: LineFormat, ops: seq<EntryAppend>, threshold: nat, room: nat)
    requires Faithful(fmt) && |ops| + room < U32_MODULUS
    ensures AllFaithfully(fmt, Replay(AsAppends(fmt, ops, threshold), threshold), ops, room)
    decreases |ops|
  {
    hide Faithfully, Faithful, LinesOf, AfterAppend, History;
    if ops == [] {
      forall chat ensures Faithfully(fmt, Replay([], threshold), chat, History(ops, chat), room) {
        NothingIsFaithful(fmt, chat, room);
        NoHistory(chat);
      }
    } else {
      var before, op := ops[..|ops| - 1], ops[|ops| - 1];
      var m := Replay(AsAppends(fmt, before, threshold), threshold);
      assert before + [op] == ops;
      RunStep(fmt, before, op, threshold);
      RunsLoadTheirHistory(fmt, before, threshold, room + 1);
      forall chat
        ensures Faithfully(fmt, AfterAppend(m, op.chat, LinesOf(fmt, m, op), threshold), chat, History(ops, chat), room)
      {
        RunStepIsFaithful(fmt, m, before, op, threshold, chat, room);
      }
    }
  }

  lemma NoHistory(chat: string)
    ensures History([], chat) == []
  {
  }

  lemma RunStep(fmt: LineFormat, before: seq<EntryAppend>, op: EntryAppend, threshold: nat)
    ensures var m := Replay(AsAppends(fmt, before, threshold), threshold);
      Replay(AsAppends(fmt, before + [op], threshold), threshold) == AfterAppend(m, op.chat, LinesOf(fmt, m, op), threshold)
  {
    assert (before + [op])[..|before|] == before;
    var a := AsAppends(fmt, before + [op], threshold);
    assert a[..|before|] == AsAppends(fmt, before, threshold);
  }

  lemma {:induction false} SameHistory(ops: seq<EntryAppend>, a: string, b: string)
    requires SafeChatId(a) == SafeChatId(b)
    ensures History(ops, a) == History(ops, b)
    decreases |ops|
  {
    if ops != [] {
      SameHistory(ops[..|ops| - 1], a, b);
    }
  }

  // -------------------------------------------------------------------------
  // A crash in the middle of an append
  // -------------------------------------------------------------------------

  /** Two loads that `get_branch` cannot tell apart. */
  ghost predicate SameView(a: seq<SessionEntry>, b: seq<SessionEntry>) {
    IdMap(a) == IdMap(b) && LeafOf(a) == LeafOf(b)
  }

  lemma AppendedEntriesNameALeaf(e: SessionEntry, leaf: Option<string>)
    ensures LeafOf(AppendedEntries(e, leaf)).Some?
  {
  }

  /** With the base written and the marker still behind, the active log is read twice. */
  lemma BaseWriteText(m: map<Key, Bytes>, chat: string, lines: Bytes, room: nat)
    requires InOrder(m, chat, room)
    ensures var log := GetOrEmpty(WithLog(m, chat, lines), LogKey(chat, ActiveIndex(m, chat)));
      && log == GetOrEmpty(m, LogKey(chat, ActiveIndex(m, chat))) + lines
      && ChatText(WithBase(m, chat, lines), chat) == GetOrEmpty(m, BaseKey(chat)) + log + log
  {
    hide LogKey, BaseKey, MetaKey, LogIndexOf, LogsFrom, Canonical;
    var l, b := WithLog(m, chat, lines), WithBase(m, chat, lines);
    BaseAndMetaAreNotLogs(chat);
    TextOfInOrder(m, chat, room);
    LogWriteKeepsOrder(m, chat, lines, room);
    assert FirstUnabsorbed(b, chat) == FirstUnabsorbed(l, chat) == ActiveIndex(m, chat);
    OneLogText(b, chat);
  }

  lemma OneLogText(m: map<Key, Bytes>, chat: string)
    requires FirstUnabsorbed(m, chat) < U32_MODULUS
    requires forall n: nat :: n > FirstUnabsorbed(m, chat) ==> LogKey(chat, n) !in m
    ensures ChatText(m, chat) == GetOrEmpty(m, BaseKey(chat)) + GetOrEmpty(m, LogKey(chat, FirstUnabsorbed(m, chat)))
  {
    NoLogsAbove(m, chat, FirstUnabsorbed(m, chat) + 1);
  }

  /** In that state the repeated log is invisible to `get_branch`. */
  lemma DuplicatedLogIsInvisible(fmt: LineFormat, m: map<Key, Bytes>, op: EntryAppend, es: seq<SessionEntry>, room: nat)
    requires Faithful(fmt) && Faithfully(fmt, m, op.chat, es, room)
    ensures SameView(Load(fmt, ChatText(WithBase(m, op.chat, LinesOf(fmt, m, op)), op.chat)), AppendEntry(es, op.entry))
  {
    hide LogKey, BaseKey, MetaKey, InOrder, Load, LinesOf, AppendedEntries, WithBase, WithLog, GetOrEmpty,
      WholeLines, Faithful, IdMap, LeafOf;
    var chat, lines := op.chat, LinesOf(fmt, m, op);
    LinesLoad(fmt, m, op);
    WholeTextLoads(fmt, m, chat, room);
    BaseWriteText(m, chat, lines, room);
    AppendedEntriesNameALeaf(op.entry, LeafOf(es));
    RepeatedLinesAreInvisible(fmt, GetOrEmpty(m, BaseKey(chat)),
                              GetOrEmpty(m, LogKey(chat, ActiveIndex(m, chat))), lines);
  }

  /** Base, log, and the log again: nothing but base and log to `get_branch`. */
  lemma RepeatedLinesAreInvisible(fmt: LineFormat, base: Bytes, log: Bytes, lines: Bytes)
    requires Faithful(fmt) && WholeLines(fmt, base) && WholeLines(fmt, log) && WholeLines(fmt, lines)
    requires LeafOf(Load(fmt, lines)).Some?
    ensures SameView(Load(fmt, base + (log + lines) + (log + lines)), Load(fmt, base) + Load(fmt, log) + Load(fmt, lines))
  {
    hide WholeLines, Faithful, Load, IdMap, LeafOf;
    var b, o, l := Load(fmt, base), Load(fmt, log), Load(fmt, lines);
    WholeLinesConcat(fmt, log, lines);
    WholeLinesConcat(fmt, base, log + lines);
    WholeLinesConcat(fmt, base + (log + lines), log + lines);
    LeafOfConcat(o, l);
    RepeatedTailIsInvisible(b, o + l);
    assert b + o + l == b + (o + l);
  }

  /** A store holding the first `k > 0` writes of one append reads, for that chat, as after the append. */
  lemma PartialAppendReadsAsWhole(fmt: LineFormat, m: map<Key, Bytes>, op: EntryAppend, threshold: nat, k: nat,
                                  es: seq<SessionEntry>, room: nat)
    requires Faithful(fmt) && Faithfully(fmt, m, op.chat, es, room + 1)
    requires 0 < k < |AppendPuts(m, op.chat, LinesOf(fmt, m, op), threshold)|
    ensures var store := ApplyPuts(m, AppendPuts(m, op.chat, LinesOf(fmt, m, op), threshold)[..k]);
      SameView(Load(fmt, ChatText(store, op.chat)), AppendEntry(es, op.entry))
  {
    hide IdMap, LeafOf, Load, LinesOf, AppendedEntries, AppendPuts, InOrder, Whole, WithLog, WithBase, WithMarker,
      ChatText;
    var lines := LinesOf(fmt, m, op);
    AppendPutsStages(m, op.chat, lines, threshold);
    if k == 1 {
      LinesLoad(fmt, m, op);
      LogWriteKeepsOrder(m, op.chat, lines, room + 1);
      WholeTextLoads(fmt, m, op.chat, room + 1);
      hide Faithful, WholeLines;
      WholeLinesConcat(fmt, ChatText(m, op.chat), lines);
    } else {
      DuplicatedLogIsInvisible(fmt, m, op, es, room + 1);
    }
  }

  lemma {:induction false} AppendsOfPrefix(fmt: LineFormat, ops: seq<EntryAppend>, threshold: nat, j: nat)
    requires j <= |ops|
    ensures AsAppends(fmt, ops, threshold)[..j] == AsAppends(fmt, ops[..j], threshold)
    ensures j < |ops| ==>
      var m := Replay(AsAppends(fmt, ops[..j], threshold), threshold);
      AsAppends(fmt, ops, threshold)[j] == Append(ops[j].chat, LinesOf(fmt, m, ops[j]))
    decreases |ops|
  {
    hide LinesOf, Replay;
    if j == |ops| {
      assert ops[..j] == ops;
    } else {
      var before := ops[..|ops| - 1];
      AppendsOfPrefix(fmt, before, threshold, j);
      assert before[..j] == ops[..j];
    }
  }

  lemma HistoryStep(ops: seq<EntryAppend>, j: nat, chat: string)
    requires j < |ops|
    ensures History(ops[..j + 1], chat) ==
      if SafeChatId(ops[j].chat) == SafeChatId(chat) then AppendEntry(History(ops[..j], chat), ops[j].entry)
      else History(ops[..j], chat)
  {
    assert ops[..j + 1][..j] == ops[..j];
  }

  lemma PartialAppendTouchesOneChat(m: map<Key, Bytes>, chat: string, lines: Bytes, threshold: nat, k: nat,
                                    other: string)
    requires k <= |AppendPuts(m, chat, lines, threshold)| && SafeChatId(chat) != SafeChatId(other)
    ensures ChatText(ApplyPuts(m, AppendPuts(m, chat, lines, threshold)[..k]), other) == ChatText(m, other)
  {
    hide AppendPuts, ApplyPuts, ChatText, SafeChatId;
    var puts := AppendPuts(m, chat, lines, threshold);
    AppendPutsStayInChat(m, chat, lines, threshold);
    PutsTouchOneChat(m, puts[..k], chat, other);
    SameChatReadsAlike(m, ApplyPuts(m, puts[..k]), other);
  }

  lemma SameSafeIdSameText(m: map<Key, Bytes>, a: string, b: string)
    requires SafeChatId(a) == SafeChatId(b)
    ensures ChatText(m, a) == ChatText(m, b)
  {
    hide SafeChatId, LogsFrom, BaseKey, MetaKey;
    SameSafeIdSameNames(a, b);
    SameLogs(a, b, m, FirstUnabsorbed(m, a));
  }

  /** A store inside append `j` reads, for every chat, as before or after that append. */
  lemma InsideOneAppend(fmt: LineFormat, ops: seq<EntryAppend>, threshold: nat, j: nat, k: nat, chat: string)
    requires Faithful(fmt) && |ops| + 1 < U32_MODULUS && j < |ops|
    requires var m := Replay(AsAppends(fmt, ops[..j], threshold), threshold);
      0 < k < |AppendPuts(m, ops[j].chat, LinesOf(fmt, m, ops[j]), threshold)|
    ensures var m := Replay(AsAppends(fmt, ops[..j], threshold), threshold);
      var store := ApplyPuts(m, AppendPuts(m, ops[j].chat, LinesOf(fmt, m, ops[j]), threshold)[..k]);
      SameView(Load(fmt, ChatText(store, chat)), History(ops[..j + 1], chat))
  {
    hide SafeChatId, ChatText, Load, LinesOf, AppendPuts, ApplyPuts, Replay, AsAppends, History, InOrder, Whole,
      Faithful;
    var m := Replay(AsAppends(fmt, ops[..j], threshold), threshold);
    var op := ops[j];
    var lines := LinesOf(fmt, m, op);
    RunsLoadTheirHistory(fmt, ops[..j], threshold, 1);
    HistoryStep(ops, j, chat);
    if SafeChatId(op.chat) == SafeChatId(chat) {
      var store := ApplyPuts(m, AppendPuts(m, op.chat, lines, threshold)[..k]);
      assert Faithfully(fmt, m, op.chat, History(ops[..j], op.chat), 1);
      PartialAppendReadsAsWhole(fmt, m, op, threshold, k, History(ops[..j], op.chat), 0);
      SameSafeIdSameText(store, op.chat, chat);
      SameHistory(ops[..j], op.chat, chat);
    } else {
      assert Faithfully(fmt, m, chat, History(ops[..j], chat), 1);
      PartialAppendTouchesOneChat(m, op.chat, lines, threshold, k, chat);
    }
  }

  /** Crash at any point of any run: when the store received any prefix of all the writes, in order, there
      is a whole number of appends such that every chat, restored from that store, shows `get_branch`
      exactly the history after those appends, even when a log is read again after its base. */
  lemma CrashReadsAsAWholeNumberOfAppends(fmt: LineFormat, ops: seq<EntryAppend>, threshold: nat, n: nat)
    returns (whole: nat)
    requires Faithful(fmt) && |ops| + 1 < U32_MODULUS
    requires n <= |AllPuts(AsAppends(fmt, ops, threshold), threshold)|
    ensures whole <= |ops|
    ensures var store := ApplyPuts(map[], AllPuts(AsAppends(fmt, ops, threshold), threshold)[..n]);
      forall chat :: SameView(Load(fmt, ChatText(store, chat)), History(ops[..whole], chat))
  {
    hide ChatText, Load, LinesOf, AppendPuts, ApplyPuts, AllPuts, Replay, AsAppends, History, InOrder, Whole,
      Faithful,
      IdMap, LeafOf;
    var appends := AsAppends(fmt, ops, threshold);
    var store := ApplyPuts(map[], AllPuts(appends, threshold)[..n]);
    var j, k := CrashStandsInsideOneAppend(appends, threshold, n);
    AppendsOfPrefix(fmt, ops, threshold, j);
    var m := Replay(AsAppends(fmt, ops[..j], threshold), threshold);
    if k == 0 {
      whole := j;
      NothingApplied(m, if j < |ops| then AppendPuts(m, ops[j].chat, LinesOf(fmt, m, ops[j]), threshold) else []);
      assert store == m;
      RunsLoadTheirHistory(fmt, ops[..j], threshold, 1);
      forall chat ensures SameView(Load(fmt, ChatText(store, chat)), History(ops[..whole], chat)) {
        assert Faithfully(fmt, m, chat, History(ops[..j], chat), 1);
      }
    } else {
      whole := j + 1;
      forall chat ensures SameView(Load(fmt, ChatText(store, chat)), History(ops[..whole], chat)) {
        InsideOneAppend(fmt, ops, threshold, j, k, chat);
      }
    }
  }

  lemma NothingApplied(m: map<Key, Bytes>, puts: seq<Put>)
    ensures ApplyPuts(m, puts[..0]) == m
  {
  }

  // -------------------------------------------------------------------------
  // Branches over runs
  // -------------------------------------------------------------------------

  /** Every append is a message with an id fresh in its chat and an existing parent, if any. */
  ghost predicate LegalAppends(ops: seq<EntryAppend>) {
    forall j :: 0 <= j < |ops| ==> Appendable(History(ops[..j], ops[j].chat), ops[j].entry)
  }

  lemma {:induction false} LegalHistoryIsGood(ops: seq<EntryAppend>, chat: string)
    requires LegalAppends(ops)
    ensures Good(History(ops, chat))
    decreases |ops|
  {
    hide Good, Appendable;
    if ops == [] {
      NothingIsGood();
    } else {
      var before, op := ops[..|ops| - 1], ops[|ops| - 1];
      assert LegalAppends(before) by {
        forall j | 0 <= j < |before| ensures Appendable(History(before[..j], before[j].chat), before[j].entry) {
          assert before[..j] == ops[..j];
        }
      }
      LegalHistoryIsGood(before, chat);
      if SafeChatId(op.chat) == SafeChatId(chat) {
        SameHistory(before, op.chat, chat);
        AppendExtendsBranch(History(before, chat), op.entry);
      }
    }
  }

  lemma NothingIsGood()
    ensures Good([])
  {
  }

  /** After a crash at any point of a run of legal appends, `get_branch` on the restored store terminates
      and returns the branch as it stood after some whole number of them. */
  lemma CrashKeepsTheBranch(fmt: LineFormat, ops: seq<EntryAppend>, threshold: nat, n: nat)
    returns (whole: nat)
    requires Faithful(fmt) && |ops| + 1 < U32_MODULUS && LegalAppends(ops)
    requires n <= |AllPuts(AsAppends(fmt, ops, threshold), threshold)|
    ensures whole <= |ops|
    ensures var store := ApplyPuts(map[], AllPuts(AsAppends(fmt, ops, threshold), threshold)[..n]);
      forall chat :: var restored, history := Load(fmt, ChatText(store, chat)), History(ops[..whole], chat);
        Terminates(restored) && Terminates(history) && Branch(restored) == Branch(history)
        && IsChain(Branch(history))
  {
    hide ChatText, Load, AllPuts, AsAppends, ApplyPuts, History, Good, Terminates, Branch, IsChain, Appendable;
    whole := CrashReadsAsAWholeNumberOfAppends(fmt, ops, threshold, n);
    var store := ApplyPuts(map[], AllPuts(AsAppends(fmt, ops, threshold), threshold)[..n]);
    assert LegalAppends(ops[..whole]) by {
      forall j | 0 <= j < whole
        ensures Appendable(History(ops[..whole][..j], ops[..whole][j].chat), ops[..whole][j].entry)
      {
        assert ops[..whole][..j] == ops[..j];
      }
    }
    forall chat
      ensures var restored, history := Load(fmt, ChatText(store, chat)), History(ops[..whole], chat);
        Terminates(restored) && Terminates(history) && Branch(restored) == Branch(history)
        && IsChain(Branch(history))
    {
      var restored, history := Load(fmt, ChatText(store, chat)), History(ops[..whole], chat);
      assert SameView(restored, history);
      LegalHistoryIsGood(ops[..whole], chat);
      GoodBranchIsChain(history);
      SameViewSameBranch(restored, history);
    }
  }

  // -------------------------------------------------------------------------
  // Clear and delete
  // -------------------------------------------------------------------------

  /** `clear` looks under the wrong prefix: no chat of the cloud tier reads differently afterwards. */
  lemma ClearLeavesCloudText(m: map<Key, Bytes>, m': map<Key, Bytes>, cleared: string, chat: string)
    requires Dropped(m, m', ClearPrefix(cleared))
    ensures ChatText(m', chat) == ChatText(m, chat)
  {
    forall k | StartsWith(k, Prefix(chat)) ensures Lookup(m, k) == Lookup(m', k) {
      assert k[1] == Prefix(chat)[1] == 'y';
      assert ClearPrefix(cleared)[1] == 'e';
    }
    SameChatReadsAlike(m, m', chat);
  }

  /** So in the cloud tier `clear` leaves a chat empty exactly when it was empty before. */
  lemma ClearEmptiesOnlyTheEmpty(m: map<Key, Bytes>, m': map<Key, Bytes>, chat: string)
    requires Dropped(m, m', ClearPrefix(chat))
    ensures ChatText(m', chat) == "" <==> ChatText(m, chat) == ""
  {
    ClearLeavesCloudText(m, m', chat, chat);
  }

  /** `delete` empties the chat and leaves every other chat as it was. */
  lemma DeleteEmptiesOneChat(m: map<Key, Bytes>, m': map<Key, Bytes>, chat: string, other: string)
    requires Dropped(m, m', Prefix(chat))
    ensures ChatText(m', chat) == ""
    ensures SafeChatId(chat) != SafeChatId(other) ==> ChatText(m', other) == ChatText(m, other)
  {
    ChatKeysShareThePrefix(chat, 0);
    assert Lookup(m', BaseKey(chat)) == None && Lookup(m', MetaKey(chat)) == None;
    forall n: nat ensures LogKey(chat, n) !in m' {
      ChatKeysShareThePrefix(chat, n);
      assert Lookup(m', LogKey(chat, n)) == None;
    }
    NoLogsAbove(m', chat, 0);
    if SafeChatId(chat) != SafeChatId(other) {
      forall k | StartsWith(k, Prefix(other)) ensures Lookup(m, k) == Lookup(m', k) {
        if Prefix(chat) <= k { ChatsAreDisjoint(chat, other, k); }
      }
      SameChatReadsAlike(m, m', other);
    }
  }
}
