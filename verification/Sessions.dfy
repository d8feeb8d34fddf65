/** The session manager: methods over the cache, the replicator and the session files
    (agent/src/core/sessions/mod.rs). File and network calls are taken to succeed. */
module Sessions {
  import opened Base
  import opened SessionKeys
  import opened CloudCaching
  import opened SessionLog
  import opened SessionEntries
  import opened SessionTree

  /** The prefix `clear` uses; the keys live under `sys/sessions/`. */
  function ClearPrefix(chat: string): Key {
    "sessions/" + SafeChatId(chat) + "/"
  }

  /** The cache after dropping every key with a prefix. */
  ghost predicate Dropped(m: map<Key, Bytes>, m': map<Key, Bytes>, prefix: string) {
    forall k :: Lookup(m', k) == if prefix <= k then None else Lookup(m, k)
  }

  /** `sort` on the log numbers. */
  method SortIndices(indices: seq<nat>) returns (sorted: seq<nat>)
    requires forall i, j :: 0 <= i < j < |indices| ==> indices[i] != indices[j]
    ensures Ascending(sorted)
    ensures forall n :: n in sorted <==> n in indices
  {
    sorted := [];
    for i := 0 to |indices|
      invariant Ascending(sorted)
      invariant forall n :: n in sorted <==> n in indices[..i]
    {
      var x := indices[i];
      assert x !in indices[..i];
      var k := 0;
      while k < |sorted| && sorted[k] < x
        invariant 0 <= k <= |sorted|
        invariant forall j :: 0 <= j < k ==> sorted[j] < x
      {
        k := k + 1;
      }
      InsertAscending(sorted, k, x);
      sorted := sorted[..k] + [x] + sorted[k..];
      assert indices[..i + 1] == indices[..i] + [x];
    }
    assert indices[..|indices|] == indices;
  }

  lemma InsertAscending(s: seq<nat>, k: nat, x: nat)
    requires Ascending(s) && k <= |s| && x !in s
    requires forall j :: 0 <= j < k ==> s[j] < x
    requires k < |s| ==> x <= s[k]
    ensures Ascending(s[..k] + [x] + s[k..])
    ensures forall n :: n in s[..k] + [x] + s[k..] <==> n == x || n in s
  {
    var r := s[..k] + [x] + s[k..];
    assert s == s[..k] + s[k..];
    forall j | k <= j < |s| ensures x < s[j] {
      assert s[j] in s;
    }
    forall i, j | 0 <= i < j < |r| ensures r[i] < r[j] {
      assert i > k ==> r[i] == s[i - 1];
      assert j > k ==> r[j] == s[j - 1];
    }
  }

  class SessionManager {
    const fmt: LineFormat
    /** None in local mode. */
    const cache: CloudCache?
    const logCompactionBytes: nat
    /** Writes handed to the replicator, in order. */
    var enqueued: seq<Put>
    /** Session files by sanitized chat id. */
    var files: map<string, Bytes>

    constructor (fmt: LineFormat, cache: CloudCache?, logCompactionBytes: nat)
      ensures this.fmt == fmt && this.cache == cache && this.logCompactionBytes == logCompactionBytes
      ensures enqueued == [] && files == map[]
    {
      this.fmt, this.cache, this.logCompactionBytes := fmt, cache, logCompactionBytes;
      enqueued, files := [], map[];
    }

    /** The text a chat currently reads as. */
    function Text(chat: string): Bytes
      reads this, cache
    {
      if cache != null then ChatText(cache.entries, chat) else GetOrEmpty(files, SafeChatId(chat))
    }

    function Entries(chat: string): seq<SessionEntry>
      reads this, cache
    {
      SessionEntries.Load(fmt, Text(chat))
    }

    /** Log keys are spelled as this program spells them. */
    ghost predicate Readable(chat: string)
      reads this, cache
    {
      cache != null ==> Canonical(cache.entries, chat)
    }

    // -- Reading ------------------------------------------------------------

    /** Numbers of the unabsorbed logs, ascending. */
    method UnabsorbedIndices(chat: string, cache: CloudCache) returns (indices: seq<nat>)
      requires Canonical(cache.entries, chat)
      ensures ListsLogsFrom(cache.entries, chat, indices, FirstUnabsorbed(cache.entries, chat))
    {
      hide LogKey, LogIndexOf, LogPrefix, FirstUnabsorbed, Ascending;
      var m := cache.entries;
      var first := FirstUnabsorbed(m, chat);
      var keys := cache.KeysWithPrefix(LogPrefix(chat));
      indices := [];
      for i := 0 to |keys|
        invariant forall k :: 0 <= k < |indices| ==> Unabsorbed(m, chat, indices[k])
        invariant forall k, l :: 0 <= k < l < |indices| ==> indices[k] != indices[l]
        invariant forall n: nat :: n in indices <==> Unabsorbed(m, chat, n) && LogKey(chat, n) in keys[..i]
      {
        var parsed := LogIndexOf(chat, keys[i]);
        assert keys[..i + 1] == keys[..i] + [keys[i]];
        assert keys[i] in keys;
        if parsed.Some? && first <= parsed.value {
          assert keys[i] == LogKey(chat, parsed.value);
          forall n: nat | LogKey(chat, n) == keys[i] ensures n == parsed.value {
            LogKeysAreDistinct(chat, n, parsed.value);
          }
          indices := indices + [parsed.value];
        } else {
          forall n: nat | LogKey(chat, n) == keys[i] ensures !Unabsorbed(m, chat, n) {
            LogIndexOfLogKey(chat, n);
          }
        }
      }
      assert keys[..|keys|] == keys;
      forall n: nat | Unabsorbed(m, chat, n) ensures LogKey(chat, n) in keys {
        LogKeyHasLogPrefix(chat, n);
      }
      ghost var found := indices;
      indices := SortIndices(indices);
      forall k | 0 <= k < |indices| ensures first <= indices[k] < U32_MODULUS {
        assert indices[k] in found;
      }
    }

    /** Reading the cache yields the base and the unabsorbed logs in numeric order. */
    method ReadChatFromCache(chat: string, cache: CloudCache) returns (out: Bytes)
      requires Canonical(cache.entries, chat)
      ensures out == ChatText(cache.entries, chat)
    {
      hide ConcatLogs, LogsFrom, LogKey, BaseKey, Canonical, ListsLogsFrom;
      out := "";
      var base := cache.Get(BaseKey(chat));
      if base.Some? {
        out := out + base.value;
      }
      var indices := UnabsorbedIndices(chat, cache);
      ghost var m := cache.entries;
      ConcatLogsNone(m, chat);
      assert indices[..0] == [];
      for i := 0 to |indices|
        invariant out == GetOrEmpty(m, BaseKey(chat)) + ConcatLogs(m, chat, indices[..i])
      {
        var log := cache.Get(LogKey(chat, indices[i]));
        if log.Some? {
          out := out + log.value;
        }
        ConcatLogsSnoc(m, chat, indices, i);
      }
      assert indices[..|indices|] == indices;
      AscendingVisitReadsAll(m, chat, indices, FirstUnabsorbed(m, chat));
    }

    /** The byte count, summed in hash-map order, is the length of what a reader sees. */
    method CloudSessionBytes(chat: string, cache: CloudCache) returns (bytes: nat)
      requires Canonical(cache.entries, chat)
      ensures bytes == |ChatText(cache.entries, chat)|
    {
      hide LogBytes, LogsFrom, LogKey, BaseKey, LogIndexOf, LogPrefix, FirstUnabsorbed;
      var m := cache.entries;
      var first := FirstUnabsorbed(m, chat);
      var base := cache.Get(BaseKey(chat));
      var baseLen := if base.Some? then |base.value| else 0;
      var keys := cache.KeysWithPrefix(LogPrefix(chat));
      var logsLen := 0;
      ghost var seen: set<nat> := {};
      LogBytesEmpty(m, chat, first);
      for i := 0 to |keys|
        invariant forall n: nat :: n in seen <==> n < U32_MODULUS && LogKey(chat, n) in keys[..i]
        invariant logsLen == LogBytes(m, chat, first, seen)
      {
        var parsed := LogIndexOf(chat, keys[i]);
        assert keys[..i + 1] == keys[..i] + [keys[i]];
        assert keys[i] in keys;
        if parsed.Some? {
          var n := parsed.value;
          assert keys[i] == LogKey(chat, n);
          forall k: nat | LogKey(chat, k) == keys[i] ensures k == n {
            LogKeysAreDistinct(chat, k, n);
          }
          assert n !in seen;
          LogIndexOfLogKey(chat, n);
          LogBytesAdd(m, chat, first, seen, n);
          seen := seen + {n};
          if first <= n {
            logsLen := logsLen + |m[keys[i]]|;
          }
        } else {
          forall k: nat | k < U32_MODULUS ensures LogKey(chat, k) != keys[i] {
            LogIndexOfLogKey(chat, k);
          }
        }
      }
      assert keys[..|keys|] == keys;
      forall n: nat | first <= n < U32_MODULUS && LogKey(chat, n) in m ensures n in seen {
        LogKeyHasLogPrefix(chat, n);
      }
      LogBytesAll(m, chat, first, seen);
      bytes := baseLen + logsLen;
    }

    method Load(chat: string) returns (entries: seq<SessionEntry>)
      requires Readable(chat)
      ensures entries == Entries(chat)
    {
      var data := "";
      if cache != null {
        data := ReadChatFromCache(chat, cache);
      } else if SafeChatId(chat) in files {
        data := files[SafeChatId(chat)];
      }
      entries := ParseLines(data);
    }

    /** Line by line, skipping blank and malformed lines. */
    method ParseLines(data: Bytes) returns (entries: seq<SessionEntry>)
      ensures entries == SessionEntries.Load(fmt, data)
    {
      entries := [];
      var rest := data;
      LoadNothing(fmt);
      hide SessionEntries.Load, LoadLine, NewlineAt;
      while rest != ""
        invariant entries + SessionEntries.Load(fmt, rest) == SessionEntries.Load(fmt, data)
        decreases |rest|
      {
        LoadStep(fmt, rest);
        var i := NewlineAt(rest);
        entries := entries + LoadLine(fmt, rest[..i]);
        rest := if i == |rest| then "" else rest[i + 1..];
      }
    }

    method GetLeafId(chat: string) returns (leaf: Option<string>)
      requires Readable(chat)
      ensures leaf == LeafOf(Entries(chat))
    {
      var entries := Load(chat);
      leaf := LastInfo(entries);
    }

    /** Scans backwards for the last info entry. */
    method LastInfo(entries: seq<SessionEntry>) returns (leaf: Option<string>)
      ensures leaf == LeafOf(entries)
    {
      var i := |entries|;
      assert entries[..i] == entries;
      while i > 0
        invariant 0 <= i <= |entries|
        invariant LeafOf(entries) == LeafOf(entries[..i])
      {
        if entries[i - 1].Info? {
          assert entries[..i][..i - 1] == entries[..i - 1];
          return Some(entries[i - 1].leafId);
        }
        assert entries[..i][..i - 1] == entries[..i - 1];
        i := i - 1;
      }
      return None;
    }

    /** The index map of `get_branch`. */
    method BuildIdMap(entries: seq<SessionEntry>) returns (ids: map<string, nat>)
      ensures ids.Keys == IdMap(entries).Keys
      ensures forall id :: id in ids ==> ids[id] < |entries| && entries[ids[id]] == IdMap(entries)[id]
    {
      ids := map[];
      for i := 0 to |entries|
        invariant ids.Keys == IdMap(entries[..i]).Keys
        invariant forall id :: id in ids ==> ids[id] < i && entries[ids[id]] == IdMap(entries[..i])[id]
      {
        assert entries[..i + 1][..i] == entries[..i];
        if !entries[i].Info? {
          ids := ids[entries[i].id := i];
        }
      }
      assert entries[..|entries|] == entries;
    }

    /** Walks parent pointers from leaf to root and reverses; required to be called only on sessions where
        that walk ends, since the loop has no other way to stop. */
    method GetBranch(chat: string) returns (branch: seq<SessionEntry>)
      requires Readable(chat) && Terminates(Entries(chat))
      ensures branch == Branch(Entries(chat))
    {
      var entries := Load(chat);
      var leaf := LastInfo(entries);
      if leaf.None? {
        BranchIs(entries, 0);
        return [];
      }
      var ids := BuildIdMap(entries);
      ghost var bound: nat :| EndsIn(IdMap(entries), leaf, bound);
      BranchIs(entries, bound);
      var indices := WalkToRoot(entries, ids, leaf, bound);
      branch := Chronological(entries, indices);
    }

    method WalkToRoot(entries: seq<SessionEntry>, ids: map<string, nat>, leaf: Option<string>, ghost bound: nat)
      returns (indices: seq<nat>)
      requires ids.Keys == IdMap(entries).Keys
      requires forall id :: id in ids ==> ids[id] < |entries| && entries[ids[id]] == IdMap(entries)[id]
      requires EndsIn(IdMap(entries), leaf, bound)
      ensures forall k :: 0 <= k < |indices| ==> indices[k] < |entries|
      ensures Reversed(Pick(entries, indices)) == Walk(IdMap(entries), leaf, bound)
    {
      hide IdMap, EndsIn, Walk, Reversed, Pick;
      ghost var m := IdMap(entries);
      NothingPicked(entries);
      indices := [];
      var current := leaf;
      ghost var left := bound;
      while current.Some?
        invariant EndsIn(m, current, left)
        invariant forall k :: 0 <= k < |indices| ==> indices[k] < |entries|
        invariant Walk(m, leaf, bound) == Walk(m, current, left) + Reversed(Pick(entries, indices))
        decreases left, current.Some?
      {
        WalkStep(m, current, left);
        if current.value in ids {
          var idx := ids[current.value];
          PickSnoc(entries, indices, idx);
          ReversedSnoc(Pick(entries, indices), entries[idx]);
          indices := indices + [idx];
          current := ParentOf(entries[idx]);
          left := left - 1;
        } else {
          break;
        }
      }
      WalkStep(m, current, left);
    }

    /** The collected entries, root first. */
    method Chronological(entries: seq<SessionEntry>, indices: seq<nat>) returns (branch: seq<SessionEntry>)
      requires forall k :: 0 <= k < |indices| ==> indices[k] < |entries|
      ensures branch == Reversed(Pick(entries, indices))
    {
      hide Reversed, Pick;
      NothingPicked(entries);
      var k := |indices|;
      branch := [];
      assert indices[k..] == [];
      while k > 0
        invariant 0 <= k <= |indices|
        invariant branch == Reversed(Pick(entries, indices[k..]))
      {
        k := k - 1;
        ReversedCons(entries[indices[k]], Pick(entries, indices[k + 1..]));
        PickCons(entries, indices, k);
        branch := branch + [entries[indices[k]]];
      }
      assert indices[0..] == indices;
    }

    // -- Writing ------------------------------------------------------------

    /** One write: into the cache, then to the replicator. */
    method PutAndEnqueue(cache: CloudCache, key: Key, bytes: Bytes)
      modifies this`enqueued, cache
      ensures cache.entries == old(cache.entries)[key := bytes]
      ensures enqueued == old(enqueued) + [Put(key, bytes)]
    {
      cache.Put(key, bytes);
      enqueued := enqueued + [Put(key, bytes)];
    }

    /** Appends to the active log and folds it once it reaches the threshold. */
    method AppendViaCloud(chat: string, lines: Bytes, cache: CloudCache)
      modifies this`enqueued, cache
      ensures var puts := AppendPuts(old(cache.entries), chat, lines, logCompactionBytes);
        enqueued == old(enqueued) + puts && cache.entries == ApplyPuts(old(cache.entries), puts)
    {
      ghost var m := cache.entries;
      AppendPutsStages(m, chat, lines, logCompactionBytes);
      var idx := ActiveIndex(cache.entries, chat);
      var logKey := LogKey(chat, idx);
      var stored := cache.Get(logKey);
      var current := (if stored.Some? then stored.value else "") + lines;
      PutAndEnqueue(cache, logKey, current);
      assert cache.entries == WithLog(m, chat, lines);
      if |current| >= logCompactionBytes {
        CompactLog(chat, idx, cache);
      } else {
        var puts := AppendPuts(m, chat, lines, logCompactionBytes);
        assert puts[..1] == puts;
      }
    }

    /** Folds the active log into the base, then moves the marker. */
    method CompactLog(chat: string, idx: nat, cache: CloudCache)
      modifies this`enqueued, cache
      ensures var puts := FoldPuts(old(cache.entries), chat, idx);
        && enqueued == old(enqueued) + puts
        && cache.entries == old(cache.entries)[puts[0].key := puts[0].bytes][puts[1].key := puts[1].bytes]
    {
      var base := cache.Get(BaseKey(chat));
      var newBase := if base.Some? then base.value else "";
      var log := cache.Get(LogKey(chat, idx));
      if log.Some? {
        newBase := newBase + log.value;
      }
      assert newBase == GetOrEmpty(cache.entries, BaseKey(chat)) + GetOrEmpty(cache.entries, LogKey(chat, idx));
      PutAndEnqueue(cache, BaseKey(chat), newBase);
      PutAndEnqueue(cache, MetaKey(chat), MarkerBytes(idx));
    }

    /** The lines of one append: the linked entry and, for entries with an id, the new leaf. */
    function AppendLines(chat: string, entry: SessionEntry): Bytes
      reads this, cache
    {
      Encode(fmt, AppendedEntries(entry, LeafOf(Entries(chat))))
    }

    method Append(chat: string, entry: SessionEntry)
      requires Readable(chat)
      modifies this, cache
      ensures var lines := old(AppendLines(chat, entry));
        if cache != null then
          var puts := AppendPuts(old(cache.entries), chat, lines, logCompactionBytes);
          && cache.entries == ApplyPuts(old(cache.entries), puts)
          && enqueued == old(enqueued) + puts && files == old(files)
        else
          && files == old(files)[SafeChatId(chat) := old(Text(chat)) + lines] && enqueued == old(enqueued)
    {
      hide LeafOf, SessionEntries.Load;
      var toWrite := entry;
      if !entry.Info? && entry.parent.None? {
        var leaf := GetLeafId(chat);
        toWrite := entry.(parent := leaf);
      }
      var bytes := fmt.ser(toWrite) + "\n";
      if !toWrite.Info? {
        bytes := bytes + (fmt.ser(Info(toWrite.id)) + "\n");
      }
      EncodeFew(fmt, toWrite);
      if cache != null {
        AppendViaCloud(chat, bytes, cache);
      } else {
        var path := SafeChatId(chat);
        files := files[path := GetOrEmpty(files, path) + bytes];
      }
    }

    /** Rewrites the session file, in local and in cloud mode alike; `id` is the fresh id of the
        compaction entry. */
    method Compact(chat: string, summary: string, keepRecent: nat, cap: Option<nat>, id: string)
      requires Readable(chat) && Terminates(Entries(chat))
      modifies this`files
      ensures files ==
        match CompactedFile(Branch(old(Entries(chat))), summary, keepRecent, cap, id)
        case Some(file) => old(files)[SafeChatId(chat) := Encode(fmt, file)]
        case None => old(files)
    {
      hide Branch, Terminates, SessionEntries.Load, KeptLines, ChatText, Encode;
      var branch := GetBranch(chat);
      var total := |branch|;
      var split := if total > keepRecent then total - keepRecent else 0;
      if branch == [] || split == 0 {
        return;
      }
      var kept := branch[split..];
      var compaction := Compaction(id, None, summary, FirstKeptId(kept), split);
      var file := RewriteKept([compaction, Info(id)], kept, id, cap);
      files := files[SafeChatId(chat) := Encode(fmt, file)];
    }

    /** Writes the kept entries behind the compaction, each with the new leaf. */
    method RewriteKept(head: seq<SessionEntry>, kept: seq<SessionEntry>, id: string, cap: Option<nat>)
      returns (file: seq<SessionEntry>)
      ensures file == head + KeptLines(kept, 0, id, cap)
    {
      file := head;
      var lastId := id;
      for i := 0 to |kept|
        invariant i == 0 ==> lastId == id
        invariant file + KeptLines(kept, i, lastId, cap) == head + KeptLines(kept, 0, id, cap)
      {
        var rewritten := KeptEntry(kept[i], i == 0, lastId, cap);
        if !rewritten.Info? {
          lastId := rewritten.id;
        }
        file := file + [rewritten, Info(lastId)];
      }
    }

    /** Drops every cached key of the chat, and its file. */
    method Delete(chat: string)
      modifies this`files, cache
      ensures files == old(files) - {SafeChatId(chat)}
      ensures cache != null ==> Dropped(old(cache.entries), cache.entries, Prefix(chat))
    {
      if cache != null {
        DropPrefix(cache, Prefix(chat));
      }
      files := files - {SafeChatId(chat)};
    }

    /** Drops what it takes to be the chat's keys, and its file. */
    method Clear(chat: string)
      modifies this`files, cache
      ensures files == old(files) - {SafeChatId(chat)}
      ensures cache != null ==> Dropped(old(cache.entries), cache.entries, ClearPrefix(chat))
    {
      if cache != null {
        DropPrefix(cache, ClearPrefix(chat));
      }
      files := files - {SafeChatId(chat)};
    }

    method DropPrefix(cache: CloudCache, prefix: string)
      modifies cache
      ensures Dropped(old(cache.entries), cache.entries, prefix)
    {
      var keys := cache.KeysWithPrefix(prefix);
      for i := 0 to |keys|
        invariant forall k :: k in keys[..i] ==> k !in cache.entries
        invariant forall k :: k !in keys[..i] ==> Lookup(cache.entries, k) == old(Lookup(cache.entries, k))
      {
        var present := cache.Delete(keys[i]);
        assert keys[..i + 1] == keys[..i] + [keys[i]];
      }
      assert keys[..|keys|] == keys;
    }
  }

  lemma EncodeFew(fmt: LineFormat, e: SessionEntry)
    ensures Encode(fmt, [e]) == fmt.ser(e) + "\n"
    ensures !e.Info? ==>
      Encode(fmt, [e, Info(e.id)]) == fmt.ser(e) + "\n" + (fmt.ser(Info(e.id)) + "\n")
  {
    assert [e][1..] == [];
    if !e.Info? {
      assert [e, Info(e.id)][1..] == [Info(e.id)] && [Info(e.id)][1..] == [];
    }
  }

  function Pick(entries: seq<SessionEntry>, indices: seq<nat>): seq<SessionEntry>
    requires forall k :: 0 <= k < |indices| ==> indices[k] < |entries|
  {
    seq(|indices|, k requires 0 <= k < |indices| => entries[indices[k]])
  }

  function Reversed(s: seq<SessionEntry>): seq<SessionEntry> {
    if s == [] then [] else Reversed(s[1..]) + [s[0]]
  }

  lemma PickSnoc(entries: seq<SessionEntry>, indices: seq<nat>, idx: nat)
    requires idx < |entries| && forall k :: 0 <= k < |indices| ==> indices[k] < |entries|
    ensures Pick(entries, indices + [idx]) == Pick(entries, indices) + [entries[idx]]
  {
  }

  lemma PickCons(entries: seq<SessionEntry>, indices: seq<nat>, k: nat)
    requires k < |indices| && forall j :: 0 <= j < |indices| ==> indices[j] < |entries|
    ensures Pick(entries, indices[k..]) == [entries[indices[k]]] + Pick(entries, indices[k + 1..])
  {
  }

  lemma NothingPicked(entries: seq<SessionEntry>)
    ensures Pick(entries, []) == [] && Reversed([]) == []
  {
  }

  lemma WalkStep(m: map<string, SessionEntry>, cur: Option<string>, n: nat)
    requires EndsIn(m, cur, n)
    ensures if AtRoot(m, cur) then Walk(m, cur, n) == []
            else n > 0 && EndsIn(m, ParentOf(m[cur.value]), n - 1)
                 && Walk(m, cur, n) == Walk(m, ParentOf(m[cur.value]), n - 1) + [m[cur.value]]
  {
  }

  lemma LoadNothing(fmt: LineFormat)
    ensures SessionEntries.Load(fmt, "") == []
  {
  }

  lemma LoadStep(fmt: LineFormat, text: Bytes)
    requires text != ""
    ensures var i := NewlineAt(text);
      i <= |text| && SessionEntries.Load(fmt, text)
        == LoadLine(fmt, text[..i]) + SessionEntries.Load(fmt, if i == |text| then "" else text[i + 1..])
  {
    hide LoadLine;
    assert text[..|text|] == text;
  }

  lemma ReversedCons(e: SessionEntry, s: seq<SessionEntry>)
    ensures Reversed([e] + s) == Reversed(s) + [e]
  {
    assert ([e] + s)[1..] == s;
  }

  lemma {:induction false} ReversedSnoc(s: seq<SessionEntry>, e: SessionEntry)
    ensures Reversed(s + [e]) == [e] + Reversed(s)
  {
    if s == [] {
      assert s + [e] == [e] && [e][1..] == [];
    } else {
      assert (s + [e])[1..] == s[1..] + [e];
      ReversedSnoc(s[1..], e);
    }
  }
}
