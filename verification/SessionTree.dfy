/** The parent-pointer tree on top of a session's entries: `append`, `get_branch`, `compact`
    (agent/src/core/sessions/mod.rs, lines 677-809 and 949-1054). */
module SessionTree {
  import opened Base
  import opened SessionEntries

  // -------------------------------------------------------------------------
  // The walk from the leaf
  // -------------------------------------------------------------------------

  /** Entry by id; a later entry with the same id replaces an earlier one. */
  function IdMap(es: seq<SessionEntry>): map<string, SessionEntry> {
    if es == [] then map[]
    else
      var e := es[|es| - 1];
      if e.Info? then IdMap(es[..|es| - 1]) else IdMap(es[..|es| - 1])[e.id := e]
  }

  /** The leaf named by the last info entry. */
  function LeafOf(es: seq<SessionEntry>): Option<string> {
    if es == [] then None
    else if es[|es| - 1].Info? then Some(es[|es| - 1].leafId)
    else LeafOf(es[..|es| - 1])
  }

  predicate AtRoot(m: map<string, SessionEntry>, cur: Option<string>) {
    cur.None? || cur.value !in m
  }

  /** The walk from `cur` stops within `n` entries. */
  predicate EndsIn(m: map<string, SessionEntry>, cur: Option<string>, n: nat)
    decreases n
  {
    AtRoot(m, cur) || (n > 0 && EndsIn(m, ParentOf(m[cur.value]), n - 1))
  }

  /** The entries from the root down to `cur`. */
  function Walk(m: map<string, SessionEntry>, cur: Option<string>, n: nat): seq<SessionEntry>
    requires EndsIn(m, cur, n)
    decreases n
  {
    if AtRoot(m, cur) then [] else Walk(m, ParentOf(m[cur.value]), n - 1) + [m[cur.value]]
  }

  /** The walk of `get_branch` terminates on these entries. */
  ghost predicate Terminates(es: seq<SessionEntry>) {
    exists n: nat :: EndsIn(IdMap(es), LeafOf(es), n)
  }

  ghost function Branch(es: seq<SessionEntry>): seq<SessionEntry>
    requires Terminates(es)
  {
    var n: nat :| EndsIn(IdMap(es), LeafOf(es), n);
    Walk(IdMap(es), LeafOf(es), n)
  }

  lemma {:induction false} WalkIgnoresBound(m: map<string, SessionEntry>, cur: Option<string>, n: nat, k: nat)
    requires EndsIn(m, cur, n) && EndsIn(m, cur, k)
    ensures Walk(m, cur, n) == Walk(m, cur, k)
    decreases n
  {
    if !AtRoot(m, cur) {
      WalkIgnoresBound(m, ParentOf(m[cur.value]), n - 1, k - 1);
    }
  }

  lemma BranchIs(es: seq<SessionEntry>, n: nat)
    requires EndsIn(IdMap(es), LeafOf(es), n)
    ensures Terminates(es) && Branch(es) == Walk(IdMap(es), LeafOf(es), n)
  {
    var k: nat :| EndsIn(IdMap(es), LeafOf(es), k) && Branch(es) == Walk(IdMap(es), LeafOf(es), k);
    WalkIgnoresBound(IdMap(es), LeafOf(es), n, k);
  }

  /** `get_branch` sees nothing of the entries but the id map and the leaf. */
  lemma SameViewSameBranch(a: seq<SessionEntry>, b: seq<SessionEntry>)
    requires IdMap(a) == IdMap(b) && LeafOf(a) == LeafOf(b)
    ensures Terminates(a) <==> Terminates(b)
    ensures Terminates(a) ==> Branch(a) == Branch(b)
  {
    if Terminates(a) {
      var n: nat :| EndsIn(IdMap(a), LeafOf(a), n);
      BranchIs(a, n);
      BranchIs(b, n);
    }
  }

  lemma {:induction false} IdMapConcat(a: seq<SessionEntry>, b: seq<SessionEntry>)
    ensures IdMap(a + b) == IdMap(a) + IdMap(b)
    decreases |b|
  {
    if b == [] {
      assert a + b == a;
    } else {
      assert (a + b)[..|a + b| - 1] == a + b[..|b| - 1];
      IdMapConcat(a, b[..|b| - 1]);
    }
  }

  lemma {:induction false} LeafOfConcat(a: seq<SessionEntry>, b: seq<SessionEntry>)
    ensures LeafOf(a + b) == if LeafOf(b).Some? then LeafOf(b) else LeafOf(a)
    decreases |b|
  {
    if b == [] {
      assert a + b == a;
    } else {
      assert (a + b)[..|a + b| - 1] == a + b[..|b| - 1];
      LeafOfConcat(a, b[..|b| - 1]);
    }
  }

  /** Repeating a tail of the entries that names a leaf changes nothing `get_branch` sees. */
  lemma RepeatedTailIsInvisible(a: seq<SessionEntry>, tail: seq<SessionEntry>)
    requires LeafOf(tail).Some?
    ensures IdMap(a + tail + tail) == IdMap(a + tail) && LeafOf(a + tail + tail) == LeafOf(a + tail)
  {
    IdMapConcat(a + tail, tail);
    IdMapConcat(a, tail);
    LeafOfConcat(a + tail, tail);
    LeafOfConcat(a, tail);
  }

  // -------------------------------------------------------------------------
  // Append
  // -------------------------------------------------------------------------

  /** A message or compaction without a parent is linked to the current leaf. */
  function Linked(e: SessionEntry, leaf: Option<string>): SessionEntry {
    if !e.Info? && e.parent.None? then e.(parent := leaf) else e
  }

  /** The entries one append writes. */
  function AppendedEntries(e: SessionEntry, leaf: Option<string>): seq<SessionEntry> {
    var w := Linked(e, leaf);
    if w.Info? then [w] else [w, Info(w.id)]
  }

  function AppendEntry(es: seq<SessionEntry>, e: SessionEntry): seq<SessionEntry> {
    es + AppendedEntries(e, LeafOf(es))
  }

  // -------------------------------------------------------------------------
  // Reachable states
  // -------------------------------------------------------------------------

  ghost predicate HasId(es: seq<SessionEntry>, id: string) {
    exists i :: 0 <= i < |es| && EntryId(es[i]) == Some(id)
  }

  ghost predicate DistinctIds(es: seq<SessionEntry>) {
    forall i, j :: 0 <= i < j < |es| && EntryId(es[i]).Some? ==> EntryId(es[i]) != EntryId(es[j])
  }

  /** Every parent pointer points to an earlier entry. */
  ghost predicate Grounded(es: seq<SessionEntry>) {
    forall i :: 0 <= i < |es| && ParentOf(es[i]).Some? ==> HasId(es[..i], ParentOf(es[i]).value)
  }

  ghost predicate CompactionsAreRoots(es: seq<SessionEntry>) {
    forall i :: 0 <= i < |es| && es[i].Compaction? ==> es[i].parent.None?
  }

  /** The invariant of reachable states; the walk terminates only because of it. */
  ghost predicate Good(es: seq<SessionEntry>) {
    && DistinctIds(es) && Grounded(es) && CompactionsAreRoots(es)
    && (LeafOf(es).Some? ==> HasId(es, LeafOf(es).value))
  }

  lemma {:induction false} IdMapDomain(es: seq<SessionEntry>, id: string)
    ensures id in IdMap(es) <==> HasId(es, id)
    ensures id in IdMap(es) ==> exists i :: 0 <= i < |es| && es[i] == IdMap(es)[id] && EntryId(es[i]) == Some(id)
    decreases |es|
  {
    if es != [] {
      var before := es[..|es| - 1];
      IdMapDomain(before, id);
      if HasId(before, id) {
        var i :| 0 <= i < |before| && EntryId(before[i]) == Some(id);
        assert EntryId(es[i]) == Some(id);
      }
      if id in IdMap(before) {
        var i :| 0 <= i < |before| && before[i] == IdMap(before)[id] && EntryId(before[i]) == Some(id);
        assert es[i] == before[i];
      }
    }
  }

  lemma IdMapAt(es: seq<SessionEntry>, i: nat)
    requires DistinctIds(es) && i < |es| && EntryId(es[i]).Some?
    ensures es[i].id in IdMap(es) && IdMap(es)[es[i].id] == es[i]
  {
    IdMapDomain(es, es[i].id);
    var j :| 0 <= j < |es| && es[j] == IdMap(es)[es[i].id] && EntryId(es[j]) == Some(es[i].id);
    assert i == j;
  }

  /** From the entry at position `i` the walk takes at most `i + 1` steps. */
  lemma {:induction false} WalkEnds(es: seq<SessionEntry>, i: nat)
    requires Good(es) && i < |es| && EntryId(es[i]).Some?
    ensures EndsIn(IdMap(es), Some(es[i].id), i + 1)
  {
    IdMapAt(es, i);
    if es[i].parent.Some? {
      var p := es[i].parent.value;
      assert HasId(es[..i], p);
      var j :| 0 <= j < i && EntryId(es[..i][j]) == Some(p);
      assert es[..i][j] == es[j];
      WalkEnds(es, j);
      EndsMonotone(IdMap(es), Some(p), j + 1, i);
    }
  }

  lemma {:induction false} EndsMonotone(m: map<string, SessionEntry>, cur: Option<string>, n: nat, k: nat)
    requires EndsIn(m, cur, n) && n <= k
    ensures EndsIn(m, cur, k)
    decreases n
  {
    if !AtRoot(m, cur) {
      EndsMonotone(m, ParentOf(m[cur.value]), n - 1, k - 1);
    }
  }

  lemma WalkFromExistingEnds(es: seq<SessionEntry>, cur: Option<string>)
    requires Good(es) && (cur.Some? ==> HasId(es, cur.value))
    ensures EndsIn(IdMap(es), cur, |es|)
  {
    if cur.Some? {
      var i :| 0 <= i < |es| && EntryId(es[i]) == Some(cur.value);
      WalkEnds(es, i);
      EndsMonotone(IdMap(es), cur, i + 1, |es|);
    }
  }

  /** In a reachable state the walk terminates, within as many steps as there are entries. */
  lemma GoodTerminates(es: seq<SessionEntry>)
    requires Good(es)
    ensures EndsIn(IdMap(es), LeafOf(es), |es|) && Terminates(es)
  {
    WalkFromExistingEnds(es, LeafOf(es));
    var n: nat := |es|;
    assert EndsIn(IdMap(es), LeafOf(es), n);
  }

  /** One chronological parent chain: a root, then each entry pointing to the one before it, with
      distinct ids and a compaction nowhere but at the root. */
  ghost predicate IsChain(b: seq<SessionEntry>) {
    && (forall i :: 0 <= i < |b| ==> EntryId(b[i]).Some?)
    && (b != [] ==> ParentOf(b[0]).None?)
    && (forall i :: 0 < i < |b| ==> ParentOf(b[i]) == EntryId(b[i - 1]))
    && (forall i :: 0 < i < |b| ==> b[i].Message?)
  }

  /** A chain ending at position `j`, followed by the entry at a later position `i` that points to it. */
  lemma ChainGrows(es: seq<SessionEntry>, a: seq<SessionEntry>, j: nat, i: nat)
    requires DistinctIds(es) && CompactionsAreRoots(es) && j < i < |es| && EntryId(es[i]).Some?
    requires IsChain(a) && DistinctIds(a) && a != [] && a[|a| - 1] == es[j] && ParentOf(es[i]) == EntryId(es[j])
    requires forall k :: 0 <= k < |a| ==> a[k] in es[..j + 1]
    ensures IsChain(a + [es[i]]) && DistinctIds(a + [es[i]])
    ensures forall k :: 0 <= k < |a + [es[i]]| ==> (a + [es[i]])[k] in es[..i + 1]
  {
    var b := a + [es[i]];
    forall k | 0 <= k < |a| ensures b[k] in es[..i + 1] && EntryId(b[k]) != EntryId(es[i]) {
      assert a[k] in es[..j + 1];
      var l :| 0 <= l < j + 1 && es[..j + 1][l] == a[k];
      assert es[..i + 1][l] == b[k];
    }
    assert es[..i + 1][i] == es[i];
  }

  /** The walk from an entry of a reachable state: a chain ending in that entry, made of entries no
      later than it. */
  lemma {:induction false} WalkIsChain(es: seq<SessionEntry>, i: nat, n: nat)
    requires Good(es) && i < |es| && EntryId(es[i]).Some? && EndsIn(IdMap(es), Some(es[i].id), n)
    ensures var b := Walk(IdMap(es), Some(es[i].id), n);
      && IsChain(b) && b != [] && b[|b| - 1] == es[i]
      && DistinctIds(b)
      && forall k :: 0 <= k < |b| ==> b[k] in es[..i + 1]
    decreases i
  {
    IdMapAt(es, i);
    var b := Walk(IdMap(es), Some(es[i].id), n);
    if es[i].parent.Some? {
      var p := es[i].parent.value;
      assert HasId(es[..i], p);
      var j :| 0 <= j < i && EntryId(es[..i][j]) == Some(p);
      assert es[..i][j] == es[j];
      WalkIsChain(es, j, n - 1);
      var a := Walk(IdMap(es), Some(p), n - 1);
      assert b == a + [es[i]];
      ChainGrows(es, a, j, i);
    } else {
      assert AtRoot(IdMap(es), None);
      assert Walk(IdMap(es), None, n - 1) == [];
      assert b == [es[i]];
      assert es[..i + 1][i] == es[i];
    }
  }

  /** In a reachable state the branch is one parent chain. */
  lemma GoodBranchIsChain(es: seq<SessionEntry>)
    requires Good(es)
    ensures Terminates(es) && IsChain(Branch(es)) && DistinctIds(Branch(es))
    ensures LeafOf(es).Some? ==> Branch(es) != [] && EntryId(Branch(es)[|Branch(es)| - 1]) == LeafOf(es)
    ensures LeafOf(es).None? ==> Branch(es) == []
    ensures forall k :: 0 <= k < |Branch(es)| ==> Branch(es)[k] in es
  {
    GoodTerminates(es);
    BranchIs(es, |es|);
    if LeafOf(es).Some? {
      var i :| 0 <= i < |es| && EntryId(es[i]) == Some(LeafOf(es).value);
      WalkIsChain(es, i, |es|);
      forall k | 0 <= k < |Branch(es)| ensures Branch(es)[k] in es {
        assert Branch(es)[k] in es[..i + 1];
      }
    }
  }

  // -------------------------------------------------------------------------
  // Append extends the branch by exactly the new entry
  // -------------------------------------------------------------------------

  /** A message with a fresh id whose parent, if given, is an entry of the session. */
  ghost predicate Appendable(es: seq<SessionEntry>, e: SessionEntry) {
    && e.Message? && !HasId(es, e.id)
    && (e.parent.Some? ==> HasId(es, e.parent.value))
  }

  lemma AppendedIdMap(es: seq<SessionEntry>, e: SessionEntry)
    requires !e.Info?
    ensures IdMap(es + [e, Info(e.id)]) == IdMap(es)[e.id := e]
    ensures LeafOf(es + [e, Info(e.id)]) == Some(e.id)
  {
    var all := es + [e, Info(e.id)];
    assert all[..|all| - 1] == es + [e];
    assert (es + [e])[..|es|] == es;
  }

  /** Adding an entry that no walk can meet leaves every walk alone. */
  lemma {:induction false} WalkIgnoresFreshEntry(m: map<string, SessionEntry>, e: SessionEntry, cur: Option<string>,
                                                 n: nat)
    requires EndsIn(m, cur, n) && !e.Info? && cur != Some(e.id)
    requires forall id :: id in m ==> ParentOf(m[id]) != Some(e.id)
    ensures EndsIn(m[e.id := e], cur, n) && Walk(m[e.id := e], cur, n) == Walk(m, cur, n)
    decreases n
  {
    if !AtRoot(m, cur) {
      WalkIgnoresFreshEntry(m, e, ParentOf(m[cur.value]), n - 1);
    }
  }

  lemma HasIdConcat(a: seq<SessionEntry>, b: seq<SessionEntry>, id: string)
    ensures HasId(a + b, id) <==> HasId(a, id) || HasId(b, id)
  {
    if HasId(a, id) {
      var i :| 0 <= i < |a| && EntryId(a[i]) == Some(id);
      assert (a + b)[i] == a[i];
    } else if HasId(b, id) {
      var i :| 0 <= i < |b| && EntryId(b[i]) == Some(id);
      assert (a + b)[|a| + i] == b[i];
    }
  }

  lemma FreshIdHasNoChildren(es: seq<SessionEntry>, id: string, k: string)
    requires Good(es) && !HasId(es, id) && k in IdMap(es)
    ensures ParentOf(IdMap(es)[k]) != Some(id)
  {
    IdMapDomain(es, k);
    var i :| 0 <= i < |es| && es[i] == IdMap(es)[k];
    if ParentOf(es[i]).Some? {
      assert es == es[..i] + es[i..];
      HasIdConcat(es[..i], es[i..], ParentOf(es[i]).value);
    }
  }

  lemma WritingKeepsGood(es: seq<SessionEntry>, w: SessionEntry)
    requires Good(es) && w.Message? && !HasId(es, w.id)
    requires w.parent.Some? ==> HasId(es, w.parent.value)
    ensures Good(es + [w, Info(w.id)])
  {
    var all := es + [w, Info(w.id)];
    AppendedIdMap(es, w);
    assert all[|es|] == w;
    forall i | 0 <= i < |all| && ParentOf(all[i]).Some? ensures HasId(all[..i], ParentOf(all[i]).value) {
      if i < |es| {
        assert all[..i] == es[..i];
      } else {
        assert all[..i] == es;
      }
    }
    forall i, j | 0 <= i < j < |all| && EntryId(all[i]).Some? ensures EntryId(all[i]) != EntryId(all[j]) {
      if j == |es| { assert EntryId(es[i]) == EntryId(all[i]); }
    }
  }

  /** The branch after writing `w` is the chain of its parent, then `w`. */
  lemma WritingExtendsWalk(es: seq<SessionEntry>, w: SessionEntry)
    requires Good(es) && w.Message? && !HasId(es, w.id)
    requires w.parent.Some? ==> HasId(es, w.parent.value)
    ensures EndsIn(IdMap(es), w.parent, |es|)
    ensures Terminates(es + [w, Info(w.id)])
    ensures Branch(es + [w, Info(w.id)]) == Walk(IdMap(es), w.parent, |es|) + [w]
  {
    hide Good, Branch, Terminates;
    var all := es + [w, Info(w.id)];
    var n: nat := |es|;
    WalkFromExistingEnds(es, w.parent);
    forall k | k in IdMap(es) ensures ParentOf(IdMap(es)[k]) != Some(w.id) {
      FreshIdHasNoChildren(es, w.id, k);
    }
    hide HasId, IdMap;
    WalkIgnoresFreshEntry(IdMap(es), w, w.parent, n);
    AppendedIdMap(es, w);
    assert EndsIn(IdMap(all), LeafOf(all), n + 1);
    BranchIs(all, n + 1);
  }

  /** Appending keeps reachable states reachable and extends the branch: by exactly the new entry when
      it is linked to the leaf, and otherwise the branch forks at the parent the caller named. */
  lemma AppendExtendsBranch(es: seq<SessionEntry>, e: SessionEntry)
    requires Good(es) && Appendable(es, e)
    ensures var w, es' := Linked(e, LeafOf(es)), AppendEntry(es, e);
      && Good(es') && Terminates(es) && Terminates(es') && LeafOf(es') == Some(e.id)
      && EndsIn(IdMap(es), w.parent, |es|)
      && Branch(es') == Walk(IdMap(es), w.parent, |es|) + [w]
      && (e.parent.None? || e.parent == LeafOf(es) ==> Branch(es') == Branch(es) + [w])
  {
    var w := Linked(e, LeafOf(es));
    WritingKeepsGood(es, w);
    WritingExtendsWalk(es, w);
    AppendedIdMap(es, w);
    GoodTerminates(es);
    BranchIs(es, |es|);
  }

  // -------------------------------------------------------------------------
  // Compact
  // -------------------------------------------------------------------------

  function RedactionMarker(bytes: nat): string {
    "[redacted during compaction: " + DecimalOf(bytes) + " bytes \U{2014} see preceding compaction summary]"
  }

  function DecimalOf(n: nat): string {
    if n < 10 then ["0123456789"[n]] else DecimalOf(n / 10) + ["0123456789"[n % 10]]
  }

  function Redact(content: string, cap: Option<nat>): string {
    if cap.Some? && |content| > cap.value then RedactionMarker(|content|) else content
  }

  /** A kept entry as rewritten; the first one is re-parented onto the compaction. */
  function KeptEntry(e: SessionEntry, first: bool, lastId: string, cap: Option<nat>): SessionEntry {
    if e.Message? then e.(parent := if first then Some(lastId) else e.parent, content := Redact(e.content, cap))
    else e
  }

  /** The lines of the kept entries from position `i` on. */
  function KeptLines(kept: seq<SessionEntry>, i: nat, lastId: string, cap: Option<nat>): seq<SessionEntry>
    requires i <= |kept|
    decreases |kept| - i
  {
    if i == |kept| then [] else
    var r := KeptEntry(kept[i], i == 0, lastId, cap);
    var next := if r.Info? then lastId else r.id;
    [r, Info(next)] + KeptLines(kept, i + 1, next, cap)
  }

  function FirstKeptId(kept: seq<SessionEntry>): string {
    if kept == [] || kept[0].Info? then "" else kept[0].id
  }

  function CompactionEntry(branch: seq<SessionEntry>, summary: string, keepRecent: nat, id: string): SessionEntry
    requires |branch| > keepRecent
  {
    var split := |branch| - keepRecent;
    Compaction(id, None, summary, FirstKeptId(branch[split..]), split)
  }

  /** The rewritten file, or none when there is nothing to compact. */
  function CompactedFile(branch: seq<SessionEntry>, summary: string, keepRecent: nat, cap: Option<nat>, id: string)
    : Option<seq<SessionEntry>>
  {
    if |branch| <= keepRecent then None
    else Some([CompactionEntry(branch, summary, keepRecent, id), Info(id)]
              + KeptLines(branch[|branch| - keepRecent..], 0, id, cap))
  }

  ghost function CompactEntries(es: seq<SessionEntry>, summary: string, keepRecent: nat, cap: Option<nat>, id: string)
    : seq<SessionEntry>
    requires Terminates(es)
  {
    match CompactedFile(Branch(es), summary, keepRecent, cap, id)
    case Some(file) => file
    case None => es
  }

  /** The kept entries as they stand on the branch afterwards. */
  function KeptBranch(kept: seq<SessionEntry>, id: string, cap: Option<nat>): (r: seq<SessionEntry>)
    ensures |r| == |kept|
  {
    seq(|kept|, i requires 0 <= i < |kept| => KeptEntry(kept[i], i == 0, id, cap))
  }

  /** A run of messages, each linked to the one before, that can follow the entry `lastId`. */
  ghost predicate Followable(kept: seq<SessionEntry>, i: nat, lastId: string) {
    && i <= |kept|
    && (forall k :: 0 <= k < |kept| ==> kept[k].Message?)
    && DistinctIds(kept)
    && (forall k :: 0 < k < |kept| ==> kept[k].parent == Some(kept[k - 1].id))
    && (i > 0 ==> lastId == kept[i - 1].id)
  }

  lemma StillFresh(file: seq<SessionEntry>, r: SessionEntry, id: string)
    requires !HasId(file, id) && !r.Info? && r.id != id
    ensures !HasId(file + [r, Info(r.id)], id)
  {
    HasIdConcat(file, [r, Info(r.id)], id);
  }

  /** Writing one kept entry behind a reachable file is an append onto its leaf. */
  lemma KeptEntryIsAppended(file: seq<SessionEntry>, kept: seq<SessionEntry>, i: nat, lastId: string, cap: Option<nat>)
    requires Good(file) && LeafOf(file) == Some(lastId) && Followable(kept, i, lastId) && i < |kept|
    requires !HasId(file, kept[i].id)
    ensures var r := KeptEntry(kept[i], i == 0, lastId, cap);
      && r.Message? && r.id == kept[i].id
      && Good(file + [r, Info(r.id)]) && LeafOf(file + [r, Info(r.id)]) == Some(r.id)
      && Terminates(file) && Terminates(file + [r, Info(r.id)])
      && Branch(file + [r, Info(r.id)]) == Branch(file) + [r]
  {
    var r := KeptEntry(kept[i], i == 0, lastId, cap);
    assert r.parent == Some(lastId);
    AppendExtendsBranch(file, r);
  }

  lemma KeptBranchStep(kept: seq<SessionEntry>, i: nat, lastId: string, cap: Option<nat>)
    requires Followable(kept, i, lastId) && i < |kept|
    ensures var r := KeptEntry(kept[i], i == 0, lastId, cap);
      && KeptLines(kept, i, lastId, cap) == [r, Info(r.id)] + KeptLines(kept, i + 1, r.id, cap)
      && KeptBranch(kept, lastId, cap)[i..] == [r] + KeptBranch(kept, r.id, cap)[i + 1..]
  {
    var r := KeptEntry(kept[i], i == 0, lastId, cap);
    var a, b := KeptBranch(kept, lastId, cap), KeptBranch(kept, r.id, cap);
    assert a[i] == r;
    assert forall k :: i + 1 <= k < |kept| ==> a[k] == b[k];
    assert a[i..] == [a[i]] + a[i + 1..];
  }

  /** Writing all the kept lines is a series of such appends. */
  lemma {:induction false} KeptLinesExtendBranch(file: seq<SessionEntry>, kept: seq<SessionEntry>, i: nat,
                                                 lastId: string, cap: Option<nat>)
    requires Good(file) && LeafOf(file) == Some(lastId) && Followable(kept, i, lastId)
    requires forall k :: i <= k < |kept| ==> !HasId(file, kept[k].id)
    ensures var file' := file + KeptLines(kept, i, lastId, cap);
      && Good(file') && Terminates(file) && Terminates(file')
      && Branch(file') == Branch(file) + KeptBranch(kept, lastId, cap)[i..]
    decreases |kept| - i
  {
    hide Good, Terminates, Branch, KeptEntry, KeptBranch, HasId, LeafOf;
    if i == |kept| {
      GoodTerminates(file);
      assert file + KeptLines(kept, i, lastId, cap) == file;
    } else {
      KeptEntryIsAppended(file, kept, i, lastId, cap);
      KeptBranchStep(kept, i, lastId, cap);
      var r := KeptEntry(kept[i], i == 0, lastId, cap);
      var longer := file + [r, Info(r.id)];
      forall k | i + 1 <= k < |kept| ensures !HasId(longer, kept[k].id) {
        assert EntryId(kept[i]) != EntryId(kept[k]);
        StillFresh(file, r, kept[k].id);
      }
      KeptLinesExtendBranch(longer, kept, i + 1, r.id, cap);
      assert file + KeptLines(kept, i, lastId, cap) == longer + KeptLines(kept, i + 1, r.id, cap);
    }
  }

  lemma RootFileIsGood(c: SessionEntry)
    requires c.Compaction? && c.parent.None?
    ensures Good([c, Info(c.id)]) && LeafOf([c, Info(c.id)]) == Some(c.id)
    ensures Terminates([c, Info(c.id)]) && Branch([c, Info(c.id)]) == [c]
    ensures forall id :: HasId([c, Info(c.id)], id) <==> id == c.id
  {
    var file := [c, Info(c.id)];
    assert file == [] + [c, Info(c.id)];
    assert IdMap([]) == map[];
    AppendedIdMap([], c);
    hide IdMap, LeafOf, Branch;
    assert EntryId(file[0]) == Some(c.id);
    assert EndsIn(IdMap(file), LeafOf(file), 1);
    BranchIs(file, 1);
  }

  /** Compacting a reachable session with a fresh id: nothing happens unless the branch is longer than
      `keepRecent`; otherwise the branch becomes one compaction followed by the last `keepRecent` entries
      (long contents redacted, the first one re-parented), and the session stays reachable. */
  lemma CompactKeepsRecentEntries(es: seq<SessionEntry>, summary: string, keepRecent: nat, cap: Option<nat>, id: string)
    requires Good(es) && !HasId(es, id)
    ensures Terminates(es)
    ensures var es' := CompactEntries(es, summary, keepRecent, cap, id);
      var b := Branch(es);
      && Good(es') && Terminates(es')
      && Branch(es') ==
           if |b| <= keepRecent then b
           else [CompactionEntry(b, summary, keepRecent, id)] + KeptBranch(b[|b| - keepRecent..], id, cap)
  {
    GoodBranchIsChain(es);
    var b := Branch(es);
    if |b| > keepRecent {
      var kept := b[|b| - keepRecent..];
      var c := CompactionEntry(b, summary, keepRecent, id);
      var root := [c, Info(id)];
      RootFileIsGood(c);
      forall k | 0 <= k < |kept| ensures kept[k].Message? && !HasId(root, kept[k].id) {
        assert kept[k] == b[|b| - keepRecent + k];
        assert kept[k] in es;
        var i :| 0 <= i < |es| && es[i] == kept[k];
      }
      forall k | 0 < k < |kept| ensures kept[k].parent == Some(kept[k - 1].id) {
        assert kept[k] == b[|b| - keepRecent + k] && kept[k - 1] == b[|b| - keepRecent + k - 1];
      }
      KeptLinesExtendBranch(root, kept, 0, id, cap);
      assert KeptBranch(kept, id, cap)[0..] == KeptBranch(kept, id, cap);
    }
  }

  // -------------------------------------------------------------------------
  // Runs
  // -------------------------------------------------------------------------

  datatype TreeOp =
    | AppendOp(entry: SessionEntry)
    | CompactOp(summary: string, keepRecent: nat, cap: Option<nat>, id: string)

  ghost predicate Legal(es: seq<SessionEntry>, op: TreeOp) {
    match op
    case AppendOp(e) => Appendable(es, e)
    case CompactOp(_, _, _, id) => !HasId(es, id)
  }

  ghost function StepTree(es: seq<SessionEntry>, op: TreeOp): seq<SessionEntry>
  {
    match op
    case AppendOp(e) => AppendEntry(es, e)
    case CompactOp(summary, keepRecent, cap, id) =>
      if Terminates(es) then CompactEntries(es, summary, keepRecent, cap, id) else es
  }

  ghost function RunTree(ops: seq<TreeOp>): seq<SessionEntry> {
    if ops == [] then [] else StepTree(RunTree(ops[..|ops| - 1]), ops[|ops| - 1])
  }

  ghost predicate LegalRun(ops: seq<TreeOp>) {
    ops == [] || (LegalRun(ops[..|ops| - 1]) && Legal(RunTree(ops[..|ops| - 1]), ops[|ops| - 1]))
  }

  /** In every state reached by appends with fresh ids and compactions the walk terminates and the branch
      is one parent chain with a compaction only at index 0. */
  lemma {:induction false} EveryRunHasAChainBranch(ops: seq<TreeOp>)
    requires LegalRun(ops)
    ensures var es := RunTree(ops);
      Good(es) && Terminates(es) && IsChain(Branch(es)) && DistinctIds(Branch(es))
    decreases |ops|
  {
    if ops == [] {
      assert Good([]);
    } else {
      EveryRunHasAChainBranch(ops[..|ops| - 1]);
      var es := RunTree(ops[..|ops| - 1]);
      match ops[|ops| - 1] {
        case AppendOp(e) => AppendExtendsBranch(es, e);
        case CompactOp(summary, keepRecent, cap, id) => CompactKeepsRecentEntries(es, summary, keepRecent, cap, id);
      }
    }
    GoodBranchIsChain(RunTree(ops));
  }

  // -------------------------------------------------------------------------
  // When the walk ends
  // -------------------------------------------------------------------------

  /** The map after an append that may reuse an id. */
  function Rebound(m: map<string, SessionEntry>, w: SessionEntry): map<string, SessionEntry>
    requires w.Message?
  {
    m[w.id := w]
  }

  /** Entries stand under their own ids, and a parent that is named is there. */
  ghost predicate Closed(m: map<string, SessionEntry>) {
    forall k :: k in m ==> EntryId(m[k]) == Some(k) && (ParentOf(m[k]).Some? ==> ParentOf(m[k]).value in m)
  }

  lemma GoodIsClosed(es: seq<SessionEntry>)
    requires Good(es)
    ensures Closed(IdMap(es))
  {
    hide Good, IdMap;
    forall k | k in IdMap(es)
      ensures EntryId(IdMap(es)[k]) == Some(k)
      ensures ParentOf(IdMap(es)[k]).Some? ==> ParentOf(IdMap(es)[k]).value in IdMap(es)
    {
      ParentIsThere(es, k);
    }
  }

  lemma ParentIsThere(es: seq<SessionEntry>, k: string)
    requires Good(es) && k in IdMap(es)
    ensures EntryId(IdMap(es)[k]) == Some(k)
    ensures ParentOf(IdMap(es)[k]).Some? ==> ParentOf(IdMap(es)[k]).value in IdMap(es)
  {
    hide IdMap, DistinctIds, CompactionsAreRoots;
    IdMapDomain(es, k);
    var i :| 0 <= i < |es| && es[i] == IdMap(es)[k] && EntryId(es[i]) == Some(k);
    if ParentOf(es[i]).Some? {
      var p := ParentOf(es[i]).value;
      assert es == es[..i] + es[i..];
      HasIdConcat(es[..i], es[i..], p);
      IdMapDomain(es, p);
    }
  }

  ghost predicate Meets(walk: seq<SessionEntry>, id: string) {
    exists i :: 0 <= i < |walk| && EntryId(walk[i]) == Some(id)
  }

  lemma MeetsSnoc(walk: seq<SessionEntry>, e: SessionEntry, id: string)
    ensures Meets(walk + [e], id) <==> Meets(walk, id) || EntryId(e) == Some(id)
  {
    var longer := walk + [e];
    if Meets(walk, id) {
      var i :| 0 <= i < |walk| && EntryId(walk[i]) == Some(id);
      assert EntryId(longer[i]) == Some(id);
    }
    assert EntryId(longer[|walk|]) == EntryId(e);
  }

  /** A walk that does not meet the written id goes as before. */
  lemma {:induction false} WalkPastStillEnds(m: map<string, SessionEntry>, w: SessionEntry, cur: Option<string>, n: nat)
    requires Closed(m) && w.Message? && EndsIn(m, cur, n) && cur != Some(w.id) && !Meets(Walk(m, cur, n), w.id)
    ensures EndsIn(Rebound(m, w), cur, n)
    decreases n
  {
    hide Meets;
    if !AtRoot(m, cur) {
      var e := m[cur.value];
      MeetsSnoc(Walk(m, ParentOf(e), n - 1), e, w.id);
      if ParentOf(e) == Some(w.id) {
        MeetsSnoc(Walk(m, ParentOf(m[w.id]), n - 2), m[w.id], w.id);
      } else {
        WalkPastStillEnds(m, w, ParentOf(e), n - 1);
      }
    }
  }

  /** A walk that meets the written id comes to the written entry. */
  lemma {:induction false} WalkComesTo(m: map<string, SessionEntry>, w: SessionEntry, cur: Option<string>, n: nat,
                                       k: nat)
    returns (j: nat)
    requires Closed(m) && w.Message? && EndsIn(m, cur, n) && (cur == Some(w.id) || Meets(Walk(m, cur, n), w.id))
    requires EndsIn(Rebound(m, w), cur, k)
    ensures j <= k && EndsIn(Rebound(m, w), Some(w.id), j)
    decreases n
  {
    if cur == Some(w.id) {
      j := k;
    } else {
      var e := m[cur.value];
      MeetsSnoc(Walk(m, ParentOf(e), n - 1), e, w.id);
      j := WalkComesTo(m, w, ParentOf(e), n - 1, k - 1);
    }
  }

  /** An entry whose parents lead to an entry of its own id is walked round for ever. */
  lemma {:induction false} CycleNeverEnds(m: map<string, SessionEntry>, w: SessionEntry, n: nat, k: nat)
    requires Closed(m) && w.Message? && EndsIn(m, w.parent, n)
    requires w.parent == Some(w.id) || Meets(Walk(m, w.parent, n), w.id)
    ensures !EndsIn(Rebound(m, w), Some(w.id), k)
    decreases k
  {
    if EndsIn(Rebound(m, w), Some(w.id), k) {
      var j := WalkComesTo(m, w, w.parent, n, k - 1);
      CycleNeverEnds(m, w, n, j);
    }
  }

  lemma ParentWalkEnds(es: seq<SessionEntry>, cur: Option<string>)
    requires Good(es)
    ensures EndsIn(IdMap(es), cur, |es|)
  {
    if !AtRoot(IdMap(es), cur) {
      IdMapDomain(es, cur.value);
      WalkFromExistingEnds(es, cur);
    }
  }

  /** After appending a message to a reachable session the walk ends exactly when the message is not its own parent
      and no entry on the way from its parent to the root has its id. */
  lemma AppendTerminatesExactlyWithoutCycle(es: seq<SessionEntry>, e: SessionEntry)
    requires Good(es) && e.Message?
    ensures var w := Linked(e, LeafOf(es));
      && EndsIn(IdMap(es), w.parent, |es|)
      && (Terminates(AppendEntry(es, e)) <==> w.parent != Some(e.id) && !Meets(Walk(IdMap(es), w.parent, |es|), e.id))
  {
    hide Good, Closed, Meets, HasId;
    var w, m, n := Linked(e, LeafOf(es)), IdMap(es), |es|;
    var es' := AppendEntry(es, e);
    ParentWalkEnds(es, w.parent);
    GoodIsClosed(es);
    AppendedIdMap(es, w);
    hide IdMap, LeafOf;
    assert IdMap(es') == Rebound(m, w) && LeafOf(es') == Some(w.id);
    if w.parent != Some(e.id) && !Meets(Walk(m, w.parent, n), e.id) {
      WalkPastStillEnds(m, w, w.parent, n);
      assert EndsIn(IdMap(es'), LeafOf(es'), n + 1);
    } else {
      forall k: nat ensures !EndsIn(IdMap(es'), LeafOf(es'), k) {
        CycleNeverEnds(m, w, n, k);
      }
    }
  }

  /** So a message that is its own parent is never walked to an end. */
  lemma SelfParentNeverEnds(es: seq<SessionEntry>, e: SessionEntry)
    requires Good(es) && e.Message? && e.parent == Some(e.id)
    ensures !Terminates(AppendEntry(es, e))
  {
    hide Good, Terminates;
    AppendTerminatesExactlyWithoutCycle(es, e);
  }
}
