/** A chat turn around the agent loop: the history handed to the model, and what is persisted afterwards
    (agent/src/core/gateway.rs, lines 225-281 and 287-367). */
module Gateways {
  import opened Base
  import opened SessionKeys
  import opened CloudCaching
  import opened SessionLog
  import opened SessionEntries
  import opened SessionTree
  import opened SessionHistory
  import opened Sessions
  import opened AgentLoops

  // -------------------------------------------------------------------------
  // From entries to messages and back
  // -------------------------------------------------------------------------

  /** The messages of a branch; compactions are left out. */
  function HistoryOf(branch: seq<SessionEntry>): seq<ChatMessage> {
    if branch == [] then [] else
    var e := branch[|branch| - 1];
    HistoryOf(branch[..|branch| - 1]) + (if e.Message? then [ChatMessage(e.role, e.content, e.toolCalls, e.toolCallId)] else [])
  }

  lemma HistorySnoc(branch: seq<SessionEntry>, e: SessionEntry)
    ensures HistoryOf(branch + [e])
      == HistoryOf(branch) + (if e.Message? then [ChatMessage(e.role, e.content, e.toolCalls, e.toolCallId)] else [])
  {
    assert (branch + [e])[..|branch|] == branch;
  }

  /** A message as a session entry, still without a parent. */
  function EntryOf(m: ChatMessage, id: string): SessionEntry {
    Message(id, None, m.role, m.content, m.toolCalls, m.toolCallId)
  }

  /** System messages are advice for one turn and not persisted; nor is a message whose append fails. */
  predicate Kept(m: ChatMessage, i: nat, ok: nat -> bool) {
    m.role != System && ok(i)
  }

  function KeptOf(msgs: seq<ChatMessage>, ok: nat -> bool): seq<ChatMessage> {
    if msgs == [] then [] else
    var k := |msgs| - 1;
    KeptOf(msgs[..k], ok) + (if Kept(msgs[k], k, ok) then [msgs[k]] else [])
  }

  /** The session's entries once the messages are appended. */
  function Persisted(es: seq<SessionEntry>, msgs: seq<ChatMessage>, ids: nat -> string,
                     ok: nat -> bool): seq<SessionEntry> {
    if msgs == [] then es else
    var k := |msgs| - 1;
    var before := Persisted(es, msgs[..k], ids, ok);
    if Kept(msgs[k], k, ok) then AppendEntry(before, EntryOf(msgs[k], ids(k))) else before
  }

  // -------------------------------------------------------------------------
  // What a turn does to the branch
  // -------------------------------------------------------------------------

  /** Ids that are new to the session and to each other. */
  ghost predicate FreshIds(es: seq<SessionEntry>, n: nat, ids: nat -> string) {
    && (forall i: nat :: i < n ==> !HasId(es, ids(i)))
    && (forall i: nat, j: nat :: i < j < n ==> ids(i) != ids(j))
  }

  lemma {:induction false} PersistedIds(es: seq<SessionEntry>, msgs: seq<ChatMessage>, ids: nat -> string,
                                        ok: nat -> bool, id: string)
    requires HasId(Persisted(es, msgs, ids, ok), id)
    ensures HasId(es, id) || exists j: nat :: j < |msgs| && ids(j) == id
    decreases |msgs|
  {
    hide HasId, LeafOf;
    if msgs != [] {
      var k: nat := |msgs| - 1;
      var before := Persisted(es, msgs[..k], ids, ok);
      if HasId(before, id) {
        PersistedIds(es, msgs[..k], ids, ok, id);
      } else {
        var w := Linked(EntryOf(msgs[k], ids(k)), LeafOf(before));
        HasIdConcat(before, [w, Info(w.id)], id);
        OneId(w, id);
        assert ids(k) == id;
      }
    }
  }

  lemma OneId(w: SessionEntry, id: string)
    requires w.Message?
    ensures HasId([w, Info(w.id)], id) <==> w.id == id
  {
    var es := [w, Info(w.id)];
    assert es[0] == w && es[1] == Info(w.id);
    if w.id == id { assert EntryId(es[0]) == Some(id); }
  }

  /** The branch grows by exactly the kept messages, in order: the history rebuilt for the next turn is the old
      one followed by them. */
  lemma {:induction false} BranchGrowsByKept(es: seq<SessionEntry>, msgs: seq<ChatMessage>, ids: nat -> string,
                                             ok: nat -> bool)
    requires Good(es) && FreshIds(es, |msgs|, ids)
    ensures var after := Persisted(es, msgs, ids, ok);
      && Good(after) && Terminates(es) && Terminates(after)
      && Branch(es) <= Branch(after) && |Branch(after)| == |Branch(es)| + |KeptOf(msgs, ok)|
      && HistoryOf(Branch(after)) == HistoryOf(Branch(es)) + KeptOf(msgs, ok)
    decreases |msgs|
  {
    hide Good, Branch, Terminates, HasId, LeafOf, HistoryOf;
    if msgs == [] {
      GoodTerminates(es);
    } else {
      var k: nat := |msgs| - 1;
      var before := Persisted(es, msgs[..k], ids, ok);
      BranchGrowsByKept(es, msgs[..k], ids, ok);
      if Kept(msgs[k], k, ok) {
        var e := EntryOf(msgs[k], ids(k));
        if HasId(before, ids(k)) {
          PersistedIds(es, msgs[..k], ids, ok, ids(k));
          assert false;
        }
        AppendExtendsBranch(before, e);
        var w := Linked(e, LeafOf(before));
        HistorySnoc(Branch(before), w);
        assert ChatMessage(w.role, w.content, w.toolCalls, w.toolCallId) == msgs[k];
        assert (HistoryOf(Branch(es)) + KeptOf(msgs[..k], ok)) + [msgs[k]]
            == HistoryOf(Branch(es)) + (KeptOf(msgs[..k], ok) + [msgs[k]]);
      }
    }
  }

  // -------------------------------------------------------------------------
  // The turn
  // -------------------------------------------------------------------------

  /** The session manager reads the chat as `es`, with room for that many further log files. */
  ghost predicate Holds(sessions: SessionManager, chat: string, es: seq<SessionEntry>, room: nat)
    reads sessions, sessions.cache
  {
    && Faithful(sessions.fmt)
    && (if sessions.cache != null then Faithfully(sessions.fmt, sessions.cache.entries, chat, es, room)
        else WholeLines(sessions.fmt, sessions.Text(chat)) && sessions.Entries(chat) == es)
  }

  /** `append`, which fails without an effect when `ok` is false. */
  method TryAppend(sessions: SessionManager, chat: string, entry: SessionEntry, ok: bool,
                   ghost es: seq<SessionEntry>, ghost room: nat)
    requires Holds(sessions, chat, es, room + 1)
    modifies sessions, sessions.cache
    ensures Holds(sessions, chat, if ok then AppendEntry(es, entry) else es, room)
  {
    hide SessionEntries.Load, LeafOf, InOrder, Whole;
    if sessions.cache != null {
      LessRoom(sessions.fmt, sessions.cache.entries, chat, es, room);
      OrderIsReadable(sessions.cache.entries, chat, room + 1);
    }
    if ok {
      ghost var m := if sessions.cache != null then sessions.cache.entries else map[];
      ghost var text := sessions.Text(chat);
      sessions.Append(chat, entry);
      if sessions.cache != null {
        OwnAppend(sessions.fmt, m, EntryAppend(chat, entry), sessions.logCompactionBytes, es, room);
        assert LinesOf(sessions.fmt, m, EntryAppend(chat, entry)) == Encode(sessions.fmt, AppendedEntries(entry, LeafOf(es)));
      } else {
        EncodedIsWhole(sessions.fmt, AppendedEntries(entry, LeafOf(es)));
        LoadOfEncode(sessions.fmt, AppendedEntries(entry, LeafOf(es)));
        WholeLinesConcat(sessions.fmt, text, Encode(sessions.fmt, AppendedEntries(entry, LeafOf(es))));
      }
    }
  }

  lemma LessRoom(fmt: LineFormat, m: map<Key, Bytes>, chat: string, es: seq<SessionEntry>, room: nat)
    requires Faithfully(fmt, m, chat, es, room + 1)
    ensures Faithfully(fmt, m, chat, es, room)
  {
    hide Load, Whole;
  }

  lemma OrderIsReadable(m: map<Key, Bytes>, chat: string, room: nat)
    requires InOrder(m, chat, room)
    ensures Canonical(m, chat)
  {
  }

  lemma HeldIsReadable(sessions: SessionManager, chat: string, es: seq<SessionEntry>, room: nat)
    requires Holds(sessions, chat, es, room)
    ensures sessions.Readable(chat) && sessions.Entries(chat) == es
  {
    hide SessionEntries.Load, Whole;
  }

  /** The messages of the branch, behind the system prompt. */
  method RebuildHistory(branch: seq<SessionEntry>, systemPrompt: string) returns (messages: seq<ChatMessage>)
    ensures messages == [SystemMessage(systemPrompt)] + HistoryOf(branch)
  {
    messages := [SystemMessage(systemPrompt)];
    assert branch[..0] == [];
    for i := 0 to |branch|
      invariant messages == [SystemMessage(systemPrompt)] + HistoryOf(branch[..i])
    {
      assert branch[..i + 1] == branch[..i] + [branch[i]];
      HistorySnoc(branch[..i], branch[i]);
      var entry := branch[i];
      if entry.Message? {
        messages := messages + [ChatMessage(entry.role, entry.content, entry.toolCalls, entry.toolCallId)];
      }
    }
    assert branch[..|branch|] == branch;
  }

  /** The opening of a turn: the model gets the system prompt, the branch's messages and the user's message, which
      is appended to the session as well. */
  method OpenTurn(sessions: SessionManager, chat: string, systemPrompt: string, text: string, id: string, ok: bool,
                  ghost es: seq<SessionEntry>, ghost room: nat)
    returns (messages: seq<ChatMessage>)
    requires Holds(sessions, chat, es, room + 1) && Terminates(es)
    modifies sessions, sessions.cache
    ensures var user := ChatMessage(User, text, None, None);
      && messages == [SystemMessage(systemPrompt)] + HistoryOf(Branch(es)) + [user]
      && Holds(sessions, chat, if ok then AppendEntry(es, EntryOf(user, id)) else es, room)
  {
    HeldIsReadable(sessions, chat, es, room + 1);
    hide Branch, Holds, AppendEntry, HistoryOf, Terminates, SessionEntries.Load, LeafOf;
    var branch := sessions.GetBranch(chat);
    messages := RebuildHistory(branch, systemPrompt);
    var user := ChatMessage(User, text, None, None);
    messages := messages + [user];
    TryAppend(sessions, chat, EntryOf(user, id), ok, es, room);
  }

  /** The close of a turn whose loop replied: every new message except system messages is appended. */
  method CloseTurn(sessions: SessionManager, chat: string, messages: seq<ChatMessage>, before: nat,
                   ids: nat -> string, ok: nat -> bool, ghost es: seq<SessionEntry>, ghost room: nat)
    returns (persisted: nat)
    requires before <= |messages| && Holds(sessions, chat, es, room + |messages| - before)
    modifies sessions, sessions.cache
    ensures Holds(sessions, chat, Persisted(es, messages[before..], ids, ok), room)
    ensures persisted == |KeptOf(messages[before..], ok)|
  {
    hide Holds, AppendEntry;
    ghost var msgs := messages[before..];
    persisted := 0;
    assert msgs[..0] == [];
    for i := before to |messages|
      invariant Holds(sessions, chat, Persisted(es, msgs[..i - before], ids, ok), room + |messages| - i)
      invariant persisted == |KeptOf(msgs[..i - before], ok)|
    {
      var k: nat := i - before;
      assert msgs[..k + 1][..k] == msgs[..k] && msgs[..k + 1][k] == messages[i];
      var msg := messages[i];
      if msg.role == System {
        HoldsLess(sessions, chat, Persisted(es, msgs[..k], ids, ok), room + |messages| - i - 1);
        continue;
      }
      TryAppend(sessions, chat, EntryOf(msg, ids(k)), ok(k), Persisted(es, msgs[..k], ids, ok), room + |messages| - i - 1);
      if ok(k) {
        persisted := persisted + 1;
      }
    }
    assert msgs[..|msgs|] == msgs;
  }

  lemma HoldsLess(sessions: SessionManager, chat: string, es: seq<SessionEntry>, room: nat)
    requires Holds(sessions, chat, es, room + 1)
    ensures Holds(sessions, chat, es, room)
  {
    hide SessionEntries.Load, InOrder, Whole;
    if sessions.cache != null {
      LessRoom(sessions.fmt, sessions.cache.entries, chat, es, room);
    }
  }

  /** A whole turn: the branch grows by the user's message and every message the loop appended except system
      messages, as far as their appends succeed, so the next turn's model is shown exactly that. */
  lemma TurnsAreRemembered(es: seq<SessionEntry>, text: string, id: string, w: World, log: seq<Beat>,
                           ids: nat -> string, ok: nat -> bool)
    requires AllComplete(log) && Good(es)
    requires !HasId(es, id) && FreshIds(es, |MessagesOf(w, log)|, ids)
    requires forall i: nat :: i < |MessagesOf(w, log)| ==> ids(i) != id
    ensures var user := ChatMessage(User, text, None, None);
      var closed := Persisted(AppendEntry(es, EntryOf(user, id)), MessagesOf(w, log), ids, ok);
      && Terminates(es) && Terminates(closed) && Good(closed)
      && HistoryOf(Branch(closed)) == HistoryOf(Branch(es)) + [user] + KeptOf(MessagesOf(w, log), ok)
  {
    hide Good, Branch, Terminates, LeafOf, HistoryOf, MessagesOf, KeptOf, Persisted, HasId;
    var user := ChatMessage(User, text, None, None);
    var e := EntryOf(user, id);
    AppendExtendsBranch(es, e);
    var begun := AppendEntry(es, e);
    var linked := Linked(e, LeafOf(es));
    HistorySnoc(Branch(es), linked);
    forall i: nat | i < |MessagesOf(w, log)| ensures !HasId(begun, ids(i)) {
      HasIdConcat(es, [linked, Info(linked.id)], ids(i));
      OneId(linked, ids(i));
    }
    BranchGrowsByKept(begun, MessagesOf(w, log), ids, ok);
  }
}
