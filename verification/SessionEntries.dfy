/** Session entries and their lines (agent/src/core/sessions/mod.rs, lines 16-61 and 442-469). */
module SessionEntries {
  import opened Base
  import opened Text

  datatype Role = System | User | Assistant | Tool

  datatype ToolCall = ToolCall(id: string, name: string, arguments: string, extraContent: Option<string>)

  datatype SessionEntry =
    | Message(id: string, parent: Option<string>, role: Role, content: string,
              toolCalls: Option<seq<ToolCall>>, toolCallId: Option<string>)
    | Compaction(id: string, parent: Option<string>, summary: string,
                 firstKeptEntryId: string, tokensBefore: nat)
    | Info(leafId: string)

  function EntryId(e: SessionEntry): Option<string> {
    if e.Info? then None else Some(e.id)
  }

  function ParentOf(e: SessionEntry): Option<string> {
    if e.Info? then None else e.parent
  }

  // -------------------------------------------------------------------------
  // Lines
  // -------------------------------------------------------------------------

  /** The line serializer and parser; the JSON library itself is a parameter. */
  datatype LineFormat = LineFormat(ser: SessionEntry -> string, parse: string -> Option<SessionEntry>)

  /** One entry is one line holding one JSON object, and parses back to itself. */
  ghost predicate Faithful(fmt: LineFormat) {
    forall e: SessionEntry :: RoundTrips(fmt, e)
  }

  ghost predicate RoundTrips(fmt: LineFormat, e: SessionEntry) {
    IsObjectLine(fmt.ser(e)) && fmt.parse(fmt.ser(e)) == Some(e)
  }

  predicate IsObjectLine(s: string) {
    |s| >= 2 && s[0] == '{' && s[|s| - 1] == '}' && '\n' !in s
  }

  function NewlineAt(text: string): (i: nat)
    ensures i <= |text| && (i < |text| ==> text[i] == '\n')
    ensures forall j :: 0 <= j < i ==> text[j] != '\n'
  {
    if text == "" || text[0] == '\n' then 0 else 1 + NewlineAt(text[1..])
  }

  /** Blank lines are skipped, and so are malformed ones. */
  function LoadLine(fmt: LineFormat, line: string): seq<SessionEntry> {
    var t := Trim(line);
    if t == "" then [] else
    match fmt.parse(t)
    case Some(e) => [e]
    case None => []
  }

  function Load(fmt: LineFormat, text: Bytes): seq<SessionEntry>
    decreases |text|
  {
    if text == "" then [] else
    var i := NewlineAt(text);
    if i == |text| then LoadLine(fmt, text) else LoadLine(fmt, text[..i]) + Load(fmt, text[i + 1..])
  }

  function Encode(fmt: LineFormat, es: seq<SessionEntry>): Bytes {
    if es == [] then "" else fmt.ser(es[0]) + "\n" + Encode(fmt, es[1..])
  }

  lemma {:induction false} EncodeConcat(fmt: LineFormat, a: seq<SessionEntry>, b: seq<SessionEntry>)
    ensures Encode(fmt, a + b) == Encode(fmt, a) + Encode(fmt, b)
  {
    if a == [] {
      assert a + b == b;
    } else {
      EncodeConcat(fmt, a[1..], b);
      assert (a + b)[1..] == a[1..] + b && (a + b)[0] == a[0];
    }
  }

  lemma LoadFirstLine(fmt: LineFormat, line: string, tail: Bytes)
    requires '\n' !in line
    ensures Load(fmt, line + "\n" + tail) == LoadLine(fmt, line) + Load(fmt, tail)
  {
    var text := line + "\n" + tail;
    assert text[|line|] == '\n' && text[..|line|] == line && text[|line| + 1..] == tail;
    assert forall j :: 0 <= j < |line| ==> text[j] == line[j];
    assert NewlineAt(text) == |line|;
  }

  lemma LoadWrittenLine(fmt: LineFormat, e: SessionEntry)
    requires Faithful(fmt)
    ensures '\n' !in fmt.ser(e) && LoadLine(fmt, fmt.ser(e)) == [e]
  {
    assert RoundTrips(fmt, e);
  }

  lemma LoadWrittenFirst(fmt: LineFormat, e: SessionEntry, es: seq<SessionEntry>, rest: Bytes)
    requires Faithful(fmt)
    ensures Load(fmt, Encode(fmt, [e] + es) + rest) == [e] + Load(fmt, Encode(fmt, es) + rest)
  {
    LoadWrittenLine(fmt, e);
    assert ([e] + es)[1..] == es;
    var tail := Encode(fmt, es) + rest;
    assert Encode(fmt, [e] + es) + rest == fmt.ser(e) + "\n" + tail;
    LoadFirstLine(fmt, fmt.ser(e), tail);
  }

  /** Written entries load back, in order, in front of whatever follows them. */
  lemma {:induction false} LoadAfterEncode(fmt: LineFormat, es: seq<SessionEntry>, rest: Bytes)
    requires Faithful(fmt)
    ensures Load(fmt, Encode(fmt, es) + rest) == es + Load(fmt, rest)
    decreases |es|
  {
    hide Load;
    if es == [] {
      assert Encode(fmt, es) + rest == rest;
    } else {
      LoadAfterEncode(fmt, es[1..], rest);
      LoadWrittenFirst(fmt, es[0], es[1..], rest);
      assert [es[0]] + es[1..] == es;
    }
  }

  lemma LoadOfEncode(fmt: LineFormat, es: seq<SessionEntry>)
    requires Faithful(fmt)
    ensures Load(fmt, Encode(fmt, es)) == es
  {
    LoadAfterEncode(fmt, es, "");
    assert Encode(fmt, es) + "" == Encode(fmt, es);
  }

  /** Text made of whole entry lines. */
  ghost predicate WholeLines(fmt: LineFormat, text: Bytes) {
    text == Encode(fmt, Load(fmt, text))
  }

  lemma WholeLinesConcat(fmt: LineFormat, a: Bytes, b: Bytes)
    requires Faithful(fmt) && WholeLines(fmt, a) && WholeLines(fmt, b)
    ensures WholeLines(fmt, a + b) && Load(fmt, a + b) == Load(fmt, a) + Load(fmt, b)
  {
    LoadAfterEncode(fmt, Load(fmt, a), b);
    EncodeConcat(fmt, Load(fmt, a), Load(fmt, b));
  }

  lemma EncodedIsWhole(fmt: LineFormat, es: seq<SessionEntry>)
    requires Faithful(fmt)
    ensures WholeLines(fmt, Encode(fmt, es))
  {
    LoadOfEncode(fmt, es);
  }
}
