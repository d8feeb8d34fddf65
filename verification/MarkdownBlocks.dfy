/** Markdown blocks as Telegram HTML, up to the chunks that are sent
    (agent/src/core/channels/markdown_html.rs, lines 205-262, 352-452 and 608-612). */
module MarkdownBlocks {
  import opened Base
  import opened Text
  import opened HtmlTokens
  import opened HtmlTexts
  import opened HtmlNesting
  import opened MarkdownInline
  import opened MarkdownTables
  import opened SplitBlocks
  import opened ChunksOfBlocks
  import Numbers = SessionKeys

  const TELEGRAM_LIMIT: nat := 4096
  const U64_MODULUS: nat := 0x1_0000_0000_0000_0000

  /** How deep the tags of a block nest: inline rendering stops at 32, a heading adds two. */
  const MAX_TAGS: nat := 34

  // -------------------------------------------------------------------------
  // Line forms
  // -------------------------------------------------------------------------

  /** `str::lines`: a line feed ends a line and takes one carriage return with it. */
  function Lines(s: string): seq<string>
    decreases |s|
  {
    if s == "" then [] else
    var j := IndexFrom(s, '\n', 0);
    if j == |s| then [s] else
    [if j > 0 && s[j - 1] == '\r' then s[..j - 1] else s[..j]] + Lines(s[j + 1..])
  }

  predicate IsFence(line: string) {
    "```" <= TrimStart(line)
  }

  /** The language behind an opening fence; empty when there is none. */
  function FenceLang(line: string): string
    requires IsFence(line)
  {
    Trim(TrimStart(line)[3..])
  }

  function CountHashes(line: string): (n: nat)
    ensures n <= |line|
  {
    if line != "" && line[0] == '#' then 1 + CountHashes(line[1..]) else 0
  }

  /** Level and text of an ATX heading. */
  function Heading(line: string): Option<(nat, string)> {
    var level := CountHashes(line);
    if 1 <= level <= 6 && level < |line| && line[level] == ' ' then Some((level, TrimStart(line[level..]))) else None
  }

  function Utf8Length(c: char): nat {
    if c as int < 0x80 then 1 else if c as int < 0x800 then 2 else if c as int < 0x10000 then 3 else 4
  }

  /** Leading whitespace, counted in bytes. */
  function IndentBytes(line: string): nat {
    if line != "" && IsWhitespace(line[0]) then Utf8Length(line[0]) + IndentBytes(line[1..]) else 0
  }

  function LeadingDigits(s: string): (d: string)
    ensures |d| <= |s| && d == s[..|d|] && Numbers.AllDigits(d)
  {
    if s != "" && Numbers.IsDigit(s[0]) then [s[0]] + LeadingDigits(s[1..]) else ""
  }

  /** Bullet and text of a list item behind its indent. */
  function ListItem(line: string): Option<(string, string)> {
    var t := TrimStart(line);
    if "- " <= t || "* " <= t || "+ " <= t then Some(("\U{2022} ", t[2..])) else
    var digits := LeadingDigits(t);
    if digits != "" && ". " <= t[|digits|..] && Numbers.Value(digits) < U64_MODULUS then
      Some((Numbers.Decimal(Numbers.Value(digits)) + ". ", t[|digits| + 2..]))
    else None
  }

  predicate IsQuote(line: string) {
    line != "" && line[0] == '>'
  }

  function QuoteText(line: string): string
    requires IsQuote(line)
  {
    if "> " <= line then line[2..] else line[1..]
  }

  // -------------------------------------------------------------------------
  // Blocks
  // -------------------------------------------------------------------------

  function FenceEnd(lines: seq<string>, i: nat): (e: nat)
    requires i <= |lines|
    ensures i <= e <= |lines|
    decreases |lines| - i
  {
    if i == |lines| || IsFence(lines[i]) then i else FenceEnd(lines, i + 1)
  }

  /** The lines of a fence, each with its line feed. */
  function FenceBody(lines: seq<string>): string {
    if lines == [] then "" else FenceBody(lines[..|lines| - 1]) + lines[|lines| - 1] + "\n"
  }

  function FenceHtml(lang: string, body: string): string {
    var code := Escaped(body, TEXT);
    "<pre>" + (if lang == "" then code else LangTag(lang) + code + "</code>") + "</pre>"
  }

  function LangTag(lang: string): string {
    "<code class=\"language-" + Escaped(lang, TEXT) + "\">"
  }

  function QuoteEnd(lines: seq<string>, i: nat): (e: nat)
    requires i <= |lines|
    ensures i <= e <= |lines|
    ensures forall k :: i <= k < e ==> IsQuote(lines[k])
    ensures e < |lines| ==> !IsQuote(lines[e])
    ensures i < |lines| && IsQuote(lines[i]) ==> i < e
    decreases |lines| - i
  {
    if i < |lines| && IsQuote(lines[i]) then QuoteEnd(lines, i + 1) else i
  }

  function QuoteLines(lines: seq<string>, alnum: char -> bool): (r: seq<string>)
    requires forall k :: 0 <= k < |lines| ==> IsQuote(lines[k])
    ensures |r| == |lines| && forall k :: 0 <= k < |r| ==> r[k] == Inline(QuoteText(lines[k]), 0, alnum)
  {
    seq(|lines|, (k: nat) requires k < |lines| => Inline(QuoteText(lines[k]), 0, alnum))
  }

  /** What one pass of the loop emits, and the line it goes on with. */
  datatype Block = Block(html: Option<string>, next: nat)

  predicate StartsTable(lines: seq<string>, i: nat)
    requires i < |lines|
  {
    IsTableRow(lines[i]) && i + 1 < |lines| && IsTableSeparator(lines[i + 1])
  }

  function HeadingHtml(level: nat, text: string, alnum: char -> bool): string {
    if level <= 2 then "<u><b>" + Inline(text, 0, alnum) + "</b></u>" else "<b>" + Inline(text, 0, alnum) + "</b>"
  }

  function BlockAt(lines: seq<string>, i: nat, alnum: char -> bool): (b: Block)
    requires i < |lines|
    ensures i < b.next
  {
    var line := lines[i];
    if IsFence(line) then
      var e := FenceEnd(lines, i + 1);
      Block(Some(FenceHtml(FenceLang(line), FenceBody(lines[i + 1..e]))), e + 1)
    else if StartsTable(lines, i) then
      var consumed := TableEnd(lines[i..], 2);
      Block(Some(TableHtml(TableRows(lines[i..], consumed))), i + consumed)
    else if Heading(line).Some? then
      var (level, text) := Heading(line).value;
      Block(Some(HeadingHtml(level, text, alnum)), i + 1)
    else if IsQuote(line) then
      var e := QuoteEnd(lines, i);
      Block(Some("<blockquote>" + JoinWith(QuoteLines(lines[i..e], alnum), "\n") + "</blockquote>"), e)
    else if ListItem(line).Some? then
      var (bullet, text) := ListItem(line).value;
      Block(Some(Spaces(IndentBytes(line)) + bullet + Inline(text, 0, alnum)), i + 1)
    else if Trim(line) == "" then Block(None, i + 1)
    else Block(Some(Inline(line, 0, alnum)), i + 1)
  }

  function BlocksFrom(lines: seq<string>, i: nat, alnum: char -> bool): seq<string>
    decreases |lines| - i
  {
    if i >= |lines| then [] else
    var b := BlockAt(lines, i, alnum);
    (if b.html.Some? then [b.html.value] else []) + BlocksFrom(lines, b.next, alnum)
  }

  function Blocks(md: string, alnum: char -> bool): seq<string> {
    BlocksFrom(Lines(md), 0, alnum)
  }

  // -------------------------------------------------------------------------
  // The loops
  // -------------------------------------------------------------------------

  /** The lines up to the closing fence. */
  method CollectFence(lines: seq<string>, i: nat) returns (body: string, e: nat)
    requires i <= |lines|
    ensures e == FenceEnd(lines, i) && body == FenceBody(lines[i..e])
  {
    hide IsFence;
    body := "";
    e := i;
    assert lines[i..i] == [];
    while e < |lines| && !IsFence(lines[e])
      invariant i <= e <= |lines|
      invariant FenceEnd(lines, i) == FenceEnd(lines, e)
      invariant body == FenceBody(lines[i..e])
    {
      assert lines[i..e + 1][..e - i] == lines[i..e];
      body := body + lines[e] + "\n";
      e := e + 1;
    }
  }

  method RenderFence(lines: seq<string>, i: nat) returns (html: string, next: nat)
    requires i < |lines| && IsFence(lines[i])
    ensures next == FenceEnd(lines, i + 1) + 1
    ensures html == FenceHtml(FenceLang(lines[i]), FenceBody(lines[i + 1..FenceEnd(lines, i + 1)]))
  {
    hide IsFence, Escaped, FenceLang, FenceEnd, FenceBody;
    var lang := FenceLang(lines[i]);
    var body, end := CollectFence(lines, i + 1);
    next := end + 1;
    var block := Escape(body);
    if lang != "" {
      var l := Escape(lang);
      block := "<code class=\"language-" + l + "\">" + block + "</code>";
    }
    html := "<pre>" + block + "</pre>";
  }

  method RenderQuote(lines: seq<string>, i: nat, alnum: char -> bool) returns (html: string, next: nat)
    requires i < |lines| && IsQuote(lines[i])
    ensures next == QuoteEnd(lines, i)
    ensures html == "<blockquote>" + JoinWith(QuoteLines(lines[i..next], alnum), "\n") + "</blockquote>"
  {
    hide IsQuote, Inline, QuoteText;
    var body := "";
    var first := true;
    next := i;
    assert QuoteLines(lines[i..i], alnum) == [];
    while next < |lines| && IsQuote(lines[next])
      invariant i <= next <= |lines|
      invariant QuoteEnd(lines, i) == QuoteEnd(lines, next)
      invariant forall k :: i <= k < next ==> IsQuote(lines[k])
      invariant first <==> next == i
      invariant body == JoinWith(QuoteLines(lines[i..next], alnum), "\n")
    {
      var done := QuoteLines(lines[i..next], alnum);
      var t := QuoteText(lines[next]);
      var shown := RenderInline(t, alnum);
      assert QuoteLines(lines[i..next + 1], alnum) == done + [shown];
      JoinAdd(done, shown, "\n");
      if !first {
        body := body + "\n";
      }
      body := body + shown;
      first := false;
      next := next + 1;
    }
    html := "<blockquote>" + body + "</blockquote>";
  }

  /** The branches of the block loop. */
  method RenderBlock(lines: seq<string>, i: nat, alnum: char -> bool) returns (b: Block)
    requires i < |lines|
    ensures b == BlockAt(lines, i, alnum)
  {
    hide IsFence, IsTableRow, IsTableSeparator, Heading, IsQuote, ListItem, Trim, Inline, FenceEnd, FenceHtml,
      FenceBody,
      FenceLang, TableEnd, TableHtml, TableRows, QuoteEnd, QuoteLines, JoinWith, IndentBytes, Spaces;
    var line := lines[i];
    if IsFence(line) {
      var html, next := RenderFence(lines, i);
      return Block(Some(html), next);
    }
    if IsTableRow(line) && i + 1 < |lines| && IsTableSeparator(lines[i + 1]) {
      var html, consumed := RenderTable(lines[i..]);
      return Block(Some(html), i + consumed);
    }
    if Heading(line).Some? {
      var (level, text) := Heading(line).value;
      var inner := RenderInline(text, alnum);
      return Block(Some(if level <= 2 then "<u><b>" + inner + "</b></u>" else "<b>" + inner + "</b>"), i + 1);
    }
    if IsQuote(line) {
      var html, next := RenderQuote(lines, i, alnum);
      return Block(Some(html), next);
    }
    if ListItem(line).Some? {
      var (bullet, text) := ListItem(line).value;
      var shown := RenderInline(text, alnum);
      return Block(Some(Spaces(IndentBytes(line)) + bullet + shown), i + 1);
    }
    if Trim(line) == "" {
      return Block(None, i + 1);
    }
    var shown := RenderInline(line, alnum);
    return Block(Some(shown), i + 1);
  }

  method RenderBlocks(md: string, alnum: char -> bool) returns (blocks: seq<string>)
    ensures blocks == Blocks(md, alnum)
  {
    hide BlockAt, Lines;
    var lines := Lines(md);
    blocks := [];
    var i := 0;
    while i < |lines|
      invariant blocks + BlocksFrom(lines, i, alnum) == BlocksFrom(lines, 0, alnum)
      decreases |lines| - i
    {
      var b := RenderBlock(lines, i, alnum);
      if b.html.Some? {
        blocks := blocks + [b.html.value];
      }
      i := b.next;
    }
  }

  // -------------------------------------------------------------------------
  // Every block is well formed
  // -------------------------------------------------------------------------

  lemma {:induction false} InlineNests(s: string, depth: nat, alnum: char -> bool)
    requires depth <= MAX_INLINE_DEPTH
    ensures Nests(Inline(s, depth, alnum), MAX_INLINE_DEPTH - depth)
    decreases MAX_INLINE_DEPTH - depth, |s| + 1
  {
    hide Nests;
    if depth >= MAX_INLINE_DEPTH {
      NestsEscaped(s);
    } else {
      InlineFromNests(s, 0, depth, alnum);
    }
  }

  lemma {:induction false} InlineFromNests(s: string, i: nat, depth: nat, alnum: char -> bool)
    requires i <= |s| && depth < MAX_INLINE_DEPTH
    ensures Nests(InlineFrom(s, i, depth, alnum), MAX_INLINE_DEPTH - depth)
    decreases MAX_INLINE_DEPTH - depth, |s| - i
  {
    hide Nests, SpanAt, SpanHtml;
    var most := MAX_INLINE_DEPTH - depth;
    if i == |s| {
      NestsNothing();
      NestsMore("", 0, most);
    } else {
      var span := SpanAt(s, i, alnum);
      SpanIsWithin(s, i, alnum);
      SpanNests(s, i, span, depth, alnum);
      InlineFromNests(s, Behind(span, i), depth, alnum);
      NestsPlus(SpanHtml(s, i, span, depth, alnum), InlineFrom(s, Behind(span, i), depth, alnum), most);
    }
  }

  lemma {:induction false} SpanNests(s: string, i: nat, span: Span, depth: nat, alnum: char -> bool)
    requires i < |s| && depth < MAX_INLINE_DEPTH && SpanWithin(s, i, span)
    ensures Nests(SpanHtml(s, i, span, depth, alnum), MAX_INLINE_DEPTH - depth)
    decreases MAX_INLINE_DEPTH - depth, 0
  {
    hide Nests, Escaped, EscapeChar, Inline, OpenTag, CloseTag, IsOpenTag, CloseFor;
    var most := MAX_INLINE_DEPTH - depth;
    if span.Plain? {
      NestsChar(s[i]);
      NestsMore(EscapeChar(s[i], TEXT), 0, most);
    } else {
      var inner := s[InnerStart(span, i)..span.end];
      var html := if span.Code? then Escaped(inner, TEXT) else Inline(inner, depth + 1, alnum);
      if span.Code? {
        NestsEscaped(inner);
        NestsMore(html, 0, most - 1);
      } else {
        InlineNests(inner, depth + 1, alnum);
      }
      OpenTagIsWhole(s, span);
      NestsWrap(OpenTag(s, span), html, CloseTag(span), most - 1);
    }
  }

  /** A named tag around a fragment. */
  lemma NamedTagNests(name: string, inner: string, most: nat)
    requires name != "" && forall i :: 0 <= i < |name| ==> IsAlnum(name[i])
    requires Nests(inner, most)
    ensures Nests("<" + name + ">" + inner + ("</" + name + ">"), most + 1)
  {
    hide Nests, IsOpenTag, CloseFor;
    PlainTag(name);
    NestsWrap("<" + name + ">", inner, "</" + name + ">", most);
  }

  lemma EscapedNests(s: string, most: nat)
    ensures Nests(Escaped(s, TEXT), most)
  {
    hide Nests, Escaped;
    NestsEscaped(s);
    NestsMore(Escaped(s, TEXT), 0, most);
  }

  lemma Reassociate(a: string, p: string, e: string, q: string, z: string)
    ensures a + (p + e + q) + z == (a + p) + e + (q + z)
  {
  }

  lemma LangTagPieces(e: string)
    ensures "<" + "code" + " " + ("class=\"language-" + e + "\"") + ">" == "<code class=\"language-" + e + "\">"
  {
    var a, p := "<" + "code" + " ", "class=\"language-";
    assert a + p == "<code class=\"language-";
    Reassociate(a, p, e, "\"", ">");
  }

  lemma LangAttribute(e: string)
    requires '>' !in e
    ensures '>' !in "class=\"language-" + e + "\""
  {
  }

  lemma LangTagIsWhole(lang: string)
    ensures IsOpenTag(LangTag(lang)) && CloseFor(LangTag(lang)) == "</code>"
  {
    hide IsOpenTag, CloseFor, Escaped;
    var e := Escaped(lang, TEXT);
    EscapedHasNoBrackets(lang, TEXT);
    LangAttribute(e);
    LangTagPieces(e);
    TagWithAttribute("code", "class=\"language-" + e + "\"");
    assert "</" + "code" + ">" == "</code>";
  }

  lemma PreNests(inner: string, most: nat)
    requires Nests(inner, most)
    ensures Nests("<pre>" + inner + "</pre>", most + 1)
  {
    hide Nests;
    NamedTagNests("pre", inner, most);
    assert "<" + "pre" + ">" == "<pre>" && "</" + "pre" + ">" == "</pre>";
  }

  lemma FenceNests(lang: string, body: string)
    ensures Nests(FenceHtml(lang, body), MAX_TAGS)
  {
    hide Nests, IsOpenTag, CloseFor, Escaped, LangTag;
    var code := Escaped(body, TEXT);
    EscapedNests(body, 0);
    var inner := if lang == "" then code else LangTag(lang) + code + "</code>";
    if lang == "" {
      NestsMore(inner, 0, 1);
    } else {
      LangTagIsWhole(lang);
      NestsWrap(LangTag(lang), code, "</code>", 0);
    }
    PreNests(inner, 1);
    NestsMore(FenceHtml(lang, body), 2, MAX_TAGS);
  }

  /** A literal without special characters stands for itself. */
  lemma {:induction false} LiteralIsEscaped(s: string)
    requires forall c :: c in s ==> c !in TEXT
    ensures Escaped(s, TEXT) == s
  {
    if s != "" {
      assert s[0] in s;
      forall c | c in s[1..] ensures c in s {}
      LiteralIsEscaped(s[1..]);
    }
  }

  lemma LiteralNests(s: string, most: nat)
    requires forall c :: c in s ==> c !in TEXT
    ensures Nests(s, most)
  {
    hide Nests, Escaped;
    LiteralIsEscaped(s);
    EscapedNests(s, most);
  }

  lemma RecordLineNests(header: seq<string>, row: seq<string>, c: nat)
    requires |row| == |header| && c < |row|
    ensures Nests(RecordLine(header, row, c), 1)
  {
    hide Nests, Escaped;
    if c == 0 {
      EscapedNests(row[0], 0);
      NamedTagNests("b", Escaped(row[0], TEXT), 0);
      assert "<" + "b" + ">" == "<b>" && "</" + "b" + ">" == "</b>";
    } else {
      var name, value := Escaped(header[c], TEXT), Escaped(row[c], TEXT);
      EscapedNests(header[c], 1);
      EscapedNests(row[c], 1);
      LiteralNests("  ", 1);
      LiteralNests(": ", 1);
      NestsPlus("  ", name, 1);
      NestsPlus("  " + name, ": ", 1);
      NestsPlus("  " + name + ": ", value, 1);
    }
  }

  lemma RecordNests(header: seq<string>, row: seq<string>)
    requires |row| == |header|
    ensures Nests(RecordText(header, row), 1)
  {
    hide Nests, RecordLine, JoinWith;
    forall c | 0 <= c < |row| ensures Nests(RecordLines(header, row)[c], 1) {
      RecordLineNests(header, row, c);
    }
    LiteralNests("\n", 1);
    NestsJoin(RecordLines(header, row), "\n", 1);
  }

  lemma TableNests(rows: seq<seq<string>>)
    requires rows != [] && Rectangular(rows, |rows[0]|)
    ensures Nests(TableHtml(rows), MAX_TAGS)
  {
    hide Nests, JoinWith, Escaped, GridLines, Records, ShownAsGrid, Widths;
    if ShownAsGrid(rows) {
      var grid := JoinWith(GridLines(rows, Widths(rows, |rows[0]|)), "\n");
      EscapedNests(grid, 0);
      PreNests(Escaped(grid, TEXT), 0);
    } else {
      RecordsNest(rows);
    }
    NestsMore(TableHtml(rows), 1, MAX_TAGS);
  }

  lemma RecordsNest(rows: seq<seq<string>>)
    requires rows != [] && Rectangular(rows, |rows[0]|)
    ensures Nests(JoinWith(Records(rows), "\n\n"), 1)
  {
    hide Nests, RecordText, JoinWith;
    var records := Records(rows);
    assert |records| == |rows| - 1 by { if |rows| > 1 { RecordsOfAt(rows[0], rows[1..], 0); } }
    forall k | 0 <= k < |records| ensures Nests(records[k], 1) {
      RecordsOfAt(rows[0], rows[1..], k);
      RecordNests(rows[0], rows[1..][k]);
    }
    LiteralNests("\n\n", 1);
    NestsJoin(records, "\n\n", 1);
  }

  lemma HeadingNests(level: nat, text: string, alnum: char -> bool)
    ensures Nests(HeadingHtml(level, text, alnum), MAX_TAGS)
  {
    hide Nests, Inline;
    var inner := Inline(text, 0, alnum);
    InlineNests(text, 0, alnum);
    NamedTagNests("b", inner, MAX_INLINE_DEPTH);
    assert "<" + "b" + ">" == "<b>" && "</" + "b" + ">" == "</b>";
    if level <= 2 {
      NamedTagNests("u", "<b>" + inner + "</b>", MAX_INLINE_DEPTH + 1);
      assert "<" + "u" + ">" + ("<b>" + inner + "</b>") + ("</" + "u" + ">") == "<u><b>" + inner + "</b></u>";
    } else {
      NestsMore("<b>" + inner + "</b>", MAX_INLINE_DEPTH + 1, MAX_TAGS);
    }
  }

  lemma QuoteNests(lines: seq<string>, alnum: char -> bool)
    requires forall k :: 0 <= k < |lines| ==> IsQuote(lines[k])
    ensures Nests("<blockquote>" + JoinWith(QuoteLines(lines, alnum), "\n") + "</blockquote>", MAX_TAGS)
  {
    hide Nests, Inline, JoinWith, QuoteText;
    var shown := QuoteLines(lines, alnum);
    forall k | 0 <= k < |shown| ensures Nests(shown[k], MAX_INLINE_DEPTH) {
      InlineNests(QuoteText(lines[k]), 0, alnum);
    }
    LiteralNests("\n", MAX_INLINE_DEPTH);
    NestsJoin(shown, "\n", MAX_INLINE_DEPTH);
    NamedTagNests("blockquote", JoinWith(shown, "\n"), MAX_INLINE_DEPTH);
    assert "<" + "blockquote" + ">" == "<blockquote>" && "</" + "blockquote" + ">" == "</blockquote>";
    NestsMore("<blockquote>" + JoinWith(shown, "\n") + "</blockquote>", MAX_INLINE_DEPTH + 1, MAX_TAGS);
  }

  lemma BulletIsLiteral(line: string)
    requires ListItem(line).Some?
    ensures forall c :: c in ListItem(line).value.0 ==> c !in TEXT
  {
    hide TrimStart;
    var t := TrimStart(line);
    if !("- " <= t || "* " <= t || "+ " <= t) {
      var n := Numbers.Value(LeadingDigits(t));
      assert ListItem(line).value.0 == Numbers.Decimal(n) + ". ";
      NumberIsLiteral(n);
    }
  }

  lemma NumberIsLiteral(n: nat)
    ensures forall c :: c in Numbers.Decimal(n) + ". " ==> c !in TEXT
  {
    hide Numbers.Decimal;
    forall c | c in Numbers.Decimal(n) + ". " ensures c !in TEXT {
      assert c in Numbers.Decimal(n) || c in ". ";
    }
  }

  lemma ItemNests(indent: nat, bullet: string, text: string, alnum: char -> bool)
    requires forall c :: c in bullet ==> c !in TEXT
    ensures Nests(Spaces(indent) + bullet + Inline(text, 0, alnum), MAX_TAGS)
  {
    hide Nests, Inline;
    LiteralNests(Spaces(indent), MAX_TAGS);
    LiteralNests(bullet, MAX_TAGS);
    InlineNests(text, 0, alnum);
    NestsMore(Inline(text, 0, alnum), MAX_INLINE_DEPTH, MAX_TAGS);
    NestsPlus(Spaces(indent), bullet, MAX_TAGS);
    NestsPlus(Spaces(indent) + bullet, Inline(text, 0, alnum), MAX_TAGS);
  }

  lemma BlockNests(lines: seq<string>, i: nat, alnum: char -> bool)
    requires i < |lines|
    ensures var b := BlockAt(lines, i, alnum); b.html.Some? ==> Nests(b.html.value, MAX_TAGS)
  {
    hide IsFence, IsTableRow, IsTableSeparator, Heading, IsQuote, ListItem, Trim, Inline, FenceEnd, FenceHtml,
      FenceBody,
      FenceLang, TableEnd, TableHtml, TableRows, QuoteEnd, QuoteLines, JoinWith, IndentBytes, Spaces, Nests,
      HeadingHtml;
    var line := lines[i];
    if IsFence(line) {
      FenceNests(FenceLang(line), FenceBody(lines[i + 1..FenceEnd(lines, i + 1)]));
    } else if StartsTable(lines, i) {
      TableNests(TableRows(lines[i..], TableEnd(lines[i..], 2)));
    } else if Heading(line).Some? {
      HeadingNests(Heading(line).value.0, Heading(line).value.1, alnum);
    } else if IsQuote(line) {
      QuoteNests(lines[i..QuoteEnd(lines, i)], alnum);
    } else if ListItem(line).Some? {
      BulletIsLiteral(line);
      ItemNests(IndentBytes(line), ListItem(line).value.0, ListItem(line).value.1, alnum);
    } else if Trim(line) != "" {
      InlineNests(line, 0, alnum);
      NestsMore(Inline(line, 0, alnum), MAX_INLINE_DEPTH, MAX_TAGS);
    }
  }

  /** Whatever the markdown, every block is well formed and its tags nest at most 34 deep. */
  lemma {:induction false} BlocksNest(lines: seq<string>, i: nat, alnum: char -> bool)
    ensures forall k :: 0 <= k < |BlocksFrom(lines, i, alnum)| ==> Nests(BlocksFrom(lines, i, alnum)[k], MAX_TAGS)
    decreases |lines| - i
  {
    hide Nests, BlockAt;
    if i < |lines| {
      var b := BlockAt(lines, i, alnum);
      BlockNests(lines, i, alnum);
      BlocksNest(lines, b.next, alnum);
    }
  }

  lemma EveryBlockIsHtml(md: string, alnum: char -> bool)
    ensures AllHtml(Blocks(md, alnum))
    ensures forall k :: 0 <= k < |Blocks(md, alnum)| ==> Nests(Blocks(md, alnum)[k], MAX_TAGS)
  {
    hide BlocksFrom, Lines, NestWithin, IsHtml;
    BlocksNest(Lines(md), 0, alnum);
  }

  /** A fenced block shows its lines and nothing else. */
  lemma FenceShowsItsBody(lang: string, body: string)
    ensures Unescaped(Outside(FenceHtml(lang, body), false)) == body
  {
    hide Shows, Escaped, LangTag, IsOpenTag, CloseFor, Unescaped, Outside;
    var code := Escaped(body, TEXT);
    ShowsEscaped(body);
    var inner := if lang == "" then code else LangTag(lang) + code + "</code>";
    if lang != "" {
      LangTagIsWhole(lang);
      ShowsWrap(LangTag(lang), code, "</code>", body);
    }
    PlainTag("pre");
    assert "<" + "pre" + ">" == "<pre>" && "</" + "pre" + ">" == "</pre>";
    ShowsWrap("<pre>", inner, "</pre>", body);
    StripShows(FenceHtml(lang, body), body);
  }

  // -------------------------------------------------------------------------
  // Messages
  // -------------------------------------------------------------------------

  /** Room for each of 34 nested tags in one message. */
  const TAG_ROOM: nat := 120

  /** Every message is well formed; together they show what the blocks show; and they respect Telegram's limit
      exactly when every block fits, which it does if no tag with its closer takes more than 120 characters. */
  method RenderTelegram(md: string, alnum: char -> bool) returns (chunks: seq<string>)
    ensures forall k :: 0 <= k < |chunks| ==> Balanced(Tokenize(chunks[k]))
    ensures Bare(StyledPieces(chunks)) == Bare(StyledPieces(Blocks(md, alnum)))
    ensures AllHtml(Blocks(md, alnum))
    ensures (forall k :: 0 <= k < |chunks| ==> |chunks[k]| <= TELEGRAM_LIMIT)
      <==> (forall k :: 0 <= k < |Blocks(md, alnum)| ==> BlockFits(Blocks(md, alnum)[k], TELEGRAM_LIMIT))
    ensures (forall k :: 0 <= k < |Blocks(md, alnum)| ==> TagsTakeAtMost(Tokenize(Blocks(md, alnum)[k]), TAG_ROOM)) ==>
      (forall k :: 0 <= k < |chunks| ==> |chunks[k]| <= TELEGRAM_LIMIT)
  {
    hide Blocks, Tokenize, Bare, StyledPieces, IsHtml, BlockFits, TagsTakeAtMost, Nests, Balanced, JoinLines,
      ShortBlocks;
    var blocks := RenderBlocks(md, alnum);
    EveryBlockIsHtml(md, alnum);
    chunks := ChunkBlocks(blocks, TELEGRAM_LIMIT);
    ShortTagBlocksFit(blocks);
  }

  lemma ShortTagBlocksFit(blocks: seq<string>)
    requires AllHtml(blocks) && forall k :: 0 <= k < |blocks| ==> Nests(blocks[k], MAX_TAGS)
    ensures (forall k :: 0 <= k < |blocks| ==> TagsTakeAtMost(Tokenize(blocks[k]), TAG_ROOM)) ==>
      (forall k :: 0 <= k < |blocks| ==> BlockFits(blocks[k], TELEGRAM_LIMIT))
  {
    hide Tokenize, IsHtml, BlockFits, TagsTakeAtMost, Nests;
    if forall k :: 0 <= k < |blocks| ==> TagsTakeAtMost(Tokenize(blocks[k]), TAG_ROOM) {
      forall k | 0 <= k < |blocks| ensures BlockFits(blocks[k], TELEGRAM_LIMIT) {
        ShortTagsFit(blocks[k], MAX_TAGS, TAG_ROOM, TELEGRAM_LIMIT);
      }
    }
  }
}
