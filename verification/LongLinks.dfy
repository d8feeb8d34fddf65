/** A markdown input behind which no message respects Telegram's limit: a long link target
    (agent/src/core/channels/markdown_html.rs, lines 110-203 and 517-612). */
module LongLinks {
  import opened Base
  import opened Text
  import opened HtmlTokens
  import opened HtmlTexts
  import opened SplitBlocks
  import opened ChunksOfBlocks
  import opened MarkdownInline
  import opened MarkdownTables
  import opened MarkdownBlocks

  function Letters(n: nat): (r: string)
    ensures |r| == n && forall i :: 0 <= i < n ==> r[i] == 'x'
  {
    seq(n, (i: nat) => 'x')
  }

  /** One paragraph with one link, whose target is `n` letters long. */
  function LinkMarkdown(n: nat): string {
    "[a](" + Letters(n) + ")"
  }

  function LinkTag(n: nat): string {
    "<a href=\"" + Letters(n) + "\">"
  }

  function LinkHtml(n: nat): string {
    LinkTag(n) + "a" + "</a>"
  }

  lemma {:induction false} LettersEscape(s: string)
    requires forall i :: 0 <= i < |s| ==> s[i] == 'x'
    ensures Escaped(s, ATTR) == s
  {
    if s != "" {
      LettersEscape(s[1..]);
      assert [s[0]] + s[1..] == s;
    }
  }

  lemma {:induction false} TargetCloses(n: nat, from: nat)
    requires 4 <= from <= n + 4
    ensures UrlClose(LinkMarkdown(n), from, 0) == n + 4
    decreases n + 4 - from
  {
    var s := LinkMarkdown(n);
    if from < n + 4 {
      assert s[from] == Letters(n)[from - 4];
      TargetCloses(n, from + 1);
    }
  }

  lemma LinkIsSpan(n: nat, alnum: char -> bool)
    ensures SpanAt(LinkMarkdown(n), 0, alnum) == Link(2, n + 4)
  {
    hide UrlClose;
    var s := LinkMarkdown(n);
    assert s[0] == '[' && s[1] == 'a' && s[2] == ']' && s[3] == '(';
    assert IndexFrom(s, ']', 1) == 2;
    TargetCloses(n, 4);
  }

  lemma LetterIsItself(alnum: char -> bool)
    ensures Inline("a", 1, alnum) == "a"
  {
    assert SpanAt("a", 0, alnum) == Plain;
    assert InlineFrom("a", 1, 1, alnum) == "";
  }

  lemma LinkRenders(n: nat, alnum: char -> bool)
    ensures Inline(LinkMarkdown(n), 0, alnum) == LinkHtml(n)
  {
    hide SpanAt, Escaped;
    var s, span := LinkMarkdown(n), Link(2, n + 4);
    LinkIsSpan(n, alnum);
    SpanIsWithin(s, 0, alnum);
    LettersEscape(Letters(n));
    LetterIsItself(alnum);
    assert s[4..n + 4] == Letters(n) && s[1..2] == "a";
    assert SpanHtml(s, 0, span, 0, alnum) == LinkHtml(n);
    assert InlineFrom(s, n + 5, 0, alnum) == "";
  }

  /** The input is one paragraph. */
  lemma LinkIsParagraph(n: nat, alnum: char -> bool)
    ensures Blocks(LinkMarkdown(n), alnum) == [Inline(LinkMarkdown(n), 0, alnum)]
  {
    hide Inline, BlockAt;
    var s := LinkMarkdown(n);
    LinkIsOneLine(n);
    LinkIsPlainLine(n, alnum);
    assert BlocksFrom([s], 1, alnum) == [];
  }

  lemma LinkIsOneLine(n: nat)
    ensures Lines(LinkMarkdown(n)) == [LinkMarkdown(n)]
  {
    assert '\n' !in LinkMarkdown(n);
  }

  /** The line begins no other kind of block. */
  lemma LinkIsPlainLine(n: nat, alnum: char -> bool)
    ensures BlockAt([LinkMarkdown(n)], 0, alnum) == Block(Some(Inline(LinkMarkdown(n), 0, alnum)), 1)
  {
    hide Inline, Trim, IsTableRow;
    var s := LinkMarkdown(n);
    assert s[0] == '[';
    BracketStartsNothing(s);
  }

  lemma BracketStartsNothing(s: string)
    requires s != "" && s[0] == '['
    ensures TrimStart(s) == s && LeadingDigits(s) == "" && Trim(s) != ""
  {
  }

  lemma LinkTagCloses(n: nat)
    ensures IsOpenTag(LinkTag(n)) && CloseFor(LinkTag(n)) == "</a>" && |LinkTag(n)| == n + 11
  {
    hide IsOpenTag, CloseFor;
    var attribute := "href=\"" + Letters(n) + "\"";
    TagWithAttribute("a", attribute);
    assert "<" + "a" + " " + attribute + ">" == LinkTag(n);
  }

  lemma LinkTokens(n: nat)
    ensures Tokenize(LinkHtml(n)) == [Open(LinkTag(n)), Atom("a"), Close("</a>")]
  {
    hide IsOpenTag, CloseFor, LinkTag, Tokenize;
    LinkTagCloses(n);
    LetterIsHtml();
    WrapTokens(LinkTag(n), "a");
  }

  lemma LetterIsHtml()
    ensures IsHtml("a") && Tokenize("a") == [Atom("a")]
  {
    assert EscapeChar('a', TEXT) == "a";
    ShowsChar('a');
    assert FirstTok("a") == Atom("a") && "a"[1..] == "";
  }

  /** The tags open at the letter. */
  lemma LetterIsInTheLink(tag: string)
    requires CloseFor(tag) == "</a>"
    ensures var toks := [Open(tag), Atom("a"), Close("</a>")];
      RunTags([], toks) == [[]] && StackAt(toks, 0) == [] && StackAt(toks, 1) == [tag]
  {
    hide CloseFor;
    var toks := [Open(tag), Atom("a"), Close("</a>")];
    assert toks[1..] == [Atom("a"), Close("</a>")] && toks[1..][1..] == [Close("</a>")] && toks[1..][1..][1..] == [];
    assert [] + [tag] == [tag] && [tag][..0] == [];
    assert toks[..1] == [Open(tag)] && toks[..1][1..] == [] && toks[..0] == [];
    assert [tag][|[tag]| - 1] == tag && RunTags([tag], [Close("</a>")]) == RunTags([], []);
    assert RunTags([tag], toks[1..]) == RunTags([tag], toks[1..][1..]);
    assert RunTags([], toks[..1]) == [[tag]];
  }

  lemma LinkFitsExactly(n: nat, limit: nat)
    requires IsHtml(LinkHtml(n))
    ensures BlockFits(LinkHtml(n), limit) <==> n + 16 <= limit
  {
    hide Tokenize, CloseFor, LinkTag, IsOpenTag, RunTags, StackAt;
    LinkTagCloses(n);
    LinkTokens(n);
    LetterIsInTheLink(LinkTag(n));
    var toks := Tokenize(LinkHtml(n));
    var tag := LinkTag(n);
    assert StackAt(toks, 1) == [tag] && [tag][..0] == [];
    assert Join([tag]) == Join([]) + tag && Reserve([tag]) == Reserve([]) + 4;
    assert toks[1].text == "a";
    assert FitsAt(toks, 1, limit) <==> n + 16 <= limit;
  }

  /** The paragraph can be sent within the limit exactly when it is no longer than that: of its tag nothing can be
      split off. */
  lemma LongLinksFitExactly(n: nat, alnum: char -> bool)
    ensures Blocks(LinkMarkdown(n), alnum) == [LinkHtml(n)] && IsHtml(LinkHtml(n))
    ensures BlockFits(LinkHtml(n), TELEGRAM_LIMIT) <==> n + 16 <= TELEGRAM_LIMIT
  {
    hide Inline, Blocks, IsHtml, BlockFits, LinkHtml;
    LinkIsParagraph(n, alnum);
    LinkRenders(n, alnum);
    EveryBlockIsHtml(LinkMarkdown(n), alnum);
    assert Blocks(LinkMarkdown(n), alnum)[0] == LinkHtml(n);
    LinkFitsExactly(n, TELEGRAM_LIMIT);
  }
}
