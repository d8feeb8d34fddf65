/** Inline markdown as Telegram HTML (agent/src/core/channels/markdown_html.rs, lines 48-203).
    `alnum` stands for `char::is_alphanumeric`. */
module MarkdownInline {
  import opened HtmlTokens
  import opened Text
  import opened HtmlTexts

  const MAX_INLINE_DEPTH := 32

  // -------------------------------------------------------------------------
  // Finding delimiters
  // -------------------------------------------------------------------------

  /** The `)` that closes a link target, or the length. */
  function UrlClose(s: string, from: nat, depth: nat): (j: nat)
    requires from <= |s|
    ensures from <= j <= |s| && (j < |s| ==> s[j] == ')')
    decreases |s| - from
  {
    if from == |s| then from else
    if s[from] == '(' then UrlClose(s, from + 1, depth + 1) else
    if s[from] == ')' then (if depth == 0 then from else UrlClose(s, from + 1, depth - 1)) else
    UrlClose(s, from + 1, depth)
  }

  method FindUrlClose(s: string, from: nat) returns (j: nat)
    requires from <= |s|
    ensures j == UrlClose(s, from, 0)
  {
    var depth := 0;
    j := from;
    while j < |s|
      invariant from <= j <= |s|
      invariant UrlClose(s, from, 0) == UrlClose(s, j, depth)
    {
      if s[j] == '(' {
        depth := depth + 1;
      } else if s[j] == ')' {
        if depth == 0 {
          return;
        }
        depth := depth - 1;
      }
      j := j + 1;
    }
  }

  /** How many parentheses are open behind `u`, or none when one closes too early. */
  function OpenParens(u: string, depth: nat): int {
    if u == "" then depth else
    if u[0] == '(' then OpenParens(u[1..], depth + 1) else
    if u[0] == ')' then (if depth == 0 then -1 else OpenParens(u[1..], depth - 1)) else
    OpenParens(u[1..], depth)
  }

  /** A link target holds balanced parentheses, and the search stops only where it would stop holding them. */
  lemma {:induction false} UrlCloseBalances(s: string, from: nat, depth: nat)
    requires from <= |s|
    ensures var j := UrlClose(s, from, depth);
      if j < |s| then OpenParens(s[from..j], depth) == 0 else OpenParens(s[from..], depth) >= 0
    decreases |s| - from
  {
    var j := UrlClose(s, from, depth);
    if from < |s| {
      assert s[from..][0] == s[from] && s[from..][1..] == s[from + 1..];
      if s[from] == '(' {
        UrlCloseBalances(s, from + 1, depth + 1);
      } else if s[from] == ')' {
        if depth > 0 { UrlCloseBalances(s, from + 1, depth - 1); }
      } else {
        UrlCloseBalances(s, from + 1, depth);
      }
      if from < j { assert s[from..j][0] == s[from] && s[from..j][1..] == s[from + 1..j]; }
    }
  }

  /** First position of a doubled delimiter, or the length. */
  function DoubleFrom(s: string, from: nat, c: char): (j: nat)
    requires from <= |s|
    ensures from <= j <= |s|
    ensures j < |s| ==> j + 1 < |s| && s[j] == s[j + 1] == c
    ensures forall k :: from <= k < j && k + 1 < |s| ==> !(s[k] == s[k + 1] == c)
    decreases |s| - from
  {
    if from + 1 >= |s| then |s| else if s[from] == s[from + 1] == c then from else DoubleFrom(s, from + 1, c)
  }

  method FindDouble(s: string, from: nat, delim: char) returns (j: nat)
    requires from <= |s|
    ensures j == DoubleFrom(s, from, delim)
  {
    j := from;
    while j + 1 < |s|
      invariant from <= j <= |s|
      invariant DoubleFrom(s, from, delim) == DoubleFrom(s, j, delim)
    {
      if s[j] == delim && s[j + 1] == delim {
        return;
      }
      j := j + 1;
    }
    j := |s|;
  }

  // -------------------------------------------------------------------------
  // What starts at a position
  // -------------------------------------------------------------------------

  /** A construct: where its inner text ends, and for a link where the target ends. */
  datatype Span = Plain | Code(end: nat) | Link(end: nat, urlEnd: nat) | Bold(end: nat) | Strike(end: nat) | Italic(end: nat)

  predicate Guarded(s: string, i: nat, alnum: char -> bool)
    requires i < |s|
  {
    s[i] == '_' && i > 0 && alnum(s[i - 1])
  }

  function LinkAt(s: string, i: nat): Span
    requires i < |s|
  {
    var end := IndexFrom(s, ']', i + 1);
    if end + 1 >= |s| || s[end + 1] != '(' then Plain else
    var urlEnd := UrlClose(s, end + 2, 0);
    if urlEnd == |s| then Plain else Link(end, urlEnd)
  }

  predicate Doubled(s: string, i: nat, c: char)
    requires i < |s|
  {
    s[i] == c && i + 1 < |s| && s[i + 1] == c && i + 2 < DoubleFrom(s, i + 2, c) < |s|
  }

  /** The construct that starts at `i`, in the order of precedence. */
  function SpanAt(s: string, i: nat, alnum: char -> bool): Span
    requires i < |s|
  {
    var c := s[i];
    if c == '`' && IndexFrom(s, '`', i + 1) < |s| then Code(IndexFrom(s, '`', i + 1)) else
    if c == '[' && LinkAt(s, i).Link? then LinkAt(s, i) else
    if (c == '*' || c == '_') && !Guarded(s, i, alnum) && Doubled(s, i, c) then Bold(DoubleFrom(s, i + 2, c)) else
    if Doubled(s, i, '~') then Strike(DoubleFrom(s, i + 2, '~')) else
    if (c == '*' || c == '_') && !Guarded(s, i, alnum) && i + 1 < IndexFrom(s, c, i + 1) < |s| then
      Italic(IndexFrom(s, c, i + 1))
    else Plain
  }

  /** Where the inner text starts. */
  function InnerStart(span: Span, i: nat): nat {
    if span.Bold? || span.Strike? then i + 2 else i + 1
  }

  /** Position behind the construct. */
  function Behind(span: Span, i: nat): nat {
    match span
    case Plain => i + 1
    case Code(end) => end + 1
    case Link(_, urlEnd) => urlEnd + 1
    case Bold(end) => end + 2
    case Strike(end) => end + 2
    case Italic(end) => end + 1
  }

  predicate SpanWithin(s: string, i: nat, span: Span) {
    && i < Behind(span, i) <= |s|
    && (!span.Plain? ==> InnerStart(span, i) <= span.end < Behind(span, i))
    && (span.Link? ==> span.end + 2 <= span.urlEnd < |s|)
  }

  lemma SpanIsWithin(s: string, i: nat, alnum: char -> bool)
    requires i < |s|
    ensures SpanWithin(s, i, SpanAt(s, i, alnum))
  {
  }

  function OpenTag(s: string, span: Span): string
    requires !span.Plain? && (span.Link? ==> span.end + 2 <= span.urlEnd <= |s|)
  {
    match span
    case Code(_) => "<code>"
    case Link(end, urlEnd) => "<a href=\"" + Escaped(s[end + 2..urlEnd], ATTR) + "\">"
    case Bold(_) => "<b>"
    case Strike(_) => "<s>"
    case Italic(_) => "<i>"
  }

  function CloseTag(span: Span): string
    requires !span.Plain?
  {
    match span
    case Code(_) => "</code>"
    case Link(_, _) => "</a>"
    case Bold(_) => "</b>"
    case Strike(_) => "</s>"
    case Italic(_) => "</i>"
  }

  // -------------------------------------------------------------------------
  // Rendering
  // -------------------------------------------------------------------------

  function Inline(s: string, depth: nat, alnum: char -> bool): string
    decreases MAX_INLINE_DEPTH - depth, |s| + 1
  {
    if depth >= MAX_INLINE_DEPTH then Escaped(s, TEXT) else InlineFrom(s, 0, depth, alnum)
  }

  function InlineFrom(s: string, i: nat, depth: nat, alnum: char -> bool): string
    requires i <= |s| && depth < MAX_INLINE_DEPTH
    decreases MAX_INLINE_DEPTH - depth, |s| - i
  {
    if i == |s| then "" else
    var span := SpanAt(s, i, alnum);
    SpanIsWithin(s, i, alnum);
    SpanHtml(s, i, span, depth, alnum) + InlineFrom(s, Behind(span, i), depth, alnum)
  }

  function SpanHtml(s: string, i: nat, span: Span, depth: nat, alnum: char -> bool): string
    requires i < |s| && depth < MAX_INLINE_DEPTH && SpanWithin(s, i, span)
    decreases MAX_INLINE_DEPTH - depth, 0
  {
    if span.Plain? then EscapeChar(s[i], TEXT) else
    var inner := s[InnerStart(span, i)..span.end];
    OpenTag(s, span) + (if span.Code? then Escaped(inner, TEXT) else Inline(inner, depth + 1, alnum)) + CloseTag(span)
  }

  method ParseLink(s: string, start: nat) returns (link: Span)
    requires start < |s|
    ensures link == LinkAt(s, start)
  {
    var closeText := IndexFrom(s, ']', start + 1);
    if closeText + 1 >= |s| || s[closeText + 1] != '(' {
      return Plain;
    }
    var closeUrl := FindUrlClose(s, closeText + 2);
    return if closeUrl == |s| then Plain else Link(closeText, closeUrl);
  }

  /** The conditions of the rendering loop's branches, in their order. */
  method FindSpan(s: string, i: nat, alnum: char -> bool) returns (span: Span)
    requires i < |s|
    ensures span == SpanAt(s, i, alnum)
  {
    hide UrlClose, LinkAt;
    var c := s[i];
    if c == '`' {
      var close := IndexFrom(s, '`', i + 1);
      if close < |s| {
        return Code(close);
      }
    }
    if c == '[' {
      var link := ParseLink(s, i);
      if link.Link? {
        return link;
      }
    }
    if (c == '*' || c == '_') && i + 1 < |s| && s[i + 1] == c && !Guarded(s, i, alnum) {
      var close := FindDouble(s, i + 2, c);
      if i + 2 < close < |s| {
        return Bold(close);
      }
    }
    if c == '~' && i + 1 < |s| && s[i + 1] == '~' {
      var close := FindDouble(s, i + 2, '~');
      if i + 2 < close < |s| {
        return Strike(close);
      }
    }
    if (c == '*' || c == '_') && !Guarded(s, i, alnum) {
      var close := IndexFrom(s, c, i + 1);
      if i + 1 < close < |s| {
        return Italic(close);
      }
    }
    span := Plain;
  }

  /** What each branch pushes. */
  method EmitSpan(s: string, i: nat, span: Span, depth: nat, alnum: char -> bool) returns (html: string)
    requires i < |s| && depth < MAX_INLINE_DEPTH && SpanWithin(s, i, span)
    ensures html == SpanHtml(s, i, span, depth, alnum)
    decreases MAX_INLINE_DEPTH - depth, 0
  {
    hide Escaped, Inline, EscapeChar;
    match span
    case Code(close) =>
      var content := Escape(s[i + 1..close]);
      html := "<code>" + content + "</code>";
    case Link(end, urlEnd) =>
      var url := EscapeAttr(s[end + 2..urlEnd]);
      var text := RenderInlineDepth(s[i + 1..end], depth + 1, alnum);
      html := "<a href=\"" + url + "\">" + text + "</a>";
    case Bold(close) =>
      var content := RenderInlineDepth(s[i + 2..close], depth + 1, alnum);
      html := "<b>" + content + "</b>";
    case Strike(close) =>
      var content := RenderInlineDepth(s[i + 2..close], depth + 1, alnum);
      html := "<s>" + content + "</s>";
    case Italic(close) =>
      var content := RenderInlineDepth(s[i + 1..close], depth + 1, alnum);
      html := "<i>" + content + "</i>";
    case Plain =>
      EscapedOne(s[i], TEXT);
      html := Escape([s[i]]);
  }

  method RenderInlineDepth(s: string, depth: nat, alnum: char -> bool) returns (out: string)
    ensures out == Inline(s, depth, alnum)
    decreases MAX_INLINE_DEPTH - depth, 1
  {
    if depth >= MAX_INLINE_DEPTH {
      out := Escape(s);
      return;
    }
    hide SpanAt, SpanHtml, Behind;
    out := "";
    var i := 0;
    while i < |s|
      invariant i <= |s|
      invariant out + InlineFrom(s, i, depth, alnum) == InlineFrom(s, 0, depth, alnum)
    {
      var span := FindSpan(s, i, alnum);
      SpanIsWithin(s, i, alnum);
      var html := EmitSpan(s, i, span, depth, alnum);
      out := out + html;
      i := Behind(span, i);
    }
  }

  method RenderInline(s: string, alnum: char -> bool) returns (out: string)
    ensures out == Inline(s, 0, alnum)
  {
    out := RenderInlineDepth(s, 0, alnum);
  }

  // -------------------------------------------------------------------------
  // What the rendering shows
  // -------------------------------------------------------------------------

  /** `a` is `b` with some characters left out. */
  predicate Subsequence(a: string, b: string) {
    if a == "" then true else
    if b == "" then false else
    (a[0] == b[0] && Subsequence(a[1..], b[1..])) || Subsequence(a, b[1..])
  }

  lemma {:induction false} SubsequenceSelf(a: string)
    ensures Subsequence(a, a)
  {
    if a != "" { SubsequenceSelf(a[1..]); }
  }

  lemma {:induction false} SubsequenceSkip(a: string, pre: string, b: string)
    requires Subsequence(a, b)
    ensures Subsequence(a, pre + b)
  {
    if pre == "" {
      assert pre + b == b;
    } else {
      SubsequenceSkip(a, pre[1..], b);
      assert (pre + b)[1..] == pre[1..] + b;
    }
  }

  lemma {:induction false} SubsequencePlus(a: string, b: string, c: string, d: string)
    requires Subsequence(a, b) && Subsequence(c, d)
    ensures Subsequence(a + c, b + d)
    decreases |b|
  {
    if a == "" {
      assert a + c == c;
      SubsequenceSkip(c, b, d);
    } else {
      assert (b + d)[1..] == b[1..] + d && (b + d)[0] == b[0];
      if a[0] == b[0] && Subsequence(a[1..], b[1..]) {
        SubsequencePlus(a[1..], b[1..], c, d);
        assert (a + c)[1..] == a[1..] + c && (a + c)[0] == a[0];
      } else {
        SubsequencePlus(a, b[1..], c, d);
      }
    }
  }

  lemma OpenTagIsWhole(s: string, span: Span)
    requires !span.Plain? && (span.Link? ==> span.end + 2 <= span.urlEnd <= |s|)
    ensures IsOpenTag(OpenTag(s, span)) && CloseTag(span) == CloseFor(OpenTag(s, span))
  {
    hide IsOpenTag, CloseFor, Escaped;
    match span {
      case Link(end, urlEnd) =>
        EscapedHasNoBrackets(s[end + 2..urlEnd], ATTR);
        LinkTagIsWhole(Escaped(s[end + 2..urlEnd], ATTR));
      case Code(_) =>
        PlainTag("code");
        assert "<" + "code" + ">" == "<code>" && "</" + "code" + ">" == "</code>";
      case Bold(_) =>
        PlainTag("b");
        assert "<" + "b" + ">" == "<b>" && "</" + "b" + ">" == "</b>";
      case Strike(_) =>
        PlainTag("s");
        assert "<" + "s" + ">" == "<s>" && "</" + "s" + ">" == "</s>";
      case Italic(_) =>
        PlainTag("i");
        assert "<" + "i" + ">" == "<i>" && "</" + "i" + ">" == "</i>";
    }
  }

  lemma LinkTagIsWhole(url: string)
    requires '>' !in url
    ensures var tag := "<a href=\"" + url + "\">"; IsOpenTag(tag) && CloseFor(tag) == "</a>"
  {
    hide IsOpenTag, CloseFor;
    var attribute := "href=\"" + url + "\"";
    TagWithAttribute("a", attribute);
    assert "<" + "a" + " " + attribute + ">" == "<a href=\"" + url + "\">";
    assert "</" + "a" + ">" == "</a>";
  }

  /** Inline rendering is well formed and shows the line with some characters left out, in order. */
  lemma {:induction false} InlineShows(s: string, depth: nat, alnum: char -> bool) returns (shown: string)
    ensures Shows(Inline(s, depth, alnum), shown) && Subsequence(shown, s)
    decreases MAX_INLINE_DEPTH - depth, |s| + 1
  {
    if depth >= MAX_INLINE_DEPTH {
      ShowsEscaped(s);
      SubsequenceSelf(s);
      shown := s;
    } else {
      shown := InlineFromShows(s, 0, depth, alnum);
      assert s[0..] == s;
    }
  }

  lemma {:induction false} InlineFromShows(s: string, i: nat, depth: nat, alnum: char -> bool) returns (shown: string)
    requires i <= |s| && depth < MAX_INLINE_DEPTH
    ensures Shows(InlineFrom(s, i, depth, alnum), shown) && Subsequence(shown, s[i..])
    decreases MAX_INLINE_DEPTH - depth, |s| - i
  {
    hide Shows, Subsequence, SpanAt, SpanHtml;
    if i == |s| {
      ShowsNothing();
      SubsequenceSelf("");
      shown := "";
    } else {
      var span := SpanAt(s, i, alnum);
      SpanIsWithin(s, i, alnum);
      var next := Behind(span, i);
      var here := SpanShows(s, i, span, depth, alnum);
      var rest := InlineFromShows(s, next, depth, alnum);
      ShowsPlus(SpanHtml(s, i, span, depth, alnum), here, InlineFrom(s, next, depth, alnum), rest);
      SubsequencePlus(here, s[i..next], rest, s[next..]);
      assert s[i..] == s[i..next] + s[next..];
      shown := here + rest;
    }
  }

  lemma {:induction false} SpanShows(s: string, i: nat, span: Span, depth: nat, alnum: char -> bool)
    returns (shown: string)
    requires i < |s| && depth < MAX_INLINE_DEPTH && SpanWithin(s, i, span)
    ensures Shows(SpanHtml(s, i, span, depth, alnum), shown) && Subsequence(shown, s[i..Behind(span, i)])
    decreases MAX_INLINE_DEPTH - depth, 0
  {
    hide Shows, Subsequence, Escaped, EscapeChar, Inline, OpenTag, CloseTag;
    var next := Behind(span, i);
    if span.Plain? {
      ShowsChar(s[i]);
      SubsequenceSelf([s[i]]);
      assert s[i..next] == [s[i]];
      shown := [s[i]];
    } else {
      var start := InnerStart(span, i);
      var inner := s[start..span.end];
      var html;
      if span.Code? {
        ShowsEscaped(inner);
        SubsequenceSelf(inner);
        shown, html := inner, Escaped(inner, TEXT);
      } else {
        shown := InlineShows(inner, depth + 1, alnum);
        html := Inline(inner, depth + 1, alnum);
      }
      OpenTagIsWhole(s, span);
      ShowsWrap(OpenTag(s, span), html, CloseTag(span), shown);
      SubsequenceSelf("");
      SubsequenceSkip("", s[span.end..next], "");
      assert s[span.end..next] + "" == s[span.end..next];
      SubsequencePlus(shown, inner, "", s[span.end..next]);
      SubsequenceSkip(shown + "", s[i..start], inner + s[span.end..next]);
      assert shown + "" == shown;
      assert s[i..next] == s[i..start] + (inner + s[span.end..next]);
    }
  }

  /** A character that may start a construct. */
  predicate IsMarker(c: char) {
    c == '`' || c == '[' || c == '*' || c == '_' || c == '~'
  }

  /** Markers that stand for themselves: underscores inside words. */
  predicate Inert(s: string, alnum: char -> bool) {
    forall i :: 0 <= i < |s| && IsMarker(s[i]) ==> Guarded(s, i, alnum)
  }

  /** Text without live markers is shown as it is, `snake_case` included. */
  lemma {:induction false} InertTextIsEscaped(s: string, i: nat, depth: nat, alnum: char -> bool)
    requires i <= |s| && depth < MAX_INLINE_DEPTH && Inert(s, alnum)
    ensures InlineFrom(s, i, depth, alnum) == Escaped(s[i..], TEXT)
    decreases |s| - i
  {
    if i < |s| {
      assert SpanAt(s, i, alnum) == Plain;
      InertTextIsEscaped(s, i + 1, depth, alnum);
      assert s[i..][1..] == s[i + 1..] && s[i..][0] == s[i];
    }
  }

  /** The plain-text fallback of a rendered line is the line with some characters left out, and the line itself
      when it holds no live markers. */
  lemma FallbackShowsTheLine(s: string, alnum: char -> bool)
    ensures Subsequence(Unescaped(Outside(Inline(s, 0, alnum), false)), s)
    ensures Inert(s, alnum) ==> Unescaped(Outside(Inline(s, 0, alnum), false)) == s
  {
    hide Inline, Unescaped, Outside, Subsequence, Shows, Escaped, Inert;
    var shown := InlineShows(s, 0, alnum);
    StripShows(Inline(s, 0, alnum), shown);
    if Inert(s, alnum) {
      InertLine(s, alnum);
      StripUndoesEscape(s);
    }
  }

  lemma InertLine(s: string, alnum: char -> bool)
    requires Inert(s, alnum)
    ensures Inline(s, 0, alnum) == Escaped(s, TEXT)
  {
    InertTextIsEscaped(s, 0, 0, alnum);
    assert s[0..] == s;
  }
}
