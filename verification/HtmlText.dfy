/** Text in Telegram HTML: escaping, well-formed fragments and the text they show
    (agent/src/core/channels/markdown_html.rs, lines 20-46; telegram.rs, lines 275-290). */
module HtmlTexts {
  import opened HtmlTokens
  import opened Text

  // -------------------------------------------------------------------------
  // Escaping
  // -------------------------------------------------------------------------

  /** The characters `escape` replaces, and those `escape_attr` replaces. */
  const TEXT: set<char> := {'&', '<', '>'}
  const ATTR: set<char> := {'&', '<', '>', '\"'}

  function EntityOf(c: char): string {
    match c
    case '&' => "&amp;"
    case '<' => "&lt;"
    case '>' => "&gt;"
    case '\"' => "&quot;"
    case _ => [c]
  }

  function EscapeChar(c: char, special: set<char>): string {
    if c in special then EntityOf(c) else [c]
  }

  function Escaped(s: string, special: set<char>): string {
    if s == "" then "" else EscapeChar(s[0], special) + Escaped(s[1..], special)
  }

  lemma {:induction false} EscapedPlus(a: string, b: string, special: set<char>)
    ensures Escaped(a + b, special) == Escaped(a, special) + Escaped(b, special)
  {
    hide EscapeChar;
    if a == "" {
      assert a + b == b;
    } else {
      EscapedPlus(a[1..], b, special);
      assert (a + b)[1..] == a[1..] + b && (a + b)[0] == a[0];
    }
  }

  lemma EscapedOne(c: char, special: set<char>)
    ensures Escaped([c], special) == EscapeChar(c, special)
  {
    assert [c][1..] == "";
  }

  method Escape(s: string) returns (out: string)
    ensures out == Escaped(s, TEXT)
  {
    out := "";
    assert s[..0] == "";
    for i := 0 to |s|
      invariant out == Escaped(s[..i], TEXT)
    {
      assert s[..i + 1] == s[..i] + [s[i]];
      EscapedPlus(s[..i], [s[i]], TEXT);
      EscapedOne(s[i], TEXT);
      match s[i]
      case '&' => out := out + "&amp;";
      case '<' => out := out + "&lt;";
      case '>' => out := out + "&gt;";
      case _ => out := out + [s[i]];
    }
    assert s[..|s|] == s;
  }

  method EscapeAttr(s: string) returns (out: string)
    ensures out == Escaped(s, ATTR)
  {
    out := "";
    assert s[..0] == "";
    for i := 0 to |s|
      invariant out == Escaped(s[..i], ATTR)
    {
      assert s[..i + 1] == s[..i] + [s[i]];
      EscapedPlus(s[..i], [s[i]], ATTR);
      EscapedOne(s[i], ATTR);
      match s[i]
      case '&' => out := out + "&amp;";
      case '<' => out := out + "&lt;";
      case '>' => out := out + "&gt;";
      case '\"' => out := out + "&quot;";
      case _ => out := out + [s[i]];
    }
    assert s[..|s|] == s;
  }

  /** Escaped text holds none of the characters that delimit tags. */
  lemma {:induction false} EscapedHasNoBrackets(s: string, special: set<char>)
    requires TEXT <= special <= ATTR
    ensures '<' !in Escaped(s, special) && '>' !in Escaped(s, special)
  {
    if s != "" { EscapedHasNoBrackets(s[1..], special); }
  }

  // -------------------------------------------------------------------------
  // Unescaping by four replacements, one after the other
  // -------------------------------------------------------------------------

  /** `str::replace`: leftmost matches, not overlapping. */
  function ReplaceAll(s: string, pat: string, to: string): string
    requires pat != ""
    decreases |s|
  {
    if s == "" then "" else
    if pat <= s then to + ReplaceAll(s[|pat|..], pat, to)
    else [s[0]] + ReplaceAll(s[1..], pat, to)
  }

  /** Text without an ampersand is copied. */
  lemma {:induction false} ReplaceSkips(p: string, rest: string, pat: string, to: string)
    requires pat != "" && pat[0] == '&' && '&' !in p
    ensures ReplaceAll(p + rest, pat, to) == p + ReplaceAll(rest, pat, to)
  {
    if p == "" {
      assert p + rest == rest;
    } else {
      ReplaceSkips(p[1..], rest, pat, to);
      assert (p + rest)[1..] == p[1..] + rest && (p + rest)[0] == p[0] != pat[0];
      assert p == [p[0]] + p[1..];
    }
  }

  lemma EntityShape(c: char)
    requires c in ATTR
    ensures |EntityOf(c)| >= 2 && EntityOf(c)[0] == '&' && '&' !in EntityOf(c)[1..]
    ensures forall k :: k in ATTR && k != c ==> |EntityOf(k)| >= 2 && EntityOf(k)[1] != EntityOf(c)[1]
  {
  }

  /** An entity other than the one searched for is copied. */
  lemma ReplaceOther(e: string, pat: string, rest: string, to: string)
    requires |e| >= 2 && |pat| >= 2 && e[0] == pat[0] == '&' && e[1] != pat[1] && '&' !in e[1..]
    ensures ReplaceAll(e + rest, pat, to) == e + ReplaceAll(rest, pat, to)
  {
    var s := e + rest;
    assert s[1] == e[1] && s[0] == e[0] && s[1..] == e[1..] + rest;
    assert !(pat <= s);
    assert ReplaceAll(s, pat, to) == [s[0]] + ReplaceAll(s[1..], pat, to);
    hide ReplaceAll;
    ReplaceSkips(e[1..], rest, pat, to);
    assert e == [e[0]] + e[1..];
  }

  /** Replacing one entity undoes the escaping of one character and leaves the others escaped. */
  lemma {:induction false} ReplaceUndoes(s: string, special: set<char>, k: char)
    requires '&' in special && special <= ATTR && k in ATTR
    ensures ReplaceAll(Escaped(s, special), EntityOf(k), [k]) == Escaped(s, special - {k})
  {
    EntityShape(k);
    hide EntityOf;
    if s != "" {
      var c, rest, pat := s[0], Escaped(s[1..], special), EntityOf(k);
      ReplaceUndoes(s[1..], special, k);
      if c !in special {
        hide ReplaceAll;
        ReplaceSkips([c], rest, pat, [k]);
      } else if c == k {
        assert (pat + rest)[|pat|..] == rest && pat <= pat + rest;
      } else {
        hide ReplaceAll;
        EntityShape(c);
        ReplaceOther(EntityOf(c), pat, rest, [k]);
      }
    }
  }

  function Unescaped(s: string): string {
    ReplaceAll(ReplaceAll(ReplaceAll(ReplaceAll(s, "&lt;", "<"), "&gt;", ">"), "&quot;", "\""), "&amp;", "&")
  }

  lemma {:induction false} NothingEscaped(s: string)
    ensures Escaped(s, {}) == s
  {
    if s != "" { NothingEscaped(s[1..]); }
  }

  /** The replacements never read an entity out of already replaced text. */
  lemma UnescapeEscaped(s: string, special: set<char>)
    requires '&' in special && special <= ATTR
    ensures Unescaped(Escaped(s, special)) == s
  {
    ReplaceUndoes(s, special, '<');
    ReplaceUndoes(s, special - {'<'}, '>');
    ReplaceUndoes(s, special - {'<'} - {'>'}, '\"');
    ReplaceUndoes(s, special - {'<'} - {'>'} - {'\"'}, '&');
    assert special - {'<'} - {'>'} - {'\"'} - {'&'} == {};
    NothingEscaped(s);
  }

  // -------------------------------------------------------------------------
  // Stripping tags
  // -------------------------------------------------------------------------

  /** The text outside tags, with the scan's flag as a parameter. */
  function Outside(s: string, inTag: bool): string {
    if s == "" then "" else
    if s[0] == '<' then Outside(s[1..], true) else
    if s[0] == '>' then Outside(s[1..], false) else
    if inTag then Outside(s[1..], true) else [s[0]] + Outside(s[1..], false)
  }

  /** Whether the scan stands inside a tag behind `s`. */
  function StillInTag(s: string, inTag: bool): bool {
    if s == "" then inTag else StillInTag(s[1..], if s[0] == '<' then true else if s[0] == '>' then false else inTag)
  }

  lemma {:induction false} OutsidePlus(a: string, b: string, inTag: bool)
    ensures Outside(a + b, inTag) == Outside(a, inTag) + Outside(b, StillInTag(a, inTag))
    ensures StillInTag(a + b, inTag) == StillInTag(b, StillInTag(a, inTag))
  {
    if a == "" {
      assert a + b == b;
    } else {
      assert (a + b)[1..] == a[1..] + b && (a + b)[0] == a[0];
      OutsidePlus(a[1..], b, if a[0] == '<' then true else if a[0] == '>' then false else inTag);
    }
  }

  method StripTags(html: string) returns (out: string)
    ensures out == Unescaped(Outside(html, false))
  {
    out := "";
    var inTag := false;
    assert html[0..] == html;
    for i := 0 to |html|
      invariant out + Outside(html[i..], inTag) == Outside(html, false)
    {
      var rest := html[i..];
      assert rest[1..] == html[i + 1..] && rest[0] == html[i];
      match html[i]
      case '<' => inTag := true;
      case '>' => inTag := false;
      case c => if !inTag { out := out + [c]; }
    }
    assert html[|html|..] == "";
    assert out == Outside(html, false);
    hide Outside, ReplaceAll;
    out := ReplaceAll(out, "&lt;", "<");
    out := ReplaceAll(out, "&gt;", ">");
    out := ReplaceAll(out, "&quot;", "\"");
    out := ReplaceAll(out, "&amp;", "&");
  }

  // -------------------------------------------------------------------------
  // Well-formed fragments
  // -------------------------------------------------------------------------

  /** Tags balance and every ampersand starts an entity. */
  predicate IsHtml(s: string) {
    Balanced(Tokenize(s)) && Atom("&") !in Tokenize(s)
  }

  function AtomText(toks: seq<HtmlTok>): string {
    if toks == [] then "" else (if toks[0].Atom? then toks[0].text else "") + AtomText(toks[1..])
  }

  lemma {:induction false} AtomTextPlus(a: seq<HtmlTok>, b: seq<HtmlTok>)
    ensures AtomText(a + b) == AtomText(a) + AtomText(b)
  {
    if a == [] {
      assert a + b == b;
    } else {
      AtomTextPlus(a[1..], b);
      assert (a + b)[1..] == a[1..] + b && (a + b)[0] == a[0];
    }
  }

  lemma {:induction false} TokenizePlus(a: string, b: string)
    requires Atom("&") !in Tokenize(a)
    requires forall i :: 0 <= i < |Tokenize(a)| ==> Complete(Tokenize(a)[i])
    ensures Tokenize(a + b) == Tokenize(a) + Tokenize(b)
    decreases |a|
  {
    hide FirstTok, Complete, NoEntity;
    if a == "" {
      assert a + b == b;
    } else {
      var t := FirstTok(a);
      var rest := a[|t.text|..];
      assert Tokenize(a) == [t] + Tokenize(rest);
      assert Tokenize(a)[0] == t;
      forall i | 0 <= i < |Tokenize(rest)| ensures Tokenize(rest)[i] in Tokenize(a) && Complete(Tokenize(rest)[i]) {
        assert Tokenize(a)[i + 1] == Tokenize(rest)[i];
      }
      TokenizePlus(rest, b);
      FirstTokPlus(a, b);
      assert (a + b)[|t.text|..] == rest + b;
    }
  }

  lemma FirstTokPlus(a: string, b: string)
    requires a != "" && Complete(FirstTok(a)) && FirstTok(a) != Atom("&")
    ensures FirstTok(a + b) == FirstTok(a)
  {
    hide Complete, NoEntity;
    var t := FirstTok(a);
    hide FirstTok;
    var rest := a[|t.text|..];
    assert a == t.text + rest && a + b == t.text + (rest + b);
    FirstTokIsStable(t, rest, rest + b);
  }

  lemma {:induction false} RunUnder(below: seq<string>, stack: seq<string>, toks: seq<HtmlTok>)
    requires RunTags(stack, toks) != []
    ensures RunTags(below + stack, toks) == [below + RunTags(stack, toks)[0]]
    decreases |toks|
  {
    if toks == [] {
    } else {
      match toks[0] {
        case Open(s) =>
          assert (below + stack) + [s] == below + (stack + [s]);
          RunUnder(below, stack + [s], toks[1..]);
        case Close(_) =>
          assert (below + stack)[..|below + stack| - 1] == below + stack[..|stack| - 1];
          RunUnder(below, stack[..|stack| - 1], toks[1..]);
        case Atom(_) => RunUnder(below, stack, toks[1..]);
      }
    }
  }

  lemma HtmlTokenizePlus(a: string, b: string)
    requires IsHtml(a)
    ensures Tokenize(a + b) == Tokenize(a) + Tokenize(b)
  {
    BalancedIsComplete(a, []);
    TokenizePlus(a, b);
  }

  /** A fragment that shows `text`: well formed, and its atoms spell the escaped text. */
  predicate Shows(html: string, text: string) {
    IsHtml(html) && AtomText(Tokenize(html)) == Escaped(text, TEXT)
  }

  lemma HtmlPlus(a: string, b: string)
    requires IsHtml(a) && IsHtml(b)
    ensures IsHtml(a + b)
    ensures Tokenize(a + b) == Tokenize(a) + Tokenize(b)
    ensures Styled([], Tokenize(a + b)) == Styled([], Tokenize(a)) + Styled([], Tokenize(b))
  {
    hide Tokenize, RunTags, Styled;
    HtmlTokenizePlus(a, b);
    RunTagsPlus([], Tokenize(a), Tokenize(b), []);
  }

  lemma ShowsPlus(a: string, x: string, b: string, y: string)
    requires Shows(a, x) && Shows(b, y)
    ensures Shows(a + b, x + y)
  {
    hide Tokenize, AtomText, Escaped, Balanced;
    HtmlPlus(a, b);
    AtomTextPlus(Tokenize(a), Tokenize(b));
    EscapedPlus(x, y, TEXT);
  }

  lemma ShowsNothing()
    ensures Shows("", "")
  {
  }

  /** A complete opening tag. */
  predicate IsOpenTag(tag: string) {
    && |tag| >= 3 && tag[0] == '<' && tag[1] != '/' && tag[|tag| - 1] == '>'
    && forall i :: 0 <= i < |tag| - 1 ==> tag[i] != '>'
  }

  lemma OpenTagIsToken(tag: string, rest: string)
    requires IsOpenTag(tag)
    ensures FirstTok(tag + rest) == Open(tag)
    ensures Tokenize(tag + rest) == [Open(tag)] + Tokenize(rest)
  {
    var s := tag + rest;
    assert forall i :: 0 <= i < |tag| ==> s[i] == tag[i];
    assert IndexFrom(s, '>', 1) == |tag| - 1;
    assert s[..|tag|] == tag && s[|tag|..] == rest;
  }

  lemma CloserTokens(open: string)
    ensures Tokenize(CloseFor(open)) == [Close(CloseFor(open))]
  {
    var c := CloseFor(open);
    CloserIsATag(open, "");
    assert c + "" == c;
    assert c[|c|..] == "";
  }

  lemma WrapTokens(tag: string, inner: string)
    requires IsOpenTag(tag) && IsHtml(inner)
    ensures Tokenize(tag + inner + CloseFor(tag)) == [Open(tag)] + Tokenize(inner) + [Close(CloseFor(tag))]
  {
    hide CloseFor, FirstTok, Tokenize;
    var close := CloseFor(tag);
    assert tag + inner + close == tag + (inner + close);
    OpenTagIsToken(tag, inner + close);
    HtmlTokenizePlus(inner, close);
    CloserTokens(tag);
  }

  lemma WrapBalanced(tag: string, toks: seq<HtmlTok>)
    requires Balanced(toks)
    ensures Balanced([Open(tag)] + toks + [Close(CloseFor(tag))])
  {
    hide CloseFor;
    var close := [Close(CloseFor(tag))];
    RunUnder([tag], [], toks);
    assert [tag] + [] == [tag];
    RunTagsPlus([tag], toks, close, [tag]);
    assert close[1..] == [];
    assert RunTags([tag], close) == [[]];
    var all := [Open(tag)] + toks + close;
    assert all[1..] == toks + close && [] + [tag] == [tag];
    assert all[0] == Open(tag);
    assert RunTags([], all) == RunTags([tag], toks + close);
  }

  /** A tag around a fragment shows what the fragment shows. */
  lemma ShowsWrap(tag: string, inner: string, close: string, x: string)
    requires IsOpenTag(tag) && close == CloseFor(tag) && Shows(inner, x)
    ensures Shows(tag + inner + close, x)
  {
    hide Tokenize, CloseFor, Escaped, Balanced;
    WrapTokens(tag, inner);
    WrapBalanced(tag, Tokenize(inner));
    AtomTextPlus([Open(tag)] + Tokenize(inner), [Close(close)]);
    AtomTextPlus([Open(tag)], Tokenize(inner));
    assert [Open(tag)][1..] == [] && [Close(close)][1..] == [];
  }

  lemma {:induction false} TagNameIs(name: string, rest: string)
    requires forall i :: 0 <= i < |name| ==> IsAlnum(name[i])
    requires rest != "" && !IsAlnum(rest[0])
    ensures TagName(name + rest) == name
  {
    if name == "" {
      assert name + rest == rest;
    } else {
      TagNameIs(name[1..], rest);
      assert (name + rest)[1..] == name[1..] + rest;
    }
  }

  lemma TagIs(name: string, rest: string)
    requires name != "" && forall i :: 0 <= i < |name| ==> IsAlnum(name[i])
    requires rest != "" && !IsAlnum(rest[0]) && rest[|rest| - 1] == '>'
    requires forall i :: 0 <= i < |rest| - 1 ==> rest[i] != '>'
    ensures var tag := "<" + name + rest; IsOpenTag(tag) && CloseFor(tag) == "</" + name + ">"
  {
    var tag := "<" + name + rest;
    assert tag[1..] == name + rest;
    assert tag[1] == name[0];
    assert TrimOpen(tag) == name + rest;
    TagNameIs(name, rest);
    assert forall i :: 0 <= i < |name| ==> tag[i + 1] == name[i];
    assert forall i :: 0 <= i < |rest| ==> tag[i + 1 + |name|] == rest[i];
    assert forall i :: 0 < i <= |name| ==> tag[i] == name[i - 1];
    assert forall i :: |name| < i < |tag| ==> tag[i] == rest[i - 1 - |name|];
  }

  lemma PlainTag(name: string)
    requires name != "" && forall i :: 0 <= i < |name| ==> IsAlnum(name[i])
    ensures IsOpenTag("<" + name + ">") && CloseFor("<" + name + ">") == "</" + name + ">"
  {
    TagIs(name, ">");
  }

  lemma TagWithAttribute(name: string, attribute: string)
    requires name != "" && forall i :: 0 <= i < |name| ==> IsAlnum(name[i])
    requires '>' !in attribute
    ensures var tag := "<" + name + " " + attribute + ">"; IsOpenTag(tag) && CloseFor(tag) == "</" + name + ">"
  {
    var rest := " " + attribute + ">";
    assert forall i :: 1 <= i < |rest| - 1 ==> rest[i] == attribute[i - 1];
    TagIs(name, rest);
    assert "<" + name + rest == "<" + name + " " + attribute + ">";
  }

  lemma AmpersandTokens(c: char)
    requires c in TEXT
    ensures Tokenize(EntityOf(c)) == [Atom(EntityOf(c))]
  {
    var e := EntityOf(c);
    assert e[|e| - 1] == ';' && IndexFrom(e, ';', 1) == |e| - 1;
    assert e[..|e|] == e && e[|e|..] == "";
  }

  lemma ShowsChar(c: char)
    ensures Shows(EscapeChar(c, TEXT), [c])
  {
    var e := EscapeChar(c, TEXT);
    EscapedOne(c, TEXT);
    if c in TEXT {
      AmpersandTokens(c);
    } else {
      assert e[..1] == e && e[1..] == "";
      assert Tokenize(e) == [Atom(e)];
    }
    assert [Atom(e)][1..] == [];
    assert RunTags([], [Atom(e)]) == [[]];
  }

  lemma {:induction false} ShowsEscaped(s: string)
    ensures Shows(Escaped(s, TEXT), s)
  {
    hide Shows;
    if s == "" {
      ShowsNothing();
    } else {
      ShowsChar(s[0]);
      ShowsEscaped(s[1..]);
      ShowsPlus(EscapeChar(s[0], TEXT), [s[0]], Escaped(s[1..], TEXT), s[1..]);
      assert [s[0]] + s[1..] == s;
    }
  }

  // -------------------------------------------------------------------------
  // What the plain-text fallback shows
  // -------------------------------------------------------------------------

  lemma {:induction false} OutsideTag(p: string)
    requires p != "" && p[|p| - 1] == '>' && forall i :: 0 <= i < |p| - 1 ==> p[i] != '>'
    ensures Outside(p, true) == "" && !StillInTag(p, true)
  {
    if |p| > 1 { OutsideTag(p[1..]); }
  }

  lemma {:induction false} OutsideAtom(p: string)
    requires '<' !in p && '>' !in p
    ensures Outside(p, false) == p && !StillInTag(p, false)
  {
    if p != "" { OutsideAtom(p[1..]); }
  }

  lemma OutsideToken(s: string)
    requires s != "" && Complete(FirstTok(s))
    requires FirstTok(s).Atom? ==> '<' !in FirstTok(s).text && '>' !in FirstTok(s).text
    ensures var t := FirstTok(s); Outside(t.text, false) == (if t.Atom? then t.text else "") && !StillInTag(t.text, false)
  {
    var t := FirstTok(s);
    if t.Atom? {
      OutsideAtom(t.text);
    } else {
      assert TagLength(s) == |t.text|;
      assert |t.text| > 1;
      OutsideTag(t.text[1..]);
    }
  }

  lemma {:induction false} OutsideIsAtomText(s: string)
    requires forall i :: 0 <= i < |Tokenize(s)| ==> Complete(Tokenize(s)[i])
    requires '<' !in AtomText(Tokenize(s)) && '>' !in AtomText(Tokenize(s))
    ensures Outside(s, false) == AtomText(Tokenize(s))
    decreases |s|
  {
    hide FirstTok, Complete, Outside, StillInTag;
    if s == "" {
      OutsideAtom("");
    } else {
      var t := FirstTok(s);
      var rest := s[|t.text|..];
      assert Tokenize(s)[0] == t && Tokenize(s)[1..] == Tokenize(rest);
      OutsideIsAtomText(rest);
      OutsideToken(s);
      assert s == t.text + rest;
      OutsidePlus(t.text, rest, false);
    }
  }

  /** `strip_tags` recovers the text a fragment shows. */
  lemma StripShows(html: string, text: string)
    requires Shows(html, text)
    ensures Unescaped(Outside(html, false)) == text
  {
    hide Tokenize, Escaped, Outside, Unescaped;
    BalancedIsComplete(html, []);
    EscapedHasNoBrackets(text, TEXT);
    OutsideIsAtomText(html);
    UnescapeEscaped(text, TEXT);
  }

  /** `strip_tags(escape(s)) == s`. */
  lemma StripUndoesEscape(s: string)
    ensures Unescaped(Outside(Escaped(s, TEXT), false)) == s
    ensures Unescaped(Outside(Escaped(s, ATTR), false)) == s
  {
    EscapedHasNoBrackets(s, TEXT);
    EscapedHasNoBrackets(s, ATTR);
    OutsideAtom(Escaped(s, TEXT));
    OutsideAtom(Escaped(s, ATTR));
    UnescapeEscaped(s, TEXT);
    UnescapeEscaped(s, ATTR);
  }
}
