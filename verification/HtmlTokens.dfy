/** Tokens of Telegram HTML, tag balance and styled text
    (agent/src/core/channels/markdown_html.rs, lines 454-514). */
module HtmlTokens {
  import opened Text

  /** A tag, or an atomic unit of text: one char, or a whole entity that must never be split. */
  datatype HtmlTok = Open(text: string) | Close(text: string) | Atom(text: string)

  /** Length of the tag at the front; an unterminated tag runs to the end. */
  function TagLength(s: string): nat
    requires s != ""
  {
    var j := IndexFrom(s, '>', 1);
    if j < |s| then j + 1 else |s|
  }

  /** Position of the `;` that ends the entity at the front, when it is near enough. */
  function EntityEnd(s: string): nat
    requires s != ""
  {
    IndexFrom(s, ';', 1)
  }

  predicate IsEntity(s: string)
    requires s != ""
  {
    EntityEnd(s) < |s| && EntityEnd(s) <= 11
  }

  function FirstTok(s: string): (t: HtmlTok)
    requires s != ""
    ensures t.text != "" && |t.text| <= |s| && t.text == s[..|t.text|]
  {
    if s[0] == '<' then
      var tag := s[..TagLength(s)];
      if |tag| >= 2 && tag[1] == '/' then Close(tag) else Open(tag)
    else if s[0] == '&' && IsEntity(s) then Atom(s[..EntityEnd(s) + 1])
    else Atom(s[..1])
  }

  function Tokenize(s: string): seq<HtmlTok>
    decreases |s|
  {
    if s == "" then [] else
    var t := FirstTok(s);
    [t] + Tokenize(s[|t.text|..])
  }

  /** The tokenizer as index loops over the characters. */
  method TokenizeHtml(s: string) returns (toks: seq<HtmlTok>)
    ensures toks == Tokenize(s)
  {
    hide FirstTok;
    toks := [];
    var i := 0;
    assert s[0..] == s;
    while i < |s|
      invariant 0 <= i <= |s|
      invariant toks + Tokenize(s[i..]) == Tokenize(s)
    {
      var tok, next := NextTok(s, i);
      assert s[i..][|tok.text|..] == s[next..];
      toks := toks + [tok];
      i := next;
    }
  }

  /** One pass of the tokenizer's loop: the token at `i` and the position behind it. */
  method NextTok(s: string, i: nat) returns (tok: HtmlTok, next: nat)
    requires i < |s|
    ensures tok == FirstTok(s[i..]) && next == i + |tok.text| && next <= |s|
  {
    ghost var rest := s[i..];
    if s[i] == '<' {
      var j := i + 1;
      while j < |s| && s[j] != '>'
        invariant i + 1 <= j <= |s|
        invariant forall k :: 1 <= k < j - i ==> rest[k] != '>'
      {
        j := j + 1;
      }
      next := if j + 1 <= |s| then j + 1 else |s|;
      assert IndexFrom(rest, '>', 1) == j - i;
      var tag := s[i..next];
      assert tag == rest[..next - i];
      if |tag| >= 2 && tag[..2] == "</" {
        tok := Close(tag);
      } else {
        tok := Open(tag);
      }
    } else if s[i] == '&' {
      var j := i + 1;
      while j < |s| && s[j] != ';' && j - i <= 10
        invariant i + 1 <= j <= |s| && j - i <= 11
        invariant forall k :: 1 <= k < j - i ==> rest[k] != ';'
      {
        j := j + 1;
      }
      if j < |s| && s[j] == ';' {
        assert IndexFrom(rest, ';', 1) == j - i;
        assert s[i..j + 1] == rest[..j - i + 1];
        tok, next := Atom(s[i..j + 1]), j + 1;
      } else {
        assert rest[..1] == [s[i]];
        tok, next := Atom([s[i]]), i + 1;
      }
    } else {
      assert rest[..1] == [s[i]];
      tok, next := Atom([s[i]]), i + 1;
    }
  }

  // -------------------------------------------------------------------------
  // Tokens and their text
  // -------------------------------------------------------------------------

  function Concat(toks: seq<HtmlTok>): string {
    if toks == [] then "" else toks[0].text + Concat(toks[1..])
  }

  lemma {:induction false} ConcatPlus(a: seq<HtmlTok>, b: seq<HtmlTok>)
    ensures Concat(a + b) == Concat(a) + Concat(b)
  {
    if a == [] {
      assert a + b == b;
    } else {
      ConcatPlus(a[1..], b);
      assert (a + b)[1..] == a[1..] + b && (a + b)[0] == a[0];
    }
  }

  lemma {:induction false} ConcatTokenize(s: string)
    ensures Concat(Tokenize(s)) == s
    decreases |s|
  {
    hide FirstTok;
    if s != "" {
      var t := FirstTok(s);
      var rest := s[|t.text|..];
      ConcatTokenize(rest);
      assert Tokenize(s) == [t] + Tokenize(rest);
      ConcatOne(t, Tokenize(rest));
    }
  }

  lemma ConcatOne(t: HtmlTok, toks: seq<HtmlTok>)
    ensures Concat([t] + toks) == t.text + Concat(toks)
  {
    assert ([t] + toks)[1..] == toks;
  }

  /** Tokens that the tokenizer would cut where they are cut. */
  predicate Lexes(toks: seq<HtmlTok>) {
    toks == [] || (toks[0].text != "" && FirstTok(Concat(toks)) == toks[0] && Lexes(toks[1..]))
  }

  lemma {:induction false} LexesTokenize(toks: seq<HtmlTok>)
    requires Lexes(toks)
    ensures Tokenize(Concat(toks)) == toks
    decreases |toks|
  {
    hide FirstTok;
    if toks != [] {
      LexesTokenize(toks[1..]);
      assert Concat(toks)[|toks[0].text|..] == Concat(toks[1..]);
    }
  }

  lemma {:induction false} TokenizeLexes(s: string)
    ensures Lexes(Tokenize(s))
    decreases |s|
  {
    hide FirstTok;
    if s != "" {
      var t := FirstTok(s);
      TokenizeLexes(s[|t.text|..]);
      ConcatTokenize(s);
      assert Tokenize(s)[1..] == Tokenize(s[|t.text|..]);
    }
  }

  /** A tag that is not cut short. */
  predicate Complete(t: HtmlTok) {
    t.Atom? || (|t.text| > 0 && t.text[|t.text| - 1] == '>')
  }

  /** Whether a raw ampersand stays one in front of `rest`. */
  predicate NoEntity(rest: string) {
    forall k :: 0 <= k < |rest| && k <= 10 ==> rest[k] != ';'
  }

  /** A token is cut the same in front of any text, except that a raw ampersand must not start an entity. */
  lemma FirstTokIsStable(t: HtmlTok, rest: string, rest': string)
    requires t.text != "" && FirstTok(t.text + rest) == t && Complete(t)
    requires t == Atom("&") ==> NoEntity(rest')
    ensures FirstTok(t.text + rest') == t
  {
    var s, s', n := t.text + rest, t.text + rest', |t.text|;
    assert forall k :: 0 <= k < n ==> s[k] == t.text[k] && s'[k] == t.text[k];
    assert s[..n] == t.text && s'[..n] == t.text;
    if t.text[0] == '<' {
      assert TagLength(s) == n;
      assert IndexFrom(s, '>', 1) == n - 1;
      assert IndexFrom(s', '>', 1) == n - 1;
    } else if t.text[0] == '&' {
      if IsEntity(s) {
        assert EntityEnd(s) == n - 1;
        assert IndexFrom(s', ';', 1) == n - 1;
      } else {
        assert t.text == "&";
        assert forall k :: 1 <= k < |s'| && k <= 11 ==> s'[k] == rest'[k - 1];
        assert !IsEntity(s');
      }
    }
  }

  /** What a raw ampersand tells about the text behind it. */
  lemma RawAmpersand(rest: string)
    requires FirstTok("&" + rest) == Atom("&")
    ensures NoEntity(rest)
  {
    var s := "&" + rest;
    assert !IsEntity(s);
    forall k | 0 <= k < |rest| && k <= 10 ensures rest[k] != ';' {
      assert s[k + 1] == rest[k];
    }
  }

  // -------------------------------------------------------------------------
  // Balance
  // -------------------------------------------------------------------------

  predicate IsAlnum(c: char) {
    '0' <= c <= '9' || 'a' <= c <= 'z' || 'A' <= c <= 'Z'
  }

  function TrimOpen(s: string): string {
    if s != "" && s[0] == '<' then TrimOpen(s[1..]) else s
  }

  function TagName(s: string): (r: string)
    ensures forall i :: 0 <= i < |r| ==> IsAlnum(r[i])
  {
    if s != "" && IsAlnum(s[0]) then [s[0]] + TagName(s[1..]) else ""
  }

  /** The closing tag for an opening tag. */
  function CloseFor(open: string): string {
    "</" + TagName(TrimOpen(open)) + ">"
  }

  lemma CloserIsATag(open: string, rest: string)
    ensures FirstTok(CloseFor(open) + rest) == Close(CloseFor(open))
    ensures forall i :: 0 <= i < |CloseFor(open)| ==> CloseFor(open)[i] != ';'
  {
    var c := CloseFor(open);
    var s := c + rest;
    var name := TagName(TrimOpen(open));
    assert forall i :: 0 <= i < |name| ==> c[i + 2] == name[i];
    assert forall i :: 0 <= i < |c| ==> s[i] == c[i];
    assert c[1] == '/' && c[|c| - 1] == '>';
    assert forall i :: 2 <= i < |c| - 1 ==> c[i] == name[i - 2];
    assert forall i :: 1 <= i < |c| - 1 ==> s[i] != '>';
    assert IndexFrom(s, '>', 1) == |c| - 1;
    assert s[..|c|] == c;
  }

  /** The stack of open tags after some tokens, or none when a closing tag does not match. */
  function RunTags(stack: seq<string>, toks: seq<HtmlTok>): (r: seq<seq<string>>)
    ensures |r| <= 1
    decreases |toks|
  {
    if toks == [] then [stack] else
    match toks[0]
    case Open(s) => RunTags(stack + [s], toks[1..])
    case Close(s) =>
      if stack != [] && s == CloseFor(stack[|stack| - 1]) then RunTags(stack[..|stack| - 1], toks[1..]) else []
    case Atom(_) => RunTags(stack, toks[1..])
  }

  predicate Balanced(toks: seq<HtmlTok>) {
    RunTags([], toks) == [[]]
  }

  /** The text with, for every atom, the tags it stands under. */
  function Styled(stack: seq<string>, toks: seq<HtmlTok>): seq<(string, seq<string>)>
    decreases |toks|
  {
    if toks == [] then [] else
    match toks[0]
    case Open(s) => Styled(stack + [s], toks[1..])
    case Close(_) => Styled(if stack == [] then [] else stack[..|stack| - 1], toks[1..])
    case Atom(a) => [(a, stack)] + Styled(stack, toks[1..])
  }

  lemma {:induction false} RunTagsPlus(stack: seq<string>, a: seq<HtmlTok>, b: seq<HtmlTok>, mid: seq<string>)
    requires RunTags(stack, a) == [mid]
    ensures RunTags(stack, a + b) == RunTags(mid, b)
    ensures Styled(stack, a + b) == Styled(stack, a) + Styled(mid, b)
    decreases |a|
  {
    if a == [] {
      assert a + b == b;
    } else {
      assert (a + b)[1..] == a[1..] + b && (a + b)[0] == a[0];
      match a[0] {
        case Open(s) => RunTagsPlus(stack + [s], a[1..], b, mid);
        case Close(s) => RunTagsPlus(stack[..|stack| - 1], a[1..], b, mid);
        case Atom(_) => RunTagsPlus(stack, a[1..], b, mid);
      }
    }
  }

  /** A mismatch stays a mismatch. */
  lemma {:induction false} RunTagsStuck(stack: seq<string>, a: seq<HtmlTok>, b: seq<HtmlTok>)
    requires RunTags(stack, a) == []
    ensures RunTags(stack, a + b) == []
    decreases |a|
  {
    if a != [] {
      assert (a + b)[1..] == a[1..] + b && (a + b)[0] == a[0];
      match a[0] {
        case Open(s) => RunTagsStuck(stack + [s], a[1..], b);
        case Close(s) =>
          if stack != [] && s == CloseFor(stack[|stack| - 1]) {
            RunTagsStuck(stack[..|stack| - 1], a[1..], b);
          }
        case Atom(_) => RunTagsStuck(stack, a[1..], b);
      }
    }
  }

  /** In tokens that run to the end, every prefix runs. */
  lemma PrefixRuns(toks: seq<HtmlTok>, i: nat)
    requires i <= |toks| && RunTags([], toks) != []
    ensures |RunTags([], toks[..i])| == 1
  {
    assert toks == toks[..i] + toks[i..];
    if RunTags([], toks[..i]) == [] {
      RunTagsStuck([], toks[..i], toks[i..]);
    }
  }

  /** The stack of open tags in front of token `i`. */
  function StackAt(toks: seq<HtmlTok>, i: nat): seq<string>
    requires i <= |toks| && RunTags([], toks) != []
  {
    PrefixRuns(toks, i);
    RunTags([], toks[..i])[0]
  }

  lemma CutShortIsLast(s: string)
    requires s != ""
    ensures var t := FirstTok(s); !Complete(t) ==> !t.Atom? && t.text == s && s[|t.text|..] == ""
  {
  }

  /** Balanced text has no tag that is cut short. */
  lemma {:induction false} BalancedIsComplete(s: string, stack: seq<string>)
    requires RunTags(stack, Tokenize(s)) == [[]]
    ensures forall i :: 0 <= i < |Tokenize(s)| ==> Complete(Tokenize(s)[i])
    decreases |s|
  {
    if s != "" {
      var t := FirstTok(s);
      var rest := s[|t.text|..];
      assert Tokenize(s)[1..] == Tokenize(rest);
      CutShortIsLast(s);
      match t {
        case Open(o) => BalancedIsComplete(rest, stack + [o]);
        case Close(_) => BalancedIsComplete(rest, stack[..|stack| - 1]);
        case Atom(_) => BalancedIsComplete(rest, stack);
      }
    }
  }
}
