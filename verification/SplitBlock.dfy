/** Splitting an oversize HTML block into pieces that are each well formed
    (agent/src/core/channels/markdown_html.rs, lines 516-571). */
module SplitBlocks {
  import opened HtmlTokens

  // -------------------------------------------------------------------------
  // Reopening and closing a stack of tags
  // -------------------------------------------------------------------------

  function Opens(stack: seq<string>): seq<HtmlTok> {
    seq(|stack|, i requires 0 <= i < |stack| => Open(stack[i]))
  }

  function Closers(stack: seq<string>): seq<HtmlTok> {
    if stack == [] then []
    else [Close(CloseFor(stack[|stack| - 1]))] + Closers(stack[..|stack| - 1])
  }

  /** `open.concat()`. */
  function Join(stack: seq<string>): string {
    if stack == [] then "" else Join(stack[..|stack| - 1]) + stack[|stack| - 1]
  }

  /** Chars that closing the stack will take. */
  function Reserve(stack: seq<string>): nat {
    if stack == [] then 0 else Reserve(stack[..|stack| - 1]) + |CloseFor(stack[|stack| - 1])|
  }

  lemma {:induction false} OpensRun(stack: seq<string>)
    ensures RunTags([], Opens(stack)) == [stack] && Styled([], Opens(stack)) == []
    ensures Concat(Opens(stack)) == Join(stack)
    decreases |stack|
  {
    if stack != [] {
      var before, top := stack[..|stack| - 1], stack[|stack| - 1];
      OpensRun(before);
      assert Opens(stack) == Opens(before) + [Open(top)];
      RunTagsPlus([], Opens(before), [Open(top)], before);
      ConcatPlus(Opens(before), [Open(top)]);
      OneTok(before, Open(top));
      assert before + [top] == stack;
    }
  }

  lemma OneTok(stack: seq<string>, t: HtmlTok)
    ensures Concat([t]) == t.text
    ensures t.Open? ==> RunTags(stack, [t]) == [stack + [t.text]] && Styled(stack, [t]) == []
    ensures t.Atom? ==> RunTags(stack, [t]) == [stack] && Styled(stack, [t]) == [(t.text, stack)]
    ensures t.Close? ==> Styled(stack, [t]) == []
    ensures t.Close? && stack != [] && t.text == CloseFor(stack[|stack| - 1]) ==>
      RunTags(stack, [t]) == [stack[..|stack| - 1]]
    ensures t.Close? && (stack == [] || t.text != CloseFor(stack[|stack| - 1])) ==> RunTags(stack, [t]) == []
  {
    assert [t][1..] == [];
  }

  lemma {:induction false} ClosersRun(stack: seq<string>)
    ensures RunTags(stack, Closers(stack)) == [[]] && Styled(stack, Closers(stack)) == []
    ensures |Concat(Closers(stack))| == Reserve(stack)
    decreases |stack|
  {
    if stack != [] {
      ClosersRun(stack[..|stack| - 1]);
      assert Closers(stack)[1..] == Closers(stack[..|stack| - 1]);
    }
  }

  /** The closers of a stack, as the loop over `open.iter().rev()` pushes them. */
  method PushClosers(cur: string, open: seq<string>) returns (r: string)
    ensures r == cur + Concat(Closers(open))
  {
    r := cur;
    var k := |open|;
    assert open[..k] == open;
    while k > 0
      invariant 0 <= k <= |open|
      invariant r + Concat(Closers(open[..k])) == cur + Concat(Closers(open))
    {
      k := k - 1;
      assert open[..k + 1][..k] == open[..k];
      assert Closers(open[..k + 1])[1..] == Closers(open[..k]);
      r := r + CloseFor(open[k]);
    }
  }

  method SumClosers(open: seq<string>) returns (r: nat)
    ensures r == Reserve(open)
  {
    r := 0;
    for k := 0 to |open|
      invariant r == Reserve(open[..k])
    {
      assert open[..k + 1][..k] == open[..k];
      r := r + |CloseFor(open[k])|;
    }
    assert open[..|open|] == open;
  }

  // -------------------------------------------------------------------------
  // Pieces are cut where the block was
  // -------------------------------------------------------------------------

  /** A token that is cut the same anywhere, raw ampersands aside. */
  predicate Cuts(t: HtmlTok) {
    t.text != "" && Complete(t) && FirstTok(t.text) == t
  }

  /** Tokens that are cut where they are cut. */
  predicate Solid(toks: seq<HtmlTok>) {
    forall i :: 0 <= i < |toks| ==>
      Cuts(toks[i]) && (toks[i] == Atom("&") ==> NoEntity(Concat(toks[i + 1..])))
  }

  lemma {:induction false} SolidLexes(toks: seq<HtmlTok>)
    requires Solid(toks)
    ensures Lexes(toks)
    decreases |toks|
  {
    if toks != [] {
      var rest := toks[1..];
      forall i | 0 <= i < |rest|
        ensures Cuts(rest[i]) && (rest[i] == Atom("&") ==> NoEntity(Concat(rest[i + 1..])))
      {
        assert rest[i] == toks[i + 1] && rest[i + 1..] == toks[i + 2..];
      }
      SolidLexes(rest);
      assert Cuts(toks[0]);
      assert toks[0].text + "" == toks[0].text;
      FirstTokIsStable(toks[0], "", Concat(rest));
    }
  }

  lemma {:induction false} LexesSolid(toks: seq<HtmlTok>)
    requires Lexes(toks) && forall i :: 0 <= i < |toks| ==> Complete(toks[i])
    ensures Solid(toks)
    decreases |toks|
  {
    if toks != [] {
      var t, rest := toks[0], toks[1..];
      LexesSolid(rest);
      FirstTokIsStable(t, Concat(rest), "");
      assert t.text + "" == t.text;
      if t == Atom("&") { RawAmpersand(Concat(rest)); }
      forall i | 0 <= i < |toks|
        ensures Cuts(toks[i]) && (toks[i] == Atom("&") ==> NoEntity(Concat(toks[i + 1..])))
      {
        if i > 0 { assert toks[i] == rest[i - 1] && toks[i + 1..] == rest[i..]; }
      }
    }
  }

  /** A token of the block, seen from inside a piece, is as solid as it was in the block. */
  lemma InnerIsSolid(toks: seq<HtmlTok>, j: nat, b: nat, closers: seq<HtmlTok>)
    requires Solid(toks) && j < b <= |toks|
    requires forall i :: 0 <= i < |Concat(closers)| ==> Concat(closers)[i] != ';'
    ensures toks[j] == Atom("&") ==> NoEntity(Concat(toks[j + 1..b] + closers))
  {
    hide Concat, Cuts, NoEntity;
    if toks[j] == Atom("&") {
      assert NoEntity(Concat(toks[j + 1..]));
      assert toks[j + 1..] == toks[j + 1..b] + toks[b..];
      ConcatPlus(toks[j + 1..b], closers);
      ConcatPlus(toks[j + 1..b], toks[b..]);
      NoEntityShorter(Concat(toks[j + 1..b]), Concat(toks[b..]), Concat(closers));
    }
  }

  /** Reopened tags, a stretch of the block's tokens, and closers are cut where they are cut. */
  lemma PieceIsSolid(toks: seq<HtmlTok>, open0: seq<string>, a: nat, b: nat, closers: seq<HtmlTok>)
    requires Solid(toks) && a <= b <= |toks|
    requires forall k :: 0 <= k < |open0| ==> Cuts(Open(open0[k]))
    requires forall k :: 0 <= k < |closers| ==> closers[k].Close? && Cuts(closers[k])
    requires forall i :: 0 <= i < |Concat(closers)| ==> Concat(closers)[i] != ';'
    ensures Solid(Opens(open0) + toks[a..b] + closers)
  {
    hide Concat, Cuts, NoEntity;
    var opens, inner := Opens(open0), toks[a..b];
    var piece := opens + inner + closers;
    forall i | 0 <= i < |piece|
      ensures Cuts(piece[i]) && (piece[i] == Atom("&") ==> NoEntity(Concat(piece[i + 1..])))
    {
      if i < |opens| {
        assert piece[i] == Open(open0[i]);
      } else if i < |opens| + |inner| {
        var j := i - |opens| + a;
        assert piece[i] == toks[j];
        assert piece[i + 1..] == toks[j + 1..b] + closers;
        InnerIsSolid(toks, j, b, closers);
      } else {
        assert piece[i] == closers[i - |opens| - |inner|];
      }
    }
  }

  lemma PieceLexes(toks: seq<HtmlTok>, open0: seq<string>, a: nat, b: nat, open: seq<string>)
    requires Solid(toks) && a <= b <= |toks|
    requires forall k :: 0 <= k < |open0| ==> Cuts(Open(open0[k]))
    ensures var piece := Opens(open0) + toks[a..b] + Closers(open); Tokenize(Concat(piece)) == piece
  {
    hide Concat, Cuts, NoEntity, Solid, Lexes, Tokenize, Closers;
    ClosersAreSolid(open);
    PieceIsSolid(toks, open0, a, b, Closers(open));
    var piece := Opens(open0) + toks[a..b] + Closers(open);
    SolidLexes(piece);
    LexesTokenize(piece);
  }

  lemma NoEntityShorter(p: string, q: string, c: string)
    requires NoEntity(p + q) && forall i :: 0 <= i < |c| ==> c[i] != ';'
    ensures NoEntity(p + c)
  {
    forall k | 0 <= k < |p + c| && k <= 10 ensures (p + c)[k] != ';' {
      if k < |p| { assert (p + q)[k] == p[k]; }
    }
  }

  lemma {:induction false} ClosersAreSolid(open: seq<string>)
    ensures forall i :: 0 <= i < |Closers(open)| ==> Closers(open)[i].Close? && Cuts(Closers(open)[i])
    ensures forall i :: 0 <= i < |Concat(Closers(open))| ==> Concat(Closers(open))[i] != ';'
    decreases |open|
  {
    if open != [] {
      var top, rest := CloseFor(open[|open| - 1]), Closers(open[..|open| - 1]);
      ClosersAreSolid(open[..|open| - 1]);
      CloserIsATag(open[|open| - 1], "");
      assert top + "" == top;
      assert Closers(open)[1..] == rest;
    }
  }

  // -------------------------------------------------------------------------
  // The state of the split
  // -------------------------------------------------------------------------

  /** Styled text over several pieces. */
  function StyledPieces(pieces: seq<string>): seq<(string, seq<string>)> {
    if pieces == [] then []
    else StyledPieces(pieces[..|pieces| - 1]) + Styled([], Tokenize(pieces[|pieces| - 1]))
  }

  /** Tokens of the piece under construction: reopened tags and a stretch of the block. */
  function CurToks(toks: seq<HtmlTok>, open0: seq<string>, a: nat, i: nat): seq<HtmlTok>
    requires a <= i <= |toks|
  {
    Opens(open0) + toks[a..i]
  }

  /** After `i` tokens of a balanced block: finished pieces are balanced, the current one is open at
      exactly `open`, and together they carry the styled text of what was read. */
  ghost predicate Carries(toks: seq<HtmlTok>, i: nat, outs: seq<string>, cur: string, open: seq<string>,
                          open0: seq<string>, a: nat)
  {
    && a <= i <= |toks|
    && (forall k :: 0 <= k < |open0| ==> Cuts(Open(open0[k])))
    && (forall k :: 0 <= k < |open| ==> Cuts(Open(open[k])))
    && RunTags([], toks[..i]) == [open]
    && RunTags([], CurToks(toks, open0, a, i)) == [open]
    && cur == Concat(CurToks(toks, open0, a, i))
    && (forall k :: 0 <= k < |outs| ==> Balanced(Tokenize(outs[k])))
    && StyledPieces(outs) + Styled([], CurToks(toks, open0, a, i)) == Styled([], toks[..i])
  }

  lemma StartCarries(toks: seq<HtmlTok>)
    ensures Carries(toks, 0, [], "", [], [], 0)
    ensures Join([]) == "" && Reserve([]) == 0
  {
    assert toks[..0] == [] && CurToks(toks, [], 0, 0) == [];
  }

  /** Finishing a piece closes it and hands its open tags to the next one. */
  lemma FlushCarries(toks: seq<HtmlTok>, i: nat, outs: seq<string>, cur: string, open: seq<string>,
                     open0: seq<string>, a: nat)
    requires Solid(toks) && Carries(toks, i, outs, cur, open, open0, a)
    ensures var piece := cur + Concat(Closers(open));
      && Carries(toks, i, outs + [piece], Join(open), open, open, i)
      && |piece| == |cur| + Reserve(open)
      && StyledPieces(outs + [piece]) == Styled([], toks[..i])
  {
    hide Concat, Cuts, NoEntity, Solid, Tokenize, Closers, Opens, RunTags, Styled, Join, Reserve;
    var curToks := CurToks(toks, open0, a, i);
    var piece := cur + Concat(Closers(open));
    PieceLexes(toks, open0, a, i, open);
    ConcatPlus(curToks, Closers(open));
    RunTagsPlus([], curToks, Closers(open), open);
    ClosersRun(open);
    OpensRun(open);
    assert Tokenize(piece) == curToks + Closers(open);
    assert (outs + [piece])[..|outs|] == outs;
    assert toks[i..i] == [];
    assert CurToks(toks, open, i, i) == Opens(open);
    assert Styled([], Tokenize(piece)) == Styled([], curToks);
  }

  /** What the loop does to its stack of open tags when it reads a token. */
  function NextOpen(open: seq<string>, t: HtmlTok): seq<string> {
    match t
    case Open(s) => open + [s]
    case Close(_) => if open == [] then [] else open[..|open| - 1]
    case Atom(_) => open
  }

  /** In a balanced block a closing tag closes the innermost open one. */
  lemma BalancedStep(toks: seq<HtmlTok>, i: nat, open: seq<string>)
    requires Balanced(toks) && i < |toks| && RunTags([], toks[..i]) == [open]
    ensures RunTags(open, [toks[i]]) == [NextOpen(open, toks[i])]
    ensures toks[i].Close? ==> open != [] && toks[i].text == CloseFor(open[|open| - 1])
    ensures RunTags([], toks[..i + 1]) == [NextOpen(open, toks[i])]
    ensures Styled([], toks[..i + 1]) == Styled([], toks[..i]) + Styled(open, [toks[i]])
  {
    hide Styled, RunTags, CloseFor;
    assert toks[..i + 1] == toks[..i] + [toks[i]];
    PrefixRuns(toks, i + 1);
    RunTagsPlus([], toks[..i], [toks[i]], open);
    OneTok(open, toks[i]);
  }

  /** Reading one more token of a balanced block into the current piece. */
  lemma PushCarries(toks: seq<HtmlTok>, i: nat, outs: seq<string>, cur: string, open: seq<string>,
                    open0: seq<string>, a: nat)
    requires Solid(toks) && Balanced(toks) && i < |toks| && Carries(toks, i, outs, cur, open, open0, a)
    ensures Carries(toks, i + 1, outs, cur + toks[i].text, NextOpen(open, toks[i]), open0, a)
  {
    hide Concat, NoEntity, Tokenize, Closers, Opens, RunTags, Styled, CloseFor, StyledPieces, Balanced, Cuts;
    var t := toks[i];
    var curToks := CurToks(toks, open0, a, i);
    BalancedStep(toks, i, open);
    assert CurToks(toks, open0, a, i + 1) == curToks + [t];
    RunTagsPlus([], curToks, [t], open);
    ConcatPlus(curToks, [t]);
    OneTok(open, t);
    assert Cuts(t);
    var pieces, here, more := StyledPieces(outs), Styled([], curToks), Styled(open, [t]);
    assert pieces + (here + more) == (pieces + here) + more;
  }

  // -------------------------------------------------------------------------
  // Lengths
  // -------------------------------------------------------------------------

  /** A token fits when the tags it stands under, their closers and the token itself are within the limit. */
  predicate FitsAt(toks: seq<HtmlTok>, i: nat, limit: nat)
    requires i < |toks| && RunTags([], toks) != []
  {
    var stack := StackAt(toks, i);
    toks[i].Close? || |Join(stack)| + Reserve(stack) + |toks[i].text| + Extra(toks[i]) <= limit
  }

  predicate EachTokenFits(toks: seq<HtmlTok>, limit: nat)
    requires RunTags([], toks) != []
  {
    forall i :: 0 <= i < |toks| ==> FitsAt(toks, i, limit)
  }

  /** Room that the closer of a newly opened tag takes. */
  function Extra(t: HtmlTok): nat {
    if t.Open? then |CloseFor(t.text)| else 0
  }

  ghost predicate Bounded(outs: seq<string>, cur: string, open: seq<string>, limit: nat) {
    (forall k :: 0 <= k < |outs| ==> |outs[k]| <= limit) && |cur| + Reserve(open) <= limit
  }

  /** The loop invariant of a split: pieces stay within the limit exactly as long as every token fits. */
  ghost predicate Splits(toks: seq<HtmlTok>, i: nat, outs: seq<string>, cur: string, open: seq<string>,
                         open0: seq<string>, a: nat, limit: nat)
    requires RunTags([], toks) != []
  {
    && Carries(toks, i, outs, cur, open, open0, a)
    && |Join(open)| <= |cur|
    && ((forall j :: 0 <= j < i ==> FitsAt(toks, j, limit)) <==> Bounded(outs, cur, open, limit))
  }

  lemma FlushSplits(toks: seq<HtmlTok>, i: nat, outs: seq<string>, cur: string, open: seq<string>,
                    open0: seq<string>, a: nat, limit: nat)
    requires Solid(toks) && Balanced(toks) && Splits(toks, i, outs, cur, open, open0, a, limit)
    ensures var piece := cur + Concat(Closers(open));
      && Splits(toks, i, outs + [piece], Join(open), open, open, i, limit)
      && (forall k :: 0 <= k < |outs + [piece]| ==> Balanced(Tokenize((outs + [piece])[k])))
      && StyledPieces(outs + [piece]) == Styled([], toks[..i])
      && ((forall j :: 0 <= j < i ==> FitsAt(toks, j, limit))
          <==> (forall k :: 0 <= k < |outs + [piece]| ==> |(outs + [piece])[k]| <= limit))
  {
    hide Solid, Closers, Concat, Join, Reserve, StyledPieces, Styled, RunTags, FitsAt, Tokenize, Balanced, Opens;
    FlushCarries(toks, i, outs, cur, open, open0, a);
    hide Carries;
    var piece := cur + Concat(Closers(open));
    assert Bounded(outs + [piece], Join(open), open, limit) <==> Bounded(outs, cur, open, limit) by {
      assert (outs + [piece])[|outs|] == piece;
      assert forall k :: 0 <= k < |outs| ==> (outs + [piece])[k] == outs[k];
    }
  }

  lemma StackLengths(open: seq<string>, t: HtmlTok)
    requires t.Close? ==> open != [] && t.text == CloseFor(open[|open| - 1])
    ensures var next := NextOpen(open, t);
      && (!t.Close? ==> Reserve(next) == Reserve(open) + Extra(t))
      && (t.Close? ==> Reserve(next) + |t.text| == Reserve(open))
      && |Join(next)| <= |Join(open)| + |t.text|
  {
    if t.Open? { assert (open + [t.text])[..|open|] == open; }
  }

  lemma PushSplits(toks: seq<HtmlTok>, i: nat, outs: seq<string>, cur: string, open: seq<string>,
                   open0: seq<string>, a: nat, limit: nat)
    requires Solid(toks) && Balanced(toks) && i < |toks| && Splits(toks, i, outs, cur, open, open0, a, limit)
    requires cur == Join(open) || |cur| + |toks[i].text| + Reserve(open) + Extra(toks[i]) <= limit
    ensures Splits(toks, i + 1, outs, cur + toks[i].text, NextOpen(open, toks[i]), open0, a, limit)
  {
    hide Solid, Concat, Join, Reserve, StyledPieces, Styled, RunTags, NextOpen, Extra, CloseFor, Tokenize, Opens;
    var t := toks[i];
    PushCarries(toks, i, outs, cur, open, open0, a);
    BalancedStep(toks, i, open);
    StackLengths(open, t);
    assert StackAt(toks, i) == open;
    hide Carries;
    assert (forall j :: 0 <= j < i + 1 ==> FitsAt(toks, j, limit))
      <==> ((forall j :: 0 <= j < i ==> FitsAt(toks, j, limit)) && FitsAt(toks, i, limit));
  }

  // -------------------------------------------------------------------------
  // The split itself
  // -------------------------------------------------------------------------

  /** Every piece of a balanced block is balanced, the styled text is the block's, and the pieces are
      within the limit exactly when every token fits together with the tags it stands under. */
  method SplitBlock(block: string, limit: nat) returns (outs: seq<string>)
    ensures |block| <= limit ==> outs == [block]
    ensures Balanced(Tokenize(block)) ==>
      && (forall k :: 0 <= k < |outs| ==> Balanced(Tokenize(outs[k])))
      && StyledPieces(outs) == Styled([], Tokenize(block))
      && (|block| > limit ==>
          (EachTokenFits(Tokenize(block), limit) <==> (forall k :: 0 <= k < |outs| ==> |outs[k]| <= limit)))
  {
    if |block| <= limit {
      assert [block][..0] == [];
      return [block];
    }
    assert Tokenize(block) != [];
    hide Solid, Concat, Join, Reserve, Styled, RunTags, CloseFor, Tokenize, Opens, Carries, FitsAt, Closers, Lexes,
      Balanced, StyledPieces;
    var toks := TokenizeHtml(block);
    ghost var balanced := Balanced(toks);
    if balanced { BalancedLexesSolid(block); }
    outs := [];
    var cur, open, progressed := "", [], false;
    ghost var open0, a := [], 0;
    StartCarries(toks);
    for i := 0 to |toks|
      invariant progressed <==> i > 0
      invariant i > 0 ==> cur != ""
      invariant i == 0 ==> cur == Join(open)
      invariant balanced ==> Splits(toks, i, outs, cur, open, open0, a, limit)
    {
      var tok := toks[i];
      var reserve := SumClosers(open);
      var extra := Extra(tok);
      if progressed && |cur| + |tok.text| + reserve + extra > limit {
        if balanced { FlushSplits(toks, i, outs, cur, open, open0, a, limit); }
        var chunk := PushClosers(cur, open);
        outs := outs + [chunk];
        cur, progressed := Join(open), false;
        open0, a := open, i;
      }
      if balanced { PushSplits(toks, i, outs, cur, open, open0, a, limit); }
      TokensAreNonempty(block, i);
      cur := cur + tok.text;
      progressed := true;
      open := NextOpen(open, tok);
    }
    if cur != "" {
      if balanced { FlushSplits(toks, |toks|, outs, cur, open, open0, a, limit); }
      cur := PushClosers(cur, open);
      outs := outs + [cur];
      assert toks[..|toks|] == toks;
    }
  }

  lemma BalancedLexesSolid(block: string)
    requires Balanced(Tokenize(block))
    ensures Solid(Tokenize(block))
  {
    BalancedIsComplete(block, []);
    TokenizeLexes(block);
    LexesSolid(Tokenize(block));
  }

  lemma {:induction false} TokensAreNonempty(s: string, i: nat)
    requires i < |Tokenize(s)|
    ensures Tokenize(s)[i].text != ""
    decreases i
  {
    if i > 0 {
      TokensAreNonempty(s[|FirstTok(s).text|..], i - 1);
    }
  }
}
