/** How deep tags nest, and what that says about splitting. */
module HtmlNesting {
  import opened Base
  import opened HtmlTokens
  import opened HtmlTexts
  import opened SplitBlocks
  import opened ChunksOfBlocks

  /** With `n` tags open in front, never more than `most` are open. */
  predicate NestWithin(n: nat, toks: seq<HtmlTok>, most: nat)
    decreases |toks|
  {
    if toks == [] then true else
    match toks[0]
    case Open(_) => n + 1 <= most && NestWithin(n + 1, toks[1..], most)
    case Close(_) => NestWithin(if n == 0 then 0 else n - 1, toks[1..], most)
    case Atom(_) => NestWithin(n, toks[1..], most)
  }

  lemma {:induction false} NestPlus(stack: seq<string>, a: seq<HtmlTok>, b: seq<HtmlTok>, mid: seq<string>, most: nat)
    requires RunTags(stack, a) == [mid]
    requires NestWithin(|stack|, a, most) && NestWithin(|mid|, b, most)
    ensures NestWithin(|stack|, a + b, most)
    decreases |a|
  {
    if a == [] {
      assert a + b == b;
    } else {
      assert (a + b)[1..] == a[1..] + b && (a + b)[0] == a[0];
      match a[0] {
        case Open(s) => NestPlus(stack + [s], a[1..], b, mid, most);
        case Close(s) => NestPlus(stack[..|stack| - 1], a[1..], b, mid, most);
        case Atom(_) => NestPlus(stack, a[1..], b, mid, most);
      }
    }
  }

  lemma {:induction false} NestShift(n: nat, toks: seq<HtmlTok>, most: nat, stack: seq<string>)
    requires RunTags(stack, toks) != [] && n == |stack| && NestWithin(n, toks, most)
    ensures NestWithin(n + 1, toks, most + 1)
    decreases |toks|
  {
    if toks != [] {
      match toks[0] {
        case Open(s) => NestShift(n + 1, toks[1..], most, stack + [s]);
        case Close(_) => NestShift(n - 1, toks[1..], most, stack[..|stack| - 1]);
        case Atom(_) => NestShift(n, toks[1..], most, stack);
      }
    }
  }

  lemma {:induction false} NestMore(n: nat, toks: seq<HtmlTok>, most: nat, more: nat)
    requires NestWithin(n, toks, most) && most <= more
    ensures NestWithin(n, toks, more)
    decreases |toks|
  {
    if toks != [] {
      match toks[0] {
        case Open(_) => NestMore(n + 1, toks[1..], most, more);
        case Close(_) => NestMore(if n == 0 then 0 else n - 1, toks[1..], most, more);
        case Atom(_) => NestMore(n, toks[1..], most, more);
      }
    }
  }

  /** A well-formed fragment whose tags nest at most `most` deep. */
  predicate Nests(html: string, most: nat) {
    IsHtml(html) && NestWithin(0, Tokenize(html), most)
  }

  lemma NestsMore(html: string, most: nat, more: nat)
    requires Nests(html, most) && most <= more
    ensures Nests(html, more)
  {
    NestMore(0, Tokenize(html), most, more);
  }

  lemma NestsPlus(a: string, b: string, most: nat)
    requires Nests(a, most) && Nests(b, most)
    ensures Nests(a + b, most)
  {
    hide Tokenize, RunTags, NestWithin, Styled;
    HtmlPlus(a, b);
    NestPlus([], Tokenize(a), Tokenize(b), [], most);
  }

  lemma NestsWrap(tag: string, inner: string, close: string, most: nat)
    requires IsOpenTag(tag) && close == CloseFor(tag) && Nests(inner, most)
    ensures Nests(tag + inner + close, most + 1)
  {
    hide Tokenize, CloseFor, IsOpenTag;
    WrapTokens(tag, inner);
    WrapBalanced(tag, Tokenize(inner));
    var toks, end := Tokenize(inner), [Close(close)];
    hide IsHtml;
    NestShift(0, toks, most, []);
    RunUnder([tag], [], toks);
    assert [tag] + [] == [tag];
    assert end[1..] == [];
    NestPlus([tag], toks, end, [tag], most + 1);
    var all := [Open(tag)] + toks + end;
    assert all[1..] == toks + end && all[0] == Open(tag);
    assert Atom("&") !in all by { assert IsHtml(inner); NoRawAmpersand(inner); }
    WrappedIsHtml(tag + inner + close, all);
  }

  lemma NoRawAmpersand(s: string)
    requires IsHtml(s)
    ensures Atom("&") !in Tokenize(s)
  {
  }

  lemma WrappedIsHtml(s: string, toks: seq<HtmlTok>)
    requires toks == Tokenize(s) && Balanced(toks) && Atom("&") !in toks
    ensures IsHtml(s)
  {
  }

  lemma NestsNothing()
    ensures Nests("", 0)
  {
  }

  lemma {:induction false} AtomsNest(n: nat, toks: seq<HtmlTok>)
    requires forall i :: 0 <= i < |toks| ==> toks[i].Atom?
    ensures NestWithin(n, toks, n)
  {
    if toks != [] { AtomsNest(n, toks[1..]); }
  }

  lemma NestsChar(c: char)
    ensures Nests(EscapeChar(c, TEXT), 0)
  {
    ShowsChar(c);
    var e := EscapeChar(c, TEXT);
    if c in TEXT {
      AmpersandTokens(c);
    } else {
      assert e[..1] == e && e[1..] == "";
      assert Tokenize(e) == [Atom(e)];
    }
    AtomsNest(0, Tokenize(e));
  }

  lemma {:induction false} NestsEscaped(s: string)
    ensures Nests(Escaped(s, TEXT), 0)
  {
    hide Nests;
    if s == "" {
      NestsNothing();
    } else {
      NestsChar(s[0]);
      NestsEscaped(s[1..]);
      NestsPlus(EscapeChar(s[0], TEXT), Escaped(s[1..], TEXT), 0);
    }
  }

  lemma {:induction false} NestsJoin(parts: seq<string>, sep: string, most: nat)
    requires forall k :: 0 <= k < |parts| ==> Nests(parts[k], most)
    requires Nests(sep, most)
    ensures Nests(JoinWith(parts, sep), most)
  {
    hide Nests;
    if parts == [] {
      NestsNothing();
      NestsMore("", 0, most);
    } else if |parts| > 1 {
      var init := parts[..|parts| - 1];
      assert forall k :: 0 <= k < |init| ==> init[k] == parts[k];
      NestsJoin(init, sep, most);
      NestsPlus(JoinWith(init, sep), sep, most);
      NestsPlus(JoinWith(init, sep) + sep, parts[|parts| - 1], most);
    }
  }

  // -------------------------------------------------------------------------
  // Short tags that nest a bounded number of times fit every message
  // -------------------------------------------------------------------------

  /** Room that a tag and its closer take. */
  function TagRoom(tag: string): nat {
    |tag| + |CloseFor(tag)|
  }

  predicate TagsTakeAtMost(toks: seq<HtmlTok>, room: nat) {
    forall i :: 0 <= i < |toks| && toks[i].Open? ==> TagRoom(toks[i].text) <= room
  }

  lemma {:induction false} StackRoom(stack: seq<string>, room: nat)
    requires forall k :: 0 <= k < |stack| ==> TagRoom(stack[k]) <= room
    ensures |Join(stack)| + Reserve(stack) <= |stack| * room
  {
    hide CloseFor;
    if stack != [] {
      var below, top := stack[..|stack| - 1], stack[|stack| - 1];
      StackRoom(below, room);
      assert |Join(stack)| == |Join(below)| + |top|;
      assert Reserve(stack) == Reserve(below) + |CloseFor(top)|;
      assert TagRoom(top) <= room;
      OneMore(|below|, room);
    }
  }

  lemma OneMore(n: nat, room: nat)
    ensures (n + 1) * room == n * room + room
  {
  }

  /** The stack in front of a token holds at most `most` tags of the block, fewer in front of a tag. */
  lemma {:induction false} StackIsSmall(start: seq<string>, toks: seq<HtmlTok>, i: nat, most: nat, room: nat)
    returns (stack: seq<string>)
    requires i < |toks| && RunTags(start, toks) != [] && |start| <= most && NestWithin(|start|, toks, most)
    requires TagsTakeAtMost(toks, room) && forall k :: 0 <= k < |start| ==> TagRoom(start[k]) <= room
    ensures RunTags(start, toks[..i]) == [stack] && |stack| <= most && (toks[i].Open? ==> |stack| + 1 <= most)
    ensures forall k :: 0 <= k < |stack| ==> TagRoom(stack[k]) <= room
    decreases |toks|
  {
    hide TagRoom, CloseFor;
    if i == 0 {
      assert toks[..0] == [];
      stack := start;
    } else {
      var rest := toks[1..];
      assert toks[..i][1..] == rest[..i - 1] && toks[..i][0] == toks[0] && rest[i - 1] == toks[i];
      assert forall k :: 0 <= k < |rest| ==> rest[k] == toks[k + 1];
      match toks[0] {
        case Open(s) => stack := StackIsSmall(start + [s], rest, i - 1, most, room);
        case Close(_) => stack := StackIsSmall(start[..|start| - 1], rest, i - 1, most, room);
        case Atom(_) => stack := StackIsSmall(start, rest, i - 1, most, room);
      }
    }
  }

  lemma {:induction false} AtomsAreShort(s: string, i: nat)
    requires i < |Tokenize(s)| && Tokenize(s)[i].Atom?
    ensures |Tokenize(s)[i].text| <= 12
    decreases i
  {
    if i > 0 { AtomsAreShort(s[|FirstTok(s).text|..], i - 1); }
  }

  /** A block whose tags are short and nest boundedly is within the limit in every piece. */
  lemma ShortTagsFit(block: string, most: nat, room: nat, limit: nat)
    requires Nests(block, most) && TagsTakeAtMost(Tokenize(block), room)
    requires most * room + 12 <= limit
    ensures BlockFits(block, limit)
  {
    hide Tokenize, RunTags, NestWithin, TagRoom, Join, Reserve;
    var toks := Tokenize(block);
    forall i | 0 <= i < |toks| ensures FitsAt(toks, i, limit) {
      TokenFits(block, i, most, room, limit);
    }
  }

  lemma TokenFits(block: string, i: nat, most: nat, room: nat, limit: nat)
    requires Nests(block, most) && TagsTakeAtMost(Tokenize(block), room) && i < |Tokenize(block)|
    requires most * room + 12 <= limit
    ensures FitsAt(Tokenize(block), i, limit)
  {
    hide Tokenize, RunTags, NestWithin, Join, Reserve, CloseFor;
    var toks := Tokenize(block);
    var stack := StackIsSmall([], toks, i, most, room);
    StackRoom(stack, room);
    if toks[i].Open? {
      assert TagRoom(toks[i].text) <= room;
      assert (|stack| + 1) * room <= most * room by { TimesMonotone(|stack| + 1, most, room); }
      assert |stack| * room + room == (|stack| + 1) * room;
    } else if toks[i].Atom? {
      AtomsAreShort(block, i);
      TimesMonotone(|stack|, most, room);
    }
  }

  lemma TimesMonotone(a: nat, b: nat, c: nat)
    requires a <= b
    ensures a * c <= b * c
  {
  }

  /** A tag longer than the limit never fits: its block cannot be sent within the limit. */
  lemma LongTagNeverFits(block: string, i: nat, limit: nat)
    requires IsHtml(block) && i < |Tokenize(block)| && Tokenize(block)[i].Open? && |Tokenize(block)[i].text| > limit
    ensures !BlockFits(block, limit)
  {
    hide Tokenize, RunTags, Join, Reserve;
    TokenWithinText(block, i);
    assert !FitsAt(Tokenize(block), i, limit);
  }

  lemma {:induction false} TokenWithinText(s: string, i: nat)
    requires i < |Tokenize(s)|
    ensures |Tokenize(s)[i].text| <= |s|
    decreases i
  {
    if i > 0 { TokenWithinText(s[|FirstTok(s).text|..], i - 1); }
  }
}
