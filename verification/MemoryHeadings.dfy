/** Where a memory file has headings, and the blocks between them (web/app/utils/memory.ts, lines 42-99). */
module MemoryHeadings {
  import opened Base
  import opened WebTexts
  import opened MemoryMetadata

  datatype MemoryBlock = MemoryBlock(id: string, timestamp: string, title: string, tags: seq<string>, content: string)

  /** A heading with its metadata, and the number of lines the two take. */
  datatype Heading = Heading(title: string, meta: Metadata, size: nat)

  function Blank(ls: seq<string>): (n: nat)
    ensures n <= |ls|
  {
    if ls == [] || !IsBlank(ls[0]) then 0 else 1 + Blank(ls[1..])
  }

  predicate IsBlank(line: string) {
    Strip(line) == ""
  }

  /** What stands behind the hashes of a heading line. */
  function HeadingText(line: string): Option<string> {
    var t := DropLeft(line);
    if "## " <= t then Some(Strip(t[3..])) else None
  }

  /** The metadata of a titled heading: the next line that is not blank. */
  function TitleMetadata(ls: seq<string>): Option<Metadata> {
    if Blank(ls) == |ls| then None else ParseMetadata(Strip(ls[Blank(ls)]))
  }

  /** The heading at the front of the lines. */
  function HeadingOf(ls: seq<string>): (r: Option<Heading>)
    ensures r.Some? ==> 0 < r.value.size <= |ls|
  {
    if ls == [] || HeadingText(ls[0]).None? then None else
    var text := HeadingText(ls[0]).value;
    if "[" <= text then
      match ParseMetadata(text)
      case None => None
      case Some(m) => Some(Heading("", m, 1))
    else
      match TitleMetadata(ls[1..])
      case None => None
      case Some(m) => Some(Heading(text, m, Blank(ls[1..]) + 2))
  }

  /** Lines in front of the next heading. */
  function Body(ls: seq<string>): (n: nat)
    ensures n <= |ls|
  {
    if ls == [] || HeadingOf(ls).Some? then 0 else 1 + Body(ls[1..])
  }

  function BlockOf(h: Heading, content: string): MemoryBlock {
    MemoryBlock(h.meta.id, h.meta.timestamp, h.title, h.meta.tags, content)
  }

  function ParseLines(ls: seq<string>): seq<MemoryBlock>
    decreases |ls|
  {
    if ls == [] then [] else
    match HeadingOf(ls)
    case None => ParseLines(ls[1..])
    case Some(h) =>
      var rest := ls[h.size..];
      [BlockOf(h, Strip(JoinWith(rest[..Body(rest)], "\n")))] + ParseLines(rest[Body(rest)..])
  }

  function Parse(text: string): seq<MemoryBlock> {
    ParseLines(Lines(text))
  }

  // -------------------------------------------------------------------------
  // Headings in texts that differ in white space at the ends of lines
  // -------------------------------------------------------------------------

  predicate Extends(x: string, y: string) {
    x <= y && AllWhite(y[|x|..])
  }

  /** Every line of `a` is that of `b` without some white space at its end; `b` may have more lines. */
  predicate Covers(a: seq<string>, b: seq<string>) {
    |a| <= |b| && forall k :: 0 <= k < |a| ==> Extends(a[k], b[k])
  }

  lemma StripSurvives(x: string, y: string)
    requires Extends(x, y)
    ensures Strip(x) == Strip(y)
  {
    StripPadded(x, y[|x|..]);
    assert y == x + y[|x|..];
  }

  lemma HeadingTextSurvives(x: string, y: string)
    requires Extends(x, y) && HeadingText(x).Some?
    ensures HeadingText(y) == HeadingText(x)
  {
    hide DropLeft, Strip;
    var t, w := DropLeft(x), y[|x|..];
    var p := x[..|x| - |t|];
    assert y == p + (t + w);
    DropLeftIs(p, t + w);
    assert (t + w)[3..] == t[3..] + w;
    StripPadded(t[3..], w);
  }

  lemma {:induction false} BlankSurvives(a: seq<string>, b: seq<string>)
    requires Covers(a, b) && Blank(a) < |a|
    ensures Blank(b) == Blank(a)
    decreases |a|
  {
    hide Strip;
    assert Extends(a[0], b[0]);
    StripSurvives(a[0], b[0]);
    if Strip(a[0]) == "" {
      assert forall k :: 0 <= k < |a[1..]| ==> a[1..][k] == a[k + 1] && b[1..][k] == b[k + 1];
      BlankSurvives(a[1..], b[1..]);
    }
  }

  lemma CoversTail(a: seq<string>, b: seq<string>)
    requires Covers(a, b) && a != []
    ensures Extends(a[0], b[0]) && Covers(a[1..], b[1..])
  {
    assert forall k :: 0 <= k < |a[1..]| ==> a[1..][k] == a[k + 1] && b[1..][k] == b[k + 1];
  }

  lemma TitleSurvives(a: seq<string>, b: seq<string>)
    requires Covers(a, b) && TitleMetadata(a).Some?
    ensures TitleMetadata(b) == TitleMetadata(a) && Blank(b) == Blank(a)
  {
    hide Blank, Strip, ParseMetadata;
    BlankSurvives(a, b);
    assert Extends(a[Blank(a)], b[Blank(a)]);
    StripSurvives(a[Blank(a)], b[Blank(a)]);
  }

  lemma HeadingSurvives(a: seq<string>, b: seq<string>)
    requires Covers(a, b) && HeadingOf(a).Some?
    ensures HeadingOf(b) == HeadingOf(a)
  {
    hide HeadingText, TitleMetadata, ParseMetadata, Blank, Extends;
    CoversTail(a, b);
    HeadingTextSurvives(a[0], b[0]);
    if !("[" <= HeadingText(a[0]).value) {
      TitleSurvives(a[1..], b[1..]);
    }
  }

  /** A stretch without headings has none after losing white space at line ends. */
  lemma {:induction false} BodySurvives(a: seq<string>, b: seq<string>)
    requires Covers(a, b) && Body(b) >= |a|
    ensures Body(a) == |a|
    decreases |a|
  {
    hide HeadingOf, Extends;
    if a != [] {
      if HeadingOf(a).Some? {
        HeadingSurvives(a, b);
      } else {
        CoversTail(a, b);
        BodySurvives(a[1..], b[1..]);
      }
    }
  }

  lemma TitleStep(x: string, ls: seq<string>)
    ensures TitleMetadata([x] + ls) == if Strip(x) == "" then TitleMetadata(ls) else ParseMetadata(Strip(x))
  {
    hide Strip, ParseMetadata;
    assert ([x] + ls)[1..] == ls;
    assert Strip(x) == "" ==> Blank([x] + ls) == 1 + Blank(ls);
  }

  lemma {:induction false} TitleAcross(ls: seq<string>, tail: seq<string>)
    requires TitleMetadata(ls).None? && TitleMetadata(tail).None?
    ensures TitleMetadata(ls + tail).None?
  {
    hide TitleMetadata, Strip, ParseMetadata;
    if ls == [] {
      assert ls + tail == tail;
    } else {
      assert ls == [ls[0]] + ls[1..] && ls + tail == [ls[0]] + (ls[1..] + tail);
      TitleStep(ls[0], ls[1..]);
      TitleStep(ls[0], ls[1..] + tail);
      if Strip(ls[0]) == "" { TitleAcross(ls[1..], tail); }
    }
  }

  lemma NoHeadingAcross(ls: seq<string>, tail: seq<string>)
    requires ls != [] && HeadingOf(ls).None? && TitleMetadata(tail).None?
    ensures HeadingOf(ls + tail).None?
  {
    hide HeadingText, TitleMetadata, ParseMetadata, Blank;
    assert (ls + tail)[1..] == ls[1..] + tail;
    if TitleMetadata(ls[1..]).None? { TitleAcross(ls[1..], tail); }
  }

  lemma {:induction false} BodyAcross(ls: seq<string>, tail: seq<string>)
    requires Body(ls) == |ls| && TitleMetadata(tail).None?
    ensures Body(ls + tail) == |ls| + Body(tail)
    decreases |ls|
  {
    hide HeadingOf, TitleMetadata;
    if ls == [] {
      assert ls + tail == tail;
    } else {
      NoHeadingAcross(ls, tail);
      assert (ls + tail)[1..] == ls[1..] + tail;
      BodyAcross(ls[1..], tail);
    }
  }
}
