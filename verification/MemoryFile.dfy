/** Writing a memory file and reading it back (web/app/utils/memory.ts, lines 42-143). */
module MemoryFiles {
  import opened Base
  import opened Text
  import opened WebTexts
  import opened MemoryMetadata
  import opened MemoryHeadings

  // -------------------------------------------------------------------------
  // Writing
  // -------------------------------------------------------------------------

  function MetadataOf(b: MemoryBlock): Metadata {
    Metadata(b.id, b.timestamp, b.tags)
  }

  /** The lines of a block, the content as one of them. */
  function Parts(b: MemoryBlock): seq<string> {
    if b.title != "" then ["## " + b.title, MetadataLine(MetadataOf(b)), "", b.content]
    else ["## " + MetadataLine(MetadataOf(b)), b.content]
  }

  /** All parts, with an empty one between blocks. */
  function AllParts(bs: seq<MemoryBlock>): seq<string> {
    if bs == [] then [] else
    if |bs| == 1 then Parts(bs[0]) else Parts(bs[0]) + [""] + AllParts(bs[1..])
  }

  function Serialize(bs: seq<MemoryBlock>): string {
    if bs == [] then "" else JoinWith(AllParts(bs), "\n") + "\n"
  }

  // -------------------------------------------------------------------------
  // Reading what was written
  // -------------------------------------------------------------------------

  /** Metadata and title that their lines can say. */
  predicate CleanHead(b: MemoryBlock) {
    CleanMetadata(MetadataOf(b)) && Trimmed(b.title) && '\n' !in b.title && !("[" <= b.title)
  }

  /** A stripped text none of whose lines reads as a heading. */
  predicate CleanContent(c: string) {
    Trimmed(c) && Body(Lines(c)) == |Lines(c)|
  }

  predicate CleanBlock(b: MemoryBlock) {
    CleanHead(b) && CleanContent(b.content)
  }

  predicate AllClean(bs: seq<MemoryBlock>) {
    forall i :: 0 <= i < |bs| ==> CleanBlock(bs[i])
  }

  /** A list that the format can hold: clean blocks without CRLF in their contents. */
  predicate Canonical(bs: seq<MemoryBlock>) {
    AllClean(bs) && forall i :: 0 <= i < |bs| ==> Find(bs[i].content, "\r\n").None?
  }

  function UnixBlock(b: MemoryBlock): MemoryBlock {
    b.(content := Unix(b.content))
  }

  function UnixBlocks(bs: seq<MemoryBlock>): (r: seq<MemoryBlock>)
    ensures |r| == |bs| && forall i :: 0 <= i < |bs| ==> r[i] == UnixBlock(bs[i])
  {
    if bs == [] then [] else [UnixBlock(bs[0])] + UnixBlocks(bs[1..])
  }

  function Head(b: MemoryBlock): (r: seq<string>)
    ensures r != []
  {
    var m := MetadataLine(MetadataOf(b));
    if b.title != "" then ["## " + b.title, m] else ["## " + m]
  }

  /** The lines behind the head: content between an empty line, when there is a title, and another. */
  function Rest(b: MemoryBlock): seq<string> {
    (if b.title != "" then [""] else []) + Lines(b.content) + [""]
  }

  function AllLines(bs: seq<MemoryBlock>): seq<string> {
    if bs == [] then [] else Head(bs[0]) + Rest(bs[0]) + AllLines(bs[1..])
  }

  lemma HashLine(x: string)
    ensures HeadingText("## " + x) == Some(Strip(x))
    ensures Strip("## " + x) != "" && ParseMetadata(Strip("## " + x)).None?
  {
    hide ParseMetadata, Strip, DropLeft;
    var s := "## " + x;
    assert s[0] == '#' && s[3..] == x && "" + s == s;
    DropLeftIs("", s);
    HashStays(s);
    MetadataOfStripped(s);
    HashIsNoBracket(s);
  }

  lemma HashStays(s: string)
    requires s != "" && s[0] == '#'
    ensures Strip(s) != "" && Strip(s)[0] == '#'
  {
    hide DropLeft, DropRight;
    DropLeftIs("", s);
    assert "" + s == s && s[0..] == s && !AllWhite(s);
  }

  lemma HashIsNoBracket(s: string)
    requires Strip(s) != "" && Strip(s)[0] == '#'
    ensures ParseMetadata(s).None?
  {
    hide Strip, ParseBracket;
  }

  lemma MetadataOfStripped(s: string)
    ensures ParseMetadata(Strip(s)) == ParseMetadata(s)
  {
    hide Strip, ParseBracket;
    StripTrimmed(Strip(s));
  }

  lemma MetadataBegins(s: string)
    requires ParseMetadata(s).Some?
    ensures "[" <= Strip(s) && Strip(s) != ""
  {
    hide Strip, ParseBracket;
  }

  /** The head of a clean block is read back, whatever follows. */
  lemma HeadReadsBack(b: MemoryBlock, tail: seq<string>)
    requires CleanHead(b)
    ensures HeadingOf(Head(b) + tail) == Some(Heading(b.title, MetadataOf(b), |Head(b)|))
  {
    hide HeadingText, TitleMetadata, ParseMetadata, CleanMetadata, MetadataLine, Strip;
    var m := MetadataLine(MetadataOf(b));
    MetadataReadsBack(MetadataOf(b));
    MetadataOfStripped(m);
    MetadataBegins(m);
    var ls := Head(b) + tail;
    if b.title != "" {
      HashLine(b.title);
      StripTrimmed(b.title);
      assert ls[1..] == [m] + tail;
      TitleStep(m, tail);
      assert Blank([m] + tail) == 0;
    } else {
      HashLine(m);
    }
  }

  /** What is written for further blocks begins with a heading, if with anything. */
  lemma NextBlocksBegin(bs: seq<MemoryBlock>)
    requires AllClean(bs)
    ensures TitleMetadata(AllLines(bs)).None? && Body(AllLines(bs)) == 0
  {
    hide CleanHead, CleanContent, TitleMetadata, HeadingOf, Strip, ParseMetadata, Rest, Head;
    if bs != [] {
      assert CleanBlock(bs[0]);
      var b, tail := bs[0], Rest(bs[0]) + AllLines(bs[1..]);
      assert Head(b) + Rest(b) + AllLines(bs[1..]) == Head(b) + tail;
      HeadReadsBack(b, tail);
      var x := HeadBegins(b);
      HashLine(x);
      assert AllLines(bs) == ["## " + x] + (Head(b)[1..] + tail);
      TitleStep("## " + x, Head(b)[1..] + tail);
    } else {
      NoTitle();
    }
  }

  lemma HeadBegins(b: MemoryBlock) returns (x: string)
    ensures Head(b) == ["## " + x] + Head(b)[1..]
  {
    hide MetadataLine;
    x := if b.title != "" then b.title else MetadataLine(MetadataOf(b));
  }

  lemma NoTitle()
    ensures TitleMetadata([]).None? && TitleMetadata([""]).None? && Body([""]) == 1
  {
    hide Strip, ParseMetadata, DropLeft;
    StripTrimmed("");
    assert Blank([""]) == 1;
  }

  lemma EmptyLineFirst(ls: seq<string>)
    ensures Body([""] + ls) == 1 + Body(ls)
  {
    assert ([""] + ls)[1..] == ls;
    assert DropLeft("") == "";
  }

  /** The content with its empty lines has no heading, also in front of further blocks. */
  lemma RestIsBody(b: MemoryBlock, bs: seq<MemoryBlock>)
    requires CleanContent(b.content) && AllClean(bs)
    ensures Body(Rest(b) + AllLines(bs)) == |Rest(b)|
  {
    hide Body, Lines, AllLines, TitleMetadata, AllClean;
    NoTitle();
    NextBlocksBegin(bs);
    var c := Lines(b.content) + [""];
    BodyAcross(Lines(b.content), [""]);
    if b.title != "" {
      assert Rest(b) == [""] + c;
      EmptyLineFirst(c);
    } else {
      assert Rest(b) == c;
    }
    BodyAcross(Rest(b), AllLines(bs));
  }

  lemma {:induction false} JoinConcat(a: seq<string>, b: seq<string>, sep: string)
    requires a != [] && b != []
    ensures JoinWith(a + b, sep) == JoinWith(a, sep) + sep + JoinWith(b, sep)
    decreases |a|
  {
    hide JoinWith;
    if |a| == 1 {
      JoinCons(a[0], b, sep);
      assert a == [a[0]] && [] + [a[0]] == a;
      JoinAdd([], a[0], sep);
    } else {
      JoinConcat(a[1..], b, sep);
      JoinCons(a[0], a[1..], sep);
      JoinCons(a[0], a[1..] + b, sep);
      assert a == [a[0]] + a[1..] && a + b == [a[0]] + (a[1..] + b);
    }
  }

  lemma PaddedStrips(t: string, lead: bool)
    requires Trimmed(t)
    ensures Strip((if lead then "\n" else "") + t + "\n") == t
  {
    StripIs(if lead then "\n" else "", t, "\n");
  }

  /** The content comes back, its CRLFs as LFs. */
  lemma ContentReadsBack(b: MemoryBlock)
    requires Trimmed(b.content)
    ensures Strip(JoinWith(Rest(b), "\n")) == Unix(b.content)
  {
    hide JoinWith, Lines, Unix, Strip;
    var c, u := Lines(b.content), Unix(b.content);
    JoinLines(b.content);
    JoinAdd(c, "", "\n");
    JoinCons("", c + [""], "\n");
    UnixIsTrimmed(b.content);
    PaddedStrips(u, b.title != "");
    if b.title != "" {
      assert Rest(b) == [""] + (c + [""]);
      assert "" + "\n" + (u + "\n" + "") == "\n" + u + "\n";
    } else {
      assert Rest(b) == c + [""];
      assert u + "\n" + "" == "" + u + "\n";
    }
  }

  lemma UnixIsTrimmed(s: string)
    requires Trimmed(s)
    ensures Trimmed(Unix(s))
  {
    hide Unix;
    if s == "" {
      EmptyUnix();
    } else {
      UnixTrimmed(s);
    }
  }

  lemma EmptyUnix()
    ensures Unix("") == ""
  {
  }

  /** The first block of the written lines is read, and reading goes on behind it. */
  lemma BlockReadsBack(b: MemoryBlock, bs: seq<MemoryBlock>)
    requires CleanBlock(b) && AllClean(bs)
    ensures ParseLines(Head(b) + Rest(b) + AllLines(bs)) == [UnixBlock(b)] + ParseLines(AllLines(bs))
  {
    hide CleanHead, CleanContent, AllClean, HeadingOf, Head, Rest, AllLines, Strip, Unix, Body, JoinWith;
    var tail := Rest(b) + AllLines(bs);
    var ls := Head(b) + tail;
    assert Head(b) + Rest(b) + AllLines(bs) == ls;
    HeadReadsBack(b, tail);
    RestIsBody(b, bs);
    assert Trimmed(b.content) by { ContentIsTrimmed(b.content); }
    ContentReadsBack(b);
    assert ls[|Head(b)|..] == tail && tail[..|Rest(b)|] == Rest(b) && tail[|Rest(b)|..] == AllLines(bs);
  }

  lemma ContentIsTrimmed(c: string)
    requires CleanContent(c)
    ensures Trimmed(c)
  {
  }

  lemma {:induction false} BlocksReadBack(bs: seq<MemoryBlock>)
    requires AllClean(bs)
    ensures ParseLines(AllLines(bs)) == UnixBlocks(bs)
    decreases |bs|
  {
    hide ParseLines, CleanBlock, Head, Rest;
    if bs == [] {
      NothingParses();
    } else {
      BlockReadsBack(bs[0], bs[1..]);
      BlocksReadBack(bs[1..]);
    }
  }

  lemma NothingParses()
    ensures ParseLines([]) == [] && ParseLines([""]) == []
  {
    hide Strip, ParseMetadata, TitleMetadata, JoinWith, Body, DropLeft;
    assert HeadingText("").None?;
    assert [""][1..] == [];
  }

  /** A line of its own in front of a text. */
  lemma LineFirst(x: string, rest: string)
    requires '\n' !in x && x != "" && x[|x| - 1] != '\r'
    ensures Lines(x + "\n" + rest) == [x] + Lines(rest)
  {
    hide Lines;
    OneLine(x);
    LinesAcross(x, rest);
  }

  lemma MetadataLineEnds(m: Metadata)
    requires CleanMetadata(m)
    ensures var x := MetadataLine(m); x != "" && x[|x| - 1] != '\r'
  {
  }

  /** The parts of a block as lines. */
  lemma PartsAsLines(b: MemoryBlock, rest: string)
    requires CleanHead(b) && Trimmed(b.content)
    ensures Lines(JoinWith(Parts(b), "\n") + "\n" + rest)
      == Head(b) + (if b.title != "" then [""] else []) + Lines(b.content) + Lines(rest)
  {
    hide Lines, JoinWith, MetadataLine, CleanMetadata;
    var c, m := b.content, MetadataLine(MetadataOf(b));
    MetadataInLine(MetadataOf(b));
    MetadataLineEnds(MetadataOf(b));
    LinesAcross(c, rest);
    JoinOne(c);
    if b.title != "" {
      var t, y := "## " + b.title, c + "\n" + rest;
      JoinCons("", [c], "\n");
      JoinCons(m, [""] + [c], "\n");
      JoinCons(t, [m] + ([""] + [c]), "\n");
      assert Parts(b) == [t] + ([m] + ([""] + [c]));
      LinesBreak(y);
      LineFirst(m, "\n" + y);
      LineFirst(t, m + "\n" + ("\n" + y));
      TitledText(t, m, c, rest);
      assert [t] + ([m] + ([""] + (Lines(c) + Lines(rest)))) == [t, m] + [""] + Lines(c) + Lines(rest);
    } else {
      var h := "## " + m;
      JoinCons(h, [c], "\n");
      assert Parts(b) == [h] + [c];
      LineFirst(h, c + "\n" + rest);
      assert h + "\n" + c + "\n" + rest == h + "\n" + (c + "\n" + rest);
      assert [h] + (Lines(c) + Lines(rest)) == [h] + [] + Lines(c) + Lines(rest);
    }
  }

  lemma TitledText(t: string, m: string, c: string, rest: string)
    ensures t + "\n" + (m + "\n" + ("" + "\n" + c)) + "\n" + rest == t + "\n" + (m + "\n" + ("\n" + (c + "\n" + rest)))
  {
  }

  lemma JoinOne(x: string)
    ensures JoinWith([x], "\n") == x
  {
  }

  lemma {:induction false} SerializedLines(bs: seq<MemoryBlock>)
    requires AllClean(bs) && bs != []
    ensures Lines(Serialize(bs)) == AllLines(bs)
    decreases |bs|
  {
    hide Lines, JoinWith, CleanHead, CleanContent, Parts, Head;
    var b, more := bs[0], bs[1..];
    assert CleanBlock(b);
    ContentIsTrimmed(b.content);
    var j := JoinWith(Parts(b), "\n");
    if more == [] {
      PartsAsLines(b, "");
      OneLine("");
      assert j + "\n" + "" == j + "\n";
      assert AllLines(more) == [];
    } else {
      SerializedLines(more);
      SerializedSplits(b, more);
      LinesBreak(Serialize(more));
      PartsAsLines(b, "\n" + Serialize(more));
      assert [b] + more == bs;
    }
    var lead := if b.title != "" then [""] else [];
    Regroup(Head(b), lead, Lines(b.content), AllLines(more));
  }

  lemma Regroup(a: seq<string>, b: seq<string>, c: seq<string>, d: seq<string>)
    ensures a + b + c + ([""] + d) == a + (b + c + [""]) + d
  {
  }

  lemma SerializedSplits(b: MemoryBlock, more: seq<MemoryBlock>)
    requires more != []
    ensures Serialize([b] + more) == JoinWith(Parts(b), "\n") + "\n" + ("\n" + Serialize(more))
  {
    hide JoinWith;
    var bs, ps := [b] + more, AllParts(more);
    assert bs[1..] == more && ps != [];
    assert AllParts(bs) == Parts(b) + [""] + ps == Parts(b) + ([""] + ps);
    hide AllParts;
    JoinConcat(Parts(b), [""] + ps, "\n");
    JoinCons("", ps, "\n");
  }

  /** Written blocks are read back, with every CRLF in their contents as LF. */
  lemma WrittenReadsBack(bs: seq<MemoryBlock>)
    requires AllClean(bs)
    ensures Parse(Serialize(bs)) == UnixBlocks(bs)
  {
    hide Serialize, ParseLines, AllLines, Lines, AllClean;
    if bs == [] {
      NothingWritten();
    } else {
      SerializedLines(bs);
      BlocksReadBack(bs);
    }
  }

  lemma NothingWritten()
    ensures Parse(Serialize([])) == []
  {
    OneLine("");
    NothingParses();
  }

  // -------------------------------------------------------------------------
  // What reading gives
  // -------------------------------------------------------------------------

  predicate LineFree(ls: seq<string>) {
    forall k :: 0 <= k < |ls| ==> '\n' !in ls[k]
  }

  lemma {:induction false} LinesAreFree(s: string)
    ensures LineFree(Lines(s))
    decreases |s|
  {
    if s == "" {
    } else if s[0] == '\n' {
      LinesAreFree(s[1..]);
    } else if StartsCrLf(s) {
      LinesAreFree(s[2..]);
    } else {
      LinesAreFree(s[1..]);
    }
  }

  lemma {:induction false} LineBeforeCrLf(y: string, rest: string)
    requires '\n' !in y
    ensures Lines(y + "\r\n" + rest) == [y] + Lines(rest)
    decreases |y|
  {
    hide Lines;
    LinesBreak(rest);
    if y == "" {
      assert y + "\r\n" + rest == "\r\n" + rest;
    } else {
      var s := y[1..] + "\r\n" + rest;
      LineBeforeCrLf(y[1..], rest);
      assert s[0] == if |y| > 1 then y[1] else '\r';
      LinesStep(y[0], s);
      assert y + "\r\n" + rest == [y[0]] + s && y == [y[0]] + y[1..];
    }
  }

  /** A line in front of a text loses at most a carriage return. */
  lemma LineAgain(x: string, rest: string) returns (y: string)
    requires '\n' !in x
    ensures Lines(x + "\n" + rest) == [y] + Lines(rest) && Extends(y, x)
  {
    hide Lines;
    if x != "" && x[|x| - 1] == '\r' {
      y := x[..|x| - 1];
      assert x + "\n" + rest == y + "\r\n" + rest;
      LineBeforeCrLf(y, rest);
    } else {
      y := x;
      OneLine(x);
      LinesAcross(x, rest);
    }
  }

  /** Joined lines split into the lines again, some carriage returns at their ends aside. */
  lemma {:induction false} JoinedLines(ls: seq<string>)
    requires ls != [] && LineFree(ls)
    ensures Covers(Lines(JoinWith(ls, "\n")), ls)
    decreases |ls|
  {
    hide Lines, JoinWith, Extends;
    var x, more := ls[0], ls[1..];
    assert ls == [x] + more;
    if more == [] {
      assert ls == [x];
      JoinOne(x);
      OneLine(x);
      SameExtends(x);
    } else {
      JoinedLines(more);
      JoinCons(x, more, "\n");
      var y := LineAgain(x, JoinWith(more, "\n"));
    }
  }

  lemma SameExtends(x: string)
    ensures Extends(x, x)
  {
  }

  /** White space in front of a text holds no heading of its own. */
  lemma {:induction false} LeftKeeps(p: string, s: string)
    requires AllWhite(p) && Body(Lines(p + s)) == |Lines(p + s)|
    ensures Body(Lines(s)) == |Lines(s)|
    decreases |p|
  {
    hide Lines, Body;
    if p == "" {
      assert p + s == s;
    } else {
      var t := p[1..] + s;
      assert p + s == [p[0]] + t;
      FirstKeeps(p[0], t);
      LeftKeeps(p[1..], s);
    }
  }

  lemma FirstKeeps(w: char, s: string)
    requires White(w) && Body(Lines([w] + s)) == |Lines([w] + s)|
    ensures Body(Lines(s)) == |Lines(s)|
  {
    hide Lines, HeadingOf;
    if w == '\n' {
      LinesBreak(s);
      EmptyLineFirst(Lines(s));
    } else if w == '\r' && "\n" <= s {
      LinesBreak(s[1..]);
      assert s == "\n" + s[1..] && [w] + s == "\r\n" + s[1..];
    } else {
      LinesStep(w, s);
      IndentIsNoHeading(w, Lines(s));
    }
  }

  lemma IndentIsNoHeading(w: char, ls: seq<string>)
    requires White(w) && ls != []
    ensures HeadingOf(Prepend(w, ls)).Some? <==> HeadingOf(ls).Some?
    ensures Prepend(w, ls)[1..] == ls[1..]
  {
    hide ParseMetadata, TitleMetadata, Blank, HeadingText;
    IndentedText(w, ls[0]);
  }

  lemma IndentedText(w: char, x: string)
    requires White(w)
    ensures HeadingText([w] + x) == HeadingText(x)
  {
    hide Strip;
    assert ([w] + x)[1..] == x;
    assert DropLeft([w] + x) == DropLeft(x);
  }

  lemma {:induction false} FirstLineIsWhite(q: string)
    requires AllWhite(q)
    ensures AllWhite(Lines(q)[0])
    decreases |q|
  {
    if q != "" && q[0] != '\n' && !StartsCrLf(q) {
      FirstLineIsWhite(q[1..]);
    }
  }

  /** White space behind a text extends its last line, or follows it. */
  lemma {:induction false} RightCovers(t: string, q: string)
    requires t != "" && !White(t[|t| - 1]) && AllWhite(q)
    ensures Covers(Lines(t), Lines(t + q))
    decreases |t|
  {
    hide Lines;
    if |t| == 1 {
      OneLine(t);
      assert t + q == [t[0]] + q;
      LinesStep(t[0], q);
      FirstLineIsWhite(q);
      assert t <= Lines(t + q)[0];
    } else if t[0] == '\n' {
      RightCovers(t[1..], q);
      LinesBreak(t[1..]);
      LinesBreak(t[1..] + q);
      assert t == "\n" + t[1..] && t + q == "\n" + (t[1..] + q);
    } else if StartsCrLf(t) {
      assert |t| > 2;
      RightCovers(t[2..], q);
      LinesBreak(t[2..]);
      LinesBreak(t[2..] + q);
      assert t == "\r\n" + t[2..] && t + q == "\r\n" + (t[2..] + q);
    } else {
      RightCovers(t[1..], q);
      assert t == [t[0]] + t[1..] && t + q == [t[0]] + (t[1..] + q);
      LinesStep(t[0], t[1..]);
      LinesStep(t[0], t[1..] + q);
      PrependCovers(t[0], Lines(t[1..]), Lines(t[1..] + q));
    }
  }

  lemma PrependCovers(c: char, a: seq<string>, b: seq<string>)
    requires Covers(a, b) && a != []
    ensures Covers(Prepend(c, a), Prepend(c, b))
  {
    assert Extends(a[0], b[0]);
    assert ([c] + b[0])[|a[0]| + 1..] == b[0][|a[0]|..];
    assert forall k :: 1 <= k < |a| ==> Prepend(c, a)[k] == a[k] && Prepend(c, b)[k] == b[k];
  }

  lemma EmptyIsClean()
    ensures CleanContent("")
  {
    OneLine("");
    NoTitle();
  }

  /** The lines between two headings, joined and stripped, are content that can be written. */
  lemma BodyIsClean(ls: seq<string>)
    requires LineFree(ls) && Body(ls) == |ls|
    ensures CleanContent(Strip(JoinWith(ls, "\n")))
  {
    hide Lines, Body, JoinWith, Strip, Covers, AllWhite, LineFree;
    var j := JoinWith(ls, "\n");
    var t := Strip(j);
    var p, q := StripParts(j);
    if t == "" {
      EmptyIsClean();
    } else {
      assert ls != [] by { NothingStrips(ls); }
      JoinedLines(ls);
      CoversIsShorter(Lines(j), ls);
      BodySurvives(Lines(j), ls);
      assert j == p + (t + q);
      LeftKeeps(p, t + q);
      RightCovers(t, q);
      CoversIsShorter(Lines(t), Lines(t + q));
      BodySurvives(Lines(t), Lines(t + q));
    }
  }

  lemma NothingStrips(ls: seq<string>)
    requires Strip(JoinWith(ls, "\n")) != ""
    ensures ls != []
  {
    StripTrimmed("");
  }

  lemma CoversIsShorter(a: seq<string>, b: seq<string>)
    requires Covers(a, b)
    ensures |a| <= |b|
  {
  }

  /** A heading that is read can be written. */
  lemma HeadingIsClean(ls: seq<string>, content: string)
    requires LineFree(ls) && HeadingOf(ls).Some?
    ensures CleanHead(BlockOf(HeadingOf(ls).value, content))
  {
    hide Strip, ParseMetadata, CleanMetadata, Blank, DropLeft;
    var x := DropLeft(ls[0]);
    assert '\n' !in ls[0] && '\n' !in x[3..];
    StripKeepsOut(x[3..], '\n');
    var text := Strip(x[3..]);
    if "[" <= text {
      ParsedMetadataIsClean(text);
    } else {
      var more := ls[1..];
      var line := more[Blank(more)];
      assert line == ls[Blank(more) + 1];
      StripKeepsOut(line, '\n');
      ParsedMetadataIsClean(Strip(line));
    }
  }

  lemma BodyOfPrefix(ls: seq<string>)
    ensures Body(ls[..Body(ls)]) == Body(ls)
  {
    hide Body;
    assert forall k :: 0 <= k < Body(ls) ==> ls[k][|ls[..Body(ls)][k]|..] == "";
    BodySurvives(ls[..Body(ls)], ls);
  }

  /** Every block that is read can be written. */
  lemma {:induction false} ParsedAreClean(ls: seq<string>)
    requires LineFree(ls)
    ensures AllClean(ParseLines(ls))
    decreases |ls|
  {
    hide HeadingOf, Body, CleanHead, CleanContent, Strip, JoinWith;
    if ls == [] {
    } else if HeadingOf(ls).None? {
      ParsedAreClean(ls[1..]);
    } else {
      var h := HeadingOf(ls).value;
      var rest := ls[h.size..];
      var body := rest[..Body(rest)];
      HeadingIsClean(ls, Strip(JoinWith(body, "\n")));
      BodyOfPrefix(rest);
      BodyIsClean(body);
      ParsedAreClean(rest[Body(rest)..]);
    }
  }

  lemma ReadIsClean(text: string)
    ensures AllClean(Parse(text))
  {
    LinesAreFree(text);
    ParsedAreClean(Lines(text));
  }

  lemma {:induction false} UnixBlocksAreSame(bs: seq<MemoryBlock>)
    ensures UnixBlocks(bs) == bs <==> forall i :: 0 <= i < |bs| ==> Find(bs[i].content, "\r\n").None?
  {
    hide Find, UnixBlocks;
    var us := UnixBlocks(bs);
    forall i | 0 <= i < |bs| ensures us[i] == bs[i] <==> Find(bs[i].content, "\r\n").None? {
      UnixIsSame(bs[i].content);
      assert us[i] == UnixBlock(bs[i]);
    }
  }

  /** Exactly the canonical lists survive writing and reading. */
  lemma RoundTripsExactlyCanonical(bs: seq<MemoryBlock>)
    ensures Parse(Serialize(bs)) == bs <==> Canonical(bs)
  {
    hide Parse, Serialize, CleanBlock, UnixBlocks, Find;
    ReadIsClean(Serialize(bs));
    UnixBlocksAreSame(bs);
    if AllClean(bs) {
      WrittenReadsBack(bs);
    }
  }

  /** Saving a file that was read changes no block but for CRLFs in contents, so it changes nothing exactly when
      there are none; a content can hold them although the file was split at them. */
  lemma SavingKeepsBlocks(text: string)
    ensures Parse(Serialize(Parse(text))) == UnixBlocks(Parse(text))
    ensures Parse(Serialize(Parse(text))) == Parse(text)
      <==> forall i :: 0 <= i < |Parse(text)| ==> Find(Parse(text)[i].content, "\r\n").None?
  {
    hide Parse, Serialize, CleanBlock, UnixBlocks, Find;
    ReadIsClean(text);
    WrittenReadsBack(Parse(text));
    UnixBlocksAreSame(Parse(text));
  }

  /** A file whose second content line begins behind two carriage returns and a line feed. */
  const DOUBLED: string := "## t\n" + "[i] s\n" + "\n" + "a\r\r\n" + "b"

  const DOUBLED_BLOCK: MemoryBlock := MemoryBlock("i", "s", "t", [], "a\r\nb")

  lemma DoubledLines()
    ensures Lines(DOUBLED) == ["## t", "[i] s"] + ["", "a\r", "b"]
  {
    hide Lines;
    var rest3 := "a\r" + "\r\n" + "b";
    var rest1 := "[i] s" + "\n" + ("\n" + rest3);
    OneLine("b");
    LineBeforeCrLf("a\r", "b");
    LinesBreak(rest3);
    LineFirst("[i] s", "\n" + rest3);
    LineFirst("## t", rest1);
    assert DOUBLED == "## t" + "\n" + rest1;
  }

  lemma DoubledHead()
    ensures CleanHead(DOUBLED_BLOCK) && Head(DOUBLED_BLOCK) == ["## t", "[i] s"]
  {
    assert MetadataLine(MetadataOf(DOUBLED_BLOCK)) == "[i] s" && "## " + "t" == "## t";
  }

  lemma PlainLineFirst(x: string, ls: seq<string>)
    requires x != "" && !White(x[0]) && x[0] != '#'
    ensures Body([x] + ls) == 1 + Body(ls)
  {
    hide ParseMetadata, TitleMetadata, Strip;
    assert ([x] + ls)[1..] == ls && HeadingText(x).None?;
  }

  lemma DoubledBody()
    ensures Body(["", "a\r", "b"]) == 3 && Strip(JoinWith(["", "a\r", "b"], "\n")) == "a\r\nb"
  {
    hide HeadingOf, Strip, JoinWith;
    assert ["", "a\r", "b"] == [""] + (["a\r"] + (["b"] + []));
    EmptyLineFirst(["a\r"] + (["b"] + []));
    PlainLineFirst("a\r", ["b"] + []);
    PlainLineFirst("b", []);
    PaddedLeft("a\r\nb");
    JoinOne("b");
    JoinCons("a\r", ["b"] + [], "\n");
    JoinCons("", ["a\r"] + (["b"] + []), "\n");
    assert "a\r" + "\n" + "b" == "a\r\nb" && "" + "\n" + "a\r\nb" == "\n" + "a\r\nb";
  }

  lemma PaddedLeft(t: string)
    requires Trimmed(t)
    ensures Strip("\n" + t) == t
  {
    StripIs("\n", t, "");
    assert "\n" + t + "" == "\n" + t;
  }

  /** Counterexample: saving a file as it was read can change a content. */
  lemma SavingCanChangeContent()
    ensures Parse(DOUBLED) == [DOUBLED_BLOCK] && Parse(Serialize([DOUBLED_BLOCK])) != [DOUBLED_BLOCK]
  {
    hide Lines, HeadingOf, Body, Head, Strip, JoinWith, CleanHead, Serialize, CleanBlock;
    var tail := ["", "a\r", "b"];
    DoubledLines();
    DoubledHead();
    DoubledBody();
    HeadReadsBack(DOUBLED_BLOCK, tail);
    var ls := Head(DOUBLED_BLOCK) + tail;
    assert ls[2..] == tail && tail[..3] == tail && tail[3..] == [];
    NothingParses();
    RoundTripsExactlyCanonical([DOUBLED_BLOCK]);
    HasCrLf();
    assert Find([DOUBLED_BLOCK][0].content, "\r\n").Some?;
  }

  lemma HasCrLf()
    ensures Find(DOUBLED_BLOCK.content, "\r\n").Some?
  {
    var c := DOUBLED_BLOCK.content;
    assert c[1..][..2] == "\r\n" && "\r\n" <= c[1..];
    FindNothing(c, "\r\n");
  }

  // -------------------------------------------------------------------------
  // The loops
  // -------------------------------------------------------------------------

  /** A heading at line `i`, and where the body begins. */
  method TryParseHeaderAt(lines: seq<string>, i: nat) returns (r: Option<(MemoryBlock, nat)>)
    requires i < |lines|
    ensures HeadingOf(lines[i..]).None? ==> r.None?
    ensures HeadingOf(lines[i..]).Some? ==>
      var h := HeadingOf(lines[i..]).value; r == Some((BlockOf(h, ""), i + h.size))
  {
    hide Strip, ParseMetadata, DropLeft;
    var trimmed := DropLeft(lines[i]);
    if !("## " <= trimmed) {
      return None;
    }
    var rest := Strip(trimmed[3..]);
    if "[" <= rest {
      match ParseMetadata(rest)
      case None => return None;
      case Some(m) => return Some((MemoryBlock(m.id, m.timestamp, "", m.tags, ""), i + 1));
    }
    var j := i + 1;
    assert lines[i..][1..] == lines[i + 1..];
    while j < |lines| && Strip(lines[j]) == ""
      invariant i < j <= |lines|
      invariant Blank(lines[i + 1..]) == j - i - 1 + Blank(lines[j..])
    {
      assert lines[j..][1..] == lines[j + 1..];
      j := j + 1;
    }
    assert Blank(lines[j..]) == 0;
    if j >= |lines| {
      return None;
    }
    match ParseMetadata(Strip(lines[j]))
    case None => return None;
    case Some(m) => return Some((MemoryBlock(m.id, m.timestamp, rest, m.tags, ""), j + 1));
  }

  method NextBlockStart(lines: seq<string>, start: nat) returns (i: nat)
    requires start <= |lines|
    ensures i == start + Body(lines[start..])
  {
    hide HeadingOf;
    i := start;
    while i < |lines|
      invariant start <= i <= |lines|
      invariant Body(lines[start..]) == i - start + Body(lines[i..])
    {
      var hit := TryParseHeaderAt(lines, i);
      if hit.Some? {
        return;
      }
      assert lines[i..][1..] == lines[i + 1..];
      i := i + 1;
    }
  }

  method ParseMemoryFile(text: string) returns (blocks: seq<MemoryBlock>)
    ensures blocks == Parse(text)
  {
    hide HeadingOf, Body, Strip, JoinWith, Lines;
    var lines := Lines(text);
    var i := 0;
    blocks := [];
    assert lines[0..] == lines;
    while i < |lines|
      invariant i <= |lines|
      invariant blocks + ParseLines(lines[i..]) == ParseLines(lines)
    {
      var headerHit := TryParseHeaderAt(lines, i);
      match headerHit
      case Some((block, bodyStart)) =>
        var bodyEnd := NextBlockStart(lines, bodyStart);
        var content := Strip(JoinWith(lines[bodyStart..bodyEnd], "\n"));
        ParseStep(lines, i);
        blocks := blocks + [block.(content := content)];
        i := bodyEnd;
      case None =>
        assert lines[i..][1..] == lines[i + 1..];
        i := i + 1;
    }
    assert lines[i..] == [];
  }

  /** Reading from a heading: its block, then what follows the body. */
  lemma ParseStep(lines: seq<string>, i: nat)
    requires i < |lines| && HeadingOf(lines[i..]).Some?
    ensures var h := HeadingOf(lines[i..]).value; var start := i + h.size;
      start <= |lines| && var end := start + Body(lines[start..]);
      ParseLines(lines[i..]) == [BlockOf(h, Strip(JoinWith(lines[start..end], "\n")))] + ParseLines(lines[end..])
  {
    hide HeadingOf, Body, Strip, JoinWith;
    var h := HeadingOf(lines[i..]).value;
    var start := i + h.size;
    var end := start + Body(lines[start..]);
    assert lines[i..][h.size..] == lines[start..];
    assert lines[start..][..end - start] == lines[start..end] && lines[start..][end - start..] == lines[end..];
  }

  /** What is still to be written behind a block. */
  function MoreParts(bs: seq<MemoryBlock>): seq<string> {
    if bs == [] then [] else [""] + AllParts(bs)
  }

  lemma PartsStep(bs: seq<MemoryBlock>, i: nat)
    requires i < |bs|
    ensures AllParts(bs[i..]) == Parts(bs[i]) + MoreParts(bs[i + 1..])
  {
    hide Parts;
    var tail := bs[i..];
    assert tail[0] == bs[i] && tail[1..] == bs[i + 1..];
    assert Parts(bs[i]) + [""] + AllParts(bs[i + 1..]) == Parts(bs[i]) + ([""] + AllParts(bs[i + 1..]));
  }

  method PushParts(pushed: seq<string>, b: MemoryBlock) returns (out: seq<string>)
    ensures out == pushed + Parts(b)
  {
    hide MetadataLine;
    out := pushed;
    if b.title != "" {
      out := out + ["## " + b.title];
      out := out + [MetadataLine(MetadataOf(b))];
      out := out + [""];
      out := out + [b.content];
    } else {
      out := out + ["## " + MetadataLine(MetadataOf(b))];
      out := out + [b.content];
    }
  }

  method SerializeMemoryFile(blocks: seq<MemoryBlock>) returns (text: string)
    ensures text == Serialize(blocks)
  {
    hide JoinWith, Parts, AllParts;
    var out: seq<string> := [];
    assert blocks[0..] == blocks;
    for i := 0 to |blocks|
      invariant if i == 0 then out == [] else out != [] && out + MoreParts(blocks[i..]) == AllParts(blocks)
    {
      PartsStep(blocks, i);
      if i > 0 {
        Associates(out, [""], AllParts(blocks[i..]));
        out := out + [""];
      }
      ghost var before := out;
      out := PushParts(out, blocks[i]);
      Associates(before, Parts(blocks[i]), MoreParts(blocks[i + 1..]));
      SomeParts(blocks[i]);
    }
    assert blocks[|blocks|..] == [] && out + [] == out;
    text := if |out| > 0 then JoinWith(out, "\n") + "\n" else "";
  }

  lemma Associates(a: seq<string>, b: seq<string>, c: seq<string>)
    ensures a + b + c == a + (b + c)
  {
  }

  lemma SomeParts(b: MemoryBlock)
    ensures Parts(b) != []
  {
  }
}
