/** The metadata line of a memory: id, timestamp and tags (web/app/utils/memory.ts, lines 36-40, 101-121, 145-168). */
module MemoryMetadata {
  import opened Base
  import opened Text
  import opened WebTexts

  datatype Metadata = Metadata(id: string, timestamp: string, tags: seq<string>)

  const TAGS: string := " (tags:"

  lemma {:induction false} FindTags(ts: string, rest: string)
    requires Find(ts, TAGS).None?
    ensures Find(ts + TAGS + rest, TAGS) == Some(|ts|)
  {
    var s := ts + TAGS + rest;
    if ts != "" {
      assert s[1..] == ts[1..] + TAGS + rest;
      assert s[|ts|] == ' ' && (|ts| < |TAGS| ==> TAGS[|ts|] != ' ');
      assert |ts| >= |TAGS| ==> s[..|TAGS|] == ts[..|TAGS|];
      FindTags(ts[1..], rest);
    }
  }

  /** The pieces stripped, without empty ones. */
  function KeepTags(pieces: seq<string>): seq<string> {
    if pieces == [] then [] else
    var t := Strip(pieces[0]);
    (if t == "" then [] else [t]) + KeepTags(pieces[1..])
  }

  function ParseTags(s: string): seq<string> {
    KeepTags(Split(s, ','))
  }

  /** `replace(/\)\s*$/, '')`. */
  function DropParen(s: string): string {
    var t := DropRight(s);
    if t != "" && t[|t| - 1] == ')' then t[..|t| - 1] else s
  }

  /** What stands behind the bracket, with its leading white space gone. */
  function ParseRest(id: string, rest: string): Metadata {
    match Find(rest, TAGS)
    case None => Metadata(id, Strip(rest), [])
    case Some(n) => Metadata(id, Strip(rest[..n]), ParseTags(Strip(DropParen(rest[n + |TAGS|..]))))
  }

  function ParseBracket(t: string): Option<Metadata>
    requires "[" <= t
  {
    var k := IndexFrom(t, ']', 0);
    if k == |t| then None else Some(ParseRest(Strip(t[1..k]), DropLeft(t[k + 1..])))
  }

  function ParseMetadata(s: string): Option<Metadata> {
    var t := Strip(s);
    if "[" <= t then ParseBracket(t) else None
  }

  function MetadataLine(m: Metadata): string {
    var base := "[" + m.id + "] " + m.timestamp;
    if m.tags != [] then base + " (tags: " + JoinWith(m.tags, ", ") + ")" else base
  }

  predicate CleanTag(t: string) {
    t != "" && Trimmed(t) && ',' !in t && '\n' !in t
  }

  predicate CleanTags(tags: seq<string>) {
    forall i :: 0 <= i < |tags| ==> CleanTag(tags[i])
  }

  predicate CleanTime(ts: string) {
    Trimmed(ts) && Find(ts, TAGS).None? && '\n' !in ts
  }

  /** Metadata that one line can say: tags need a timestamp in front of them. */
  predicate CleanMetadata(m: Metadata) {
    && Trimmed(m.id) && ']' !in m.id && '\n' !in m.id
    && CleanTime(m.timestamp) && CleanTags(m.tags) && (m.tags != [] ==> m.timestamp != "")
  }

  lemma {:induction false} SplitLeavesNone(s: string, c: char)
    requires '\n' !in s
    ensures forall i :: 0 <= i < |Split(s, c)| ==> c !in Split(s, c)[i] && '\n' !in Split(s, c)[i]
    decreases |s|
  {
    var j := IndexFrom(s, c, 0);
    if j < |s| {
      SplitLeavesNone(s[j + 1..], c);
    }
  }

  lemma {:induction false} KeptTagsAreClean(pieces: seq<string>)
    requires forall i :: 0 <= i < |pieces| ==> ',' !in pieces[i] && '\n' !in pieces[i]
    ensures CleanTags(KeepTags(pieces))
  {
    if pieces != [] {
      KeptTagsAreClean(pieces[1..]);
      var p, q := StripParts(pieces[0]);
    }
  }

  lemma ParsedTagsAreClean(s: string)
    requires '\n' !in s
    ensures CleanTags(ParseTags(s))
  {
    SplitLeavesNone(s, ',');
    KeptTagsAreClean(Split(s, ','));
  }

  lemma SplitOne(t: string, c: char)
    requires c !in t
    ensures Split(t, c) == [t]
  {
  }

  lemma SplitFirst(t: string, c: char, rest: string)
    requires c !in t
    ensures Split(t + [c] + rest, c) == [t] + Split(rest, c)
  {
    var s := t + [c] + rest;
    assert s[|t|] == c && forall i :: 0 <= i < |t| ==> s[i] == t[i];
    assert s[..|t|] == t && s[|t| + 1..] == rest;
  }

  lemma KeepOne(piece: string, pieces: seq<string>)
    ensures KeepTags([piece] + pieces) == (if Strip(piece) == "" then [] else [Strip(piece)]) + KeepTags(pieces)
  {
    assert ([piece] + pieces)[1..] == pieces;
  }

  /** Printed tags are read back. */
  lemma {:induction false} TagsReadBack(w: string, tags: seq<string>)
    requires CleanTags(tags) && tags != [] && (w == "" || w == " ")
    ensures KeepTags(Split(w + JoinWith(tags, ", "), ',')) == tags
    decreases |tags|
  {
    hide Split, KeepTags, Strip, JoinWith;
    var t := tags[0];
    assert CleanTag(t);
    StripIs(w, t, "");
    assert w + t + "" == w + t;
    if |tags| == 1 {
      JoinAdd([], t, ", ");
      assert [] + [t] == tags;
      SplitOne(w + t, ',');
      KeepOne(w + t, []);
      KeepNone();
      assert [w + t] + [] == [w + t];
    } else {
      JoinCons(t, tags[1..], ", ");
      assert [t] + tags[1..] == tags;
      var more := JoinWith(tags[1..], ", ");
      assert w + (t + ", " + more) == (w + t) + [','] + (" " + more);
      SplitFirst(w + t, ',', " " + more);
      KeepOne(w + t, Split(" " + more, ','));
      TagsReadBack(" ", tags[1..]);
    }
  }

  lemma KeepNone()
    ensures KeepTags([]) == []
  {
  }

  lemma {:induction false} JoinTrimmed(tags: seq<string>)
    requires CleanTags(tags) && tags != []
    ensures var j := JoinWith(tags, ", "); j != "" && Trimmed(j)
    decreases |tags|
  {
    var front, last := tags[..|tags| - 1], tags[|tags| - 1];
    assert CleanTag(last);
    if front != [] { JoinTrimmed(front); }
  }

  lemma {:induction false} JoinInLine(tags: seq<string>)
    requires CleanTags(tags)
    ensures '\n' !in JoinWith(tags, ", ")
    decreases |tags|
  {
    if tags != [] {
      assert CleanTag(tags[|tags| - 1]);
      JoinInLine(tags[..|tags| - 1]);
    }
  }

  lemma StripKeepsOut(s: string, c: char)
    requires c !in s
    ensures c !in Strip(s)
  {
    var p, q := StripParts(s);
  }

  /** What metadata says behind its bracket. */
  function TimeAndTags(ts: string, tags: seq<string>): string {
    if tags == [] then ts else ts + TAGS + (" " + JoinWith(tags, ", ") + ")")
  }

  lemma RestReadsBack(id: string, ts: string, tags: seq<string>)
    requires CleanTime(ts) && CleanTags(tags)
    ensures ParseRest(id, TimeAndTags(ts, tags)) == Metadata(id, ts, tags)
  {
    hide Find, JoinWith, KeepTags, Split, Strip, DropRight;
    StripTrimmed(ts);
    if tags != [] {
      var j := JoinWith(tags, ", ");
      var x := " " + j + ")";
      FindTags(ts, x);
      assert (ts + TAGS + x)[..|ts|] == ts && (ts + TAGS + x)[|ts| + |TAGS|..] == x;
      DropRightIs(x, "");
      assert x + "" == x && x[..|x| - 1] == " " + j;
      JoinTrimmed(tags);
      StripIs(" ", j, "");
      assert " " + j + "" == " " + j;
      TagsReadBack("", tags);
      assert "" + j == j;
    }
  }

  lemma IdEnds(id: string, rest: string)
    requires ']' !in id
    ensures var t := "[" + id + "]" + rest;
      "[" <= t && IndexFrom(t, ']', 0) == 1 + |id| && t[1..1 + |id|] == id && t[1 + |id| + 1..] == rest
  {
    var t := "[" + id + "]" + rest;
    assert t[1 + |id|] == ']' && forall i :: 0 <= i < |id| ==> t[1 + i] == id[i];
  }

  lemma LineParses(line: string, id: string, rest: string)
    requires ']' !in id && Trimmed(id) && Strip(line) == "[" + id + "]" + rest
    ensures ParseMetadata(line) == Some(ParseRest(id, DropLeft(rest)))
  {
    hide IndexFrom, ParseRest, Strip, DropLeft;
    IdEnds(id, rest);
    StripTrimmed(id);
  }

  lemma FullLineStrips(id: string, ts: string, tags: seq<string>)
    requires Trimmed(ts) && ts != ""
    ensures var r := TimeAndTags(ts, tags);
      Strip("[" + id + "]" + (" " + r)) == "[" + id + "]" + (" " + r) && DropLeft(" " + r) == r
  {
    hide JoinWith, Strip, DropLeft;
    var r := TimeAndTags(ts, tags);
    assert Trimmed(r) && r != "";
    var line := "[" + id + "]" + (" " + r);
    assert line[0] == '[' && line[|line| - 1] == r[|r| - 1];
    StripTrimmed(line);
    DropLeftIs(" ", r);
  }

  lemma BareLineStrips(id: string)
    ensures Strip("[" + id + "]" + " ") == "[" + id + "]" + "" && DropLeft("") == ""
  {
    var t := "[" + id + "]" + "";
    assert t[0] == '[' && t[|t| - 1] == ']';
    assert "[" + id + "]" + " " == "" + t + " ";
    StripIs("", t, " ");
  }

  /** A metadata line is one line that begins with a bracket, and it is read back. */
  lemma MetadataReadsBack(m: Metadata)
    requires CleanMetadata(m)
    ensures ParseMetadata(MetadataLine(m)) == Some(m) && "[" <= MetadataLine(m)
  {
    hide ParseMetadata, ParseRest, JoinWith, Strip, DropLeft, CleanTags, Find;
    var line, r := MetadataLine(m), TimeAndTags(m.timestamp, m.tags);
    assert line == "[" + m.id + "]" + (" " + r);
    RestReadsBack(m.id, m.timestamp, m.tags);
    if m.timestamp != "" {
      FullLineStrips(m.id, m.timestamp, m.tags);
      LineParses(line, m.id, " " + r);
    } else {
      assert r == "" && " " + r == " ";
      BareLineStrips(m.id);
      LineParses(line, m.id, "");
    }
  }

  lemma MetadataInLine(m: Metadata)
    requires CleanMetadata(m)
    ensures '\n' !in MetadataLine(m)
  {
    JoinInLine(m.tags);
  }

  lemma TimeBeforeTags(rest: string, n: nat)
    requires Find(rest, TAGS) == Some(n) && (rest == "" || !White(rest[0])) && '\n' !in rest
    ensures n <= |rest| && CleanTime(Strip(rest[..n])) && Strip(rest[..n]) != ""
  {
    hide Find, Strip;
    FindFirst(rest, TAGS);
    var s := rest[..n];
    assert rest[n..][0] == ' ';
    forall k | 0 <= k <= |s| ensures !(TAGS <= s[k..]) {
      assert s[k..] == rest[k..][..|s| - k];
    }
    FindNothing(s, TAGS);
    var p, q := StripParts(s);
    FindInPart(p, Strip(s), q, TAGS);
    StripKeepsOut(s, '\n');
    assert s[0] == rest[0] && (Strip(s) == "" ==> AllWhite(p + Strip(s) + q));
  }

  lemma RestIsClean(id: string, rest: string)
    requires (rest == "" || !White(rest[0])) && '\n' !in rest
    ensures var m := ParseRest(id, rest);
      m.id == id && CleanTime(m.timestamp) && CleanTags(m.tags) && (m.tags != [] ==> m.timestamp != "")
  {
    hide Find, Strip, CleanTags, ParseTags;
    match Find(rest, TAGS)
    case None =>
      var p, q := StripParts(rest);
      FindInPart(p, Strip(rest), q, TAGS);
      NoTagsAreClean();
    case Some(n) =>
      TimeBeforeTags(rest, n);
      var x := DropParen(rest[n + |TAGS|..]);
      assert '\n' !in x;
      StripKeepsOut(x, '\n');
      ParsedTagsAreClean(Strip(x));
  }

  lemma NoTagsAreClean()
    ensures CleanTags([])
  {
  }

  lemma IdIsClean(t: string, k: nat)
    requires 1 <= k <= |t| && k == IndexFrom(t, ']', 0) && '\n' !in t
    ensures var id := Strip(t[1..k]); Trimmed(id) && ']' !in id && '\n' !in id
  {
    hide Strip;
    StripKeepsOut(t[1..k], ']');
    StripKeepsOut(t[1..k], '\n');
  }

  /** What is read from a line is what a line can say. */
  lemma ParsedMetadataIsClean(s: string)
    requires '\n' !in s && ParseMetadata(s).Some?
    ensures CleanMetadata(ParseMetadata(s).value)
  {
    hide Strip, IndexFrom, ParseRest, CleanTime, CleanTags, DropLeft, AllWhite;
    StripKeepsOut(s, '\n');
    var t := Strip(s);
    var k := IndexFrom(t, ']', 0);
    IdIsClean(t, k);
    var rest := DropLeft(t[k + 1..]);
    assert '\n' !in rest;
    RestIsClean(Strip(t[1..k]), rest);
  }
}
