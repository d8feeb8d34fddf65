/** Tool calls leaked as XML in a reply (agent/src/core/tool_recovery.rs, lines 28-190). The JSON object built from
    a tag's attributes is a parameter. */
module ToolRecovery {
  import opened Base
  import opened Text
  import Numbers = SessionKeys

  const CALLS_OPEN := "<calls>"
  const CALLS_CLOSE := "</calls>"

  datatype Attr = Attr(name: string, value: string)
  datatype Tag = Tag(name: string, attrs: seq<Attr>)

  /** A recovered call; `arguments` is the JSON text built from the attributes by the tool's schema. */
  datatype Recovered = Recovered(id: string, name: string, arguments: string)

  /** The known tools and how each builds its arguments. */
  datatype Tools = Tools(names: set<string>, build: (string, seq<Attr>) -> string)

  // -------------------------------------------------------------------------
  // Scanning
  // -------------------------------------------------------------------------

  predicate IsNameChar(c: char) {
    '0' <= c <= '9' || 'a' <= c <= 'z' || 'A' <= c <= 'Z' || c == '_' || c == '-'
  }

  function NameLength(s: string): (n: nat)
    ensures n <= |s| && (forall i :: 0 <= i < n ==> IsNameChar(s[i])) && (n < |s| ==> !IsNameChar(s[n]))
  {
    if s != "" && IsNameChar(s[0]) then 1 + NameLength(s[1..]) else 0
  }

  function SpaceLength(s: string): (n: nat)
    ensures n <= |s| && (forall i :: 0 <= i < n ==> IsWhitespace(s[i])) && (n < |s| ==> !IsWhitespace(s[n]))
  {
    if s != "" && IsWhitespace(s[0]) then 1 + SpaceLength(s[1..]) else 0
  }

  function Skip(s: string): (r: string)
    ensures |r| <= |s| && (r != "" ==> !IsWhitespace(r[0]))
  {
    s[SpaceLength(s)..]
  }

  /** Behind the next `>`, or at the end. */
  function BehindGreater(s: string): (r: string)
    ensures |r| <= |s|
  {
    if s == "" then "" else if s[0] == '>' then s[1..] else BehindGreater(s[1..])
  }

  /** The value behind an opening quote, with `\q` standing for `q`, and what follows the closing quote. */
  function ParseValue(s: string, quote: char): (r: Option<(string, string)>)
    ensures r.Some? ==> |r.value.1| < |s|
    decreases |s|
  {
    if s == "" then None else
    if s[0] == '\\' && |s| > 1 && s[1] == quote then
      var rest := ParseValue(s[2..], quote);
      if rest == None then None else Some(([quote] + rest.value.0, rest.value.1))
    else if s[0] == quote then Some(("", s[1..]))
    else
      var rest := ParseValue(s[1..], quote);
      if rest == None then None else Some(([s[0]] + rest.value.0, rest.value.1))
  }

  /** One attribute: its name, and a quoted value unless it has none. */
  function ParseAttr(s: string): (r: Option<(Attr, string)>)
    ensures r.Some? ==> |r.value.1| < |s|
  {
    var n := NameLength(s);
    if n == 0 then None else
    var t := Skip(s[n..]);
    if t == "" || t[0] != '=' then Some((Attr(s[..n], ""), t)) else
    var v := Skip(t[1..]);
    if v == "" || (v[0] != '\"' && v[0] != '\'') then None else
    var value := ParseValue(v[1..], v[0]);
    if value == None then None else Some((Attr(s[..n], value.value.0), value.value.1))
  }

  /** The attributes up to the end of the tag, and what follows the tag. */
  function ParseAttrs(s: string): (r: Option<(seq<Attr>, string)>)
    ensures r.Some? ==> |r.value.1| < |s|
    decreases |s|
  {
    var t := Skip(s);
    if t == "" then None else
    if t[0] == '>' then Some(([], t[1..])) else
    if t[0] == '/' then Some(([], BehindGreater(t[1..]))) else
    var attr := ParseAttr(t);
    if attr == None then None else
    var rest := ParseAttrs(attr.value.1);
    if rest == None then None else Some(([attr.value.0] + rest.value.0, rest.value.1))
  }

  /** The tag that starts at a `<`, and what follows it; whatever is parsed is consumed. */
  function ParseTag(s: string): (r: Option<(Tag, string)>)
    requires s != "" && s[0] == '<'
    ensures r.Some? ==> |r.value.1| < |s|
  {
    var n := NameLength(s[1..]);
    if n == 0 then None else
    var attrs := ParseAttrs(s[1 + n..]);
    if attrs == None then None else Some((Tag(s[1..1 + n], attrs.value.0), attrs.value.1))
  }

  predicate StartsTag(s: string) {
    |s| > 1 && s[0] == '<' && s[1] != '/'
  }

  function CallOf(tag: Tag, idx: nat, tools: Tools): Recovered {
    Recovered("call_xml_" + Numbers.Decimal(idx), tag.name, tools.build(tag.name, tag.attrs))
  }

  /** The calls in a region, numbered from `idx`. */
  function Calls(s: string, idx: nat, tools: Tools): seq<Recovered>
    decreases |s|
  {
    if s == "" then [] else
    if StartsTag(s) && ParseTag(s).Some? then
      var (tag, rest) := ParseTag(s).value;
      if tag.name in tools.names then [CallOf(tag, idx, tools)] + Calls(rest, idx + 1, tools) else Calls(rest, idx, tools)
    else Calls(s[1..], idx, tools)
  }

  /** What stands between the wrapper's tags; without a closing tag, everything behind the opening one. */
  function Region(content: string): Option<string> {
    match Find(content, CALLS_OPEN)
    case None => None
    case Some(i) =>
      var rest := content[i + |CALLS_OPEN|..];
      match FindLast(rest, CALLS_CLOSE)
      case None => Some(rest)
      case Some(e) => Some(rest[..e])
  }

  function Recover(content: string, tools: Tools): Option<seq<Recovered>> {
    match Region(content)
    case None => None
    case Some(region) => if Calls(region, 0, tools) == [] then None else Some(Calls(region, 0, tools))
  }

  // -------------------------------------------------------------------------
  // The loops
  // -------------------------------------------------------------------------

  method SkipSpaces(s: string, start: nat) returns (j: nat)
    requires start <= |s|
    ensures start <= j <= |s| && s[j..] == Skip(s[start..])
  {
    j := start;
    while j < |s| && IsWhitespace(s[j])
      invariant start <= j <= |s| && SpaceLength(s[start..]) == j - start + SpaceLength(s[j..])
    {
      assert s[j..][1..] == s[j + 1..];
      j := j + 1;
    }
    assert s[start..][j - start..] == s[j..];
  }

  method SkipName(s: string, start: nat) returns (j: nat)
    requires start <= |s|
    ensures start <= j <= |s| && j == start + NameLength(s[start..])
  {
    j := start;
    while j < |s| && IsNameChar(s[j])
      invariant start <= j <= |s| && NameLength(s[start..]) == j - start + NameLength(s[j..])
    {
      assert s[j..][1..] == s[j + 1..];
      j := j + 1;
    }
  }

  method ScanValue(s: string, start: nat, quote: char) returns (val: Option<string>, j: nat)
    requires start <= |s|
    ensures start <= j <= |s|
    ensures ParseValue(s[start..], quote) == if val.Some? then Some((val.value, s[j..])) else None
  {
    j := start;
    var seen := "";
    PrefixedNothing(ParseValue(s[start..], quote));
    while j < |s|
      invariant start <= j <= |s|
      invariant ParseValue(s[start..], quote) == Prefixed(seen, ParseValue(s[j..], quote))
    {
      var c, rest := s[j], s[j..];
      assert rest[1..] == s[j + 1..];
      if c == '\\' && j + 1 < |s| && s[j + 1] == quote {
        assert rest[2..] == s[j + 2..];
        PrefixedTwice(seen, [quote], ParseValue(s[j + 2..], quote));
        seen := seen + [quote];
        j := j + 2;
        continue;
      }
      if c == quote {
        assert seen + "" == seen;
        return Some(seen), j + 1;
      }
      PrefixedTwice(seen, [c], ParseValue(s[j + 1..], quote));
      seen := seen + [c];
      j := j + 1;
    }
    val := None;
  }

  function Prefixed(p: string, r: Option<(string, string)>): Option<(string, string)> {
    if r == None then None else Some((p + r.value.0, r.value.1))
  }

  lemma PrefixedNothing(r: Option<(string, string)>)
    ensures Prefixed("", r) == r
  {
    if r.Some? { assert "" + r.value.0 == r.value.0; }
  }

  lemma PrefixedTwice(p: string, q: string, r: Option<(string, string)>)
    ensures Prefixed(p, Prefixed(q, r)) == Prefixed(p + q, r)
  {
    if r.Some? { assert p + (q + r.value.0) == (p + q) + r.value.0; }
  }

  method ScanAttr(s: string, start: nat) returns (attr: Option<Attr>, j: nat)
    requires start <= |s|
    ensures start <= j <= |s|
    ensures ParseAttr(s[start..]) == if attr.Some? then Some((attr.value, s[j..])) else None
  {
    hide Skip, ParseValue;
    j := SkipName(s, start);
    var name := s[start..j];
    assert s[start..][..j - start] == name && s[start..][j - start..] == s[j..];
    if name == "" {
      return None, j;
    }
    j := SkipSpaces(s, j);
    if j >= |s| || s[j] != '=' {
      return Some(Attr(name, "")), j;
    }
    assert s[j..][1..] == s[j + 1..];
    j := SkipSpaces(s, j + 1);
    if j >= |s| {
      return None, j;
    }
    var quote := s[j];
    if quote != '\"' && quote != '\'' {
      return None, j;
    }
    assert s[j..][1..] == s[j + 1..];
    var val;
    val, j := ScanValue(s, j + 1, quote);
    attr := if val.Some? then Some(Attr(name, val.value)) else None;
  }

  method ScanGreater(s: string, start: nat) returns (j: nat)
    requires start <= |s|
    ensures start <= j <= |s| && s[j..] == BehindGreater(s[start..])
  {
    j := start;
    while j < |s| && s[j] != '>'
      invariant start <= j <= |s| && BehindGreater(s[start..]) == BehindGreater(s[j..])
    {
      assert s[j..][1..] == s[j + 1..];
      j := j + 1;
    }
    if j < |s| {
      assert s[j..][1..] == s[j + 1..];
      j := j + 1;
    }
  }

  function PrependAttrs(p: seq<Attr>, r: Option<(seq<Attr>, string)>): Option<(seq<Attr>, string)> {
    if r == None then None else Some((p + r.value.0, r.value.1))
  }

  lemma PrependNothing(r: Option<(seq<Attr>, string)>)
    ensures PrependAttrs([], r) == r
  {
    if r.Some? { assert [] + r.value.0 == r.value.0; }
  }

  lemma PrependTwice(p: seq<Attr>, q: seq<Attr>, r: Option<(seq<Attr>, string)>)
    ensures PrependAttrs(p, PrependAttrs(q, r)) == PrependAttrs(p + q, r)
  {
    if r.Some? { assert p + (q + r.value.0) == (p + q) + r.value.0; }
  }

  lemma ParseAttrsSteps(s: string)
    ensures var t := Skip(s);
      && (t == "" ==> ParseAttrs(s) == None)
      && (t != "" && t[0] == '>' ==> ParseAttrs(s) == Some(([], t[1..])))
      && (t != "" && t[0] == '/' ==> ParseAttrs(s) == Some(([], BehindGreater(t[1..]))))
    ensures var t := Skip(s); t != "" && t[0] != '>' && t[0] != '/' ==>
      ParseAttrs(s)
      == (if ParseAttr(t) == None then None else PrependAttrs([ParseAttr(t).value.0], ParseAttrs(ParseAttr(t).value.1)))
  {
    hide Skip, ParseAttr;
  }

  method ScanAttrs(s: string, start: nat) returns (attrs: Option<seq<Attr>>, j: nat)
    requires start <= |s|
    ensures start <= j <= |s|
    ensures ParseAttrs(s[start..]) == if attrs.Some? then Some((attrs.value, s[j..])) else None
  {
    hide Skip, ParseAttr, ParseAttrs, BehindGreater;
    j := start;
    var seen: seq<Attr> := [];
    PrependNothing(ParseAttrs(s[start..]));
    while true
      invariant start <= j <= |s|
      invariant ParseAttrs(s[start..]) == PrependAttrs(seen, ParseAttrs(s[j..]))
      decreases |s| - j
    {
      ParseAttrsSteps(s[j..]);
      j := SkipSpaces(s, j);
      if j >= |s| {
        return None, j;
      }
      assert s[j..][1..] == s[j + 1..] && seen + [] == seen;
      if s[j] == '>' {
        return Some(seen), j + 1;
      }
      if s[j] == '/' {
        j := ScanGreater(s, j + 1);
        return Some(seen), j;
      }
      var attr, next := ScanAttr(s, j);
      if attr == None {
        return None, next;
      }
      PrependTwice(seen, [attr.value], ParseAttrs(s[next..]));
      seen := seen + [attr.value];
      j := next;
    }
  }

  method ScanTag(s: string, start: nat) returns (tag: Option<Tag>, j: nat)
    requires start < |s| && s[start] == '<'
    ensures start < j <= |s|
    ensures ParseTag(s[start..]) == if tag.Some? then Some((tag.value, s[j..])) else None
  {
    hide ParseAttrs;
    assert s[start..][1..] == s[start + 1..];
    j := SkipName(s, start + 1);
    var name := s[start + 1..j];
    assert s[start..][1..j - start] == name && s[start..][j - start..] == s[j..];
    if name == "" {
      return None, j;
    }
    var attrs, next := ScanAttrs(s, j);
    j := next;
    tag := if attrs.Some? then Some(Tag(name, attrs.value)) else None;
  }

  method FindFirst(s: string, pat: string) returns (r: Option<nat>)
    ensures r == Find(s, pat)
  {
    var i := 0;
    assert s[0..] == s;
    while i <= |s|
      invariant i <= |s| + 1
      invariant i <= |s| ==> Find(s, pat) == (if Find(s[i..], pat) == None then None else Some(i + Find(s[i..], pat).value))
      invariant i > |s| ==> Find(s, pat) == None
    {
      if pat <= s[i..] {
        return Some(i);
      }
      if i < |s| { assert s[i..][1..] == s[i + 1..]; }
      i := i + 1;
    }
    r := None;
  }

  method RecoverCalls(content: string, tools: Tools) returns (r: Option<seq<Recovered>>)
    ensures r == Recover(content, tools)
  {
    hide ParseTag, Find, FindLast;
    var open := FindFirst(content, CALLS_OPEN);
    if open == None {
      return None;
    }
    var rest := content[open.value + |CALLS_OPEN|..];
    var close := FindLast(rest, CALLS_CLOSE);
    var region := if close.Some? then rest[..close.value] else rest;
    var calls: seq<Recovered> := [];
    var i := 0;
    assert region[0..] == region;
    while i < |region|
      invariant i <= |region|
      invariant calls + Calls(region[i..], |calls|, tools) == Calls(region, 0, tools)
    {
      var s := region[i..];
      assert s[1..] == region[i + 1..];
      if region[i] == '<' && i + 1 < |region| && region[i + 1] != '/' {
        var tag, next := ScanTag(region, i);
        if tag.Some? {
          if tag.value.name in tools.names {
            calls := calls + [CallOf(tag.value, |calls|, tools)];
          }
          i := next;
          continue;
        }
      }
      i := i + 1;
    }
    assert region[|region|..] == "" && calls + [] == calls;
    r := if calls == [] then None else Some(calls);
  }

  // -------------------------------------------------------------------------
  // Printing
  // -------------------------------------------------------------------------

  /** Every `q` behind a backslash. */
  function EscapeQuote(v: string, q: char): string {
    if v == "" then "" else (if v[0] == q then ['\\', q] else [v[0]]) + EscapeQuote(v[1..], q)
  }

  predicate EndsInBackslash(v: string) {
    v != "" && v[|v| - 1] == '\\'
  }

  /** Reading a printed value back gives the value, exactly when it does not end in a backslash. */
  lemma {:induction false} ValueRoundTrip(v: string, q: char, rest: string)
    requires q != '\\'
    ensures !EndsInBackslash(v) ==> ParseValue(EscapeQuote(v, q) + [q] + rest, q) == Some((v, rest))
    ensures EndsInBackslash(v) ==> ParseValue(EscapeQuote(v, q) + [q] + rest, q) != Some((v, rest))
    decreases |v|
  {
    var s := EscapeQuote(v, q) + [q] + rest;
    if v == "" {
      assert s[0] == q && s[1..] == rest;
    } else {
      var tail := EscapeQuote(v[1..], q) + [q] + rest;
      ValueRoundTrip(v[1..], q, rest);
      if v[0] == q {
        assert s[0] == '\\' && s[1] == q && s[2..] == tail;
      } else {
        assert s[0] == v[0] && s[1..] == tail;
        if |v| == 1 {
          assert v[1..] == "" && tail[0] == q;
          if v[0] == '\\' {
            assert s[1] == q;
            ReadsQuoteAsPart(s, q);
          }
        } else {
          NextIsNotQuote(v, q, rest);
        }
      }
      assert v == [v[0]] + v[1..];
    }
  }

  /** A backslash in front of a closing quote makes the quote part of the value. */
  lemma ReadsQuoteAsPart(s: string, q: char)
    requires |s| > 1 && s[0] == '\\' && s[1] == q && q != '\\'
    ensures var r := ParseValue(s, q); r.Some? ==> r.value.0 != "" && r.value.0[0] == q
  {
  }

  /** What follows a printed character is never a bare quote, unless the value ends. */
  lemma NextIsNotQuote(v: string, q: char, rest: string)
    requires |v| > 1 && q != '\\'
    ensures (EscapeQuote(v[1..], q) + [q] + rest)[0] != q
  {
  }

  function PrintAttr(a: Attr): string {
    " " + a.name + "=\"" + EscapeQuote(a.value, '\"') + "\""
  }

  function PrintAttrs(attrs: seq<Attr>): string {
    if attrs == [] then "" else PrintAttr(attrs[0]) + PrintAttrs(attrs[1..])
  }

  function PrintTag(tag: Tag): string {
    "<" + tag.name + PrintAttrs(tag.attrs) + "></" + tag.name + ">"
  }

  function PrintTags(tags: seq<Tag>): string {
    if tags == [] then "" else PrintTag(tags[0]) + PrintTags(tags[1..])
  }

  predicate IsName(s: string) {
    s != "" && forall i :: 0 <= i < |s| ==> IsNameChar(s[i])
  }

  predicate Printable(attrs: seq<Attr>) {
    forall i :: 0 <= i < |attrs| ==> IsName(attrs[i].name) && !EndsInBackslash(attrs[i].value)
  }

  lemma {:induction false} NameOfText(name: string, rest: string)
    requires (forall i :: 0 <= i < |name| ==> IsNameChar(name[i])) && (rest == "" || !IsNameChar(rest[0]))
    ensures NameLength(name + rest) == |name|
  {
    if name == "" {
      assert name + rest == rest;
    } else {
      NameOfText(name[1..], rest);
      assert (name + rest)[1..] == name[1..] + rest;
    }
  }

  lemma NoSpaceToSkip(s: string)
    requires s == "" || !IsWhitespace(s[0])
    ensures Skip(s) == s
  {
  }

  /** A printed attribute, without its leading space, is read back. */
  lemma AttrRoundTrip(a: Attr, rest: string)
    requires IsName(a.name) && !EndsInBackslash(a.value)
    ensures ParseAttr(a.name + "=\"" + EscapeQuote(a.value, '\"') + "\"" + rest) == Some((a, rest))
  {
    hide EscapeQuote, ParseValue, NameLength, Skip;
    var v := EscapeQuote(a.value, '\"') + "\"" + rest;
    var s := a.name + "=\"" + EscapeQuote(a.value, '\"') + "\"" + rest;
    var t := "=\"" + v;
    NameThenValue(a.name, EscapeQuote(a.value, '\"'), rest);
    NameOfText(a.name, t);
    NoSpaceToSkip(t);
    NoSpaceToSkip(t[1..]);
    ValueRoundTrip(a.value, '\"', rest);
  }

  lemma NameThenValue(name: string, escaped: string, rest: string)
    ensures var v, s := escaped + "\"" + rest, name + "=\"" + escaped + "\"" + rest;
      && s == name + ("=\"" + v) && s[..|name|] == name && s[|name|..] == "=\"" + v
      && ("=\"" + v)[1..] == "\"" + v && ("=\"" + v)[1..][1..] == v
  {
    var v, s := escaped + "\"" + rest, name + "=\"" + escaped + "\"" + rest;
    assert s == name + ("=\"" + v);
  }

  /** A printed attribute behind its space. */
  function AttrText(a: Attr): string {
    a.name + "=\"" + EscapeQuote(a.value, '\"') + "\""
  }

  lemma PrintedAttrs(attrs: seq<Attr>, rest: string)
    requires attrs != []
    ensures PrintAttrs(attrs) + ">" + rest == " " + (AttrText(attrs[0]) + (PrintAttrs(attrs[1..]) + ">" + rest))
  {
    hide EscapeQuote;
    var a, more := attrs[0], PrintAttrs(attrs[1..]);
    assert PrintAttr(a) == " " + AttrText(a);
    hide AttrText, PrintAttr;
    SpaceFirst(AttrText(a), more, rest);
  }

  lemma SpaceFirst(text: string, more: string, rest: string)
    ensures (" " + text) + more + ">" + rest == " " + (text + (more + ">" + rest))
  {
  }

  lemma {:induction false} AttrsRoundTrip(attrs: seq<Attr>, rest: string)
    requires Printable(attrs)
    ensures ParseAttrs(PrintAttrs(attrs) + ">" + rest) == Some((attrs, rest))
    decreases |attrs|
  {
    hide ParseAttr, ParseAttrs, EscapeQuote, Skip;
    var s := PrintAttrs(attrs) + ">" + rest;
    ParseAttrsSteps(s);
    if attrs == [] {
      assert s == ">" + rest;
      NoSpaceToSkip(s);
      assert s[1..] == rest;
    } else {
      var a, tail := attrs[0], PrintAttrs(attrs[1..]) + ">" + rest;
      PrintedAttrs(attrs, rest);
      assert AttrText(a) + tail == a.name + "=\"" + EscapeQuote(a.value, '\"') + "\"" + tail;
      assert a.name <= AttrText(a) + tail;
      hide AttrText, PrintAttrs;
      SkipsOneSpace(AttrText(a) + tail, a.name);
      AttrRoundTrip(a, tail);
      AttrsRoundTrip(attrs[1..], rest);
      assert attrs == [a] + attrs[1..];
    }
  }

  lemma SkipsOneSpace(t: string, name: string)
    requires IsName(name) && name <= t
    ensures Skip(" " + t) == t && t != "" && t[0] != '>' && t[0] != '/'
  {
    assert t[0] == name[0] && !IsWhitespace(t[0]);
    assert (" " + t)[1..] == t;
    assert SpaceLength(t) == 0;
  }

  /** A printed opening tag is read back. */
  lemma TagRoundTrip(tag: Tag, rest: string)
    requires IsName(tag.name) && Printable(tag.attrs)
    ensures var s := "<" + tag.name + PrintAttrs(tag.attrs) + ">" + rest; StartsTag(s) && ParseTag(s) == Some((tag, rest))
  {
    hide ParseAttrs;
    var tail := PrintAttrs(tag.attrs) + ">" + rest;
    var s := "<" + tag.name + PrintAttrs(tag.attrs) + ">" + rest;
    assert s == "<" + tag.name + tail;
    assert s[1..] == tag.name + tail;
    assert !IsNameChar(tail[0]) by { FirstOfAttrs(tag.attrs, rest); }
    NameOfText(tag.name, tail);
    assert s[1 + |tag.name|..] == tail && s[1..1 + |tag.name|] == tag.name;
    assert s[1] == tag.name[0];
    AttrsRoundTrip(tag.attrs, rest);
  }

  lemma FirstOfAttrs(attrs: seq<Attr>, rest: string)
    ensures !IsNameChar((PrintAttrs(attrs) + ">" + rest)[0])
  {
    if attrs != [] { assert PrintAttrs(attrs)[0] == ' '; }
  }

  /** Text without the start of an opening tag is passed over. */
  lemma {:induction false} PassesOver(p: string, rest: string, names: set<string>)
    requires forall i :: 0 <= i < |p| ==> p[i] != '<'
    ensures TagsIn(p + rest, names) == TagsIn(rest, names)
    decreases |p|
  {
    hide ParseTag;
    if p == "" {
      assert p + rest == rest;
    } else {
      PassesOver(p[1..], rest, names);
      assert (p + rest)[1..] == p[1..] + rest && (p + rest)[0] == p[0];
    }
  }

  lemma PassesOverCloser(name: string, rest: string, names: set<string>)
    requires IsName(name)
    ensures TagsIn("</" + name + ">" + rest, names) == TagsIn(rest, names)
  {
    hide ParseTag;
    var p := "/" + name + ">";
    var s := "</" + name + ">" + rest;
    assert s[1..] == p + rest && s[1] == '/';
    PassesOver(p, rest, names);
  }

  /** The calls that tags stand for. */
  function CallsOf(tags: seq<Tag>, idx: nat, tools: Tools): (r: seq<Recovered>)
    ensures |r| == |tags| && forall k :: 0 <= k < |r| ==> r[k] == CallOf(tags[k], idx + k, tools)
  {
    if tags == [] then [] else [CallOf(tags[0], idx, tools)] + CallsOf(tags[1..], idx + 1, tools)
  }

  predicate Known(tags: seq<Tag>, names: set<string>) {
    forall k :: 0 <= k < |tags| ==> IsName(tags[k].name) && Printable(tags[k].attrs) && tags[k].name in names
  }

  /** The tags of known tools in a region, before their arguments are built. */
  function TagsIn(s: string, names: set<string>): seq<Tag>
    decreases |s|
  {
    if s == "" then [] else
    if StartsTag(s) && ParseTag(s).Some? then
      var (tag, rest) := ParseTag(s).value;
      (if tag.name in names then [tag] else []) + TagsIn(rest, names)
    else TagsIn(s[1..], names)
  }

  /** The calls of a region are those of its tags. */
  lemma {:induction false} CallsAreOfTags(s: string, idx: nat, tools: Tools)
    ensures Calls(s, idx, tools) == CallsOf(TagsIn(s, tools.names), idx, tools)
    decreases |s|
  {
    hide ParseTag, CallOf;
    if s == "" {
    } else if StartsTag(s) && ParseTag(s).Some? {
      var (tag, rest) := ParseTag(s).value;
      if tag.name in tools.names {
        CallsAreOfTags(rest, idx + 1, tools);
        assert ([tag] + TagsIn(rest, tools.names))[1..] == TagsIn(rest, tools.names);
      } else {
        CallsAreOfTags(rest, idx, tools);
        assert [] + TagsIn(rest, tools.names) == TagsIn(rest, tools.names);
      }
    } else {
      CallsAreOfTags(s[1..], idx, tools);
    }
  }

  lemma TagsStep(s: string, names: set<string>, tag: Tag, rest: string)
    requires StartsTag(s) && ParseTag(s) == Some((tag, rest)) && tag.name in names
    ensures TagsIn(s, names) == [tag] + TagsIn(rest, names)
  {
    hide ParseTag;
  }

  /** Printed tags of known tools are read back, in order. */
  lemma {:induction false} TagsReadBack(tags: seq<Tag>, names: set<string>)
    requires Known(tags, names)
    ensures TagsIn(PrintTags(tags), names) == tags
    decreases |tags|
  {
    hide ParseTag, PrintAttrs, TagsIn, Printable, IsName;
    if tags == [] {
      NoTags(names);
    } else {
      var tag, rest := tags[0], PrintTags(tags[1..]);
      var closer := "</" + tag.name + ">" + rest;
      var s := "<" + tag.name + PrintAttrs(tag.attrs) + ">" + closer;
      assert PrintTags(tags) == s;
      TagRoundTrip(tag, closer);
      TagsStep(s, names, tag, closer);
      PassesOverCloser(tag.name, rest, names);
      TagsReadBack(tags[1..], names);
    }
  }

  lemma NoTags(names: set<string>)
    ensures TagsIn("", names) == []
  {
  }

  lemma {:induction false} FindsLastAtEnd(body: string, pat: string)
    requires pat != ""
    ensures FindLast(body + pat, pat) == Some(|body|)
    decreases |body|
  {
    if body == "" {
      assert body + pat == pat;
      NotInShorter(pat[1..], pat);
    } else {
      FindsLastAtEnd(body[1..], pat);
      assert (body + pat)[1..] == body[1..] + pat;
    }
  }

  lemma NotInShorter(s: string, pat: string)
    requires |s| < |pat|
    ensures FindLast(s, pat) == None
  {
  }

  /** A printed block of calls to known tools is recovered when no value ends in a backslash: the same calls in the same
      order, numbered from zero, whatever else their values contain. */
  lemma BlockRoundTrip(tags: seq<Tag>, tools: Tools)
    requires Known(tags, tools.names)
    ensures Recover(CALLS_OPEN + PrintTags(tags) + CALLS_CLOSE, tools)
         == if tags == [] then None else Some(CallsOf(tags, 0, tools))
  {
    hide Calls, PrintTags, Region, CallOf;
    RegionOfBlock(PrintTags(tags));
    TagsReadBack(tags, tools.names);
    CallsAreOfTags(PrintTags(tags), 0, tools);
  }

  lemma RegionOfBlock(body: string)
    ensures Region(CALLS_OPEN + body + CALLS_CLOSE) == Some(body)
  {
    hide FindLast;
    var content := CALLS_OPEN + body + CALLS_CLOSE;
    assert CALLS_OPEN <= content;
    assert Find(content, CALLS_OPEN) == Some(0);
    assert content[|CALLS_OPEN|..] == body + CALLS_CLOSE;
    FindsLastAtEnd(body, CALLS_CLOSE);
    assert (body + CALLS_CLOSE)[..|body|] == body;
  }

  // -------------------------------------------------------------------------
  // Exactly which blocks come back
  // -------------------------------------------------------------------------

  predicate Sayable(tag: Tag) {
    forall k :: 0 <= k < |tag.attrs| ==> !EndsInBackslash(tag.attrs[k].value)
  }

  predicate AllSayable(tags: seq<Tag>) {
    forall k :: 0 <= k < |tags| ==> Sayable(tags[k])
  }

  /** No value that is read ends in a backslash. */
  lemma {:induction false} ValuesEndWell(s: string, quote: char)
    requires quote != '\\' && ParseValue(s, quote).Some?
    ensures !EndsInBackslash(ParseValue(s, quote).value.0)
    decreases |s|
  {
    if s[0] == '\\' && |s| > 1 && s[1] == quote {
      ValuesEndWell(s[2..], quote);
    } else if s[0] != quote {
      ValuesEndWell(s[1..], quote);
    }
  }

  lemma {:induction false} AttrsEndWell(s: string)
    requires ParseAttrs(s).Some?
    ensures Sayable(Tag("", ParseAttrs(s).value.0))
    decreases |s|
  {
    hide ParseValue, NameLength;
    var t := Skip(s);
    if t[0] != '>' && t[0] != '/' {
      AttrEndsWell(t);
      hide ParseAttr;
      AttrsEndWell(ParseAttr(t).value.1);
    }
  }

  lemma AttrEndsWell(t: string)
    requires ParseAttr(t).Some?
    ensures !EndsInBackslash(ParseAttr(t).value.0.value)
  {
    hide ParseValue, NameLength, Skip;
    var u := Skip(t[NameLength(t)..]);
    if u != "" && u[0] == '=' {
      var v := Skip(u[1..]);
      ValuesEndWell(v[1..], v[0]);
    }
  }

  lemma TagEndsWell(s: string)
    requires s != "" && s[0] == '<' && ParseTag(s).Some?
    ensures Sayable(ParseTag(s).value.0)
  {
    hide ParseAttrs, NameLength;
    AttrsEndWell(s[1 + NameLength(s[1..])..]);
  }

  lemma {:induction false} TagsAreSayable(s: string, names: set<string>)
    ensures AllSayable(TagsIn(s, names))
    decreases |s|
  {
    hide ParseTag, Sayable;
    if s == "" {
    } else if StartsTag(s) && ParseTag(s).Some? {
      TagEndsWell(s);
      TagsAreSayable(ParseTag(s).value.1, names);
    } else {
      TagsAreSayable(s[1..], names);
    }
  }

  /** Tags of known tools, with names the scanner can read and any values. */
  predicate Named(tags: seq<Tag>, names: set<string>) {
    forall k :: 0 <= k < |tags| ==> IsName(tags[k].name) && NamedAttrs(tags[k].attrs) && tags[k].name in names
  }

  predicate NamedAttrs(attrs: seq<Attr>) {
    forall k :: 0 <= k < |attrs| ==> IsName(attrs[k].name)
  }

  /** A printed block of calls to known tools comes back exactly when no value ends in a backslash. */
  lemma BlockReadsBackExactly(tags: seq<Tag>, names: set<string>)
    requires Named(tags, names)
    ensures var region := Region(CALLS_OPEN + PrintTags(tags) + CALLS_CLOSE);
      region.Some? && (TagsIn(region.value, names) == tags <==> AllSayable(tags))
  {
    hide PrintTags, TagsIn, Region, IsName;
    RegionOfBlock(PrintTags(tags));
    TagsAreSayable(PrintTags(tags), names);
    if AllSayable(tags) {
      forall k | 0 <= k < |tags| ensures Printable(tags[k].attrs) {
        assert Sayable(tags[k]) && NamedAttrs(tags[k].attrs);
      }
      TagsReadBack(tags, names);
    }
  }

  lemma {:induction false} IdsAreNumbers(s: string, idx: nat, tools: Tools, k: nat)
    requires k < |Calls(s, idx, tools)|
    ensures Calls(s, idx, tools)[k].id == "call_xml_" + Numbers.Decimal(idx + k)
    decreases |s|
  {
    hide ParseTag;
    if StartsTag(s) && ParseTag(s).Some? {
      var (tag, rest) := ParseTag(s).value;
      if tag.name in tools.names {
        if k > 0 { IdsAreNumbers(rest, idx + 1, tools, k - 1); }
      } else {
        IdsAreNumbers(rest, idx, tools, k);
      }
    } else {
      IdsAreNumbers(s[1..], idx, tools, k);
    }
  }

  /** Whatever the reply, recovered calls have distinct ids. */
  lemma IdsAreDistinct(s: string, tools: Tools, j: nat, k: nat)
    requires j < k < |Calls(s, 0, tools)|
    ensures Calls(s, 0, tools)[j].id != Calls(s, 0, tools)[k].id
  {
    hide Calls;
    IdsAreNumbers(s, 0, tools, j);
    IdsAreNumbers(s, 0, tools, k);
    Numbers.ValueOfDecimal(j);
    Numbers.ValueOfDecimal(k);
    var p := "call_xml_";
    assert (p + Numbers.Decimal(j))[|p|..] == Numbers.Decimal(j);
    assert (p + Numbers.Decimal(k))[|p|..] == Numbers.Decimal(k);
  }
}
