/** JavaScript's trimming, splitting into lines and searching, as the web console's text formats use them
    (web/app/utils/memory.ts, lines 43-121). */
module WebTexts {
  import opened Base
  import opened Text

  // -------------------------------------------------------------------------
  // Trimming, as JavaScript does it
  // -------------------------------------------------------------------------

  /** White space and line terminators; unlike Rust's, with U+FEFF and without U+0085. */
  predicate White(c: char) {
    var n := c as int;
    || 9 <= n <= 13 || n == 32 || n == 0xA0 || n == 0x1680 || 0x2000 <= n <= 0x200A
    || n == 0x2028 || n == 0x2029 || n == 0x202F || n == 0x205F || n == 0x3000 || n == 0xFEFF
  }

  predicate AllWhite(s: string) {
    forall i :: 0 <= i < |s| ==> White(s[i])
  }

  predicate Trimmed(s: string) {
    s == "" || (!White(s[0]) && !White(s[|s| - 1]))
  }

  function DropLeft(s: string): (r: string)
    ensures |r| <= |s| && r == s[|s| - |r|..] && AllWhite(s[..|s| - |r|]) && (r == "" || !White(r[0]))
  {
    if s != "" && White(s[0]) then
      var r := DropLeft(s[1..]);
      assert s[..|s| - |r|] == [s[0]] + s[1..][..|s| - 1 - |r|];
      r
    else s
  }

  function DropRight(s: string): (r: string)
    ensures |r| <= |s| && r == s[..|r|] && AllWhite(s[|r|..]) && (r == "" || !White(r[|r| - 1]))
  {
    if s != "" && White(s[|s| - 1]) then
      var r := DropRight(s[..|s| - 1]);
      assert s[|r|..] == s[..|s| - 1][|r|..] + [s[|s| - 1]];
      r
    else s
  }

  function Strip(s: string): (r: string)
    ensures Trimmed(r) && |r| <= |s|
  {
    DropRight(DropLeft(s))
  }

  /** What stripping takes away. */
  lemma StripParts(s: string) returns (p: string, q: string)
    ensures s == p + Strip(s) + q && AllWhite(p) && AllWhite(q)
  {
    hide DropLeft, DropRight, AllWhite;
    var l := DropLeft(s);
    var t := DropRight(l);
    p, q := s[..|s| - |l|], l[|t|..];
    InTwo(l, |t|);
    InTwo(s, |s| - |l|);
    ThreeParts(p, t, q);
  }

  lemma InTwo(s: string, i: nat)
    requires i <= |s|
    ensures s == s[..i] + s[i..]
  {
  }

  lemma ThreeParts(p: string, t: string, q: string)
    ensures p + t + q == p + (t + q)
  {
  }

  lemma {:induction false} DropLeftIs(p: string, t: string)
    requires AllWhite(p) && (t == "" || !White(t[0]))
    ensures DropLeft(p + t) == t
  {
    if p == "" {
      assert p + t == t;
    } else {
      assert (p + t)[1..] == p[1..] + t;
      DropLeftIs(p[1..], t);
    }
  }

  lemma {:induction false} DropRightIs(t: string, q: string)
    requires AllWhite(q) && (t == "" || !White(t[|t| - 1]))
    ensures DropRight(t + q) == t
    decreases |q|
  {
    if q == "" {
      assert t + q == t;
    } else {
      assert (t + q)[..|t + q| - 1] == t + q[..|q| - 1];
      DropRightIs(t, q[..|q| - 1]);
    }
  }

  /** Stripping is determined by what it leaves. */
  lemma StripIs(p: string, t: string, q: string)
    requires AllWhite(p) && AllWhite(q) && Trimmed(t)
    ensures Strip(p + t + q) == t
  {
    if t == "" {
      assert p + t + q == (p + q) + "";
      DropLeftIs(p + q, "");
    } else {
      assert p + t + q == p + (t + q);
      DropLeftIs(p, t + q);
      DropRightIs(t, q);
    }
  }

  lemma StripTrimmed(t: string)
    requires Trimmed(t)
    ensures Strip(t) == t
  {
    StripIs("", t, "");
    assert "" + t + "" == t;
  }

  lemma StripPadded(s: string, q: string)
    requires AllWhite(q)
    ensures Strip(s + q) == Strip(s)
  {
    hide Strip, DropLeft, DropRight, White;
    var p, r := StripParts(s);
    assert s + q == p + Strip(s) + (r + q);
    StripIs(p, Strip(s), r + q);
  }

  // -------------------------------------------------------------------------
  // Lines
  // -------------------------------------------------------------------------

  predicate StartsCrLf(s: string) {
    |s| > 1 && s[0] == '\r' && s[1] == '\n'
  }

  function Prepend(c: char, lines: seq<string>): (r: seq<string>)
    requires lines != []
    ensures |r| == |lines|
  {
    [[c] + lines[0]] + lines[1..]
  }

  /** `split(/\r?\n/)`. */
  function Lines(s: string): (r: seq<string>)
    ensures r != []
    decreases |s|
  {
    if s == "" then [""] else
    if s[0] == '\n' then [""] + Lines(s[1..]) else
    if StartsCrLf(s) then [""] + Lines(s[2..]) else Prepend(s[0], Lines(s[1..]))
  }

  /** The text with every CRLF as LF. */
  function Unix(s: string): (r: string)
    ensures |r| <= |s|
    decreases |s|
  {
    if s == "" then "" else
    if StartsCrLf(s) then "\n" + Unix(s[2..]) else [s[0]] + Unix(s[1..])
  }

  lemma {:induction false} OneLine(a: string)
    requires '\n' !in a
    ensures Lines(a) == [a]
  {
    if a != "" {
      assert |a| > 1 ==> a[1] in a;
      OneLine(a[1..]);
      assert [a[0]] + a[1..] == a;
    }
  }

  lemma LinesBreak(rest: string)
    ensures Lines("\n" + rest) == [""] + Lines(rest) == Lines("\r\n" + rest)
  {
    assert ("\n" + rest)[1..] == rest;
    assert ("\r\n" + rest)[2..] == rest;
  }

  lemma LinesStep(c: char, rest: string)
    requires c != '\n' && !(c == '\r' && "\n" <= rest)
    ensures Lines([c] + rest) == Prepend(c, Lines(rest))
  {
    var s := [c] + rest;
    assert s[1..] == rest && s[0] == c;
    assert |s| > 1 ==> s[1] == rest[0];
  }

  /** A text that does not end in a carriage return is split apart from what follows its line break. */
  lemma {:induction false} LinesAcross(a: string, rest: string)
    requires a == "" || a[|a| - 1] != '\r'
    ensures Lines(a + "\n" + rest) == Lines(a) + Lines(rest)
    decreases |a|
  {
    hide Lines;
    var s := a + "\n" + rest;
    if a == "" {
      OneLine("");
      LinesBreak(rest);
      assert s == "\n" + rest;
    } else if a[0] == '\n' {
      LinesAcross(a[1..], rest);
      LinesBreak(a[1..]);
      LinesBreak(a[1..] + "\n" + rest);
      assert a == "\n" + a[1..] && s == "\n" + (a[1..] + "\n" + rest);
    } else if StartsCrLf(a) {
      LinesAcross(a[2..], rest);
      LinesBreak(a[2..]);
      LinesBreak(a[2..] + "\n" + rest);
      assert a == "\r\n" + a[2..] && s == "\r\n" + (a[2..] + "\n" + rest);
    } else {
      LinesAcross(a[1..], rest);
      assert a == [a[0]] + a[1..] && s == [a[0]] + (a[1..] + "\n" + rest);
      LinesStep(a[0], a[1..]);
      LinesStep(a[0], a[1..] + "\n" + rest);
    }
  }

  lemma {:induction false} JoinCons(x: string, parts: seq<string>, sep: string)
    requires parts != []
    ensures JoinWith([x] + parts, sep) == x + sep + JoinWith(parts, sep)
    decreases |parts|
  {
    var front, last := parts[..|parts| - 1], parts[|parts| - 1];
    assert [x] + parts == ([x] + front) + [last] && parts == front + [last];
    JoinAdd([x] + front, last, sep);
    JoinAdd(front, last, sep);
    if front != [] {
      JoinCons(x, front, sep);
    } else {
      assert [x] + front == [x];
    }
  }

  lemma JoinPrepend(c: char, lines: seq<string>, sep: string)
    requires lines != []
    ensures JoinWith(Prepend(c, lines), sep) == [c] + JoinWith(lines, sep)
  {
    if |lines| > 1 {
      JoinCons([c] + lines[0], lines[1..], sep);
      JoinCons(lines[0], lines[1..], sep);
      assert [lines[0]] + lines[1..] == lines;
    }
  }

  /** Joining the lines of a text again turns its CRLFs into LFs. */
  lemma {:induction false} JoinLines(s: string)
    ensures JoinWith(Lines(s), "\n") == Unix(s)
    decreases |s|
  {
    hide JoinWith;
    if s == "" {
      JoinAdd([], "", "\n");
      assert [] + [""] == [""];
    } else if s[0] == '\n' {
      JoinLines(s[1..]);
      JoinCons("", Lines(s[1..]), "\n");
    } else if StartsCrLf(s) {
      JoinLines(s[2..]);
      JoinCons("", Lines(s[2..]), "\n");
    } else {
      JoinLines(s[1..]);
      JoinPrepend(s[0], Lines(s[1..]), "\n");
    }
  }

  lemma {:induction false} UnixTrimmed(s: string)
    requires s != ""
    ensures Unix(s) != "" && Unix(s)[|Unix(s)| - 1] == s[|s| - 1] && (s[0] != '\r' ==> Unix(s)[0] == s[0])
    decreases |s|
  {
    if StartsCrLf(s) {
      if |s| > 2 { UnixTrimmed(s[2..]); }
    } else if |s| > 1 {
      UnixTrimmed(s[1..]);
    }
  }

  lemma {:induction false} UnixIsSame(s: string)
    ensures Unix(s) == s <==> Find(s, "\r\n").None?
    decreases |s|
  {
    if s != "" && !StartsCrLf(s) {
      UnixIsSame(s[1..]);
      assert [s[0]] + s[1..] == s;
    }
  }

  // -------------------------------------------------------------------------
  // Searching
  // -------------------------------------------------------------------------

  lemma {:induction false} FindNothing(s: string, pat: string)
    ensures Find(s, pat).None? <==> forall k :: 0 <= k <= |s| ==> !(pat <= s[k..])
    decreases |s|
  {
    if pat <= s || s == "" {
      assert s[0..] == s && (s == "" ==> s[|s|..] == s);
    } else {
      FindNothing(s[1..], pat);
      assert forall k :: 0 <= k <= |s[1..]| ==> s[1..][k..] == s[k + 1..];
      assert forall k :: 1 <= k <= |s| ==> s[k..] == s[1..][k - 1..];
    }
  }

  lemma {:induction false} FindFirst(s: string, pat: string)
    requires Find(s, pat).Some?
    ensures var n := Find(s, pat).value; pat <= s[n..] && forall k :: 0 <= k < n ==> !(pat <= s[k..])
    decreases |s|
  {
    assert s[0..] == s;
    if !(pat <= s) {
      var rest := s[1..];
      FindFirst(rest, pat);
      var n := Find(rest, pat).value;
      assert Find(s, pat) == Some(n + 1);
      hide Find;
      assert s[n + 1..] == rest[n..];
      forall k | 1 <= k < n + 1 ensures !(pat <= s[k..]) {
        assert s[k..] == rest[k - 1..];
      }
    }
  }

  /** What does not occur in a text does not occur in a part of it. */
  lemma FindInPart(p: string, t: string, q: string, pat: string)
    requires Find(p + t + q, pat).None?
    ensures Find(t, pat).None?
  {
    FindNothing(p + t + q, pat);
    forall k | 0 <= k <= |t| ensures !(pat <= t[k..]) {
      assert (p + t + q)[|p| + k..] == t[k..] + q;
    }
    FindNothing(t, pat);
  }
}
