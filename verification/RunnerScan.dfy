/** Scanners over text with JSON string literals (agent/src/core/runner.rs, lines 702-727 and 762-795). */
module RunnerScan {
  import opened Base

  /** Outside a string, inside one, or behind a backslash in one. */
  datatype Mode = Outside | Inside | Escaped

  function Next(m: Mode, c: char): Mode {
    match m
    case Escaped => Inside
    case Inside => if c == '\\' then Escaped else if c == '\"' then Outside else Inside
    case Outside => if c == '\"' then Inside else Outside
  }

  /** The mode behind a text. */
  function ModeAfter(m: Mode, s: string): Mode {
    if s == "" then m else Next(ModeAfter(m, s[..|s| - 1]), s[|s| - 1])
  }

  lemma {:induction false} ModeAfterPlus(m: Mode, a: string, b: string)
    ensures ModeAfter(m, a + b) == ModeAfter(ModeAfter(m, a), b)
    decreases |b|
  {
    if b == "" {
      assert a + b == a;
    } else {
      assert (a + b)[..|a + b| - 1] == a + b[..|b| - 1];
      ModeAfterPlus(m, a, b[..|b| - 1]);
    }
  }

  /** Whether position `i` holds `c` outside every string. */
  predicate TopLevel(s: string, i: nat, c: char)
    requires i < |s|
  {
    s[i] == c && ModeAfter(Outside, s[..i]) == Outside
  }

  /** The scanner's two flags. */
  predicate Flags(m: Mode, inString: bool, escape: bool) {
    && (inString <==> m != Outside) && (escape <==> m == Escaped)
  }

  /** The first `)` outside every string, if there is one. */
  method FindTopLevelCloseParen(s: string) returns (r: Option<nat>)
    ensures r.Some? ==> r.value < |s| && TopLevel(s, r.value, ')')
    ensures forall i :: 0 <= i < (if r.Some? then r.value else |s|) ==> !TopLevel(s, i, ')')
  {
    hide ModeAfter;
    var inString, escape := false, false;
    StartsOutside(s);
    for i := 0 to |s|
      invariant Flags(ModeAfter(Outside, s[..i]), inString, escape)
      invariant forall k :: 0 <= k < i ==> !TopLevel(s, k, ')')
    {
      OneMore(s, i);
      if escape {
        escape := false;
        continue;
      }
      if inString {
        match s[i]
        case '\\' => escape := true;
        case '\"' => inString := false;
        case _ =>
      } else {
        match s[i]
        case '\"' => inString := true;
        case ')' => return Some(i);
        case _ =>
      }
    }
    r := None;
  }

  lemma StartsOutside(s: string)
    ensures ModeAfter(Outside, s[..0]) == Outside
  {
  }

  lemma OneMore(s: string, i: nat)
    requires i < |s|
    ensures ModeAfter(Outside, s[..i + 1]) == Next(ModeAfter(Outside, s[..i]), s[i])
  {
    assert s[..i + 1][..i] == s[..i];
  }

  /** What the scanner looks for. */
  predicate IsFirstParen(s: string, i: nat) {
    i < |s| && TopLevel(s, i, ')') && forall k :: 0 <= k < i ==> !TopLevel(s, k, ')')
  }

  /** Every string is closed again. */
  predicate Closed(s: string) {
    ModeAfter(Outside, s) == Outside
  }

  predicate Free(s: string, c: char) {
    forall i :: 0 <= i < |s| ==> !TopLevel(s, i, c)
  }

  lemma TopLevelInFront(a: string, b: string, k: nat, c: char)
    requires k < |a|
    ensures TopLevel(a + b, k, c) <==> TopLevel(a, k, c)
  {
    assert (a + b)[..k] == a[..k];
  }

  /** The parenthesis behind the arguments is the one that is found exactly when the arguments close their strings
      and hold no parenthesis outside them. */
  lemma ArgumentsAreClosed(args: string, rest: string)
    ensures IsFirstParen(args + ")" + rest, |args|) <==> Closed(args) && Free(args, ')')
  {
    hide ModeAfter, TopLevel;
    var s := args + ")" + rest;
    assert s == args + (")" + rest);
    forall k | 0 <= k < |args| ensures TopLevel(s, k, ')') <==> TopLevel(args, k, ')') {
      TopLevelInFront(args, ")" + rest, k, ')');
    }
    ParenIsTopLevel(args, rest);
  }

  lemma ParenIsTopLevel(args: string, rest: string)
    ensures TopLevel(args + ")" + rest, |args|, ')') <==> Closed(args)
  {
    var s := args + ")" + rest;
    assert s[|args|] == ')' && s[..|args|] == args;
  }

  // -------------------------------------------------------------------------
  // Splitting
  // -------------------------------------------------------------------------

  /** Every string of a finished piece is closed, and no comma of a piece is outside a string. */
  predicate Pieces(out: seq<string>) {
    && (forall p :: 0 <= p < |out| ==> forall i :: 0 <= i < |out[p]| ==> !TopLevel(out[p], i, ','))
    && (forall p :: 0 <= p < |out| - 1 ==> ModeAfter(Outside, out[p]) == Outside)
  }

  /** Rejoined with commas the pieces are the input; they are cut at every comma outside a string and nowhere else. */
  method SplitTopLevelCommas(s: string) returns (out: seq<string>)
    ensures out != [] && JoinWith(out, ",") == s && Pieces(out)
  {
    hide ModeAfter, JoinWith;
    out := [];
    var start := 0;
    var inString, escape := false, false;
    StartsOutside(s);
    JoinOne(s[0..0]);
    for i := 0 to |s|
      invariant start <= i
      invariant Flags(ModeAfter(Outside, s[start..i]), inString, escape)
      invariant JoinWith(out + [s[start..i]], ",") == s[..i]
      invariant Pieces(out + [s[start..i]])
    {
      var piece, longer := s[start..i], s[start..i + 1];
      assert longer == piece + [s[i]] && s[..i + 1] == s[..i] + [s[i]];
      PieceGrows(out, piece, s[i]);
      JoinLast(out, piece, [s[i]]);
      if escape {
        escape := false;
        continue;
      }
      if inString {
        match s[i]
        case '\\' => escape := true;
        case '\"' => inString := false;
        case _ =>
      } else {
        match s[i]
        case '\"' => inString := true;
        case ',' =>
          PieceEnds(out, piece);
          JoinAdd(out + [piece], "", ",");
          out := out + [piece];
          start := i + 1;
          assert s[start..i + 1] == "" && s[..i] + "," + "" == s[..i + 1];
        case _ =>
      }
    }
    assert s[start..|s|] == s[start..] && s[..|s|] == s;
    out := out + [s[start..]];
  }

  lemma JoinOne(p: string)
    ensures JoinWith([] + [p], ",") == p
    ensures p == "" ==> Pieces([] + [p])
  {
  }

  /** Growing the last piece grows the joined text. */
  lemma JoinLast(out: seq<string>, piece: string, more: string)
    ensures JoinWith(out + [piece + more], ",") == JoinWith(out + [piece], ",") + more
  {
    JoinAdd(out, piece, ",");
    JoinAdd(out, piece + more, ",");
    hide JoinWith;
    if out != [] {
      assert JoinWith(out, ",") + "," + (piece + more) == (JoinWith(out, ",") + "," + piece) + more;
    }
  }

  lemma PieceGrows(out: seq<string>, piece: string, c: char)
    requires Pieces(out + [piece])
    ensures ModeAfter(Outside, piece + [c]) == Next(ModeAfter(Outside, piece), c)
    ensures c != ',' || ModeAfter(Outside, piece) != Outside ==> Pieces(out + [piece + [c]])
  {
    assert (piece + [c])[..|piece|] == piece;
    assert ModeAfter(Outside, piece + [c]) == Next(ModeAfter(Outside, piece), c);
    hide ModeAfter;
    var before, after := out + [piece], out + [piece + [c]];
    if c != ',' || ModeAfter(Outside, piece) != Outside {
      forall p | 0 <= p < |after| ensures forall i :: 0 <= i < |after[p]| ==> !TopLevel(after[p], i, ',') {
        assert !(p < |out|) || after[p] == before[p];
        if p == |out| {
          forall i | 0 <= i < |after[p]| ensures !TopLevel(after[p], i, ',') {
            if i < |piece| {
              assert (piece + [c])[..i] == piece[..i] && before[p] == piece;
              assert !TopLevel(before[p], i, ',');
            }
          }
        }
      }
      forall p | 0 <= p < |after| - 1 ensures ModeAfter(Outside, after[p]) == Outside {
        assert after[p] == before[p];
      }
    }
  }

  lemma PieceEnds(out: seq<string>, piece: string)
    requires Pieces(out + [piece]) && ModeAfter(Outside, piece) == Outside
    ensures Pieces(out + [piece] + [""])
  {
    hide ModeAfter;
    var before, after := out + [piece], out + [piece] + [""];
    assert forall p :: 0 <= p < |before| ==> after[p] == before[p];
  }

  /** The pieces are the only ones: such a list of pieces is determined by the joined text. */
  lemma {:induction false} SplitIsUnique(a: seq<string>, b: seq<string>)
    requires a != [] && b != [] && Pieces(a) && Pieces(b) && JoinWith(a, ",") == JoinWith(b, ",")
    ensures a == b
    decreases |a|
  {
    hide ModeAfter, JoinWith;
    FirstPiece(a);
    FirstPiece(b);
    var s := JoinWith(a, ",");
    if |a| > 1 && |b| > 1 {
      WithoutFirst(a);
      WithoutFirst(b);
      SameCut(s, a[0], b[0]);
      assert s[|a[0]| + 1..] == JoinWith(a[1..], ",") && s[|b[0]| + 1..] == JoinWith(b[1..], ",");
      SplitIsUnique(a[1..], b[1..]);
      assert a == [a[0]] + a[1..] && b == [b[0]] + b[1..];
    } else if |a| > 1 {
      WithoutFirst(a);
      NoCutInside(a[0], b[0], s);
    } else if |b| > 1 {
      WithoutFirst(b);
      NoCutInside(b[0], a[0], s);
    }
  }

  /** The joined text starts with the first piece, and then the first top-level comma. */
  lemma {:induction false} FirstPiece(a: seq<string>)
    requires a != []
    ensures |a| == 1 ==> JoinWith(a, ",") == a[0]
    ensures |a| > 1 ==> JoinWith(a, ",") == a[0] + "," + JoinWith(a[1..], ",")
    decreases |a|
  {
    if |a| > 1 {
      var init, last := a[..|a| - 1], a[|a| - 1];
      FirstPiece(init);
      assert init[0] == a[0];
      if |a| == 2 {
        assert a[1..] == [last] && init == [a[0]];
      } else {
        assert a[1..][..|a| - 2] == init[1..] && a[1..][|a| - 2] == last;
        var rest := JoinWith(init[1..], ",");
        assert JoinWith(a[1..], ",") == rest + "," + last;
        assert (a[0] + "," + rest) + "," + last == a[0] + "," + (rest + "," + last);
      }
    }
  }

  lemma WithoutFirst(a: seq<string>)
    requires |a| > 1 && Pieces(a)
    ensures Pieces(a[1..]) && ModeAfter(Outside, a[0]) == Outside
  {
    hide ModeAfter;
    assert forall p :: 0 <= p < |a| - 1 ==> a[1..][p] == a[p + 1];
  }

  lemma CutFacts(s: string, a: string, b: string)
    requires |a| < |b| <= |s| && s[..|a|] == a && s[..|b|] == b && s[|a|] == ','
    ensures b[..|a|] == a && b[|a|] == ','
  {
  }

  /** A piece that goes on behind a comma has that comma inside a string. */
  lemma NoCutInside(a: string, b: string, s: string)
    requires |a| < |s| && |b| <= |s| && s[..|a|] == a && s[..|b|] == b && s[|a|] == ','
    requires forall k :: 0 <= k < |b| ==> !TopLevel(b, k, ',')
    ensures |a| < |b| ==> ModeAfter(Outside, a) != Outside
  {
    hide ModeAfter;
    if |a| < |b| {
      CutFacts(s, a, b);
      assert !TopLevel(b, |a|, ',');
    }
  }

  /** Two first pieces end at the same comma. */
  lemma SameCut(s: string, a: string, b: string)
    requires |a| < |s| && |b| < |s| && s[..|a|] == a && s[..|b|] == b && s[|a|] == s[|b|] == ','
    requires ModeAfter(Outside, a) == Outside && ModeAfter(Outside, b) == Outside
    requires forall k :: 0 <= k < |a| ==> !TopLevel(a, k, ',')
    requires forall k :: 0 <= k < |b| ==> !TopLevel(b, k, ',')
    ensures a == b
  {
    hide ModeAfter, TopLevel;
    NoCutInside(a, b, s);
    NoCutInside(b, a, s);
  }

  // -------------------------------------------------------------------------
  // Printed calls
  // -------------------------------------------------------------------------

  lemma ClosedConcat(a: string, b: string, c: char)
    requires Closed(a) && Free(a, c) && Free(b, c)
    ensures Free(a + b, c) && (Closed(b) ==> Closed(a + b))
  {
    ModeAfterPlus(Outside, a, b);
    forall i | 0 <= i < |a + b| ensures !TopLevel(a + b, i, c) {
      if i < |a| {
        TopLevelInFront(a, b, i, c);
        assert !TopLevel(a, i, c);
      } else {
        ModeAfterPlus(Outside, a, b[..i - |a|]);
        assert (a + b)[..i] == a + b[..i - |a|];
        assert !TopLevel(b, i - |a|, c);
      }
    }
  }

  /** A value as the inside of a string literal. */
  function Inner(v: string): string {
    if v == "" then "" else (if v[0] == '\"' || v[0] == '\\' then ['\\', v[0]] else [v[0]]) + Inner(v[1..])
  }

  function Quoted(v: string): string {
    "\"" + Inner(v) + "\""
  }

  /** The literal is not left before its closing quote. */
  lemma {:induction false} InnerStaysInside(v: string, i: nat)
    requires i <= |Inner(v)|
    ensures ModeAfter(Inside, Inner(v)[..i]) != Outside && (i == |Inner(v)| ==> ModeAfter(Inside, Inner(v)[..i]) == Inside)
    decreases |v|
  {
    if v != "" {
      var head := if v[0] == '\"' || v[0] == '\\' then ['\\', v[0]] else [v[0]];
      if i < |head| {
        assert Inner(v)[..i] == head[..i];
        assert i == 1 ==> head[..1][..0] == "" && head[..1] == ['\\'];
      } else {
        InnerStaysInside(v[1..], i - |head|);
        ModeAfterPlus(Inside, head, Inner(v[1..])[..i - |head|]);
        assert Inner(v)[..i] == head + Inner(v[1..])[..i - |head|];
        HeadStaysInside(v[0]);
      }
    }
  }

  lemma HeadStaysInside(c: char)
    ensures ModeAfter(Inside, if c == '\"' || c == '\\' then ['\\', c] else [c]) == Inside
  {
    assert ['\\', c][..1] == ['\\'] && ['\\'][..0] == "" && [c][..0] == "";
  }

  lemma QuoteOpens()
    ensures ModeAfter(Outside, "\"") == Inside && ModeAfter(Inside, "\"") == Outside && ModeAfter(Outside, "") == Outside
  {
    assert "\""[..0] == "";
  }

  /** Whatever a value contains, its literal is closed and holds nothing outside strings but its opening quote. */
  lemma QuotedIsClosed(v: string, c: char)
    requires c != '\"'
    ensures Closed(Quoted(v)) && Free(Quoted(v), c)
  {
    hide ModeAfter, Inner;
    var q, inner := Quoted(v), Inner(v);
    QuoteOpens();
    forall i | 0 <= i < |q| ensures !TopLevel(q, i, c) {
      if 0 < i {
        InnerStaysInside(v, i - 1);
        ModeAfterPlus(Outside, "\"", inner[..i - 1]);
        assert q[..i] == "\"" + inner[..i - 1];
      }
    }
    InnerStaysInside(v, |inner|);
    assert inner[..|inner|] == inner;
    ModeAfterPlus(Outside, "\"", inner);
    ModeAfterPlus(Outside, "\"" + inner, "\"");
  }

  predicate PlainKey(key: string) {
    forall i :: 0 <= i < |key| ==> key[i] != '\"' && key[i] != ',' && key[i] != ')'
  }

  lemma {:induction false} PlainIsClosed(key: string, c: char)
    requires PlainKey(key) && (c == ',' || c == ')')
    ensures Closed(key) && Free(key, c)
    decreases |key|
  {
    if key != "" {
      PlainIsClosed(key[..|key| - 1], c);
    }
  }

  /** A printed argument. */
  function Argument(key: string, value: string): string {
    key + "=" + Quoted(value)
  }

  /** An argument that is one piece of a call. */
  predicate Whole(piece: string) {
    Closed(piece) && Free(piece, ',') && Free(piece, ')')
  }

  /** So is every printed argument with a plain key, whatever its value contains. */
  lemma ArgumentIsWhole(key: string, value: string)
    requires PlainKey(key)
    ensures Whole(Argument(key, value))
  {
    hide Closed, Free;
    ArgumentIsFree(key, value, ',');
    ArgumentIsFree(key, value, ')');
  }

  lemma ArgumentIsFree(key: string, value: string, c: char)
    requires PlainKey(key) && (c == ',' || c == ')')
    ensures Closed(Argument(key, value)) && Free(Argument(key, value), c)
  {
    hide Closed, Free, Quoted;
    var k := key + "=";
    assert PlainKey(k);
    PlainIsClosed(k, c);
    QuotedIsClosed(value, c);
    ClosedConcat(k, Quoted(value), c);
  }

  lemma CommaIsClosed()
    ensures Closed(",") && Free(",", ')') && Closed("") && Free("", ')')
  {
    assert ","[..0] == "";
  }

  lemma {:induction false} JoinedIsClosed(pieces: seq<string>)
    requires forall p :: 0 <= p < |pieces| ==> Whole(pieces[p])
    ensures Closed(JoinWith(pieces, ",")) && Free(JoinWith(pieces, ","), ')')
    decreases |pieces|
  {
    hide Closed, Free;
    CommaIsClosed();
    if pieces != [] {
      var before, last := pieces[..|pieces| - 1], pieces[|pieces| - 1];
      JoinedIsClosed(before);
      ClosedConcat(JoinWith(before, ","), ",", ')');
      ClosedConcat(JoinWith(before, ",") + ",", last, ')');
    }
  }

  /** A printed call is taken apart into what was printed: the arguments end at its own parenthesis, and splitting
      them gives the printed pieces and no others. */
  lemma PrintedCallIsTakenApart(pieces: seq<string>, rest: string, out: seq<string>)
    requires pieces != [] && forall p :: 0 <= p < |pieces| ==> Whole(pieces[p])
    requires out != [] && Pieces(out) && JoinWith(out, ",") == JoinWith(pieces, ",")
    ensures IsFirstParen(JoinWith(pieces, ",") + ")" + rest, |JoinWith(pieces, ",")|)
    ensures out == pieces
  {
    hide JoinWith, IsFirstParen;
    JoinedIsClosed(pieces);
    ArgumentsAreClosed(JoinWith(pieces, ","), rest);
    SplitIsUnique(out, pieces);
  }
}
