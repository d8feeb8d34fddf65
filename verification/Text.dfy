/** Searching, splitting and trimming strings. */
module Text {
  import opened Base

  /** Rust's `trim_start`. */
  function TrimStart(s: string): (r: string)
    ensures |r| <= |s| && r == s[|s| - |r|..] && (r != "" ==> !IsWhitespace(r[0]))
  {
    if s != "" && IsWhitespace(s[0]) then TrimStart(s[1..]) else s
  }

  /** Rust's `trim_end`. */
  function TrimEnd(s: string): (r: string)
    ensures |r| <= |s| && r == s[..|r|] && (r != "" ==> !IsWhitespace(r[|r| - 1]))
  {
    if s != "" && IsWhitespace(s[|s| - 1]) then TrimEnd(s[..|s| - 1]) else s
  }

  function Trim(s: string): string {
    TrimEnd(TrimStart(s))
  }

  /** First position of `c` at or after `from`, or the length. */
  function IndexFrom(s: string, c: char, from: nat): (i: nat)
    requires from <= |s|
    ensures from <= i <= |s| && (i < |s| ==> s[i] == c)
    ensures forall j :: from <= j < i ==> s[j] != c
    decreases |s| - from
  {
    if from == |s| || s[from] == c then from else IndexFrom(s, c, from + 1)
  }

  /** The pieces between the occurrences of `c`. */
  function Split(s: string, c: char): (r: seq<string>)
    ensures r != []
    decreases |s|
  {
    var j := IndexFrom(s, c, 0);
    if j == |s| then [s] else [s[..j]] + Split(s[j + 1..], c)
  }

  /** `find`: the first occurrence. */
  function Find(s: string, pat: string): (r: Option<nat>)
    ensures r.Some? ==> r.value + |pat| <= |s|
  {
    if pat <= s then Some(0) else
    if s == "" then None else
    match Find(s[1..], pat)
    case None => None
    case Some(i) => Some(i + 1)
  }

  /** `rfind`: the last occurrence. */
  function FindLast(s: string, pat: string): (r: Option<nat>)
    ensures r.Some? ==> r.value + |pat| <= |s|
  {
    match (if s == "" then None else FindLast(s[1..], pat))
    case Some(i) => Some(i + 1)
    case None => if pat <= s then Some(0) else None
  }
}
