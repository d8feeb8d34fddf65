/** Object-store keys of a chat, and the numbers written into them
    (agent/src/core/sessions/mod.rs, lines 99-101 and 471-517). */
module SessionKeys {
  import opened Base

  // -------------------------------------------------------------------------
  // Decimal numbers
  // -------------------------------------------------------------------------

  predicate IsDigit(c: char) {
    '0' <= c <= '9'
  }

  function Digit(d: nat): (c: char)
    requires d < 10
    ensures IsDigit(c) && c as int - '0' as int == d
  {
    (d + '0' as int) as char
  }

  function Decimal(n: nat): (s: string)
    ensures s != "" && forall i :: 0 <= i < |s| ==> IsDigit(s[i])
  {
    if n < 10 then [Digit(n)] else Decimal(n / 10) + [Digit(n % 10)]
  }

  /** `{:02}`. */
  function TwoDigits(n: nat): string {
    if n < 10 then "0" + Decimal(n) else Decimal(n)
  }

  predicate AllDigits(s: string) {
    forall i :: 0 <= i < |s| ==> IsDigit(s[i])
  }

  function Value(s: string): nat
    requires AllDigits(s)
  {
    if s == "" then 0 else 10 * Value(s[..|s| - 1]) + (s[|s| - 1] as int - '0' as int)
  }

  /** Rust's `str::parse::<u32>`: an optional plus sign, then digits without overflow. */
  function ParseU32(s: string): Option<nat> {
    var d := if s != "" && s[0] == '+' then s[1..] else s;
    if d != "" && AllDigits(d) && Value(d) < U32_MODULUS then Some(Value(d)) else None
  }

  lemma {:induction false} ValueOfDecimal(n: nat)
    ensures Value(Decimal(n)) == n
  {
    if n < 10 {
      assert [Digit(n)][..0] == "";
    } else {
      ValueOfDecimal(n / 10);
      assert (Decimal(n / 10) + [Digit(n % 10)])[..|Decimal(n / 10)|] == Decimal(n / 10);
    }
  }

  lemma ParseOfTwoDigits(n: nat)
    ensures ParseU32(TwoDigits(n)) == if n < U32_MODULUS then Some(n) else None
    ensures AllDigits(TwoDigits(n)) && Value(TwoDigits(n)) == n && TwoDigits(n) != ""
  {
    ValueOfDecimal(n);
    if n < 10 {
      var s := "0" + Decimal(n);
      assert s == "0" + [Digit(n)];
      assert s[..1] == "0" && s[..1][..0] == "";
      assert Value(s[..1]) == 0;
    }
  }

  // -------------------------------------------------------------------------
  // Keys
  // -------------------------------------------------------------------------

  function SafeChatId(chat: string): (r: string)
    ensures |r| == |chat| && '/' !in r && ':' !in r
  {
    if chat == "" then ""
    else [if chat[0] == ':' || chat[0] == '/' then '_' else chat[0]] + SafeChatId(chat[1..])
  }

  function Prefix(chat: string): Key {
    "sys/sessions/" + SafeChatId(chat) + "/"
  }

  function BaseKey(chat: string): Key {
    Prefix(chat) + "base.jsonl"
  }

  function MetaKey(chat: string): Key {
    Prefix(chat) + "base.meta.json"
  }

  function LogPrefix(chat: string): Key {
    Prefix(chat) + "log-"
  }

  function LogKey(chat: string, idx: nat): Key {
    LogPrefix(chat) + TwoDigits(idx) + ".jsonl"
  }

  function QuarantinePrefix(chat: string): Key {
    Prefix(chat) + ".quarantine/"
  }

  predicate StartsWith(s: string, prefix: string) {
    prefix <= s
  }

  predicate EndsWith(s: string, suffix: string) {
    |suffix| <= |s| && s[|s| - |suffix|..] == suffix
  }

  /** The number of a log key, as read back by prefix, suffix and `parse`. */
  function LogIndexOf(chat: string, key: Key): (r: Option<nat>)
    ensures r.Some? ==> r.value < U32_MODULUS
  {
    if !StartsWith(key, LogPrefix(chat)) then None else
    var rest := key[|LogPrefix(chat)|..];
    if !EndsWith(rest, ".jsonl") then None else ParseU32(rest[..|rest| - 6])
  }

  lemma LogIndexOfLogKey(chat: string, idx: nat)
    ensures LogIndexOf(chat, LogKey(chat, idx)) == if idx < U32_MODULUS then Some(idx) else None
  {
    ParseOfTwoDigits(idx);
    var key := LogKey(chat, idx);
    var rest := key[|LogPrefix(chat)|..];
    assert rest == TwoDigits(idx) + ".jsonl";
    assert rest[..|rest| - 6] == TwoDigits(idx);
    assert rest[|rest| - 6..] == ".jsonl";
  }

  lemma LogKeyHasLogPrefix(chat: string, idx: nat)
    ensures LogPrefix(chat) <= LogKey(chat, idx)
  {
    assert LogKey(chat, idx)[..|LogPrefix(chat)|] == LogPrefix(chat);
  }

  lemma LogKeysAreDistinct(chat: string, i: nat, j: nat)
    requires LogKey(chat, i) == LogKey(chat, j)
    ensures i == j
  {
    hide TwoDigits, LogPrefix, Value;
    ParseOfTwoDigits(i);
    ParseOfTwoDigits(j);
    var p, k := |LogPrefix(chat)|, LogKey(chat, i);
    assert k[p..|k| - 6] == TwoDigits(i);
    assert k[p..|k| - 6] == TwoDigits(j);
  }

  lemma BaseAndMetaAreNotLogs(chat: string)
    ensures LogIndexOf(chat, BaseKey(chat)).None? && LogIndexOf(chat, MetaKey(chat)).None?
    ensures BaseKey(chat) != MetaKey(chat)
    ensures forall n: nat :: LogKey(chat, n) != BaseKey(chat) && LogKey(chat, n) != MetaKey(chat)
  {
    var p := |Prefix(chat)|;
    assert BaseKey(chat)[p] == 'b' && MetaKey(chat)[p] == 'b' && LogPrefix(chat)[p] == 'l';
    assert BaseKey(chat)[p..] == "base.jsonl" && MetaKey(chat)[p..] == "base.meta.json";
    assert |"base.jsonl"| == 10 && |"base.meta.json"| == 14;
    forall n: nat ensures LogKey(chat, n)[p] == 'l' {
      assert LogKey(chat, n)[..p + 4] == LogPrefix(chat);
    }
  }

  /** Keys of chats with different sanitized ids never meet. */
  lemma ChatsAreDisjoint(a: string, b: string, key: Key)
    requires StartsWith(key, Prefix(a)) && StartsWith(key, Prefix(b))
    ensures SafeChatId(a) == SafeChatId(b)
  {
    var root := |"sys/sessions/"|;
    var sa, sb := SafeChatId(a), SafeChatId(b);
    var rest := key[root..];
    assert Prefix(a)[root..] == sa + "/" && Prefix(b)[root..] == sb + "/";
    assert sa + "/" <= rest && sb + "/" <= rest;
    assert rest[|sa|] == '/' && rest[|sb|] == '/';
    assert forall i :: 0 <= i < |sa| ==> rest[i] == sa[i];
    assert forall i :: 0 <= i < |sb| ==> rest[i] == sb[i];
    assert |sa| == |sb|;
  }

  // -------------------------------------------------------------------------
  // The "highest absorbed log" marker
  // -------------------------------------------------------------------------

  /** `{"highest_absorbed_log":n}`. */
  function MarkerBytes(n: nat): Bytes {
    "{\"highest_absorbed_log\":" + Decimal(n) + "}"
  }

  /** Reads the marker back; `as u32` truncates. JSON other than what the program writes reads as absent. */
  function ParseMarker(b: Bytes): Option<nat> {
    var head := "{\"highest_absorbed_log\":";
    if StartsWith(b, head) && |b| > |head| + 1 && b[|b| - 1] == '}' && AllDigits(b[|head|..|b| - 1])
    then Some(AsU32(Value(b[|head|..|b| - 1])))
    else None
  }

  lemma ParseMarkerOfMarker(n: nat)
    requires n < U32_MODULUS
    ensures ParseMarker(MarkerBytes(n)) == Some(n)
  {
    var head := "{\"highest_absorbed_log\":";
    ValueOfDecimal(n);
    assert MarkerBytes(n)[|head|..|MarkerBytes(n)| - 1] == Decimal(n);
  }
}
