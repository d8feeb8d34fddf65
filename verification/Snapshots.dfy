/** The on-flash snapshot of the cache (agent/src/core/cloud/snapshots.rs, lines 32-155). */
module Snapshots {
  import opened Base
  import opened LittleEndian

  /** Keys are UTF-8 text; `utf8` stands for the check of `str::from_utf8`. */
  type Entries = map<seq<Byte>, seq<Byte>>

  datatype Snapshot = Snapshot(writtenAt: int, entries: Entries)

  datatype DecodeError = TooShort | BadMagic(found: nat) | BadVersion(found: nat) | CutOff(at: nat) | BadKey

  const MAGIC: nat := 0x5A434C44
  const VERSION: nat := 1
  const I64_MIN: int := -0x8000_0000_0000_0000
  const I64_END: int := 0x8000_0000_0000_0000
  const U64_MODULUS: nat := 0x1_0000_0000_0000_0000

  // -------------------------------------------------------------------------
  // The time stamp
  // -------------------------------------------------------------------------

  /** Two's complement. */
  function I64Bytes(t: int): (r: seq<Byte>)
    ensures |r| == 8
  {
    var u := t % U64_MODULUS;
    U32Bytes(u % U32_MODULUS) + U32Bytes(u / U32_MODULUS)
  }

  function I64From(b: seq<Byte>): int
    requires |b| == 8
  {
    var u := U32From(b[..4]) + U32_MODULUS * U32From(b[4..]);
    if u < I64_END then u else u - U64_MODULUS
  }

  lemma I64RoundTrip(t: int)
    requires I64_MIN <= t < I64_END
    ensures I64From(I64Bytes(t)) == t
  {
    hide U32Bytes, U32From;
    var u := t % U64_MODULUS;
    U32RoundTrip(u % U32_MODULUS);
    U32RoundTrip(u / U32_MODULUS);
    var b := I64Bytes(t);
    assert b[..4] == U32Bytes(u % U32_MODULUS) && b[4..] == U32Bytes(u / U32_MODULUS);
  }

  // -------------------------------------------------------------------------
  // Order of keys
  // -------------------------------------------------------------------------

  /** `str::cmp`: bytewise, a proper prefix first. */
  predicate Below(a: seq<Byte>, b: seq<Byte>) {
    if b == [] then false else
    if a == [] then true else
    a[0] < b[0] || (a[0] == b[0] && Below(a[1..], b[1..]))
  }

  lemma {:induction false} BelowIsTotal(a: seq<Byte>, b: seq<Byte>)
    ensures a == b || Below(a, b) || Below(b, a)
    ensures !(Below(a, b) && (Below(b, a) || a == b))
  {
    if a != [] && b != [] && a[0] == b[0] {
      BelowIsTotal(a[1..], b[1..]);
      if a[1..] == b[1..] { assert a == [a[0]] + a[1..] && b == [b[0]] + b[1..]; }
    }
  }

  lemma {:induction false} BelowIsTransitive(a: seq<Byte>, b: seq<Byte>, c: seq<Byte>)
    requires Below(a, b) && Below(b, c)
    ensures Below(a, c)
  {
    if a != [] && a[0] == b[0] && b[0] == c[0] { BelowIsTransitive(a[1..], b[1..], c[1..]); }
  }

  predicate Ascending(keys: seq<seq<Byte>>) {
    forall i, j :: 0 <= i < j < |keys| ==> Below(keys[i], keys[j])
  }

  ghost predicate Lists(keys: seq<seq<Byte>>, ks: set<seq<Byte>>) {
    forall k :: k in keys <==> k in ks
  }

  lemma {:induction false} ListLength(keys: seq<seq<Byte>>, ks: set<seq<Byte>>)
    requires Ascending(keys) && Lists(keys, ks)
    ensures |keys| == |ks|
    decreases |keys|
  {
    hide Below;
    if keys == [] {
      assert ks == {};
    } else {
      assert keys[0] in ks;
      WithoutFirst(keys, ks);
      ListLength(keys[1..], ks - {keys[0]});
    }
  }

  /** There is only one ascending list of a set. */
  lemma {:induction false} AscendingIsUnique(a: seq<seq<Byte>>, b: seq<seq<Byte>>, ks: set<seq<Byte>>)
    requires Ascending(a) && Ascending(b) && Lists(a, ks) && Lists(b, ks)
    ensures a == b
    decreases |a|
  {
    hide Below;
    ListLength(a, ks);
    ListLength(b, ks);
    if a != [] {
      assert a[0] in ks && a[0] in b;
      assert b[0] in b && b[0] in a;
      FirstIsLeast(a, b[0]);
      FirstIsLeast(b, a[0]);
      BelowIsTotal(a[0], b[0]);
      WithoutFirst(a, ks);
      WithoutFirst(b, ks);
      AscendingIsUnique(a[1..], b[1..], ks - {a[0]});
      assert a == [a[0]] + a[1..] && b == [b[0]] + b[1..];
    }
  }

  lemma FirstIsLeast(a: seq<seq<Byte>>, k: seq<Byte>)
    requires Ascending(a) && k in a
    ensures k == a[0] || Below(a[0], k)
  {
    hide Below;
  }

  lemma WithoutFirst(a: seq<seq<Byte>>, ks: set<seq<Byte>>)
    requires a != [] && Ascending(a) && Lists(a, ks)
    ensures Ascending(a[1..]) && Lists(a[1..], ks - {a[0]})
  {
    hide Below;
    forall k ensures k in a[1..] <==> k in ks - {a[0]} {
      if k in a[1..] {
        var i :| 0 <= i < |a[1..]| && a[1..][i] == k;
        assert a[i + 1] == k && Below(a[0], a[i + 1]);
        BelowIsTotal(a[0], k);
      }
    }
  }

  /** Insertion into an ascending list. */
  lemma InsertKeepsAscending(s: seq<seq<Byte>>, k: nat, x: seq<Byte>)
    requires Ascending(s) && k <= |s|
    requires forall j :: 0 <= j < k ==> Below(s[j], x)
    requires k < |s| ==> Below(x, s[k])
    ensures Ascending(s[..k] + [x] + s[k..])
  {
    hide Below;
    var r := s[..k] + [x] + s[k..];
    forall j | k <= j < |s| ensures Below(x, s[j]) {
      if j > k { BelowIsTransitive(x, s[k], s[j]); }
    }
    forall i, j | 0 <= i < j < |r| ensures Below(r[i], r[j]) {
      var a, b := if i < k then i else i - 1, if j < k then j else j - 1;
      if i != k && j != k {
        assert r[i] == s[a] && r[j] == s[b];
      }
    }
  }

  method SortKeys(order: seq<seq<Byte>>) returns (sorted: seq<seq<Byte>>)
    requires forall i, j :: 0 <= i < j < |order| ==> order[i] != order[j]
    ensures Ascending(sorted) && forall k :: k in sorted <==> k in order
  {
    hide Below;
    sorted := [];
    for i := 0 to |order|
      invariant Ascending(sorted) && forall k :: k in sorted <==> k in order[..i]
    {
      var x := order[i];
      var k := 0;
      while k < |sorted| && Below(sorted[k], x)
        invariant k <= |sorted| && forall j :: 0 <= j < k ==> Below(sorted[j], x)
      {
        k := k + 1;
      }
      assert x !in order[..i];
      if k < |sorted| { assert sorted[k] in sorted; BelowIsTotal(sorted[k], x); }
      InsertKeepsAscending(sorted, k, x);
      assert order[..i + 1] == order[..i] + [x];
      assert sorted == sorted[..k] + sorted[k..];
      sorted := sorted[..k] + [x] + sorted[k..];
    }
    assert order[..|order|] == order;
  }

  // -------------------------------------------------------------------------
  // Encoding
  // -------------------------------------------------------------------------

  function EntryBytes(k: seq<Byte>, v: seq<Byte>): seq<Byte> {
    U32Bytes(|k|) + k + U32Bytes(|v|) + v
  }

  function AllEntryBytes(keys: seq<seq<Byte>>, m: Entries): seq<Byte>
    requires forall k :: k in keys ==> k in m
  {
    if keys == [] then [] else EntryBytes(keys[0], m[keys[0]]) + AllEntryBytes(keys[1..], m)
  }

  function Header(t: int, count: nat): (r: seq<Byte>)
    ensures |r| == 20
  {
    U32Bytes(MAGIC) + U32Bytes(VERSION) + I64Bytes(t) + U32Bytes(count)
  }

  /** The encoding: header, then the entries in ascending key order. */
  ghost predicate IsEncoding(t: int, m: Entries, out: seq<Byte>) {
    exists keys: seq<seq<Byte>> :: Ascending(keys) && Lists(keys, m.Keys) && out == Header(t, |m|) + AllEntryBytes(keys, m)
  }

  /** The map determines its encoding, whatever order the hash map yields its entries in. */
  lemma EncodingIsUnique(t: int, m: Entries, a: seq<Byte>, b: seq<Byte>)
    requires IsEncoding(t, m, a) && IsEncoding(t, m, b)
    ensures a == b
  {
    hide Ascending, AllEntryBytes, Header;
    var x: seq<seq<Byte>> :| Ascending(x) && Lists(x, m.Keys) && a == Header(t, |m|) + AllEntryBytes(x, m);
    var y: seq<seq<Byte>> :| Ascending(y) && Lists(y, m.Keys) && b == Header(t, |m|) + AllEntryBytes(y, m);
    AscendingIsUnique(x, y, m.Keys);
  }

  lemma {:induction false} EntriesSnoc(keys: seq<seq<Byte>>, k: seq<Byte>, m: Entries)
    requires k in m && forall j :: j in keys ==> j in m
    ensures AllEntryBytes(keys + [k], m) == AllEntryBytes(keys, m) + EntryBytes(k, m[k])
  {
    hide EntryBytes;
    if keys == [] {
      assert keys + [k] == [k] && [k][1..] == [];
    } else {
      assert (keys + [k])[1..] == keys[1..] + [k] && (keys + [k])[0] == keys[0];
      EntriesSnoc(keys[1..], k, m);
    }
  }

  method PushEntry(out: seq<Byte>, k: seq<Byte>, v: seq<Byte>) returns (r: seq<Byte>)
    ensures r == out + EntryBytes(k, v)
  {
    hide U32Bytes;
    r := out + U32Bytes(|k|);
    r := r + k;
    r := r + U32Bytes(|v|);
    r := r + v;
  }

  /** `order` is the order in which the hash map yields its keys. */
  method Encode(t: int, m: Entries, order: seq<seq<Byte>>) returns (out: seq<Byte>)
    requires Lists(order, m.Keys) && forall i, j :: 0 <= i < j < |order| ==> order[i] != order[j]
    ensures IsEncoding(t, m, out)
  {
    hide Ascending, U32Bytes, I64Bytes, Below, EntryBytes;
    out := U32Bytes(MAGIC) + U32Bytes(VERSION) + I64Bytes(t);
    out := out + U32Bytes(|m|);
    hide Header;
    assert Header(t, |m|) + AllEntryBytes([], m) == Header(t, |m|);
    var sorted := SortKeys(order);
    assert forall k :: k in sorted ==> k in m;
    ghost var keys: seq<seq<Byte>> := [];
    for i := 0 to |sorted|
      invariant keys == sorted[..i] && forall k :: k in keys ==> k in m
      invariant out == Header(t, |m|) + AllEntryBytes(keys, m)
    {
      var k := sorted[i];
      assert sorted[..i + 1] == keys + [k];
      EntriesSnoc(keys, k, m);
      var v := m[k];
      out := PushEntry(out, k, v);
      keys := keys + [k];
    }
    assert sorted[..|sorted|] == sorted;
  }

  // -------------------------------------------------------------------------
  // Decoding
  // -------------------------------------------------------------------------

  /** The next `n` bytes and the cursor behind them. */
  function Slice(b: seq<Byte>, p: nat, n: nat): (r: Result<(seq<Byte>, nat), DecodeError>)
    ensures r.Ok? ==> |r.value.0| == n && r.value.1 == p + n <= |b|
  {
    if p + n > |b| then Err(CutOff(p)) else Ok((b[p..p + n], p + n))
  }

  function ReadU32(b: seq<Byte>, p: nat): (r: Result<(nat, nat), DecodeError>)
    ensures r.Ok? ==> r.value.1 == p + 4 <= |b|
  {
    match Slice(b, p, 4)
    case Err(e) => Err(e)
    case Ok((s, q)) => Ok((U32From(s), q))
  }

  /** A length and that many bytes. */
  function ReadSized(b: seq<Byte>, p: nat): (r: Result<(seq<Byte>, nat), DecodeError>)
    ensures r.Ok? ==> p + 4 <= r.value.1 <= |b|
  {
    match ReadU32(b, p)
    case Err(e) => Err(e)
    case Ok((n, q)) => Slice(b, q, n)
  }

  function ReadEntries(b: seq<Byte>, p: nat, count: nat, got: Entries, utf8: seq<Byte> -> bool): Result<Entries,
                       DecodeError>
    decreases count
  {
    if count == 0 then Ok(got) else
    match ReadSized(b, p)
    case Err(e) => Err(e)
    case Ok((k, q)) =>
      if !utf8(k) then Err(BadKey) else
      match ReadSized(b, q)
      case Err(e) => Err(e)
      case Ok((v, r)) => ReadEntries(b, r, count - 1, got[k := v], utf8)
  }

  function Decoded(b: seq<Byte>, utf8: seq<Byte> -> bool): Result<Snapshot, DecodeError> {
    if |b| < 20 then Err(TooShort) else
    if U32From(b[..4]) != MAGIC then Err(BadMagic(U32From(b[..4]))) else
    if U32From(b[4..8]) != VERSION then Err(BadVersion(U32From(b[4..8]))) else
    match ReadEntries(b, 20, U32From(b[16..20]), map[], utf8)
    case Err(e) => Err(e)
    case Ok(entries) => Ok(Snapshot(I64From(b[8..16]), entries))
  }

  method ReadNumber(b: seq<Byte>, p: nat) returns (r: Result<nat, DecodeError>, q: nat)
    ensures ReadU32(b, p) == if r.Ok? then Ok((r.value, q)) else Err(r.error)
  {
    q := p;
    var s := Slice(b, p, 4);
    if s.Err? {
      return Err(s.error), q;
    }
    q := p + 4;
    r := Ok(U32From(s.value.0));
  }

  method ReadBlock(b: seq<Byte>, p: nat) returns (r: Result<seq<Byte>, DecodeError>, q: nat)
    ensures ReadSized(b, p) == if r.Ok? then Ok((r.value, q)) else Err(r.error)
    ensures r.Ok? ==> p < q <= |b|
  {
    var n;
    n, q := ReadNumber(b, p);
    if n.Err? {
      return Err(n.error), q;
    }
    var s := Slice(b, q, n.value);
    if s.Err? {
      return Err(s.error), q;
    }
    q := q + n.value;
    r := Ok(s.value.0);
  }

  method Decode(b: seq<Byte>, utf8: seq<Byte> -> bool) returns (r: Result<Snapshot, DecodeError>)
    ensures r == Decoded(b, utf8)
  {
    hide U32From, I64From, ReadSized;
    if |b| < 20 {
      return Err(TooShort);
    }
    var magic: Result<nat, DecodeError>, p: nat := ReadNumber(b, 0);
    if magic.value != MAGIC {
      return Err(BadMagic(magic.value));
    }
    var version;
    version, p := ReadNumber(b, p);
    if version.value != VERSION {
      return Err(BadVersion(version.value));
    }
    var writtenAt := I64From(b[p..p + 8]);
    p := p + 8;
    var count;
    count, p := ReadNumber(b, p);
    var entries: Entries := map[];
    var left := count.value;
    while left > 0
      invariant left <= count.value
      invariant ReadEntries(b, 20, count.value, map[], utf8) == ReadEntries(b, p, left, entries, utf8)
    {
      var k, v;
      k, p := ReadBlock(b, p);
      if k.Err? {
        return Err(k.error);
      }
      if !utf8(k.value) {
        return Err(BadKey);
      }
      v, p := ReadBlock(b, p);
      if v.Err? {
        return Err(v.error);
      }
      entries := entries[k.value := v.value];
      left := left - 1;
    }
    r := Ok(Snapshot(writtenAt, entries));
  }

  // -------------------------------------------------------------------------
  // Round trip
  // -------------------------------------------------------------------------

  /** Lengths fit their 32-bit fields and keys are text. */
  ghost predicate Fits(m: Entries, utf8: seq<Byte> -> bool) {
    && |m| < U32_MODULUS
    && forall k :: k in m ==> |k| < U32_MODULUS && |m[k]| < U32_MODULUS && utf8(k)
  }

  /** A sized block at the cursor is read back. */
  lemma SizedRoundTrip(b: seq<Byte>, p: nat, x: seq<Byte>)
    requires |x| < U32_MODULUS && p + 4 + |x| <= |b| && b[p..p + 4 + |x|] == U32Bytes(|x|) + x
    ensures ReadSized(b, p) == Ok((x, p + 4 + |x|))
  {
    hide U32Bytes, U32From;
    U32RoundTrip(|x|);
    var block := b[p..p + 4 + |x|];
    assert b[p..p + 4] == block[..4] == U32Bytes(|x|);
    assert b[p + 4..p + 4 + |x|] == block[4..] == x;
  }

  /** A sized block that is cut short is not read. */
  lemma SizedCutShort(b: seq<Byte>, p: nat, x: seq<Byte>)
    requires |x| < U32_MODULUS && p <= |b| < p + 4 + |x|
    requires b[p..] == (U32Bytes(|x|) + x)[..|b| - p]
    ensures ReadSized(b, p).Err? && ReadSized(b, p).error.CutOff?
  {
    hide U32Bytes, U32From;
    U32RoundTrip(|x|);
    if p + 4 <= |b| {
      assert b[p..p + 4] == b[p..][..4] == U32Bytes(|x|);
    }
  }

  /** The first entry of those that stand from `p` on. */
  lemma EntryRoundTrip(b: seq<Byte>, p: nat, k: seq<Byte>, v: seq<Byte>, rest: seq<Byte>)
    requires |k| < U32_MODULUS && |v| < U32_MODULUS && p <= |b| && b[p..] == EntryBytes(k, v) + rest
    ensures ReadSized(b, p) == Ok((k, p + 4 + |k|)) && ReadSized(b, p + 4 + |k|) == Ok((v, p + 8 + |k| + |v|))
    ensures p + 8 + |k| + |v| <= |b| && b[p + 8 + |k| + |v|..] == rest
  {
    hide U32Bytes, ReadSized;
    var x, y := U32Bytes(|k|) + k, U32Bytes(|v|) + v;
    assert EntryBytes(k, v) + rest == x + (y + rest);
    SliceAt(b, p, x, y + rest);
    SliceAt(b, p + |x|, y, rest);
    SizedRoundTrip(b, p, k);
    SizedRoundTrip(b, p + |x|, v);
  }

  lemma SliceAt(b: seq<Byte>, p: nat, x: seq<Byte>, rest: seq<Byte>)
    requires p <= |b| && b[p..] == x + rest
    ensures p + |x| <= |b| && b[p..p + |x|] == x && b[p + |x|..] == rest
  {
    var tail := b[p..];
    assert |tail| == |x| + |rest|;
    assert b[p..p + |x|] == tail[..|x|] && b[p + |x|..] == tail[|x|..];
  }

  function Restricted(m: Entries, keys: seq<seq<Byte>>): Entries
    requires forall k :: k in keys ==> k in m
  {
    map k | k in keys :: m[k]
  }

  lemma RestrictedFirst(m: Entries, keys: seq<seq<Byte>>, got: Entries)
    requires keys != [] && forall k :: k in keys ==> k in m
    ensures got[keys[0] := m[keys[0]]] + Restricted(m, keys[1..]) == got + Restricted(m, keys)
  {
    assert keys == [keys[0]] + keys[1..];
  }

  lemma {:induction false} EntriesRoundTrip(b: seq<Byte>, p: nat, keys: seq<seq<Byte>>, m: Entries, got: Entries,
                                            utf8: seq<Byte> -> bool)
    requires Fits(m, utf8) && (forall k :: k in keys ==> k in m)
    requires p <= |b| && b[p..] == AllEntryBytes(keys, m)
    ensures ReadEntries(b, p, |keys|, got, utf8) == Ok(got + Restricted(m, keys))
    decreases |keys|
  {
    hide ReadSized, EntryBytes, Restricted;
    if keys == [] {
      assert got + Restricted(m, []) == got by { RestrictedNone(m); }
    } else {
      var k, v := keys[0], m[keys[0]];
      EntryRoundTrip(b, p, k, v, AllEntryBytes(keys[1..], m));
      EntriesRoundTrip(b, p + 8 + |k| + |v|, keys[1..], m, got[k := v], utf8);
      RestrictedFirst(m, keys, got);
    }
  }

  lemma RestrictedNone(m: Entries)
    ensures Restricted(m, []) == map[]
  {
  }

  /** The first entry, cut short: its value is not read, or not even its key. */
  lemma EntryCutShort(b: seq<Byte>, p: nat, k: seq<Byte>, v: seq<Byte>)
    requires |k| < U32_MODULUS && |v| < U32_MODULUS && p <= |b| < p + 8 + |k| + |v|
    requires b[p..] == EntryBytes(k, v)[..|b| - p]
    ensures var first := ReadSized(b, p); first.Err? || (first == Ok((k, p + 4 + |k|)) && ReadSized(b, p + 4 + |k|).Err?)
  {
    var x, y, q := U32Bytes(|k|) + k, U32Bytes(|v|) + v, p + 4 + |k|;
    assert EntryBytes(k, v) == x + y;
    hide U32Bytes, ReadSized, EntryBytes;
    if |b| < q {
      PrefixOfSum(b[p..], x, y);
      SizedCutShort(b, p, k);
    } else {
      RestOfPrefix(b, p, x, y);
      SizedRoundTrip(b, p, k);
      SizedCutShort(b, q, v);
    }
  }

  lemma PrefixOfSum(tail: seq<Byte>, x: seq<Byte>, y: seq<Byte>)
    requires |tail| < |x| && tail == (x + y)[..|tail|]
    ensures tail == x[..|tail|]
  {
  }

  /** The bytes behind a whole first entry are a prefix of the rest. */
  lemma RestOfPrefix(b: seq<Byte>, p: nat, entry: seq<Byte>, rest: seq<Byte>)
    requires p + |entry| <= |b| && |b| - p < |entry + rest| && b[p..] == (entry + rest)[..|b| - p]
    ensures b[p..p + |entry|] == entry && b[p + |entry|..] == rest[..|b| - p - |entry|]
  {
    assert b[p..p + |entry|] == b[p..][..|entry|];
    assert b[p + |entry|..] == b[p..][|entry|..];
  }

  lemma WholeEntryIsRead(b: seq<Byte>, p: nat, k: seq<Byte>, v: seq<Byte>)
    requires |k| < U32_MODULUS && |v| < U32_MODULUS && p + 8 + |k| + |v| <= |b| && b[p..p + 8 + |k| + |v|] == EntryBytes(k, v)
    ensures ReadSized(b, p) == Ok((k, p + 4 + |k|)) && ReadSized(b, p + 4 + |k|) == Ok((v, p + 8 + |k| + |v|))
  {
    hide EntryBytes, ReadSized;
    assert b[p..] == EntryBytes(k, v) + b[p + 8 + |k| + |v|..];
    EntryRoundTrip(b, p, k, v, b[p + 8 + |k| + |v|..]);
  }

  /** Cut anywhere, the entries are not read to their end. */
  lemma {:induction false} EntriesCutShort(b: seq<Byte>, p: nat, keys: seq<seq<Byte>>, m: Entries, got: Entries,
                                           utf8: seq<Byte> -> bool)
    requires Fits(m, utf8) && (forall k :: k in keys ==> k in m)
    requires p <= |b| && |b| - p < |AllEntryBytes(keys, m)| && b[p..] == AllEntryBytes(keys, m)[..|b| - p]
    ensures ReadEntries(b, p, |keys|, got, utf8).Err?
    decreases |keys|
  {
    hide ReadSized, EntryBytes;
    var k, v := keys[0], m[keys[0]];
    var entry, rest := EntryBytes(k, v), AllEntryBytes(keys[1..], m);
    assert |entry| == 8 + |k| + |v| by { EntryLength(k, v); }
    var r := p + |entry|;
    assert k in keys;
    if |b| < r {
      assert b[p..] == entry[..|b| - p];
      EntryCutShort(b, p, k, v);
    } else {
      RestOfPrefix(b, p, entry, rest);
      WholeEntryIsRead(b, p, k, v);
      EntriesCutShort(b, r, keys[1..], m, got[k := v], utf8);
    }
  }

  lemma EntryLength(k: seq<Byte>, v: seq<Byte>)
    ensures |EntryBytes(k, v)| == 8 + |k| + |v|
  {
  }

  lemma HeaderFields(t: int, count: nat, b: seq<Byte>)
    requires I64_MIN <= t < I64_END && |b| >= 20 && b[..20] == Header(t, count)
    ensures U32From(b[..4]) == MAGIC && U32From(b[4..8]) == VERSION
    ensures I64From(b[8..16]) == t && U32From(b[16..20]) == AsU32(count)
  {
    hide U32Bytes, U32From, I64Bytes, I64From;
    U32RoundTrip(MAGIC);
    U32RoundTrip(VERSION);
    U32RoundTrip(count);
    I64RoundTrip(t);
    var h := b[..20];
    assert b[..4] == h[..4] && b[4..8] == h[4..8] && b[8..16] == h[8..16] && b[16..20] == h[16..20];
    assert h[..4] == U32Bytes(MAGIC) && h[4..8] == U32Bytes(VERSION) && h[8..16] == I64Bytes(t) && h[16..20] == U32Bytes(count);
  }

  lemma SplitsAt(b: seq<Byte>, x: seq<Byte>, y: seq<Byte>)
    requires b == x + y
    ensures b[..|x|] == x && b[|x|..] == y
  {
  }

  lemma RestrictedAll(m: Entries, keys: seq<seq<Byte>>)
    requires Lists(keys, m.Keys)
    ensures map[] + Restricted(m, keys) == m
  {
  }

  /** What is written is read back. */
  lemma DecodeInvertsEncode(t: int, m: Entries, out: seq<Byte>, utf8: seq<Byte> -> bool)
    requires I64_MIN <= t < I64_END && Fits(m, utf8) && IsEncoding(t, m, out)
    ensures Decoded(out, utf8) == Ok(Snapshot(t, m))
  {
    hide Header, U32From, I64From, ReadEntries, AllEntryBytes, Ascending;
    var keys: seq<seq<Byte>> :| Ascending(keys) && Lists(keys, m.Keys) && out == Header(t, |m|) + AllEntryBytes(keys, m);
    ListLength(keys, m.Keys);
    SplitsAt(out, Header(t, |m|), AllEntryBytes(keys, m));
    HeaderFields(t, |m|, out);
    EntriesRoundTrip(out, 20, keys, m, map[], utf8);
    RestrictedAll(m, keys);
  }

  lemma PrefixSplits(b: seq<Byte>, x: seq<Byte>, y: seq<Byte>, n: nat)
    requires b == x + y && |x| <= n <= |b|
    ensures b[..n][..|x|] == x && b[..n][|x|..] == y[..n - |x|]
  {
  }

  /** No strict prefix of what is written is accepted. */
  lemma PrefixesAreRejected(t: int, m: Entries, out: seq<Byte>, n: nat, utf8: seq<Byte> -> bool)
    requires I64_MIN <= t < I64_END && Fits(m, utf8) && IsEncoding(t, m, out) && n < |out|
    ensures Decoded(out[..n], utf8).Err?
  {
    hide Header, U32From, I64From, ReadEntries, AllEntryBytes, Ascending;
    var keys: seq<seq<Byte>> :| Ascending(keys) && Lists(keys, m.Keys) && out == Header(t, |m|) + AllEntryBytes(keys, m);
    ListLength(keys, m.Keys);
    if n >= 20 {
      var b := out[..n];
      PrefixSplits(out, Header(t, |m|), AllEntryBytes(keys, m), n);
      HeaderFields(t, |m|, b);
      EntriesCutShort(b, 20, keys, m, map[], utf8);
    }
  }
}
