/** The NVS partition image: one page of 32-byte entries (web/app/utils/nvs.ts, lines 9-20 and 41-176). */
module NvsPages {
  import opened Base
  import opened LittleEndian
  import Crc32

  const PAGE_SIZE: nat := 4096
  const ENTRY_SIZE: nat := 32
  const ENTRIES_OFFSET: nat := 64
  /** Entries that fit the page. */
  const CAPACITY: nat := 126
  const PAGE_ACTIVE: nat := 0xFFFF_FFFE
  const NVS_VERSION: Byte := 0xFE
  const TYPE_NAMESPACE: Byte := 0x01
  const TYPE_BLOB_DATA: Byte := 0x42
  const TYPE_BLOB_IDX: Byte := 0x48

  /** Names and values as the encoder's bytes. */
  datatype Blob = Blob(namespace: seq<Byte>, key: seq<Byte>, value: seq<Byte>)

  // -------------------------------------------------------------------------
  // Fields
  // -------------------------------------------------------------------------

  function Fill(n: nat, b: Byte): (s: seq<Byte>)
    ensures |s| == n && forall i :: 0 <= i < n ==> s[i] == b
  {
    seq(n, (_: nat) => b)
  }

  function Word(b: Byte): bv8 {
    (b as int) as bv8
  }

  function Words(data: seq<Byte>): seq<bv8> {
    seq(|data|, (i: nat) requires i < |data| => Word(data[i]))
  }

  /** `crc32`. */
  function Crc(data: seq<Byte>): (n: nat)
    ensures n < U32_MODULUS
  {
    Crc32.Checksum(Words(data)) as nat
  }

  function U16Bytes(n: nat): (r: seq<Byte>)
    ensures |r| == 2
  {
    [(n % 256) as Byte, (n / 0x100 % 256) as Byte]
  }

  function AsByte(n: nat): Byte {
    (n % 256) as Byte
  }

  /** A name is cut to 15 bytes. */
  function Cut(name: seq<Byte>): (r: seq<Byte>)
    ensures |r| <= 15
  {
    if |name| <= 15 then name else name[..15]
  }

  /** The 16-byte name field, padded with zeros. */
  function NameField(name: seq<Byte>): (r: seq<Byte>)
    ensures |r| == 16
  {
    Cut(name) + Fill(16 - |Cut(name)|, 0)
  }

  // -------------------------------------------------------------------------
  // Entries
  // -------------------------------------------------------------------------

  /** An entry: head, checksum over head and rest, rest. */
  function Slot(head: seq<Byte>, rest: seq<Byte>): (s: seq<Byte>)
    requires |head| == 4 && |rest| == 24
    ensures |s| == 32
  {
    head + U32Bytes(Crc(head + rest)) + rest
  }

  function NamespaceSlot(name: seq<Byte>, idx: nat): (s: seq<Byte>)
    ensures |s| == 32
  {
    Slot([0, TYPE_NAMESPACE, 1, 0xFF], NameField(name) + ([AsByte(idx)] + Fill(7, 0xFF)))
  }

  function DataSlot(ns: nat, span: nat, key: seq<Byte>, value: seq<Byte>): (s: seq<Byte>)
    ensures |s| == 32
  {
    Slot([AsByte(ns), TYPE_BLOB_DATA, AsByte(span), 0],
         NameField(key) + (U16Bytes(|value|) + Fill(2, 0xFF) + U32Bytes(Crc(value))))
  }

  function IndexSlot(ns: nat, key: seq<Byte>, size: nat): (s: seq<Byte>)
    ensures |s| == 32
  {
    Slot([AsByte(ns), TYPE_BLOB_IDX, 1, 0xFF], NameField(key) + (U32Bytes(size) + U16Bytes(1) + Fill(2, 0xFF)))
  }

  function ChunkCount(value: seq<Byte>): nat {
    (|value| + 31) / 32
  }

  /** The value padded to whole entries. */
  function Padded(value: seq<Byte>): (r: seq<Byte>)
    ensures |r| == 32 * ChunkCount(value)
  {
    value + Fill(32 * ChunkCount(value) - |value|, 0xFF)
  }

  function Chunk(value: seq<Byte>, i: nat): (r: seq<Byte>)
    requires i < ChunkCount(value)
    ensures |r| == 32
  {
    Padded(value)[32 * i..32 * i + 32]
  }

  function Chunks(value: seq<Byte>): (r: seq<seq<Byte>>)
    ensures |r| == ChunkCount(value) && forall i :: 0 <= i < |r| ==> r[i] == Chunk(value, i)
  {
    seq(ChunkCount(value), (i: nat) requires i < ChunkCount(value) => Chunk(value, i))
  }

  function BlobSlots(ns: nat, e: Blob): seq<seq<Byte>> {
    [DataSlot(ns, 1 + ChunkCount(e.value), e.key, e.value)] + Chunks(e.value) + [IndexSlot(ns, e.key, |e.value|)]
  }

  /** Number of a namespace: its position among those met so far, from one. */
  function Number(known: seq<seq<Byte>>, ns: seq<Byte>): (n: nat)
    ensures n <= |known| && (n > 0 ==> known[n - 1] == ns) && (n == 0 ==> ns !in known)
  {
    if known == [] then 0 else
    if known[|known| - 1] == ns then |known| else Number(known[..|known| - 1], ns)
  }

  function Met(known: seq<seq<Byte>>, ns: seq<Byte>): (r: seq<seq<Byte>>)
    ensures ns in r
  {
    if ns in known then known else known + [ns]
  }

  /** The entries of the page: a declaration at a namespace's first blob, then data, chunks and index of each blob. */
  function SlotsFrom(entries: seq<Blob>, known: seq<seq<Byte>>): seq<seq<Byte>>
    decreases |entries|
  {
    if entries == [] then [] else
    var e := entries[0];
    var met := Met(known, e.namespace);
    (if e.namespace in known then [] else [NamespaceSlot(e.namespace, |known| + 1)])
    + BlobSlots(Number(met, e.namespace), e) + SlotsFrom(entries[1..], met)
  }

  // -------------------------------------------------------------------------
  // The page
  // -------------------------------------------------------------------------

  function HeaderBytes(): (r: seq<Byte>)
    ensures |r| == 32
  {
    var body := U32Bytes(0) + [NVS_VERSION] + Fill(19, 0xFF);
    U32Bytes(PAGE_ACTIVE) + body + U32Bytes(Crc(body))
  }

  /** One bitmap byte with its first `c` entries written: two bits per entry, the lower cleared. */
  function BitmapByte(c: nat): Byte {
    if c == 0 then 0xFF else if c == 1 then 0xFE else if c == 2 then 0xFA else if c == 3 then 0xEA else 0xAA
  }

  function Bitmap(n: nat): (r: seq<Byte>)
    ensures |r| == 32
    ensures forall j :: 0 <= j < 32 ==> r[j] == BitmapByte(if n < 4 * j then 0 else n - 4 * j)
  {
    seq(32, (j: nat) => BitmapByte(if n < 4 * j then 0 else n - 4 * j))
  }

  function Concat(slots: seq<seq<Byte>>): seq<Byte> {
    if slots == [] then [] else Concat(slots[..|slots| - 1]) + slots[|slots| - 1]
  }

  predicate AllSlots(slots: seq<seq<Byte>>) {
    forall i :: 0 <= i < |slots| ==> |slots[i]| == 32
  }

  lemma {:induction false} ConcatLength(slots: seq<seq<Byte>>)
    requires AllSlots(slots)
    ensures |Concat(slots)| == 32 * |slots|
  {
    if slots != [] { ConcatLength(slots[..|slots| - 1]); }
  }

  lemma {:induction false} ConcatAt(slots: seq<seq<Byte>>, i: nat)
    requires AllSlots(slots) && i < |slots|
    ensures |Concat(slots)| == 32 * |slots| && Concat(slots)[32 * i..32 * i + 32] == slots[i]
  {
    ConcatLength(slots);
    ConcatLength(slots[..|slots| - 1]);
    if i < |slots| - 1 {
      ConcatAt(slots[..|slots| - 1], i);
    }
  }

  /** The page that holds some entries. */
  function PageOf(slots: seq<seq<Byte>>): (p: seq<Byte>)
    requires AllSlots(slots) && |slots| <= CAPACITY
    ensures |p| == PAGE_SIZE
  {
    ConcatLength(slots);
    HeaderBytes() + Bitmap(|slots|) + Concat(slots) + Fill(32 * (CAPACITY - |slots|), 0xFF)
  }

  lemma {:induction false} SlotsAreSlots(entries: seq<Blob>, known: seq<seq<Byte>>)
    ensures AllSlots(SlotsFrom(entries, known))
    decreases |entries|
  {
    hide DataSlot, IndexSlot, NamespaceSlot, Chunks;
    if entries != [] { SlotsAreSlots(entries[1..], Met(known, entries[0].namespace)); }
  }

  // -------------------------------------------------------------------------
  // Building
  // -------------------------------------------------------------------------

  function Splice(s: seq<Byte>, off: nat, b: seq<Byte>): (r: seq<Byte>)
    requires off + |b| <= |s|
    ensures |r| == |s|
  {
    s[..off] + b + s[off + |b|..]
  }

  /** `Uint8Array.set`, and the little-endian setters. */
  method SetBytes(a: array<Byte>, off: nat, b: seq<Byte>)
    requires off + |b| <= a.Length
    modifies a
    ensures a[..] == Splice(old(a[..]), off, b)
  {
    for i := 0 to |b|
      invariant forall k :: off <= k < off + i ==> a[k] == b[k - off]
      invariant forall k :: 0 <= k < a.Length && !(off <= k < off + i) ==> a[k] == old(a[k])
    {
      a[off + i] := b[i];
    }
  }

  /** What a write in the middle replaces. */
  lemma SpliceMiddle(s: seq<Byte>, front: seq<Byte>, gap: seq<Byte>, rest: seq<Byte>, x: seq<Byte>)
    requires s == front + gap + rest && |gap| == |x|
    ensures Splice(s, |front|, x) == front + x + rest
  {
    assert s[..|front|] == front && s[|front| + |x|..] == rest;
  }

  lemma FillParts(n: nat, k: nat, v: Byte)
    requires k <= n
    ensures Fill(n, v) == Fill(k, v) + Fill(n - k, v)
  {
  }

  lemma FreshLayout(head: seq<Byte>, name: seq<Byte>)
    requires |head| == 4 && |name| <= 15
    ensures Splice(Splice(Splice(Fill(32, 0xFF), 0, head), 8, Fill(16, 0)), 8, name)
      == head + Fill(4, 0xFF) + (name + Fill(16 - |name|, 0)) + Fill(8, 0xFF)
  {
    var gap, pad, end := Fill(4, 0xFF), Fill(16 - |name|, 0), Fill(8, 0xFF);
    var front := head + gap;
    FillParts(32, 4, 0xFF);
    FillParts(28, 4, 0xFF);
    FillParts(24, 16, 0xFF);
    FillParts(16, |name|, 0);
    hide Splice, Fill;
    SpliceMiddle(Fill(32, 0xFF), [], gap, Fill(28, 0xFF), head);
    assert [] + head + Fill(28, 0xFF) == front + Fill(16, 0xFF) + end;
    SpliceMiddle(front + Fill(16, 0xFF) + end, front, Fill(16, 0xFF), end, Fill(16, 0));
    assert front + Fill(16, 0) + end == front + Fill(|name|, 0) + (pad + end);
    SpliceMiddle(front + Fill(16, 0) + end, front, Fill(|name|, 0), pad + end, name);
  }

  /** A fresh entry: all ones, then its head and its name. */
  method NewEntry(head: seq<Byte>, name: seq<Byte>) returns (e: array<Byte>)
    requires |head| == 4
    ensures fresh(e) && e.Length == 32
    ensures e[..] == head + Fill(4, 0xFF) + NameField(name) + Fill(8, 0xFF)
  {
    hide Splice;
    e := new Byte[32](_ => 0xFF);
    assert e[..] == Fill(32, 0xFF);
    SetBytes(e, 0, head);
    SetBytes(e, 8, Fill(16, 0));
    SetBytes(e, 8, Cut(name));
    FreshLayout(head, Cut(name));
  }

  /** The entry's checksum, over all but the checksum's own bytes. */
  method SealEntry(e: array<Byte>, ghost head: seq<Byte>, ghost gap: seq<Byte>, ghost rest: seq<Byte>)
    requires e.Length == 32 && |head| == 4 && |gap| == 4 && |rest| == 24 && e[..] == head + gap + rest
    modifies e
    ensures e[..] == Slot(head, rest)
  {
    hide Crc;
    var buf := e[0..4] + e[8..32];
    assert e[..][0..4] == head && e[..][8..32] == rest;
    SetBytes(e, 4, U32Bytes(Crc(buf)));
  }

  method MakeNamespace(name: seq<Byte>, idx: nat) returns (e: array<Byte>)
    ensures fresh(e) && e.Length == 32 && e[..] == NamespaceSlot(name, idx)
  {
    hide NameField, Slot;
    var head := [0, TYPE_NAMESPACE, 1, 0xFF];
    e := NewEntry(head, name);
    SetBytes(e, 24, [AsByte(idx)]);
    ghost var rest := NameField(name) + ([AsByte(idx)] + Fill(7, 0xFF));
    assert e[..] == head + Fill(4, 0xFF) + rest;
    SealEntry(e, head, Fill(4, 0xFF), rest);
  }

  lemma DataLayout(head: seq<Byte>, gap: seq<Byte>, name: seq<Byte>, x: seq<Byte>, y: seq<Byte>)
    requires |head| == 4 && |gap| == 4 && |name| == 16 && |x| == 2 && |y| == 4
    ensures Splice(Splice(head + gap + name + Fill(8, 0xFF), 24, x), 28, y) == head + gap + (name + (x + Fill(2, 0xFF) + y))
  {
    var front, two := head + gap + name, Fill(2, 0xFF);
    FillParts(8, 2, 0xFF);
    FillParts(6, 2, 0xFF);
    hide Splice, Fill;
    SpliceMiddle(front + Fill(8, 0xFF), front, two, two + Fill(4, 0xFF), x);
    assert front + x + (two + Fill(4, 0xFF)) == (front + x + two) + Fill(4, 0xFF) + [];
    SpliceMiddle((front + x + two) + Fill(4, 0xFF) + [], front + x + two, Fill(4, 0xFF), [], y);
  }

  lemma IndexLayout(head: seq<Byte>, gap: seq<Byte>, name: seq<Byte>, x: seq<Byte>, y: seq<Byte>)
    requires |head| == 4 && |gap| == 4 && |name| == 16 && |x| == 4 && |y| == 2
    ensures Splice(Splice(head + gap + name + Fill(8, 0xFF), 24, x), 28, y) == head + gap + (name + (x + y + Fill(2, 0xFF)))
  {
    var front, two := head + gap + name, Fill(2, 0xFF);
    FillParts(8, 4, 0xFF);
    FillParts(4, 2, 0xFF);
    hide Splice, Fill;
    SpliceMiddle(front + Fill(8, 0xFF), front, Fill(4, 0xFF), Fill(4, 0xFF), x);
    assert front + x + Fill(4, 0xFF) == (front + x) + two + two;
    SpliceMiddle((front + x) + two + two, front + x, two, two, y);
  }

  method MakeData(ns: nat, span: nat, key: seq<Byte>, value: seq<Byte>) returns (e: array<Byte>)
    ensures fresh(e) && e.Length == 32 && e[..] == DataSlot(ns, span, key, value)
  {
    hide NameField, Slot, U16Bytes, U32Bytes, Crc, Splice;
    var head := [AsByte(ns), TYPE_BLOB_DATA, AsByte(span), 0];
    e := NewEntry(head, key);
    SetBytes(e, 24, U16Bytes(|value|));
    SetBytes(e, 28, U32Bytes(Crc(value)));
    ghost var rest := NameField(key) + (U16Bytes(|value|) + Fill(2, 0xFF) + U32Bytes(Crc(value)));
    DataLayout(head, Fill(4, 0xFF), NameField(key), U16Bytes(|value|), U32Bytes(Crc(value)));
    SealEntry(e, head, Fill(4, 0xFF), rest);
  }

  method MakeIndex(ns: nat, key: seq<Byte>, size: nat) returns (e: array<Byte>)
    ensures fresh(e) && e.Length == 32 && e[..] == IndexSlot(ns, key, size)
  {
    hide NameField, Slot, U16Bytes, U32Bytes, Crc, Splice;
    var head := [AsByte(ns), TYPE_BLOB_IDX, 1, 0xFF];
    e := NewEntry(head, key);
    SetBytes(e, 24, U32Bytes(size));
    SetBytes(e, 28, U16Bytes(1));
    ghost var rest := NameField(key) + (U32Bytes(size) + U16Bytes(1) + Fill(2, 0xFF));
    IndexLayout(head, Fill(4, 0xFF), NameField(key), U32Bytes(size), U16Bytes(1));
    SealEntry(e, head, Fill(4, 0xFF), rest);
  }

  /** `&= ~(1 << bit)`. */
  function ClearBit(b: Byte, bit: nat): Byte
    requires bit == 0 || bit == 2 || bit == 4 || bit == 6
  {
    var p := if bit == 0 then 1 else if bit == 2 then 4 else if bit == 4 then 16 else 64;
    if (b as int / p) % 2 == 1 then (b as int - p) as Byte else b
  }

  lemma ClearNext(c: nat)
    requires c < 4
    ensures ClearBit(BitmapByte(c), 2 * c) == BitmapByte(c + 1)
  {
  }

  lemma BitmapNext(n: nat)
    requires n < 128
    ensures Bitmap(n + 1) == Bitmap(n)[n / 4 := ClearBit(Bitmap(n)[n / 4], 2 * (n % 4))]
  {
    var j := n / 4;
    ClearNext(n % 4);
    forall k | 0 <= k < 32 && k != j ensures Bitmap(n + 1)[k] == Bitmap(n)[k] {
      assert k < j || n < 4 * k;
    }
  }

  /** `markWritten`: clears the lower of the entry's two bits. */
  method MarkWritten(page: array<Byte>, idx: nat)
    requires idx < 128 && page.Length >= PAGE_SIZE
    modifies page
    ensures page[..] == old(page[..])[32 + idx / 4 := ClearBit(old(page[32 + idx / 4]), 2 * (idx % 4))]
  {
    var byteIdx := idx * 2 / 8;
    var bitIdx := idx * 2 % 8;
    assert byteIdx == idx / 4 && bitIdx == 2 * (idx % 4);
    page[32 + byteIdx] := ClearBit(page[32 + byteIdx], bitIdx);
  }

  /** An image with one entry more: its bytes and its mark in the bitmap. */
  function WithEntry(image: seq<Byte>, n: nat, slot: seq<Byte>): (r: seq<Byte>)
    requires |image| >= PAGE_SIZE && n < CAPACITY && |slot| == 32
    ensures |r| == |image|
  {
    var written := Splice(image, 64 + 32 * n, slot);
    written[32 + n / 4 := ClearBit(written[32 + n / 4], 2 * (n % 4))]
  }

  lemma PageGrows(slots: seq<seq<Byte>>, slot: seq<Byte>, size: nat)
    requires AllSlots(slots) && |slot| == 32 && |slots| < CAPACITY && size >= PAGE_SIZE
    ensures AllSlots(slots + [slot])
    ensures WithEntry(PageOf(slots) + Fill(size - PAGE_SIZE, 0xFF), |slots|, slot)
         == PageOf(slots + [slot]) + Fill(size - PAGE_SIZE, 0xFF)
  {
    hide HeaderBytes, Bitmap, BitmapByte, ClearBit, Splice;
    var n := |slots|;
    ConcatLength(slots);
    assert (slots + [slot])[..n] == slots;
    assert Concat(slots + [slot]) == Concat(slots) + slot;
    hide Concat;
    BitmapNext(n);
    var b := Bitmap(n);
    ImageGrows(HeaderBytes(), b, Concat(slots), slot, CAPACITY - n, size, n / 4, ClearBit(b[n / 4], 2 * (n % 4)));
  }

  lemma ImageGrows(h: seq<Byte>, b: seq<Byte>, c: seq<Byte>, slot: seq<Byte>, free: nat, size: nat, j: nat, x: Byte)
    requires |h| == |b| == |slot| == 32 && j < 32 && free > 0 && size >= PAGE_SIZE
    requires |c| + 32 * free == 32 * CAPACITY
    ensures var written := Splice(h + b + c + Fill(32 * free, 0xFF) + Fill(size - PAGE_SIZE, 0xFF), 64 + |c|, slot);
      && |written| == size && written[32 + j] == b[j]
      && written[32 + j := x] == h + b[j := x] + (c + slot) + Fill(32 * (free - 1), 0xFF) + Fill(size - PAGE_SIZE, 0xFF)
  {
    var space, tail, less := Fill(32 * free, 0xFF), Fill(size - PAGE_SIZE, 0xFF), Fill(32 * (free - 1), 0xFF);
    SpliceTail(h + b + c, space, tail, slot);
    assert space[32..] == less;
    hide Splice, Fill;
    var rest := c + slot + less + tail;
    FiveParts(h, b, c, slot, less, tail);
    UpdateMiddle(h, b, rest, j, x);
    FiveParts(h, b[j := x], c, slot, less, tail);
  }

  lemma FiveParts(h: seq<Byte>, b: seq<Byte>, c: seq<Byte>, slot: seq<Byte>, less: seq<Byte>, tail: seq<Byte>)
    ensures h + b + c + slot + less + tail == h + b + (c + slot + less + tail)
    ensures h + b + (c + slot) + less + tail == h + b + (c + slot + less + tail)
  {
  }

  lemma SpliceTail(front: seq<Byte>, free: seq<Byte>, tail: seq<Byte>, slot: seq<Byte>)
    requires |slot| <= |free|
    ensures Splice(front + free + tail, |front|, slot) == front + slot + free[|slot|..] + tail
  {
  }

  lemma UpdateMiddle(h: seq<Byte>, b: seq<Byte>, rest: seq<Byte>, j: nat, x: Byte)
    requires j < |b|
    ensures (h + b + rest)[|h| + j] == b[j]
    ensures (h + b + rest)[|h| + j := x] == h + b[j := x] + rest
  {
  }

  ghost predicate Holds(image: array<Byte>, slots: seq<seq<Byte>>)
    reads image
  {
    && AllSlots(slots) && |slots| <= CAPACITY && image.Length >= PAGE_SIZE
    && image[..] == PageOf(slots) + Fill(image.Length - PAGE_SIZE, 0xFF)
  }

  /** One entry more, if there is room; writing past the page throws. */
  method WriteEntry(image: array<Byte>, idx: nat, slot: seq<Byte>, ghost slots: seq<seq<Byte>>) returns (ok: bool)
    requires Holds(image, slots) && |slot| == 32 && idx == |slots|
    modifies image
    ensures ok <==> |slots| < CAPACITY
    ensures ok ==> Holds(image, slots + [slot])
  {
    if ENTRIES_OFFSET + idx * ENTRY_SIZE + ENTRY_SIZE > PAGE_SIZE {
      return false;
    }
    hide PageOf, Fill, AllSlots;
    PageGrows(slots, slot, image.Length);
    PutEntry(image, idx, slot);
    ok := true;
  }

  method PutEntry(image: array<Byte>, idx: nat, slot: seq<Byte>)
    requires image.Length >= PAGE_SIZE && idx < CAPACITY && |slot| == 32
    modifies image
    ensures image[..] == WithEntry(old(image[..]), idx, slot)
  {
    hide ClearBit, Splice;
    SetBytes(image, ENTRIES_OFFSET + idx * ENTRY_SIZE, slot);
    ghost var written := image[..];
    MarkWritten(image, idx);
    assert written[32 + idx / 4] == old(Splice(image[..], 64 + 32 * idx, slot))[32 + idx / 4];
  }

  /** A blob's entries: data, chunks, index. */
  method WriteBlob(image: array<Byte>, start: nat, ns: nat, e: Blob, ghost slots: seq<seq<Byte>>)
    returns (ok: bool, idx: nat)
    requires Holds(image, slots) && start == |slots|
    modifies image
    ensures ok <==> |slots + BlobSlots(ns, e)| <= CAPACITY
    ensures ok ==> idx == |slots + BlobSlots(ns, e)| && Holds(image, slots + BlobSlots(ns, e))
  {
    hide PageOf, DataSlot, IndexSlot, Chunk;
    idx := start;
    var dataEntries := ChunkCount(e.value);
    var blobData := MakeData(ns, 1 + dataEntries, e.key, e.value);
    ghost var all := BlobSlots(ns, e);
    assert all[..1] == [blobData[..]];
    ok := WriteEntry(image, idx, blobData[..], slots);
    if !ok {
      return;
    }
    idx := idx + 1;
    for i := 0 to dataEntries
      invariant idx == |slots| + 1 + i <= CAPACITY && Holds(image, slots + all[..1 + i])
    {
      assert all[1 + i] == Chunk(e.value, i);
      assert slots + all[..1 + i] + [all[1 + i]] == slots + all[..1 + (i + 1)];
      ok := WriteEntry(image, idx, Chunk(e.value, i), slots + all[..1 + i]);
      if !ok {
        return;
      }
      idx := idx + 1;
    }
    var blobIdx := MakeIndex(ns, e.key, |e.value|);
    assert slots + all[..1 + dataEntries] + [blobIdx[..]] == slots + all;
    ok := WriteEntry(image, idx, blobIdx[..], slots + all[..1 + dataEntries]);
    idx := idx + 1;
  }

  method WriteHeader(image: array<Byte>)
    requires image.Length >= PAGE_SIZE && image[..] == Fill(image.Length, 0xFF)
    modifies image
    ensures Holds(image, [])
  {
    hide Crc, U32Bytes, Splice;
    SetBytes(image, 0, U32Bytes(PAGE_ACTIVE));
    SetBytes(image, 4, U32Bytes(0));
    SetBytes(image, 8, [NVS_VERSION]);
    ghost var body := U32Bytes(0) + [NVS_VERSION] + Fill(19, 0xFF);
    HeaderBody(image.Length, U32Bytes(PAGE_ACTIVE), U32Bytes(0), NVS_VERSION);
    assert image[4..28] == image[..][4..28];
    SetBytes(image, 28, U32Bytes(Crc(image[4..28])));
    HeaderEnd(image.Length, U32Bytes(PAGE_ACTIVE), body, U32Bytes(Crc(body)));
    EmptyPage(image[..], image.Length);
  }

  lemma HeaderBody(size: nat, a: seq<Byte>, z: seq<Byte>, v: Byte)
    requires |a| == |z| == 4 && size >= PAGE_SIZE
    ensures var image := Splice(Splice(Splice(Fill(size, 0xFF), 0, a), 4, z), 8, [v]);
      image[4..28] == z + [v] + Fill(19, 0xFF) && image == a + (z + [v] + Fill(19, 0xFF)) + Fill(size - 28, 0xFF)
  {
    var four, tail := Fill(4, 0xFF), Fill(size - 28, 0xFF);
    FillParts(size, 4, 0xFF);
    FillParts(size - 4, 4, 0xFF);
    FillParts(size - 8, 1, 0xFF);
    FillParts(size - 9, 19, 0xFF);
    hide Splice, Fill;
    SpliceMiddle(Fill(size, 0xFF), [], four, Fill(size - 4, 0xFF), a);
    assert [] + a + Fill(size - 4, 0xFF) == a + four + Fill(size - 8, 0xFF);
    SpliceMiddle(a + four + Fill(size - 8, 0xFF), a, four, Fill(size - 8, 0xFF), z);
    var rest := Fill(19, 0xFF) + tail;
    assert a + z + Fill(size - 8, 0xFF) == (a + z) + Fill(1, 0xFF) + rest;
    SpliceMiddle((a + z) + Fill(1, 0xFF) + rest, a + z, Fill(1, 0xFF), rest, [v]);
    assert (a + z) + [v] + rest == a + (z + [v] + Fill(19, 0xFF)) + tail;
  }

  lemma HeaderEnd(size: nat, a: seq<Byte>, body: seq<Byte>, c: seq<Byte>)
    requires |a| == |c| == 4 && |body| == 24 && size >= PAGE_SIZE
    ensures var image := Splice(a + body + Fill(size - 28, 0xFF), 28, c);
      image[..32] == a + body + c && image[32..] == Fill(size - 32, 0xFF)
  {
    FillParts(size - 28, 4, 0xFF);
    hide Splice, Fill;
    var front, tail := a + body, Fill(size - 32, 0xFF);
    assert front + Fill(size - 28, 0xFF) == front + Fill(4, 0xFF) + tail;
    SpliceMiddle(front + Fill(size - 28, 0xFF), front, Fill(4, 0xFF), tail, c);
  }

  lemma EmptyBitmap()
    ensures Bitmap(0) == Fill(32, 0xFF)
  {
  }

  lemma EmptyPage(image: seq<Byte>, size: nat)
    requires size >= PAGE_SIZE && |image| == size && image[..32] == HeaderBytes() && image[32..] == Fill(size - 32, 0xFF)
    ensures image == PageOf([]) + Fill(size - PAGE_SIZE, 0xFF)
  {
    hide HeaderBytes, Bitmap;
    EmptyBitmap();
    assert image == image[..32] + image[32..];
    assert Fill(size - 32, 0xFF) == Fill(32, 0xFF) + Fill(32 * CAPACITY, 0xFF) + Fill(size - PAGE_SIZE, 0xFF);
    assert Concat([]) == [];
  }

  lemma NumberOfOther(known: seq<seq<Byte>>, x: seq<Byte>, ns: seq<Byte>)
    requires x !in known
    ensures Number(known + [x], ns) == if ns == x then |known| + 1 else Number(known, ns)
  {
    assert (known + [x])[..|known|] == known;
  }

  lemma SlotsStep(e: Blob, rest: seq<Blob>, known: seq<seq<Byte>>)
    ensures var met := Met(known, e.namespace);
      SlotsFrom([e] + rest, known)
        == (if e.namespace in known then [] else [NamespaceSlot(e.namespace, |known| + 1)])
          + BlobSlots(Number(met, e.namespace), e) + SlotsFrom(rest, met)
  {
    assert ([e] + rest)[1..] == rest;
  }

  /** What the numbers handed out so far are. */
  ghost predicate Numbers(nsMap: map<seq<Byte>, nat>, known: seq<seq<Byte>>) {
    && (forall ns :: ns in nsMap <==> ns in known)
    && (forall ns :: ns in nsMap ==> nsMap[ns] == Number(known, ns))
  }

  lemma NumbersGrow(nsMap: map<seq<Byte>, nat>, known: seq<seq<Byte>>, x: seq<Byte>)
    requires Numbers(nsMap, known) && x !in known
    ensures Numbers(nsMap[x := |known| + 1], known + [x])
  {
    hide Number;
    forall ns ensures Number(known + [x], ns) == if ns == x then |known| + 1 else Number(known, ns) {
      NumberOfOther(known, x, ns);
    }
  }

  lemma HoldsFew(image: array<Byte>, slots: seq<seq<Byte>>)
    requires Holds(image, slots)
    ensures |slots| <= CAPACITY
  {
  }

  /** The image, or nothing when the entries do not fit one page. */
  method BuildPartition(entries: seq<Blob>, size: nat) returns (image: array<Byte>, ok: bool)
    requires size >= PAGE_SIZE
    ensures fresh(image) && image.Length == size
    ensures ok <==> |SlotsFrom(entries, [])| <= CAPACITY
    ensures ok ==> Holds(image, SlotsFrom(entries, []))
  {
    hide NamespaceSlot, BlobSlots, Holds, SlotsFrom, Numbers, Number;
    image := new Byte[size](_ => 0xFF);
    assert image[..] == Fill(size, 0xFF);
    WriteHeader(image);
    var idx := 0;
    var nsMap: map<seq<Byte>, nat> := map[];
    var nextNs := 1;
    ghost var known: seq<seq<Byte>> := [];
    ghost var slots: seq<seq<Byte>> := [];
    ghost var all := SlotsFrom(entries, []);
    NoNumbers();
    assert entries[0..] == entries;
    for i := 0 to |entries|
      invariant Holds(image, slots) && idx == |slots| && nextNs == |known| + 1 && Numbers(nsMap, known)
      invariant slots + SlotsFrom(entries[i..], known) == all
    {
      var e := entries[i];
      assert entries[i..] == [e] + entries[i + 1..];
      SlotsStep(e, entries[i + 1..], known);
      HoldsFew(image, slots);
      NumbersKnow(nsMap, known, e.namespace);
      ghost var blob := BlobSlots(Number(Met(known, e.namespace), e.namespace), e);
      ghost var rest := SlotsFrom(entries[i + 1..], Met(known, e.namespace));
      if e.namespace !in nsMap {
        var nsIdx := nextNs;
        nextNs := nextNs + 1;
        NumbersGrow(nsMap, known, e.namespace);
        nsMap := nsMap[e.namespace := nsIdx];
        known := known + [e.namespace];
        NumbersKnow(nsMap, known, e.namespace);
        var nsEntry := MakeNamespace(e.namespace, nsIdx);
        assert all == slots + [nsEntry[..]] + (blob + rest);
        ok := WriteEntry(image, idx, nsEntry[..], slots);
        if !ok {
          return;
        }
        idx := idx + 1;
        slots := slots + [nsEntry[..]];
      }
      assert all == slots + blob + rest;
      ok, idx := WriteBlob(image, idx, nsMap[e.namespace], e, slots);
      if !ok {
        return;
      }
      slots := slots + blob;
    }
    HoldsFew(image, slots);
    assert entries[|entries|..] == [];
    assert slots == all by { NoSlots(known); }
    ok := true;
  }

  lemma NoNumbers()
    ensures Numbers(map[], [])
  {
  }

  lemma NumbersKnow(nsMap: map<seq<Byte>, nat>, known: seq<seq<Byte>>, ns: seq<Byte>)
    requires Numbers(nsMap, known)
    ensures ns in nsMap <==> ns in known
    ensures ns in nsMap ==> nsMap[ns] == Number(known, ns)
  {
  }

  lemma NoSlots(known: seq<seq<Byte>>)
    ensures SlotsFrom([], known) == []
  {
  }
}
