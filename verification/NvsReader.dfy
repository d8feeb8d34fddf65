/** Reading an NVS page back: what the image generator writes is recovered (web/app/utils/nvs.ts, lines 57-176;
    the reader follows the entry layout that file describes). */
module NvsReaders {
  import opened Base
  import opened LittleEndian
  import opened NvsPages

  // -------------------------------------------------------------------------
  // The page
  // -------------------------------------------------------------------------

  /** Two bits per entry: 3 is empty, 2 is written. */
  function StateOf(page: seq<Byte>, i: nat): nat
    requires |page| >= PAGE_SIZE && i < 128
  {
    var b := page[32 + i / 4] as nat;
    (if i % 4 == 0 then b else if i % 4 == 1 then b / 4 else if i % 4 == 2 then b / 16 else b / 64) % 4
  }

  function SlotAt(page: seq<Byte>, i: nat): (s: seq<Byte>)
    requires |page| >= PAGE_SIZE && i < CAPACITY
    ensures |s| == 32
  {
    page[64 + 32 * i..64 + 32 * i + 32]
  }

  function WrittenSlots(page: seq<Byte>, i: nat): seq<seq<Byte>>
    requires |page| >= PAGE_SIZE && i <= CAPACITY
    decreases CAPACITY - i
  {
    if i == CAPACITY || StateOf(page, i) != 2 then [] else [SlotAt(page, i)] + WrittenSlots(page, i + 1)
  }

  lemma StateOfByte(c: nat, k: nat)
    requires k < 4
    ensures var b := BitmapByte(c) as nat;
      (if k == 0 then b else if k == 1 then b / 4 else if k == 2 then b / 16 else b / 64) % 4 == (if k < c then 2 else 3)
  {
  }

  lemma PageParts(h: seq<Byte>, b: seq<Byte>, c: seq<Byte>, rest: seq<Byte>)
    requires |h| == |b| == 32
    ensures forall j :: 0 <= j < 32 ==> (h + b + c + rest)[32 + j] == b[j]
    ensures (h + b + c + rest)[64..64 + |c|] == c
  {
  }

  /** The bitmap marks exactly the written entries, and each entry stands where its number says. */
  lemma PageMarksWritten(slots: seq<seq<Byte>>, image: seq<Byte>, i: nat)
    requires AllSlots(slots) && |slots| <= CAPACITY && i < CAPACITY
    requires |image| >= PAGE_SIZE && image[..PAGE_SIZE] == PageOf(slots)
    ensures StateOf(image, i) == if i < |slots| then 2 else 3
    ensures i < |slots| ==> SlotAt(image, i) == slots[i]
  {
    hide Concat, HeaderBytes, BitmapByte;
    var page := PageOf(slots);
    ConcatLength(slots);
    PageParts(HeaderBytes(), Bitmap(|slots|), Concat(slots), Fill(32 * (CAPACITY - |slots|), 0xFF));
    assert image[32 + i / 4] == page[32 + i / 4] == Bitmap(|slots|)[i / 4];
    StateOfByte(if |slots| < 4 * (i / 4) then 0 else |slots| - 4 * (i / 4), i % 4);
    if i < |slots| {
      ConcatAt(slots, i);
      SliceOfSlice(image, page, Concat(slots), 32 * i);
    }
  }

  lemma SliceOfSlice(image: seq<Byte>, page: seq<Byte>, c: seq<Byte>, off: nat)
    requires |image| >= PAGE_SIZE && image[..PAGE_SIZE] == page
    requires 64 + |c| <= |page| && page[64..64 + |c|] == c && off + 32 <= |c|
    ensures image[64 + off..64 + off + 32] == c[off..off + 32]
  {
    assert forall k :: 0 <= k < |c| ==> c[k] == page[64 + k];
    assert forall k :: 0 <= k < PAGE_SIZE ==> page[k] == image[k];
  }

  lemma {:induction false} ReadsTheSlots(slots: seq<seq<Byte>>, image: seq<Byte>, i: nat)
    requires AllSlots(slots) && |slots| <= CAPACITY && i <= |slots|
    requires |image| >= PAGE_SIZE && image[..PAGE_SIZE] == PageOf(slots)
    ensures WrittenSlots(image, i) == slots[i..]
    decreases CAPACITY - i
  {
    hide PageOf, StateOf, SlotAt;
    if i < CAPACITY { PageMarksWritten(slots, image, i); }
    if i < |slots| { ReadsTheSlots(slots, image, i + 1); }
  }

  // -------------------------------------------------------------------------
  // The entries
  // -------------------------------------------------------------------------

  function UpToZero(s: seq<Byte>): seq<Byte> {
    if s == [] || s[0] == 0 then [] else [s[0]] + UpToZero(s[1..])
  }

  function NameOf(s: seq<Byte>): seq<Byte>
    requires |s| == 32
  {
    UpToZero(s[8..24])
  }

  predicate Sealed(s: seq<Byte>)
    requires |s| == 32
  {
    U32From(s[4..8]) == Crc(s[..4] + s[8..])
  }

  function U16From(b: seq<Byte>): nat
    requires |b| == 2
  {
    b[0] as nat + 0x100 * b[1] as nat
  }

  /** Fields of an entry. */
  function U16At(s: seq<Byte>, p: nat): nat
    requires p + 2 <= |s|
  {
    U16From(s[p..p + 2])
  }

  function U32At(s: seq<Byte>, p: nat): nat
    requires p + 4 <= |s|
  {
    U32From(s[p..p + 4])
  }

  function Flat(slots: seq<seq<Byte>>): seq<Byte> {
    Concat(slots)
  }

  /** The blob whose data entry comes first, checked against its checksums and its index entry. */
  function ReadBlob(slots: seq<seq<Byte>>, names: map<Byte, seq<Byte>>): (r: Option<Blob>)
    requires slots != [] && AllSlots(slots)
    ensures r.Some? ==> slots[0][2] as nat < |slots|
  {
    var s := slots[0];
    var span, size := s[2] as nat, U16At(s, 24);
    if span == 0 || span >= |slots| || size > |Flat(slots[1..span])| || s[0] !in names then None else
    var data, t := Flat(slots[1..span])[..size], slots[span];
    if Crc(data) != U32At(s, 28) || !Sealed(t) || t[1] != TYPE_BLOB_IDX then None else
    if t[0] != s[0] || NameOf(t) != NameOf(s) || U32At(t, 24) != size || U16At(t, 28) != 1 then None else
    Some(Blob(names[s[0]], NameOf(s), data))
  }

  function ReadSlots(slots: seq<seq<Byte>>, names: map<Byte, seq<Byte>>): Option<seq<Blob>>
    requires AllSlots(slots)
    decreases |slots|
  {
    hide ReadBlob, Sealed, NameOf;
    if slots == [] then Some([]) else
    var s := slots[0];
    if !Sealed(s) then None else
    if s[1] == TYPE_NAMESPACE then ReadSlots(slots[1..], names[s[24] := NameOf(s)]) else
    if s[1] != TYPE_BLOB_DATA then None else
    var blob := ReadBlob(slots, names);
    if blob == None then None else
    var rest := ReadSlots(slots[s[2] as nat + 1..], names);
    if rest == None then None else Some([blob.value] + rest.value)
  }

  /** The blobs a reader finds in an image. */
  function ReadImage(image: seq<Byte>): Option<seq<Blob>>
    requires |image| >= PAGE_SIZE
  {
    var slots := WrittenSlots(image, 0);
    WrittenAreSlots(image, 0);
    ReadSlots(slots, map[])
  }

  lemma {:induction false} WrittenAreSlots(page: seq<Byte>, i: nat)
    requires |page| >= PAGE_SIZE && i <= CAPACITY
    ensures AllSlots(WrittenSlots(page, i))
    decreases CAPACITY - i
  {
    hide StateOf, SlotAt;
    if i < CAPACITY && StateOf(page, i) == 2 { WrittenAreSlots(page, i + 1); }
  }

  // -------------------------------------------------------------------------
  // Entries read back
  // -------------------------------------------------------------------------

  lemma SlotParts(head: seq<Byte>, rest: seq<Byte>)
    requires |head| == 4 && |rest| == 24
    ensures var s := Slot(head, rest); s[..4] == head && s[8..] == rest && Sealed(s)
    ensures forall i :: 0 <= i < 4 ==> Slot(head, rest)[i] == head[i]
  {
    var s := Slot(head, rest);
    assert s[..4] == head && s[8..] == rest && s[4..8] == U32Bytes(Crc(head + rest));
    U32RoundTrip(Crc(head + rest));
  }

  predicate NoZero(s: seq<Byte>) {
    0 !in s
  }

  lemma {:induction false} UpToPadding(s: seq<Byte>, n: nat)
    requires NoZero(s) && n > 0
    ensures UpToZero(s + Fill(n, 0)) == s
  {
    if s == [] {
      assert s + Fill(n, 0) == Fill(n, 0);
    } else {
      assert s[0] in s;
      assert forall b :: b in s[1..] ==> b in s;
      UpToPadding(s[1..], n);
      assert (s + Fill(n, 0))[1..] == s[1..] + Fill(n, 0);
    }
  }

  /** A name without zero bytes is read back up to its fifteenth byte. */
  lemma NameReadsBack(head: seq<Byte>, name: seq<Byte>, data: seq<Byte>)
    requires |head| == 4 && |data| == 8 && NoZero(name)
    ensures var s := Slot(head, NameField(name) + data); NameOf(s) == Cut(name) && s[24..] == data
  {
    hide Slot;
    var rest := NameField(name) + data;
    SlotParts(head, rest);
    var s := Slot(head, rest);
    assert s[8..24] == s[8..][..16] == NameField(name);
    assert s[24..] == s[8..][16..] == data;
    assert forall b :: b in Cut(name) ==> b in name;
    UpToPadding(Cut(name), 16 - |Cut(name)|);
  }

  lemma U16RoundTrip(n: nat)
    requires n < 0x1_0000
    ensures U16From(U16Bytes(n)) == n
  {
  }

  /** Fields of the last eight bytes. */
  lemma Fields(s: seq<Byte>, a: seq<Byte>, b: seq<Byte>, c: seq<Byte>)
    requires |s| == 32 && s[24..] == a + b + c
    ensures s[24..24 + |a|] == a && s[24 + |a|..24 + |a| + |b|] == b && s[24 + |a| + |b|..] == c
  {
    assert s[24..24 + |a|] == s[24..][..|a|];
    assert s[24 + |a|..24 + |a| + |b|] == s[24..][|a|..|a| + |b|];
    assert s[24 + |a| + |b|..] == s[24..][|a| + |b|..];
  }

  lemma ByteIs(n: nat)
    requires n < 256
    ensures AsByte(n) as nat == n
  {
  }

  /** An entry read back: head, name and the three fields of its last eight bytes. */
  lemma EntryReadsBack(s: seq<Byte>, head: seq<Byte>, name: seq<Byte>, a: seq<Byte>, b: seq<Byte>, c: seq<Byte>)
    requires |head| == 4 && |a| + |b| + |c| == 8 && NoZero(name) && s == Slot(head, NameField(name) + (a + b + c))
    ensures Sealed(s) && NameOf(s) == Cut(name) && s[0] == head[0] && s[1] == head[1] && s[2] == head[2]
    ensures s[24..24 + |a|] == a && s[24 + |a|..24 + |a| + |b|] == b && s[24 + |a| + |b|..] == c
  {
    hide Slot, NameOf, Sealed, NameField, Cut, NoZero;
    SlotParts(head, NameField(name) + (a + b + c));
    NameReadsBack(head, name, a + b + c);
    Fields(s, a, b, c);
  }

  lemma NamespaceReadsBack(name: seq<Byte>, idx: nat)
    requires NoZero(name) && idx < 256
    ensures var s := NamespaceSlot(name, idx);
      Sealed(s) && s[1] == TYPE_NAMESPACE && NameOf(s) == Cut(name) && s[24] == AsByte(idx)
  {
    hide Slot, NameOf, Sealed, NameField, AsByte, NoZero, Cut;
    var s := NamespaceSlot(name, idx);
    var one, fill := [AsByte(idx)], Fill(7, 0xFF);
    assert one + fill == one + fill + [];
    EntryReadsBack(s, [0, TYPE_NAMESPACE, 1, 0xFF], name, one, fill, []);
    assert s[24..25][0] == s[24];
  }

  /** The slot reads as the data entry of these values. */
  predicate ReadsAsData(s: seq<Byte>, ns: nat, span: nat, name: seq<Byte>, value: seq<Byte>)
    requires |s| == 32
  {
    && Sealed(s) && s[0] == AsByte(ns) && s[1] == TYPE_BLOB_DATA && s[2] as nat == span && NameOf(s) == name
    && U16At(s, 24) == |value| && U32At(s, 28) == Crc(value)
  }

  /** The slot reads as the index entry of these values. */
  predicate ReadsAsIndex(s: seq<Byte>, ns: nat, name: seq<Byte>, size: nat)
    requires |s| == 32
  {
    && Sealed(s) && s[0] == AsByte(ns) && s[1] == TYPE_BLOB_IDX && NameOf(s) == name
    && U32At(s, 24) == size && U16At(s, 28) == 1
  }

  lemma DataReadsBack(ns: nat, span: nat, key: seq<Byte>, value: seq<Byte>)
    requires NoZero(key) && ns < 256 && span < 256 && |value| < 0x1_0000
    ensures ReadsAsData(DataSlot(ns, span, key, value), ns, span, Cut(key), value)
  {
    hide Slot, NameOf, Sealed, NameField, U16Bytes, U32Bytes, U16From, U32From, Crc, AsByte, NoZero, Cut;
    U16RoundTrip(|value|);
    U32RoundTrip(Crc(value));
    ByteIs(span);
    var s := DataSlot(ns, span, key, value);
    EntryReadsBack(s, [AsByte(ns), TYPE_BLOB_DATA, AsByte(span), 0], key, U16Bytes(|value|), Fill(2, 0xFF),
                   U32Bytes(Crc(value)));
    assert s[28..32] == s[28..];
  }

  lemma IndexReadsBack(ns: nat, key: seq<Byte>, size: nat)
    requires NoZero(key) && ns < 256 && size < U32_MODULUS
    ensures ReadsAsIndex(IndexSlot(ns, key, size), ns, Cut(key), size)
  {
    hide Slot, NameOf, Sealed, NameField, U16Bytes, U32Bytes, U16From, U32From, Crc, AsByte, NoZero, Cut;
    U32RoundTrip(size);
    U16RoundTrip(1);
    EntryReadsBack(IndexSlot(ns, key, size), [AsByte(ns), TYPE_BLOB_IDX, 1, 0xFF], key, U32Bytes(size),
                   U16Bytes(1), Fill(2, 0xFF));
  }

  lemma {:induction false} FlatOfChunks(value: seq<Byte>, n: nat)
    requires n <= ChunkCount(value)
    ensures Flat(Chunks(value)[..n]) == Padded(value)[..32 * n]
  {
    hide Padded, ChunkCount;
    if n > 0 {
      FlatOfChunks(value, n - 1);
      assert Chunks(value)[..n][..n - 1] == Chunks(value)[..n - 1];
      assert Chunks(value)[n - 1] == Padded(value)[32 * (n - 1)..32 * n];
      assert Padded(value)[..32 * n] == Padded(value)[..32 * (n - 1)] + Padded(value)[32 * (n - 1)..32 * n];
    }
  }

  lemma ChunksReadBack(value: seq<Byte>)
    ensures |Flat(Chunks(value))| == 32 * ChunkCount(value) >= |value| && Flat(Chunks(value))[..|value|] == value
  {
    FlatOfChunks(value, ChunkCount(value));
    assert Chunks(value)[..ChunkCount(value)] == Chunks(value);
  }

  /** One blob's entries are read back as the blob, its key cut. */
  lemma BlobReadsBack(ns: nat, e: Blob, tail: seq<seq<Byte>>, names: map<Byte, seq<Byte>>)
    requires NoZero(e.key) && ns < 256 && ChunkCount(e.value) + 1 < 256 && |e.value| < 0x1_0000
    requires AllSlots(tail) && AsByte(ns) in names
    ensures AllSlots(BlobSlots(ns, e) + tail)
    ensures ReadBlob(BlobSlots(ns, e) + tail, names) == Some(Blob(names[AsByte(ns)], Cut(e.key), e.value))
    ensures var s := (BlobSlots(ns, e) + tail)[0]; Sealed(s) && s[1] == TYPE_BLOB_DATA && s[2] as nat == 1 + ChunkCount(e.value)
    ensures (BlobSlots(ns, e) + tail)[2 + ChunkCount(e.value)..] == tail
  {
    hide DataSlot, IndexSlot, Chunk, ChunkCount, Flat, Crc, U16From, U32From, NameOf, Sealed;
    var n := ChunkCount(e.value);
    var slots := BlobSlots(ns, e) + tail;
    DataReadsBack(ns, 1 + n, e.key, e.value);
    IndexReadsBack(ns, e.key, |e.value|);
    ChunksReadBack(e.value);
    assert slots[0] == DataSlot(ns, 1 + n, e.key, e.value);
    assert slots[1..1 + n] == Chunks(e.value);
    assert slots[1 + n] == IndexSlot(ns, e.key, |e.value|);
  }

  // -------------------------------------------------------------------------
  // All entries
  // -------------------------------------------------------------------------

  /** What a reader gets of a blob: its names are cut. */
  function Seen(e: Blob): Blob {
    Blob(Cut(e.namespace), Cut(e.key), e.value)
  }

  function AllSeen(entries: seq<Blob>): (r: seq<Blob>)
    ensures |r| == |entries| && forall i :: 0 <= i < |r| ==> r[i] == Seen(entries[i])
  {
    if entries == [] then [] else [Seen(entries[0])] + AllSeen(entries[1..])
  }

  predicate CleanNames(entries: seq<Blob>) {
    forall i :: 0 <= i < |entries| ==> NoZero(entries[i].namespace) && NoZero(entries[i].key)
  }

  /** The reader knows the namespaces met so far by their numbers. */
  ghost predicate Knows(names: map<Byte, seq<Byte>>, known: seq<seq<Byte>>) {
    && |known| < 256
    && forall ns :: ns in known ==> AsByte(Number(known, ns)) in names && names[AsByte(Number(known, ns))] == Cut(ns)
  }

  lemma NumberIsSmall(known: seq<seq<Byte>>, ns: seq<Byte>)
    requires |known| < 256
    ensures AsByte(Number(known, ns)) as nat == Number(known, ns)
  {
  }

  lemma KnowsMore(names: map<Byte, seq<Byte>>, known: seq<seq<Byte>>, ns: seq<Byte>)
    requires Knows(names, known) && ns !in known && |known| + 1 < 256
    ensures Knows(names[AsByte(|known| + 1) := Cut(ns)], known + [ns])
  {
    hide Cut;
    forall x | x in known + [ns]
      ensures var b := AsByte(Number(known + [ns], x));
        b in names[AsByte(|known| + 1) := Cut(ns)] && names[AsByte(|known| + 1) := Cut(ns)][b] == Cut(x)
    {
      NumberOfOther(known, ns, x);
      NumberIsSmall(known + [ns], x);
    }
  }

  /** Entry counts bound everything else: numbers, spans and sizes fit their fields. */
  lemma FewSlotsFit(e: Blob, rest: seq<Blob>, known: seq<seq<Byte>>, n: nat)
    requires |SlotsFrom([e] + rest, known)| <= CAPACITY - n && |known| <= n
    ensures ChunkCount(e.value) + 1 < 256 && |e.value| < 0x1_0000 && |Met(known, e.namespace)| < 256
    ensures |SlotsFrom(rest, Met(known, e.namespace))| <= CAPACITY - |Met(known, e.namespace)|
  {
    hide DataSlot, IndexSlot, NamespaceSlot, Number;
    SlotsStep(e, rest, known);
  }

  lemma KnowsOne(names: map<Byte, seq<Byte>>, known: seq<seq<Byte>>, ns: seq<Byte>)
    requires Knows(names, known) && ns in known
    ensures AsByte(Number(known, ns)) in names && names[AsByte(Number(known, ns))] == Cut(ns) && Number(known, ns) < 256
  {
  }

  /** One step of the reader over a data entry. */
  lemma ReadsBlobFirst(slots: seq<seq<Byte>>, n: nat, names: map<Byte, seq<Byte>>, blob: Blob, seen: seq<Blob>)
    requires slots != [] && AllSlots(slots) && Sealed(slots[0]) && slots[0][1] == TYPE_BLOB_DATA && slots[0][2] as nat == n
    requires ReadBlob(slots, names) == Some(blob) && n + 1 <= |slots|
    requires AllSlots(slots[n + 1..]) && ReadSlots(slots[n + 1..], names) == Some(seen)
    ensures ReadSlots(slots, names) == Some([blob] + seen)
  {
    hide ReadBlob, Sealed, NameOf;
  }

  /** One step of the reader over a declaration. */
  lemma ReadsDeclarationFirst(s: seq<Byte>, tail: seq<seq<Byte>>, names: map<Byte, seq<Byte>>, seen: seq<Blob>)
    requires |s| == 32 && AllSlots(tail) && Sealed(s) && s[1] == TYPE_NAMESPACE
    requires ReadSlots(tail, names[s[24] := NameOf(s)]) == Some(seen)
    ensures AllSlots([s] + tail) && ReadSlots([s] + tail, names) == Some(seen)
  {
    hide ReadBlob, Sealed, NameOf;
    var slots := [s] + tail;
    assert slots[1..] == tail && slots[0] == s;
  }

  /** A blob of a known namespace, then whatever follows. */
  lemma BlobThenRest(e: Blob, tail: seq<seq<Byte>>, seen: seq<Blob>, met: seq<seq<Byte>>, names: map<Byte, seq<Byte>>)
    requires Knows(names, met) && e.namespace in met && NoZero(e.key) && ChunkCount(e.value) + 1 < 256 && |e.value| < 0x1_0000
    requires AllSlots(tail) && ReadSlots(tail, names) == Some(seen)
    ensures var slots := BlobSlots(Number(met, e.namespace), e) + tail;
      AllSlots(slots) && ReadSlots(slots, names) == Some([Seen(e)] + seen)
  {
    KnowsOne(names, met, e.namespace);
    BlobCount(Number(met, e.namespace), e);
    hide BlobSlots, ReadBlob, Sealed, NameOf, Knows, Number, Cut, ChunkCount, ReadSlots;
    var ns := Number(met, e.namespace);
    BlobReadsBack(ns, e, tail, names);
    ReadsBlobFirst(BlobSlots(ns, e) + tail, 1 + ChunkCount(e.value), names, Seen(e), seen);
  }

  lemma BlobCount(ns: nat, e: Blob)
    ensures |BlobSlots(ns, e)| == 2 + ChunkCount(e.value)
  {
  }

  /** A declaration, then whatever follows. */
  lemma DeclarationThenRest(name: seq<Byte>, idx: nat, tail: seq<seq<Byte>>, seen: seq<Blob>,
                            names: map<Byte, seq<Byte>>)
    requires NoZero(name) && idx < 256 && AllSlots(tail)
    requires ReadSlots(tail, names[AsByte(idx) := Cut(name)]) == Some(seen)
    ensures AllSlots([NamespaceSlot(name, idx)] + tail) && ReadSlots([NamespaceSlot(name, idx)] + tail, names) == Some(seen)
  {
    NamespaceReadsBack(name, idx);
    hide NamespaceSlot, ReadBlob, Sealed, NameOf, Cut, ReadSlots, AsByte;
    ReadsDeclarationFirst(NamespaceSlot(name, idx), tail, names, seen);
  }

  lemma {:induction false} EntriesReadBack(entries: seq<Blob>, known: seq<seq<Byte>>, names: map<Byte, seq<Byte>>)
    requires CleanNames(entries) && Knows(names, known) && |SlotsFrom(entries, known)| <= CAPACITY - |known|
    ensures AllSlots(SlotsFrom(entries, known))
    ensures ReadSlots(SlotsFrom(entries, known), names) == Some(AllSeen(entries))
    decreases |entries|
  {
    hide BlobSlots, NamespaceSlot, Knows, Number, Cut, ChunkCount, ReadSlots, SlotsFrom, AllSlots, Seen;
    SlotsAreSlots(entries, known);
    if entries == [] {
      NothingRead(names);
      NoSlots(known);
    } else {
      var e, rest := entries[0], entries[1..];
      assert entries == [e] + rest;
      var met := Met(known, e.namespace);
      var blob, tail := BlobSlots(Number(met, e.namespace), e), SlotsFrom(rest, met);
      FewSlotsFit(e, rest, known, |known|);
      SlotsStep(e, rest, known);
      SlotsAreSlots(rest, met);
      if e.namespace in known {
        EntriesReadBack(rest, met, names);
        BlobThenRest(e, tail, AllSeen(rest), met, names);
        assert SlotsFrom(entries, known) == blob + tail;
      } else {
        var idx := |known| + 1;
        var names' := names[AsByte(idx) := Cut(e.namespace)];
        KnowsMore(names, known, e.namespace);
        EntriesReadBack(rest, met, names');
        BlobThenRest(e, tail, AllSeen(rest), met, names');
        DeclarationThenRest(e.namespace, idx, blob + tail, AllSeen(entries), names);
        assert SlotsFrom(entries, known) == [NamespaceSlot(e.namespace, idx)] + (blob + tail);
      }
    }
  }

  lemma NothingRead(names: map<Byte, seq<Byte>>)
    ensures ReadSlots([], names) == Some([])
  {
  }

  lemma NothingKnown()
    ensures Knows(map[], [])
  {
  }

  /** What fits the page is recovered from it, in order: every value whole, every name up to its fifteenth byte. */
  lemma ImageReadsBack(entries: seq<Blob>, image: seq<Byte>)
    requires CleanNames(entries) && |SlotsFrom(entries, [])| <= CAPACITY && |image| >= PAGE_SIZE
    requires AllSlots(SlotsFrom(entries, [])) && image[..PAGE_SIZE] == PageOf(SlotsFrom(entries, []))
    ensures ReadImage(image) == Some(AllSeen(entries))
  {
    hide PageOf, SlotsFrom, ReadSlots, Knows, WrittenSlots;
    NothingKnown();
    ReadsTheSlots(SlotsFrom(entries, []), image, 0);
    EntriesReadBack(entries, [], map[]);
  }

  predicate ShortNames(entries: seq<Blob>) {
    forall i :: 0 <= i < |entries| ==> |entries[i].namespace| <= 15 && |entries[i].key| <= 15
  }

  /** So the blobs themselves come back exactly when no name is longer than fifteen bytes. */
  lemma RecoversExactlyShortNames(entries: seq<Blob>, image: seq<Byte>)
    requires CleanNames(entries) && |SlotsFrom(entries, [])| <= CAPACITY && |image| >= PAGE_SIZE
    requires AllSlots(SlotsFrom(entries, [])) && image[..PAGE_SIZE] == PageOf(SlotsFrom(entries, []))
    ensures ReadImage(image) == Some(entries) <==> ShortNames(entries)
  {
    hide PageOf, SlotsFrom, ReadImage;
    ImageReadsBack(entries, image);
    SeenIsSame(entries);
  }

  lemma SeenIsSame(entries: seq<Blob>)
    ensures AllSeen(entries) == entries <==> ShortNames(entries)
  {
    hide AllSeen;
    if AllSeen(entries) == entries {
      forall i | 0 <= i < |entries| ensures |entries[i].namespace| <= 15 && |entries[i].key| <= 15 {
        assert Seen(entries[i]) == entries[i];
      }
    }
  }
}
