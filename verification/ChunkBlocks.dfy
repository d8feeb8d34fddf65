/** Packing rendered blocks into messages (agent/src/core/channels/markdown_html.rs, lines 573-612). */
module ChunksOfBlocks {
  import opened Base
  import opened HtmlTokens
  import opened HtmlTexts
  import opened SplitBlocks

  /** Styled text without the newlines that stand under no tag: those separate blocks. */
  function Bare(styled: seq<(string, seq<string>)>): seq<(string, seq<string>)> {
    if styled == [] then []
    else (if styled[0] == ("\n", []) then [] else [styled[0]]) + Bare(styled[1..])
  }

  lemma {:induction false} BarePlus(a: seq<(string, seq<string>)>, b: seq<(string, seq<string>)>)
    ensures Bare(a + b) == Bare(a) + Bare(b)
  {
    if a == [] {
      assert a + b == b;
    } else {
      BarePlus(a[1..], b);
      assert (a + b)[1..] == a[1..] + b && (a + b)[0] == a[0];
    }
  }

  /** What a block shows, separators aside. */
  function BareText(html: string): seq<(string, seq<string>)> {
    Bare(Styled([], Tokenize(html)))
  }

  lemma {:induction false} StyledPiecesPlus(a: seq<string>, b: seq<string>)
    ensures StyledPieces(a + b) == StyledPieces(a) + StyledPieces(b)
    decreases |b|
  {
    hide Tokenize, Styled;
    if b == [] {
      assert a + b == a;
    } else {
      var b', last := b[..|b| - 1], b[|b| - 1];
      StyledPiecesPlus(a, b');
      assert (a + b)[..|a + b| - 1] == a + b' && (a + b)[|a + b| - 1] == last;
    }
  }

  lemma StyledOnePiece(p: string)
    ensures StyledPieces([p]) == Styled([], Tokenize(p))
  {
    hide Tokenize, Styled;
    assert [p][..0] == [];
  }

  /** A block that can be sent within the limit: it is short, or every token fits with its tags. */
  predicate BlockFits(block: string, limit: nat)
    requires IsHtml(block)
  {
    |block| <= limit || EachTokenFits(Tokenize(block), limit)
  }

  /** The loop invariant of the packing, for rendered blocks. */
  ghost predicate Packs(blocks: seq<string>, i: nat, chunks: seq<string>, current: string, limit: nat)
    requires i <= |blocks| && forall k :: 0 <= k < |blocks| ==> IsHtml(blocks[k])
  {
    && IsHtml(current) && |current| <= limit
    && (forall k :: 0 <= k < |chunks| ==> Balanced(Tokenize(chunks[k])))
    && Bare(StyledPieces(chunks)) + BareText(current) == Bare(StyledPieces(blocks[..i]))
    && ((forall k :: 0 <= k < |chunks| ==> |chunks[k]| <= limit) <==> (forall j :: 0 <= j < i ==> BlockFits(blocks[j], limit)))
  }

  lemma FlushPacks(blocks: seq<string>, i: nat, chunks: seq<string>, current: string, limit: nat)
    requires i <= |blocks| && forall k :: 0 <= k < |blocks| ==> IsHtml(blocks[k])
    requires Packs(blocks, i, chunks, current, limit)
    ensures Packs(blocks, i, chunks + [current], "", limit)
  {
    EmptyIsHtml();
    hide Balanced, StyledPieces, Styled, Tokenize, Bare, BlockFits;
    StyledPiecesPlus(chunks, [current]);
    StyledOnePiece(current);
    BarePlus(StyledPieces(chunks), Styled([], Tokenize(current)));
    var chunks' := chunks + [current];
    assert chunks'[|chunks|] == current && forall k :: 0 <= k < |chunks| ==> chunks'[k] == chunks[k];
  }

  lemma EmptyIsHtml()
    ensures IsHtml("") && BareText("") == []
  {
  }

  lemma NewlineIsHtml()
    ensures IsHtml("\n") && BareText("\n") == []
  {
    ShowsChar('\n');
    assert "\n"[..1] == "\n" && "\n"[1..] == "";
    assert Tokenize("\n") == [Atom("\n")];
    assert [Atom("\n")][1..] == [];
    assert Styled([], [Atom("\n")]) == [("\n", [])];
    var one: seq<(string, seq<string>)> := [("\n", [])];
    assert one[1..] == [];
  }

  lemma BareTextPlus(a: string, b: string)
    requires IsHtml(a) && IsHtml(b)
    ensures IsHtml(a + b) && BareText(a + b) == BareText(a) + BareText(b)
  {
    hide Tokenize, Styled, Bare;
    HtmlPlus(a, b);
    BarePlus(Styled([], Tokenize(a)), Styled([], Tokenize(b)));
  }

  lemma AddPacks(blocks: seq<string>, i: nat, chunks: seq<string>, current: string, sep: string, limit: nat)
    requires i < |blocks| && forall k :: 0 <= k < |blocks| ==> IsHtml(blocks[k])
    requires Packs(blocks, i, chunks, current, limit)
    requires sep == "" || sep == "\n"
    requires |current + sep + blocks[i]| <= limit
    ensures Packs(blocks, i + 1, chunks, current + sep + blocks[i], limit)
  {
    EmptyIsHtml();
    NewlineIsHtml();
    hide Balanced, Tokenize, StyledPieces, Styled, Bare, EachTokenFits, IsHtml;
    BareTextPlus(current, sep);
    BareTextPlus(current + sep, blocks[i]);
    var before, block := blocks[..i], blocks[i];
    assert blocks[..i + 1] == before + [block];
    StyledPiecesPlus(before, [block]);
    StyledOnePiece(block);
    BarePlus(StyledPieces(before), Styled([], Tokenize(block)));
    assert BlockFits(block, limit);
    hide BlockFits;
    assert (forall j :: 0 <= j < i + 1 ==> BlockFits(blocks[j], limit))
      <==> (forall j :: 0 <= j < i ==> BlockFits(blocks[j], limit));
  }

  lemma BareStep(blocks: seq<string>, i: nat, chunks: seq<string>, pieces: seq<string>)
    requires i < |blocks|
    requires Bare(StyledPieces(chunks)) == Bare(StyledPieces(blocks[..i]))
    requires StyledPieces(pieces) == Styled([], Tokenize(blocks[i]))
    ensures Bare(StyledPieces(chunks + pieces)) == Bare(StyledPieces(blocks[..i + 1]))
  {
    hide Tokenize, StyledPieces, Styled, Bare;
    var before, block := blocks[..i], blocks[i];
    assert blocks[..i + 1] == before + [block];
    StyledPiecesPlus(before, [block]);
    StyledOnePiece(block);
    StyledPiecesPlus(chunks, pieces);
    BarePlus(StyledPieces(before), Styled([], Tokenize(block)));
    BarePlus(StyledPieces(chunks), StyledPieces(pieces));
  }

  lemma SplitPacks(blocks: seq<string>, i: nat, chunks: seq<string>, pieces: seq<string>, limit: nat)
    requires i < |blocks| && forall k :: 0 <= k < |blocks| ==> IsHtml(blocks[k])
    requires Packs(blocks, i, chunks, "", limit)
    requires forall k :: 0 <= k < |pieces| ==> Balanced(Tokenize(pieces[k]))
    requires StyledPieces(pieces) == Styled([], Tokenize(blocks[i]))
    requires BlockFits(blocks[i], limit) <==> (forall k :: 0 <= k < |pieces| ==> |pieces[k]| <= limit)
    ensures Packs(blocks, i + 1, chunks + pieces, "", limit)
  {
    EmptyIsHtml();
    hide Balanced, Tokenize, StyledPieces, Styled, Bare, EachTokenFits, IsHtml, BlockFits, BareText;
    BareStep(blocks, i, chunks, pieces);
    var chunks' := chunks + pieces;
    assert forall k :: 0 <= k < |chunks| ==> chunks'[k] == chunks[k];
    assert forall k :: 0 <= k < |pieces| ==> chunks'[|chunks| + k] == pieces[k];
    assert (forall j :: 0 <= j < i + 1 ==> BlockFits(blocks[j], limit))
      <==> ((forall j :: 0 <= j < i ==> BlockFits(blocks[j], limit)) && BlockFits(blocks[i], limit));
  }

  // -------------------------------------------------------------------------
  // Lines
  // -------------------------------------------------------------------------

  function JoinLines(lines: seq<string>): string {
    JoinWith(lines, "\n")
  }

  /** The chunks as they would be after the loop. */
  function Flushed(chunks: seq<string>, current: string): seq<string> {
    if current == "" then chunks else chunks + [current]
  }

  /** Appending to the last chunk is appending to the joined text. */
  lemma JoinGrows(chunks: seq<string>, current: string, block: string)
    ensures JoinLines(chunks + [current + "\n" + block]) == JoinLines(chunks + [current]) + "\n" + block
  {
    JoinAdd(chunks, current + "\n" + block, "\n");
    JoinAdd(chunks, current, "\n");
    var head := if chunks == [] then "" else JoinLines(chunks) + "\n";
    assert head + (current + "\n" + block) == (head + current) + "\n" + block;
  }

  /** One short block more, with the separator the loop puts. */
  lemma JoinStep(blocks: seq<string>, i: nat, chunks: seq<string>, current: string)
    requires i < |blocks| && blocks[i] != ""
    requires JoinLines(Flushed(chunks, current)) == JoinLines(blocks[..i])
    requires current == "" ==> (chunks == [] <==> i == 0)
    requires current != "" ==> i > 0
    ensures JoinLines(chunks + [if current == "" then blocks[i] else current + "\n" + blocks[i]]) == JoinLines(blocks[..i + 1])
  {
    hide JoinWith;
    assert blocks[..i + 1] == blocks[..i] + [blocks[i]];
    JoinAdd(blocks[..i], blocks[i], "\n");
    if current == "" {
      JoinAdd(chunks, blocks[i], "\n");
    } else {
      JoinGrows(chunks, current, blocks[i]);
    }
  }

  predicate ShortBlocks(blocks: seq<string>, limit: nat) {
    forall k :: 0 <= k < |blocks| ==> blocks[k] != "" && |blocks[k]| <= limit
  }

  predicate AllHtml(blocks: seq<string>) {
    forall k :: 0 <= k < |blocks| ==> IsHtml(blocks[k])
  }

  lemma StartPacks(blocks: seq<string>, limit: nat)
    requires AllHtml(blocks)
    ensures Packs(blocks, 0, [], "", limit)
  {
    EmptyIsHtml();
    assert blocks[..0] == [];
  }

  /** Packing keeps blocks well formed and in order, sends within the limit exactly what can be, and joins
      short blocks by single newlines whatever the cuts. */
  method ChunkBlocks(blocks: seq<string>, limit: nat) returns (chunks: seq<string>)
    ensures AllHtml(blocks) ==>
      && (forall k :: 0 <= k < |chunks| ==> Balanced(Tokenize(chunks[k])))
      && Bare(StyledPieces(chunks)) == Bare(StyledPieces(blocks))
      && ((forall k :: 0 <= k < |chunks| ==> |chunks[k]| <= limit)
          <==> (forall k :: 0 <= k < |blocks| ==> BlockFits(blocks[k], limit)))
    ensures ShortBlocks(blocks, limit) ==> JoinLines(chunks) == JoinLines(blocks)
  {
    hide Tokenize, StyledPieces, Styled, Bare, IsHtml, BlockFits, JoinWith, EachTokenFits, Packs;
    chunks := [];
    var current := "";
    ghost var html, short := AllHtml(blocks), ShortBlocks(blocks, limit);
    if html { StartPacks(blocks, limit); }
    assert blocks[..0] == [];
    for i := 0 to |blocks|
      invariant html ==> Packs(blocks, i, chunks, current, limit)
      invariant short ==> JoinLines(Flushed(chunks, current)) == JoinLines(blocks[..i])
      invariant short ==> (i == 0 <==> current == "") && (i == 0 ==> chunks == [])
    {
      var block := blocks[i];
      if |block| > limit {
        if current != "" {
          if html { FlushPacks(blocks, i, chunks, current, limit); }
          chunks, current := chunks + [current], "";
        }
        var pieces := SplitBlock(block, limit);
        if html { OversizeFits(block, limit); SplitPacks(blocks, i, chunks, pieces, limit); }
        chunks := chunks + pieces;
        continue;
      }
      var sep := if current == "" then 0 else 1;
      if current != "" && |current| + sep + |block| > limit {
        if html { FlushPacks(blocks, i, chunks, current, limit); }
        chunks, current := chunks + [current], "";
      }
      if short {
        assert Flushed(chunks, "") == chunks;
        JoinStep(blocks, i, chunks, current);
      }
      if html { AddPacks(blocks, i, chunks, current, if current == "" then "" else "\n", limit); }
      if current != "" {
        current := current + "\n";
      }
      current := current + block;
      assert "" + block == block;
      assert short ==> Flushed(chunks, current) == chunks + [current];
    }
    assert blocks[..|blocks|] == blocks;
    if current != "" {
      if html { FlushPacks(blocks, |blocks|, chunks, current, limit); }
      chunks := chunks + [current];
    }
    if html { PackedAll(blocks, chunks, limit); }
  }

  lemma OversizeFits(block: string, limit: nat)
    requires IsHtml(block) && |block| > limit
    ensures Balanced(Tokenize(block)) && (BlockFits(block, limit) <==> EachTokenFits(Tokenize(block), limit))
  {
  }

  lemma PackedAll(blocks: seq<string>, chunks: seq<string>, limit: nat)
    requires AllHtml(blocks) && Packs(blocks, |blocks|, chunks, "", limit)
    ensures forall k :: 0 <= k < |chunks| ==> Balanced(Tokenize(chunks[k]))
    ensures Bare(StyledPieces(chunks)) == Bare(StyledPieces(blocks))
    ensures (forall k :: 0 <= k < |chunks| ==> |chunks[k]| <= limit)
      <==> (forall k :: 0 <= k < |blocks| ==> BlockFits(blocks[k], limit))
  {
    EmptyIsHtml();
    assert blocks[..|blocks|] == blocks;
  }
}
