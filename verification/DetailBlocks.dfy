/** The detail blocks of a whole artifact: at most 256 declarations each, addressed by artifact-wide ordinals. */
module DetailBlocks {
  import opened Prelude
  import opened ArtifactProto
  import opened SymbolDetail

  function SymbolsOf(g: GraphSnapshot): seq<GraphSymbol> {
    g.symbols
  }

  /** Every declaration of the artifact; its place here is its ordinal. */
  function AllSymbols(snapshots: seq<GraphSnapshot>): seq<GraphSymbol> {
    FlatMap(snapshots, SymbolsOf)
  }

  function ChunkSize(symbols: seq<GraphSymbol>): nat {
    if |symbols| < BLOCK_CAPACITY then |symbols| else BLOCK_CAPACITY
  }

  function SnapshotBlocks(g: GraphSnapshot, symbols: seq<GraphSymbol>, at: nat): seq<Block> {
    if symbols == [] then []
    else
      var size := ChunkSize(symbols);
      [BlockOf(g, symbols[..size], at)] + SnapshotBlocks(g, symbols[size..], at + size)
  }

  function BlocksFrom(snapshots: seq<GraphSnapshot>, at: nat): seq<Block> {
    if snapshots == [] then []
    else
      SnapshotBlocks(snapshots[0], snapshots[0].symbols, at)
      + BlocksFrom(snapshots[1..], at + |snapshots[0].symbols|)
  }

  method BuildBlocks(graph: Graph) returns (blocks: seq<Block>)
    ensures blocks == BlocksFrom(graph.snapshots, 0)
  {
    hide BlockOf, SnapshotBlocks;
    blocks := [];
    var firstOrdinal: nat := 0;
    for i := 0 to |graph.snapshots|
      invariant blocks + BlocksFrom(graph.snapshots[i..], firstOrdinal) == BlocksFrom(graph.snapshots, 0)
    {
      var g := graph.snapshots[i];
      var built := BuildSnapshotBlocks(g, firstOrdinal);
      assert graph.snapshots[i..][1..] == graph.snapshots[i + 1..];
      blocks := blocks + built;
      firstOrdinal := firstOrdinal + |g.symbols|;
    }
  }

  method BuildSnapshotBlocks(g: GraphSnapshot, firstOrdinal: nat) returns (blocks: seq<Block>)
    ensures blocks == SnapshotBlocks(g, g.symbols, firstOrdinal)
  {
    hide BlockOf;
    blocks := [];
    var done := 0;
    while done < |g.symbols|
      invariant done <= |g.symbols|
      invariant blocks + SnapshotBlocks(g, g.symbols[done..], firstOrdinal + done)
                == SnapshotBlocks(g, g.symbols, firstOrdinal)
    {
      var rest := g.symbols[done..];
      var size := ChunkSize(rest);
      assert g.symbols[done + size..] == rest[size..];
      blocks := blocks + [BlockOf(g, rest[..size], firstOrdinal + done)];
      done := done + size;
    }
  }

  predicate Covers(b: Block, ordinal: nat) {
    b.first <= ordinal < b.first + |b.entries|
  }

  function FindBlock(blocks: seq<Block>, ordinal: nat): Option<Block> {
    if blocks == [] then None
    else if Covers(blocks[0], ordinal) then Some(blocks[0])
    else FindBlock(blocks[1..], ordinal)
  }

  /** Blocks lie end to end over a range of ordinals, none empty and none over capacity. */
  predicate Tile(blocks: seq<Block>, from: nat, to: nat) {
    if blocks == [] then from == to
    else
      && blocks[0].first == from && 0 < |blocks[0].entries| <= 256
      && Tile(blocks[1..], from + |blocks[0].entries|, to)
  }

  lemma {:induction false} TileConcat(a: seq<Block>, b: seq<Block>, from: nat, mid: nat, to: nat)
    requires Tile(a, from, mid) && Tile(b, mid, to)
    ensures Tile(a + b, from, to)
  {
    if a == [] {
      assert a + b == b;
    } else {
      assert (a + b)[1..] == a[1..] + b;
      TileConcat(a[1..], b, from + |a[0].entries|, mid, to);
    }
  }

  lemma BlockSize(g: GraphSnapshot, chunk: seq<GraphSymbol>, at: nat)
    ensures BlockOf(g, chunk, at).first == at && |BlockOf(g, chunk, at).entries| == |chunk|
  {
    var d := DefaultsOf(g, chunk);
    MapAt(chunk, (s: GraphSymbol) => DetailOf(s, d));
  }

  lemma {:induction false} SnapshotBlocksTile(g: GraphSnapshot, symbols: seq<GraphSymbol>, at: nat)
    ensures Tile(SnapshotBlocks(g, symbols, at), at, at + |symbols|)
    decreases |symbols|
  {
    hide BlockOf;
    if symbols != [] {
      var size := ChunkSize(symbols);
      BlockSize(g, symbols[..size], at);
      SnapshotBlocksTile(g, symbols[size..], at + size);
    }
  }

  /** The blocks of an artifact partition its ordinals. */
  lemma {:induction false} BlocksTile(snapshots: seq<GraphSnapshot>, at: nat)
    ensures Tile(BlocksFrom(snapshots, at), at, at + |AllSymbols(snapshots)|)
  {
    hide BlockOf, SnapshotBlocks, Tile, BlocksFrom;
    FirstBlocks(snapshots, at);
    if snapshots != [] {
      var n := |snapshots[0].symbols|;
      SnapshotBlocksTile(snapshots[0], snapshots[0].symbols, at);
      BlocksTile(snapshots[1..], at + n);
      TileConcat(SnapshotBlocks(snapshots[0], snapshots[0].symbols, at), BlocksFrom(snapshots[1..], at + n), at, at + n,
                 at + |AllSymbols(snapshots)|);
    }
  }

  lemma FirstBlocks(snapshots: seq<GraphSnapshot>, at: nat)
    ensures snapshots == [] ==> Tile(BlocksFrom(snapshots, at), at, at + |AllSymbols(snapshots)|)
    ensures snapshots != [] ==>
      && |AllSymbols(snapshots)| == |snapshots[0].symbols| + |AllSymbols(snapshots[1..])|
      && BlocksFrom(snapshots, at) == SnapshotBlocks(snapshots[0], snapshots[0].symbols, at) +
         BlocksFrom(snapshots[1..], at + |snapshots[0].symbols|)
  {
    hide BlockOf, SnapshotBlocks;
  }

  lemma {:induction false} TileOutside(blocks: seq<Block>, from: nat, to: nat, ordinal: nat)
    requires Tile(blocks, from, to) && !(from <= ordinal < to)
    ensures FindBlock(blocks, ordinal) == None && from <= to
  {
    if blocks != [] {
      TileOutside(blocks[1..], from + |blocks[0].entries|, to, ordinal);
    }
  }

  lemma {:induction false} FindConcat(a: seq<Block>, b: seq<Block>, ordinal: nat)
    ensures FindBlock(a + b, ordinal) ==
      if FindBlock(a, ordinal).Some? then FindBlock(a, ordinal) else FindBlock(b, ordinal)
  {
    if a == [] {
      assert a + b == b;
    } else {
      assert (a + b)[1..] == a[1..] + b;
      FindConcat(a[1..], b, ordinal);
    }
  }

  lemma {:induction false} FoundInSnapshot(g: GraphSnapshot, symbols: seq<GraphSymbol>, at: nat, ordinal: nat)
    returns (chunk: seq<GraphSymbol>, first: nat)
    requires at <= ordinal < at + |symbols|
    ensures FindBlock(SnapshotBlocks(g, symbols, at), ordinal) == Some(BlockOf(g, chunk, first))
    ensures first <= ordinal < first + |chunk| && |chunk| <= 256
    ensures chunk[ordinal - first] == symbols[ordinal - at]
    decreases |symbols|
  {
    hide BlockOf;
    var size := ChunkSize(symbols);
    BlockSize(g, symbols[..size], at);
    if ordinal < at + size {
      chunk, first := symbols[..size], at;
    } else {
      chunk, first := FoundInSnapshot(g, symbols[size..], at + size, ordinal);
    }
  }

  /** The block found for an ordinal holds, at the ordinal's place, the detail of that very declaration, made with the
      defaults of the snapshot that declares it. */
  lemma {:induction false} FoundBlock(snapshots: seq<GraphSnapshot>, at: nat, ordinal: nat)
    returns (n: nat, k: nat, chunk: seq<GraphSymbol>, first: nat)
    requires at <= ordinal < at + |AllSymbols(snapshots)|
    ensures n < |snapshots| && k < |snapshots[n].symbols|
    ensures FindBlock(BlocksFrom(snapshots, at), ordinal) == Some(BlockOf(snapshots[n], chunk, first))
    ensures first <= ordinal < first + |chunk| && |chunk| <= 256
    ensures chunk[ordinal - first] == snapshots[n].symbols[k] == AllSymbols(snapshots)[ordinal - at]
    ensures |AllSymbols(snapshots[..n])| + k == ordinal - at
    decreases snapshots
  {
    hide BlockOf, FindBlock, Tile, SnapshotBlocks, Covers, BlocksFrom;
    FirstBlocks(snapshots, at);
    var g, size := snapshots[0], |snapshots[0].symbols|;
    var own, others := SnapshotBlocks(g, g.symbols, at), BlocksFrom(snapshots[1..], at + size);
    FindConcat(own, others, ordinal);
    SnapshotBlocksTile(g, g.symbols, at);
    if ordinal < at + size {
      chunk, first := FoundInSnapshot(g, g.symbols, at, ordinal);
      n, k := 0, ordinal - at;
    } else {
      TileOutside(own, at, at + size, ordinal);
      n, k, chunk, first := FoundBlock(snapshots[1..], at + size, ordinal);
      assert snapshots[..n + 1][1..] == snapshots[1..][..n];
      n := n + 1;
    }
  }

  /** Later ordinals never lie in earlier blocks, and a block's first ordinal identifies it. */
  lemma {:induction false} FindMonotone(blocks: seq<Block>, from: nat, to: nat, low: nat, high: nat)
    requires Tile(blocks, from, to) && low <= high
    requires FindBlock(blocks, low).Some? && FindBlock(blocks, high).Some?
    ensures var a, b := FindBlock(blocks, low).value, FindBlock(blocks, high).value;
      from <= a.first <= b.first && (a.first == b.first ==> a == b)
    ensures FindBlock(blocks, low).value in blocks
  {
    if !(from <= low < to) {
      TileOutside(blocks, from, to, low);
    }
    if !Covers(blocks[0], low) {
      FindMonotone(blocks[1..], from + |blocks[0].entries|, to, low, high);
      assert FindBlock(blocks[1..], low).value in blocks[1..];
    } else if !Covers(blocks[0], high) {
      FindMonotone(blocks[1..], from + |blocks[0].entries|, to, high, high);
    }
  }
}
