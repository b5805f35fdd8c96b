// Why cutting the model at block 18 is sound: with exact causal attention and
// nothing but the residual crossing between blocks, running blocks 0-17 over
// all tokens and then 18-29 over the H18 rows is the uninterrupted 30-block run,
// however either run is batched.
module LayerSplit {
  import opened Chunks
  import opened KvCache
  import opened Kernels

  // A block stores a K/V entry for a position from its input row, and mixes
  // that row with the entries of the positions up to its own.
  datatype Block = Block(kv: (Row, nat) -> Kv, mix: (Row, nat, seq<Kv>) -> Row)

  datatype Model = Model(embed: (Token, nat) -> Row, blocks: seq<Block>, norm: Row -> Row, head: Row -> Logits)

  // -- What the blocks mean, over a whole sequence at once -------------------

  function Entries(block: Block, rows: seq<Row>): (r: seq<Kv>)
    ensures |r| == |rows|
  {
    seq(|rows|, p requires 0 <= p < |rows| => block.kv(rows[p], p))
  }

  function Apply(block: Block, rows: seq<Row>): (r: seq<Row>)
    ensures |r| == |rows|
  {
    seq(|rows|, p requires 0 <= p < |rows| => block.mix(rows[p], p, Entries(block, rows)[..p + 1]))
  }

  // The residual entering block `depth`.
  function Through(blocks: seq<Block>, depth: nat, rows: seq<Row>): (r: seq<Row>)
    requires depth <= |blocks|
    ensures |r| == |rows|
  {
    if depth == 0 then rows else Apply(blocks[depth - 1], Through(blocks, depth - 1, rows))
  }

  // Causality: what comes later does not change what came before.
  lemma {:induction false} ThroughPrefix(blocks: seq<Block>, depth: nat, rows: seq<Row>, more: seq<Row>)
    requires depth <= |blocks|
    ensures Through(blocks, depth, rows + more)[..|rows|] == Through(blocks, depth, rows)
    decreases depth
  {
    if depth > 0 {
      ThroughPrefix(blocks, depth - 1, rows, more);
      var all := Through(blocks, depth - 1, rows + more);
      var part := Through(blocks, depth - 1, rows);
      var block := blocks[depth - 1];
      assert forall q :: 0 <= q < |rows| ==> all[q] == all[..|rows|][q] == part[q];
      hide Through;
      forall p | 0 <= p < |rows|
        ensures Apply(block, all)[p] == Apply(block, part)[p]
      {
        assert Entries(block, all)[..p + 1] == Entries(block, part)[..p + 1];
      }
    }
  }

  lemma {:induction false} ThroughCompose(blocks: seq<Block>, split: nat, depth: nat, rows: seq<Row>)
    requires split <= depth <= |blocks|
    ensures Through(blocks, depth, rows) ==
      Through(blocks[split..], depth - split, Through(blocks[..split], split, rows))
    decreases depth
  {
    if depth == split {
      ThroughTake(blocks, split, split, rows);
    } else {
      ThroughCompose(blocks, split, depth - 1, rows);
    }
  }

  lemma {:induction false} ThroughTake(blocks: seq<Block>, split: nat, depth: nat, rows: seq<Row>)
    requires depth <= split <= |blocks|
    ensures Through(blocks, depth, rows) == Through(blocks[..split], depth, rows)
    decreases depth
  {
    if depth > 0 {
      ThroughTake(blocks, split, depth - 1, rows);
    }
  }

  // -- What a context computes, one batch at a time ---------------------------

  ghost function Entry(column: Column, layer: nat): Kv {
    if layer < |column| then column[layer] else var any: Kv :| true; any
  }

  ghost function LayerCells(cells: seq<Cell<Column>>, layer: nat): (r: seq<Cell<Kv>>)
    ensures |r| == |cells|
  {
    seq(|cells|, i requires 0 <= i < |cells| => Cell(cells[i].pos, Entry(cells[i].value, layer)))
  }

  function Values(cells: seq<Cell<Kv>>): (r: seq<Kv>)
    ensures |r| == |cells|
  {
    seq(|cells|, i requires 0 <= i < |cells| => cells[i].value)
  }

  function Stored(block: Block, first: nat, rows: seq<Row>): (r: seq<Cell<Kv>>)
    ensures |r| == |rows|
  {
    seq(|rows|, s requires 0 <= s < |rows| => Cell(first + s, block.kv(rows[s], first + s)))
  }

  // The residual entering block `layer` for the rows of one batch: each block
  // first stores the whole batch, then every slot attends to the cells at or
  // before its own position.
  ghost function BatchRows(blocks: seq<Block>, layer: nat, cells: seq<Cell<Column>>, first: nat,
      rows: seq<Row>): (r: seq<Row>)
    requires layer <= |blocks|
    ensures |r| == |rows|
    decreases layer
  {
    if layer == 0 then rows
    else
      var block := blocks[layer - 1];
      var ins := BatchRows(blocks, layer - 1, cells, first, rows);
      Mixed(block, LayerCells(cells, layer - 1) + Stored(block, first, ins), ins, first)
  }

  // One block over a batch whose entries it has stored in `cache`.
  function Mixed(block: Block, cache: seq<Cell<Kv>>, ins: seq<Row>, first: nat): (r: seq<Row>)
    ensures |r| == |ins|
  {
    seq(|ins|, s requires 0 <= s < |ins| => block.mix(ins[s], first + s, Values(Truncate(cache, first + s + 1))))
  }

  ghost function BatchColumn(blocks: seq<Block>, cells: seq<Cell<Column>>, first: nat, rows: seq<Row>,
      slot: nat): (r: Column)
    requires slot < |rows|
    ensures |r| == |blocks|
  {
    seq(|blocks|, l requires 0 <= l < |blocks| => blocks[l].kv(BatchRows(blocks, l, cells, first, rows)[slot],
      first + slot))
  }

  // The head reads the normalized residual.
  function Seen(model: Model, mid: Row, last: Row): Capture {
    Capture(mid, last, model.norm(last), model.head(model.norm(last)))
  }

  // Slots outside the batch are never read.
  ghost function AnyCapture(model: Model): Capture {
    var row: Row :| true;
    Seen(model, row, row)
  }

  ghost function RowsRange(model: Model, blocks: seq<Block>, capture: nat): Range<Row, Column, Capture>
    requires capture <= |blocks|
  {
    Range(
      (cells: seq<Cell<Column>>, first: nat, rows: seq<Row>, slot: nat) =>
        if slot < |rows| then BatchColumn(blocks, cells, first, rows, slot) else [],
      (cells: seq<Cell<Column>>, first: nat, rows: seq<Row>, slot: nat) =>
        if slot < |rows| then
          Seen(model, BatchRows(blocks, capture, cells, first, rows)[slot],
            BatchRows(blocks, |blocks|, cells, first, rows)[slot])
        else
          AnyCapture(model))
  }

  // -- Batches compute what the blocks mean -----------------------------------

  // `cells` is the cache after `rows` went through `blocks`.
  ghost predicate Holds(blocks: seq<Block>, rows: seq<Row>, cells: seq<Cell<Column>>) {
    && |cells| == |rows|
    && Consecutive(cells, 0)
    && forall l :: 0 <= l < |blocks| ==> HoldsLayer(blocks, l, rows, cells)
  }

  ghost predicate HoldsLayer(blocks: seq<Block>, layer: nat, rows: seq<Row>, cells: seq<Cell<Column>>)
    requires layer < |blocks|
  {
    Values(LayerCells(cells, layer)) == Entries(blocks[layer], Through(blocks, layer, rows))
  }

  lemma {:induction false} BatchExact(blocks: seq<Block>, layer: nat, cells: seq<Cell<Column>>, done: seq<Row>,
      rows: seq<Row>)
    requires layer <= |blocks|
    requires Holds(blocks, done, cells)
    ensures BatchRows(blocks, layer, cells, |done|, rows) == Through(blocks, layer, done + rows)[|done|..]
    decreases layer
  {
    hide Holds, Consecutive, Mixed, LayerCells, Stored;
    var first, all := |done|, done + rows;
    if layer == 0 {
      assert all[|done|..] == rows;
    } else {
      BatchExact(blocks, layer - 1, cells, done, rows);
      var block := blocks[layer - 1];
      var ins := BatchRows(blocks, layer - 1, cells, first, rows);
      var entering := Through(blocks, layer - 1, all);
      CacheExact(blocks, layer - 1, cells, done, rows, ins);
      MixExact(block, LayerCells(cells, layer - 1) + Stored(block, first, ins), entering, first);
    }
  }

  // One block over the slots from `first` on, reading a complete cache.
  lemma MixExact(block: Block, cache: seq<Cell<Kv>>, entering: seq<Row>, first: nat)
    requires first <= |entering|
    requires Consecutive(cache, 0)
    requires Values(cache) == Entries(block, entering)
    ensures Mixed(block, cache, entering[first..], first) == Apply(block, entering)[first..]
  {
    hide Truncate;
    forall s | 0 <= s < |entering| - first
      ensures block.mix(entering[first..][s], first + s, Values(Truncate(cache, first + s + 1))) ==
        Apply(block, entering)[first + s]
    {
      TruncateConsecutive(cache, first + s + 1);
      assert Values(cache[..first + s + 1]) == Values(cache)[..first + s + 1];
    }
  }

  lemma CacheExact(blocks: seq<Block>, layer: nat, cells: seq<Cell<Column>>, done: seq<Row>, rows: seq<Row>,
      ins: seq<Row>)
    requires layer < |blocks|
    requires Holds(blocks, done, cells)
    requires ins == Through(blocks, layer, done + rows)[|done|..]
    ensures
      var cache := LayerCells(cells, layer) + Stored(blocks[layer], |done|, ins);
      && Consecutive(cache, 0)
      && Values(cache) == Entries(blocks[layer], Through(blocks, layer, done + rows))
  {
    hide Through;
    var block := blocks[layer];
    var entering := Through(blocks, layer, done + rows);
    ThroughPrefix(blocks, layer, done, rows);
    assert HoldsLayer(blocks, layer, done, cells);
    EntriesConcat(block, entering, |done|);
    assert Values(Stored(block, |done|, ins)) == Entries(block, entering)[|done|..];
    ValuesConcat(LayerCells(cells, layer), Stored(block, |done|, ins));
  }

  lemma EntriesConcat(block: Block, rows: seq<Row>, n: nat)
    requires n <= |rows|
    ensures Entries(block, rows) == Entries(block, rows[..n]) + Entries(block, rows)[n..]
  {
  }

  lemma ValuesConcat(a: seq<Cell<Kv>>, b: seq<Cell<Kv>>)
    ensures Values(a + b) == Values(a) + Values(b)
  {
  }

  lemma DecodeExact(model: Model, blocks: seq<Block>, capture: nat, cells: seq<Cell<Column>>, done: seq<Row>,
      rows: seq<Row>)
    requires capture <= |blocks|
    requires Holds(blocks, done, cells)
    ensures
      var run := Decode(RowsRange(model, blocks, capture), cells, |done|, rows);
      && Holds(blocks, done + rows, run.cells)
      && run.outs == Captures(model, blocks, capture, done + rows)[|done|..]
  {
    hide Through, BatchRows;
    var run := Decode(RowsRange(model, blocks, capture), cells, |done|, rows);
    BatchExact(blocks, capture, cells, done, rows);
    BatchExact(blocks, |blocks|, cells, done, rows);
    forall l | 0 <= l < |blocks|
      ensures HoldsLayer(blocks, l, done + rows, run.cells)
    {
      BatchExact(blocks, l, cells, done, rows);
      var ins := BatchRows(blocks, l, cells, |done|, rows);
      CacheExact(blocks, l, cells, done, rows, ins);
      DecodeLayer(model, blocks, capture, cells, |done|, rows, l);
    }
  }

  lemma DecodeLayer(model: Model, blocks: seq<Block>, capture: nat, cells: seq<Cell<Column>>, first: nat,
      rows: seq<Row>, layer: nat)
    requires capture <= |blocks| && layer < |blocks|
    ensures LayerCells(Decode(RowsRange(model, blocks, capture), cells, first, rows).cells, layer)
      == LayerCells(cells, layer) + Stored(blocks[layer], first, BatchRows(blocks, layer, cells, first, rows))
  {
    hide BatchRows;
    var added := Decode(RowsRange(model, blocks, capture), cells, first, rows).cells[|cells|..];
    var ins := BatchRows(blocks, layer, cells, first, rows);
    forall s | 0 <= s < |rows|
      ensures LayerCells(added, layer)[s] == Stored(blocks[layer], first, ins)[s]
    {
      assert added[s] == Cell(first + s, BatchColumn(blocks, cells, first, rows, s));
    }
    LayerCellsConcat(cells, added, layer);
  }

  lemma LayerCellsConcat(a: seq<Cell<Column>>, b: seq<Cell<Column>>, layer: nat)
    ensures LayerCells(a + b, layer) == LayerCells(a, layer) + LayerCells(b, layer)
  {
  }

  // The captures the whole-sequence meaning gives.
  ghost function Captures(model: Model, blocks: seq<Block>, capture: nat, rows: seq<Row>): (r: seq<Capture>)
    requires capture <= |blocks|
    ensures |r| == |rows|
  {
    var mid, last := Through(blocks, capture, rows), Through(blocks, |blocks|, rows);
    seq(|rows|, p requires 0 <= p < |rows| => Seen(model, mid[p], last[p]))
  }

  lemma CapturesPrefix(model: Model, blocks: seq<Block>, capture: nat, rows: seq<Row>, more: seq<Row>)
    requires capture <= |blocks|
    ensures Captures(model, blocks, capture, rows + more)[..|rows|] == Captures(model, blocks, capture, rows)
  {
    hide Through;
    ThroughPrefix(blocks, capture, rows, more);
    ThroughPrefix(blocks, |blocks|, rows, more);
    var all, part := Captures(model, blocks, capture, rows + more), Captures(model, blocks, capture, rows);
    forall p | 0 <= p < |rows|
      ensures all[p] == part[p]
    {
      assert Through(blocks, capture, rows + more)[p] == Through(blocks, capture, rows + more)[..|rows|][p];
      assert Through(blocks, |blocks|, rows + more)[p] == Through(blocks, |blocks|, rows + more)[..|rows|][p];
    }
  }

  // Batching does not matter: any list of batch sizes captures the same rows.
  lemma {:induction false} RunExact(model: Model, blocks: seq<Block>, capture: nat, cells: seq<Cell<Column>>,
      done: seq<Row>, rows: seq<Row>, sizes: seq<nat>)
    requires capture <= |blocks|
    requires Holds(blocks, done, cells)
    requires Sum(sizes) == |rows|
    ensures
      var run := RunSizes(RowsRange(model, blocks, capture), cells, |done|, rows, sizes);
      && Holds(blocks, done + rows, run.cells)
      && run.outs == Captures(model, blocks, capture, done + rows)[|done|..]
    decreases |sizes|
  {
    hide Holds, Captures;
    var range := RowsRange(model, blocks, capture);
    if sizes == [] {
      assert done + rows == done;
    } else {
      var chunk, rest := rows[..sizes[0]], rows[sizes[0]..];
      assert chunk + rest == rows && (done + chunk) + rest == done + rows;
      var head := Decode(range, cells, |done|, chunk);
      DecodeExact(model, blocks, capture, cells, done, chunk);
      RunExact(model, blocks, capture, head.cells, done + chunk, rest, sizes[1..]);
      CapturesPrefix(model, blocks, capture, done + chunk, rest);
      var all := Captures(model, blocks, capture, done + rows);
      assert all[|done|..] == all[..|done + chunk|][|done|..] + all[|done + chunk|..];
    }
  }

  // -- Tokens in ----------------------------------------------------------------

  function EmbedAt(model: Model, first: nat, tokens: seq<Token>): (r: seq<Row>)
    ensures |r| == |tokens|
  {
    seq(|tokens|, s requires 0 <= s < |tokens| => model.embed(tokens[s], first + s))
  }

  ghost function TokensRange(model: Model, blocks: seq<Block>, capture: nat): Range<Token, Column, Capture>
    requires capture <= |blocks|
  {
    var range := RowsRange(model, blocks, capture);
    Range(
      (cells: seq<Cell<Column>>, first: nat, tokens: seq<Token>, slot: nat) =>
        range.value(cells, first, EmbedAt(model, first, tokens), slot),
      (cells: seq<Cell<Column>>, first: nat, tokens: seq<Token>, slot: nat) =>
        range.out(cells, first, EmbedAt(model, first, tokens), slot))
  }

  lemma {:induction false} TokensRun(model: Model, blocks: seq<Block>, capture: nat, cells: seq<Cell<Column>>,
      first: nat, tokens: seq<Token>, sizes: seq<nat>)
    requires capture <= |blocks|
    requires Sum(sizes) == |tokens|
    ensures RunSizes(TokensRange(model, blocks, capture), cells, first, tokens, sizes)
      == RunSizes(RowsRange(model, blocks, capture), cells, first, EmbedAt(model, first, tokens), sizes)
    decreases |sizes|
  {
    hide BatchRows;
    if sizes != [] {
      var rows := EmbedAt(model, first, tokens);
      var chunk, rest := tokens[..sizes[0]], tokens[sizes[0]..];
      assert EmbedAt(model, first, chunk) == rows[..sizes[0]];
      assert EmbedAt(model, first + sizes[0], rest) == rows[sizes[0]..];
      var a := Decode(TokensRange(model, blocks, capture), cells, first, chunk);
      var b := Decode(RowsRange(model, blocks, capture), cells, first, rows[..sizes[0]]);
      assert a.cells == b.cells && a.outs == b.outs;
      TokensRun(model, blocks, capture, a.cells, first + sizes[0], rest, sizes[1..]);
    }
  }

  // -- The split ------------------------------------------------------------------

  // Split equals stock. The lower context runs the tokens through the blocks
  // below the split, in batches of any sizes, and the upper context its H18 rows
  // through the others, again in any batches. The uninterrupted run captures the
  // same H18 and H30 rows and reads the same logits at every position.
  lemma SplitEqualsStock(model: Model, split: nat, tokens: seq<Token>, stockSizes: seq<nat>, lowerSizes: seq<nat>,
      upperSizes: seq<nat>)
    requires split <= |model.blocks|
    requires Sum(stockSizes) == Sum(lowerSizes) == Sum(upperSizes) == |tokens|
    ensures
      var stock := RunSizes(TokensRange(model, model.blocks, split), [], 0, tokens, stockSizes).outs;
      var lower := RunSizes(TokensRange(model, model.blocks[..split], split), [], 0, tokens, lowerSizes).outs;
      var upper := RunSizes(RowsRange(model, model.blocks[split..], 0), [], 0, Lasts(lower), upperSizes).outs;
      && Lasts(lower) == Mids(stock)
      && Lasts(upper) == Lasts(stock)
      && (forall p :: 0 <= p < |tokens| ==>
        upper[p].logits == stock[p].logits && upper[p].normalized == stock[p].normalized)
  {
    hide RunSizes, Through;
    var rows := EmbedAt(model, 0, tokens);
    var below, above := model.blocks[..split], model.blocks[split..];
    TokensRun(model, model.blocks, split, [], 0, tokens, stockSizes);
    TokensRun(model, below, split, [], 0, tokens, lowerSizes);
    RunFromEmpty(model, model.blocks, split, rows, stockSizes);
    RunFromEmpty(model, below, split, rows, lowerSizes);
    var lower := RunSizes(TokensRange(model, below, split), [], 0, tokens, lowerSizes).outs;
    ThroughTake(model.blocks, split, split, rows);
    assert Lasts(lower) == Through(model.blocks, split, rows);
    RunFromEmpty(model, above, 0, Lasts(lower), upperSizes);
    ThroughCompose(model.blocks, split, |model.blocks|, rows);
  }

  lemma RunFromEmpty(model: Model, blocks: seq<Block>, capture: nat, rows: seq<Row>, sizes: seq<nat>)
    requires capture <= |blocks|
    requires Sum(sizes) == |rows|
    ensures RunSizes(RowsRange(model, blocks, capture), [], 0, rows, sizes).outs ==
      Captures(model, blocks, capture, rows)
  {
    hide RunSizes, Captures;
    assert [] + rows == rows;
    RunExact(model, blocks, capture, [], [], rows, sizes);
    var all := Captures(model, blocks, capture, rows);
    assert all[0..] == all;
  }
}
