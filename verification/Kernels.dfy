// The kernels of one loaded model, as the workers use them: what a decode
// stores and captures is uninterpreted.
module Kernels {
  import opened KvCache

  type Token(==, !new)
  type Row(==, !new, 00)  // one residual or head-input vector
  type Kv(!new, 00)
  type Logits(!new)

  type Column = seq<Kv>  // a cell's K/V, one entry per block of the context
  type Cells = seq<Cell<Column>>

  // What a decode captures at a slot: two residuals (the one leaving the middle
  // block a stock context marks, and the one leaving its last block), the head's
  // input and its logits.
  datatype Capture = Capture(mid: Row, last: Row, normalized: Row, logits: Logits)

  // `lower` runs the blocks below the split, `upper` the others over the lower
  // rows, `stock` all of them.
  datatype Kernels = Kernels(
    lower: Range<Token, Column, Capture>,
    upper: Range<Row, Column, Capture>,
    stock: Range<Token, Column, Capture>,
    argmax: Logits -> Token,
    isEog: Token -> bool,
    stateBytes: Cells -> nat,
    rowBytes: nat)

  function Lasts(captures: seq<Capture>): (r: seq<Row>)
    ensures |r| == |captures|
  {
    seq(|captures|, p requires 0 <= p < |captures| => captures[p].last)
  }

  function Mids(captures: seq<Capture>): (r: seq<Row>)
    ensures |r| == |captures|
  {
    seq(|captures|, p requires 0 <= p < |captures| => captures[p].mid)
  }
}
