// One sequence of a llama.cpp context, chunk-exact: a decode appends one cell
// per input, and what it appends may depend on the cells already there, on the
// positions and on the whole chunk, in any way.
module KvCache {
  import opened Chunks

  datatype Cell<V> = Cell(pos: nat, value: V)

  // What the kernels compute for slot `slot` of `chunk`, decoded at position
  // `first` on top of `cells`: the stored K/V and the captured output.
  datatype Range<!I, !V, R> = Range(
    value: (seq<Cell<V>>, nat, seq<I>, nat) -> V,
    out: (seq<Cell<V>>, nat, seq<I>, nat) -> R)

  datatype Run<V, R> = Run(cells: seq<Cell<V>>, outs: seq<R>)

  // llama_memory_seq_pos_max
  function PosMax<V>(cells: seq<Cell<V>>): (m: int)
    ensures m >= -1
    ensures forall c :: c in cells ==> c.pos <= m
    ensures m == -1 <==> cells == []
  {
    if cells == [] then -1
    else
      var rest := PosMax(cells[..|cells| - 1]);
      var last := cells[|cells| - 1].pos;
      if rest < last then last else rest
  }

  // llama_memory_seq_rm(memory, 0, length, -1)
  function Truncate<V>(cells: seq<Cell<V>>, length: nat): (kept: seq<Cell<V>>)
  {
    if cells == [] then []
    else
      var last := cells[|cells| - 1];
      Truncate(cells[..|cells| - 1], length) + if last.pos < length then [last] else []
  }

  // One llama_decode.
  function Decode<I, V, R>(range: Range<I, V, R>, cells: seq<Cell<V>>, first: nat, chunk: seq<I>): (r: Run<V, R>)
    ensures |r.outs| == |chunk|
    ensures |r.cells| == |cells| + |chunk|
  {
    Run(
      cells + seq(|chunk|, slot requires 0 <= slot < |chunk| => Cell(first + slot,
        range.value(cells, first, chunk, slot))),
      seq(|chunk|, slot requires 0 <= slot < |chunk| => range.out(cells, first, chunk, slot)))
  }

  // Decodes `items` in batches of the given sizes, from position `first`.
  function RunSizes<I, V, R>(range: Range<I, V, R>, cells: seq<Cell<V>>, first: nat, items: seq<I>,
      sizes: seq<nat>): (r: Run<V, R>)
    requires Sum(sizes) == |items|
    ensures |r.outs| == |items|
    ensures |r.cells| == |cells| + |items|
    ensures cells <= r.cells
    decreases |sizes|
  {
    if sizes == [] then Run(cells, [])
    else
      var head := Decode(range, cells, first, items[..sizes[0]]);
      var rest := RunSizes(range, head.cells, first + sizes[0], items[sizes[0]..], sizes[1..]);
      Run(rest.cells, head.outs + rest.outs)
  }

  // A prefill: the batches prefill_chunks gives.
  function Prefill<I, V, R>(range: Range<I, V, R>, cells: seq<Cell<V>>, first: nat, items: seq<I>,
      batch: nat): (r: Run<V, R>)
    requires 0 < batch && items != []
    ensures |r.outs| == |items|
    ensures |r.cells| == |cells| + |items|
    ensures cells <= r.cells
  {
    SizesSplit(|items|, batch);
    RunSizes(range, cells, first, items, Sizes(|items|, batch))
  }

  ghost predicate Consecutive<V>(cells: seq<Cell<V>>, first: nat) {
    forall i :: 0 <= i < |cells| ==> cells[i].pos == first + i
  }

  // A run leaves the cells it found alone and adds one per item, in order.
  lemma {:induction false} RunPositions<I, V, R>(range: Range<I, V, R>, cells: seq<Cell<V>>, first: nat, items: seq<I>,
      sizes: seq<nat>)
    requires Sum(sizes) == |items|
    ensures Consecutive(RunSizes(range, cells, first, items, sizes).cells[|cells|..], first)
    decreases |sizes|
  {
    if sizes != [] {
      var head := Decode(range, cells, first, items[..sizes[0]]);
      var rest := RunSizes(range, head.cells, first + sizes[0], items[sizes[0]..], sizes[1..]);
      RunPositions(range, head.cells, first + sizes[0], items[sizes[0]..], sizes[1..]);
      assert rest.cells[|cells|..] == head.cells[|cells|..] + rest.cells[|head.cells|..];
    }
  }

  lemma {:induction false} PosMaxAppend<V>(cells: seq<Cell<V>>, more: seq<Cell<V>>)
    ensures PosMax(cells + more) == if PosMax(cells) < PosMax(more) then PosMax(more) else PosMax(cells)
    decreases |more|
  {
    if more == [] {
      assert cells + more == cells;
    } else {
      assert (cells + more)[..|cells + more| - 1] == cells + more[..|more| - 1];
      PosMaxAppend(cells, more[..|more| - 1]);
    }
  }

  lemma {:induction false} TruncateConcat<V>(a: seq<Cell<V>>, b: seq<Cell<V>>, length: nat)
    ensures Truncate(a + b, length) == Truncate(a, length) + Truncate(b, length)
    decreases |b|
  {
    if b == [] {
      assert a + b == a;
    } else {
      var front, last := b[..|b| - 1], b[|b| - 1];
      assert (a + b)[..|a + b| - 1] == a + front && (a + b)[|a + b| - 1] == last;
      TruncateConcat(a, front, length);
    }
  }

  lemma {:induction false} TruncateKeeps<V>(cells: seq<Cell<V>>, length: nat)
    requires forall i :: 0 <= i < |cells| ==> cells[i].pos < length
    ensures Truncate(cells, length) == cells
    decreases |cells|
  {
    if cells != [] {
      TruncateKeeps(cells[..|cells| - 1], length);
    }
  }

  lemma {:induction false} TruncateDrops<V>(cells: seq<Cell<V>>, length: nat)
    requires forall i :: 0 <= i < |cells| ==> cells[i].pos >= length
    ensures Truncate(cells, length) == []
    decreases |cells|
  {
    if cells != [] {
      TruncateDrops(cells[..|cells| - 1], length);
    }
  }

  lemma TruncateAppend<V>(cells: seq<Cell<V>>, more: seq<Cell<V>>, length: nat)
    requires PosMax(cells) < length
    requires forall i :: 0 <= i < |more| ==> more[i].pos >= length
    ensures Truncate(cells + more, length) == cells
  {
    hide Truncate, PosMax;
    forall i | 0 <= i < |cells|
      ensures cells[i].pos < length
    {
      assert cells[i] in cells;
    }
    TruncateConcat(cells, more, length);
    TruncateKeeps(cells, length);
    TruncateDrops(more, length);
  }

  // The fact every branch rests on: decoding after the last held position and
  // then trimming to it gives back exactly the cells held before, and in
  // between the highest position is the last decoded one.
  lemma TrimUndoesPrefill<I, V, R>(range: Range<I, V, R>, cells: seq<Cell<V>>, first: nat, items: seq<I>, batch: nat,
      length: nat)
    requires 0 < batch && items != []
    requires PosMax(cells) < length <= first
    ensures Truncate(Prefill(range, cells, first, items, batch).cells, length) == cells
    ensures PosMax(Prefill(range, cells, first, items, batch).cells) == first + |items| - 1
  {
    hide RunSizes, Truncate, PosMax, Sizes;
    var sizes := Sizes(|items|, batch);
    SizesSplit(|items|, batch);
    RunPositions(range, cells, first, items, sizes);
    var all := Prefill(range, cells, first, items, batch).cells;
    var more := all[|cells|..];
    assert all == cells + more;
    TruncateAppend(cells, more, length);
    PosMaxAppend(cells, more);
    ConsecutivePosMax(more, first);
  }

  lemma {:induction false} ConsecutivePosMax<V>(cells: seq<Cell<V>>, first: nat)
    requires cells != []
    requires Consecutive(cells, first)
    ensures PosMax(cells) == first + |cells| - 1
    decreases |cells|
  {
    var front := cells[..|cells| - 1];
    if front != [] {
      ConsecutivePosMax(front, first);
    }
  }

  lemma {:induction false} SumConcat(a: seq<nat>, b: seq<nat>)
    ensures Sum(a + b) == Sum(a) + Sum(b)
  {
    if a == [] {
      assert a + b == b;
    } else {
      assert (a + b)[1..] == a[1..] + b;
      SumConcat(a[1..], b);
    }
  }

  // Running one list of batches and then another is running both.
  ghost predicate Concats<I(!new), V(!new), R(!new)>(range: Range<I, V, R>, cells: seq<Cell<V>>, first: nat, a: seq<I>,
      b: seq<I>, sizesA: seq<nat>, sizesB: seq<nat>)
    requires Sum(sizesA) == |a| && Sum(sizesB) == |b| && Sum(sizesA + sizesB) == |a + b|
  {
    var left := RunSizes(range, cells, first, a, sizesA);
    var right := RunSizes(range, left.cells, first + |a|, b, sizesB);
    RunSizes(range, cells, first, a + b, sizesA + sizesB) == Run(right.cells, left.outs + right.outs)
  }

  lemma {:induction false} RunConcat<I(!new), V(!new), R(!new)>(range: Range<I, V, R>, cells: seq<Cell<V>>, first: nat,
      a: seq<I>, b: seq<I>, sizesA: seq<nat>, sizesB: seq<nat>)
    requires Sum(sizesA) == |a| && Sum(sizesB) == |b|
    ensures Sum(sizesA + sizesB) == |a + b|
    ensures Concats(range, cells, first, a, b, sizesA, sizesB)
    decreases |sizesA|
  {
    SumConcat(sizesA, sizesB);
    if sizesA == [] {
      assert a + b == b && sizesA + sizesB == sizesB;
    } else {
      var n := sizesA[0];
      var head := Decode(range, cells, first, a[..n]);
      RunConcat(range, head.cells, first + n, a[n..], b, sizesA[1..], sizesB);
      RunConcatStep(range, cells, first, a, b, sizesA, sizesB);
    }
  }

  lemma RunConcatStep<I(!new), V(!new), R(!new)>(range: Range<I, V, R>, cells: seq<Cell<V>>, first: nat, a: seq<I>,
      b: seq<I>, sizesA: seq<nat>, sizesB: seq<nat>)
    requires Sum(sizesA) == |a| && Sum(sizesB) == |b| && Sum(sizesA + sizesB) == |a + b|
    requires sizesA != []
    requires Sum(sizesA[1..] + sizesB) == |a[sizesA[0]..] + b|
    requires
      var n := sizesA[0];
      Concats(range, Decode(range, cells, first, a[..n]).cells, first + n, a[n..], b, sizesA[1..], sizesB)
    ensures Concats(range, cells, first, a, b, sizesA, sizesB)
  {
    hide RunSizes;
    var n, all, sizes := sizesA[0], a + b, sizesA + sizesB;
    assert sizes[0] == n && sizes[1..] == sizesA[1..] + sizesB;
    assert all[..n] == a[..n] && all[n..] == a[n..] + b;
    RunStep(range, cells, first, all, sizes);
    RunStep(range, cells, first, a, sizesA);
  }

  lemma RunStep<I, V, R>(range: Range<I, V, R>, cells: seq<Cell<V>>, first: nat, items: seq<I>, sizes: seq<nat>)
    requires sizes != [] && Sum(sizes) == |items|
    ensures
      var head := Decode(range, cells, first, items[..sizes[0]]);
      var rest := RunSizes(range, head.cells, first + sizes[0], items[sizes[0]..], sizes[1..]);
      RunSizes(range, cells, first, items, sizes) == Run(rest.cells, head.outs + rest.outs)
  {
  }

  lemma TruncateConsecutive<V>(cells: seq<Cell<V>>, length: nat)
    requires Consecutive(cells, 0)
    requires length <= |cells|
    ensures Truncate(cells, length) == cells[..length]
  {
    hide Truncate, PosMax;
    var kept, gone := cells[..length], cells[length..];
    assert cells == kept + gone;
    if kept != [] {
      ConsecutivePosMax(kept, 0);
    }
    assert forall i :: 0 <= i < |gone| ==> gone[i] == cells[length + i];
    TruncateAppend(kept, gone, length);
  }

  lemma TruncateAll<V>(cells: seq<Cell<V>>, length: nat)
    requires PosMax(cells) < length
    ensures Truncate(cells, length) == cells
  {
    hide Truncate, PosMax;
    TruncateAppend(cells, [], length);
    assert cells + [] == cells;
  }

  // What is left of a run after the first `i` batches, which covered `offset` items.
  function Rest<I, V, R>(range: Range<I, V, R>, cells: seq<Cell<V>>, first: nat, items: seq<I>, sizes: seq<nat>,
      offset: nat, i: nat): (r: Run<V, R>)
    requires i <= |sizes| && offset <= |items| && Sum(sizes[i..]) == |items| - offset
  {
    RunSizes(range, cells, first + offset, items[offset..], sizes[i..])
  }

  // One turn of a prefill loop.
  lemma RestStep<I, V, R>(range: Range<I, V, R>, cells: seq<Cell<V>>, first: nat, items: seq<I>, sizes: seq<nat>,
      offset: nat, i: nat, outs: seq<R>)
    requires i < |sizes| && offset <= |items| && Sum(sizes[i..]) == |items| - offset
    ensures offset + sizes[i] <= |items| && Sum(sizes[i + 1..]) == |items| - offset - sizes[i]
    ensures
      var step := Decode(range, cells, first + offset, items[offset..offset + sizes[i]]);
      var now := Rest(range, cells, first, items, sizes, offset, i);
      var next := Rest(range, step.cells, first, items, sizes, offset + sizes[i], i + 1);
      now.cells == next.cells && outs + now.outs == (outs + step.outs) + next.outs
  {
    var size := sizes[i];
    assert sizes[i..][1..] == sizes[i + 1..];
    assert items[offset..][..size] == items[offset..offset + size];
    assert items[offset..][size..] == items[offset + size..];
    RunStep(range, cells, first + offset, items[offset..], sizes[i..]);
  }

  // `cells` is `base` plus cells at positions from `length` on.
  ghost predicate GrownFrom<V>(base: seq<Cell<V>>, cells: seq<Cell<V>>, length: nat) {
    base <= cells && forall i :: |base| <= i < |cells| ==> cells[i].pos >= length
  }

  lemma GrownTrims<V>(base: seq<Cell<V>>, cells: seq<Cell<V>>, length: nat)
    requires GrownFrom(base, cells, length) && PosMax(base) < length
    ensures Truncate(cells, length) == base
  {
    hide Truncate, PosMax;
    var more := cells[|base|..];
    assert cells == base + more;
    assert forall i :: 0 <= i < |more| ==> more[i] == cells[|base| + i];
    TruncateAppend(base, more, length);
  }

  lemma PrefillGrows<I, V, R>(range: Range<I, V, R>, base: seq<Cell<V>>, cells: seq<Cell<V>>, first: nat,
      items: seq<I>, batch: nat, length: nat)
    requires 0 < batch && items != []
    requires GrownFrom(base, cells, length) && PosMax(cells) < first && length <= first
    ensures
      var all := Prefill(range, cells, first, items, batch).cells;
      GrownFrom(base, all, length) && PosMax(all) == first + |items| - 1
  {
    hide RunSizes, PosMax, Sizes;
    var all := Prefill(range, cells, first, items, batch).cells;
    SizesSplit(|items|, batch);
    RunPositions(range, cells, first, items, Sizes(|items|, batch));
    TrimUndoesPrefill(range, cells, first, items, batch, first);
    var more := all[|cells|..];
    forall i | |base| <= i < |all|
      ensures all[i].pos >= length
    {
      if i < |cells| {
        assert all[i] == cells[i];
      } else {
        assert all[i] == more[i - |cells|];
      }
    }
  }
}
