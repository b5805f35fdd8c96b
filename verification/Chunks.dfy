// The split of a prefill into decode batches (unridden/api/native/worker-utils.h).
module Chunks {
  import opened Common

  datatype ChunkError = NotPositive

  // Full batches first, the rest last.
  function Sizes(count: nat, batch: nat): (sizes: seq<nat>)
    requires 0 < count && 0 < batch
    decreases count
  {
    if count <= batch then [count] else [batch] + Sizes(count - batch, batch)
  }

  function Sum(sizes: seq<nat>): nat {
    if sizes == [] then 0 else sizes[0] + Sum(sizes[1..])
  }

  // What a caller relies on: the sizes cover the tokens, no batch is empty or
  // too big, and only the last one is short.
  ghost predicate Splits(sizes: seq<nat>, count: nat, batch: nat) {
    && Sum(sizes) == count
    && sizes != []
    && (forall i :: 0 <= i < |sizes| ==> 0 < sizes[i] <= batch)
    && (forall i :: 0 <= i < |sizes| - 1 ==> sizes[i] == batch)
  }

  lemma {:induction false} SizesSplit(count: nat, batch: nat)
    requires 0 < count && 0 < batch
    ensures Splits(Sizes(count, batch), count, batch)
    decreases count
  {
    if count > batch {
      SizesSplit(count - batch, batch);
      var rest := Sizes(count - batch, batch);
      assert ([batch] + rest)[1..] == rest;
    }
  }

  // Sizes is the only such split, so two prefills of the same tokens with the
  // same batch size always see the same batches.
  lemma {:induction false} SplitIsUnique(sizes: seq<nat>, count: nat, batch: nat)
    requires 0 < count && 0 < batch
    ensures Splits(sizes, count, batch) <==> sizes == Sizes(count, batch)
    decreases count
  {
    SizesSplit(count, batch);
    if Splits(sizes, count, batch) {
      if |sizes| == 1 {
        assert sizes == [sizes[0]] && Sum(sizes[1..]) == 0;
      } else {
        var rest := sizes[1..];
        assert 0 < rest[0];
        assert Sum(rest) == rest[0] + Sum(rest[1..]);
        assert forall i :: 0 <= i < |rest| ==> rest[i] == sizes[i + 1];
        assert sizes[0] == batch;
        SplitIsUnique(rest, count - batch, batch);
      }
    }
  }

  lemma {:induction false} SumSnoc(sizes: seq<nat>, last: nat)
    ensures Sum(sizes + [last]) == Sum(sizes) + last
  {
    if sizes != [] {
      assert (sizes + [last])[1..] == sizes[1..] + [last];
      SumSnoc(sizes[1..], last);
    }
  }

  method PrefillChunks(count: nat, batch: nat) returns (r: Result<seq<nat>, ChunkError>)
    ensures r.Err? <==> count == 0 || batch == 0
    ensures r.Ok? ==> r.value == Sizes(count, batch)
  {
    if count == 0 || batch == 0 {
      return Err(NotPositive);
    }
    var chunks: seq<nat> := [];
    var offset := 0;
    while offset < count
      invariant Sum(chunks) == if offset < count then offset else count
      invariant offset < count ==> forall i :: 0 <= i < |chunks| ==> chunks[i] == batch
      invariant offset >= count ==> Splits(chunks, count, batch)
    {
      var size := if batch < count - offset then batch else count - offset;
      SumSnoc(chunks, size);
      chunks := chunks + [size];
      offset := offset + batch;
    }
    SplitIsUnique(chunks, count, batch);
    return Ok(chunks);
  }
}
