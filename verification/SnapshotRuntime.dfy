// The two contexts of the snapshot worker and their residency cache
// (class runtime of unridden/api/native/snapshots/snapshot-worker.cpp).
module SnapshotRuntime {
  import opened Common
  import opened Chunks
  import opened KvCache
  import opened Kernels

  type Id(==, !new)
  type Digest(==, !new)

  datatype Depth = D18 | D30
  datatype Kind = Context | Readout

  // A host blob behind a shared pointer. The tag is the identity of the
  // allocation: two snapshots share a blob when they hold the same tag.
  datatype Blob = Blob(tag: nat, cells: Cells)

  datatype Snapshot = Snapshot(
    id: Id,
    depth: Depth,
    parent: Option<Id>,
    kind: Kind,
    tokens: seq<Token>,
    digest: Digest,
    lowerKv: Blob,
    upperKv: Option<Blob>,
    h18: Option<seq<Row>>,
    h30: Option<seq<Row>>,
    lastNormalized: Option<Row>,
    lowerOwned: bool)

  // Errors an inference step can end in; the worker turns each into
  // execution_error.
  datatype Fault = BadRange | BadRows | DecodeFailed | SaveFailed | RestoreFailed | NotHeld | TrimFailed

  // What run_lower and run_upper compute on given cells.
  function LowerRun(k: Kernels, batch: nat, cells: Cells, tokens: seq<Token>): (r: Run<Column, Capture>)
    requires 0 < batch && tokens != []
    ensures |r.outs| == |tokens|
  {
    Prefill(k.lower, cells, PosMax(cells) + 1, tokens, batch)
  }

  function UpperRun(k: Kernels, batch: nat, cells: Cells, first: nat, rows: seq<Row>): (r: Run<Column, Capture>)
    requires 0 < batch && rows != []
    ensures |r.outs| == |rows|
  {
    Prefill(k.upper, cells, first, rows, batch)
  }

  function StockRun(k: Kernels, batch: nat, cells: Cells, tokens: seq<Token>): (r: Run<Column, Capture>)
    requires 0 < batch && tokens != []
    ensures |r.outs| == |tokens|
  {
    Prefill(k.stock, cells, PosMax(cells) + 1, tokens, batch)
  }

  // What restoring a snapshot copies into the contexts.
  function StateBytes(k: Kernels, item: Snapshot): nat
    requires item.depth.D30? ==> item.upperKv.Some?
  {
    k.stateBytes(item.lowerKv.cells) + if item.depth.D30? then k.stateBytes(item.upperKv.value.cells) else 0
  }

  function Last<T>(items: seq<T>): T
    requires items != []
  {
    items[|items| - 1]
  }

  class Runtime {
    const kernels: Kernels
    const batch: nat
    var lower: Cells
    var upper: Cells
    var reference: Cells
    var resident: Option<Id>
    var residentUpper: bool

    constructor (kernels: Kernels, batch: nat)
      requires 0 < batch
      ensures this.kernels == kernels && this.batch == batch
      ensures resident == None && lower == [] && upper == []
    {
      this.kernels, this.batch := kernels, batch;
      lower, upper, reference := [], [], [];
      resident, residentUpper := None, false;
    }

    // What resident_ promises about a snapshot it names.
    ghost predicate Holds(item: Snapshot)
      reads this
    {
      && lower == item.lowerKv.cells
      && PosMax(lower) == |item.tokens| - 1
      && (residentUpper ==>
          && item.upperKv.Some?
          && upper == item.upperKv.value.cells
          && PosMax(upper) == |item.tokens| - 1)
    }

    // One llama_decode loop over prefill_chunks, on cells `start`.
    method DecodeAll<I>(range: Range<I, Column, Capture>, start: Cells, first: nat, items: seq<I>)
      returns (r: Result<seq<Capture>, Fault>, cells: Cells)
      requires 0 < batch && items != []
      ensures r.Ok? ==> Run(cells, r.value) == Prefill(range, start, first, items, batch)
      ensures r.Err? ==> r.error == DecodeFailed
    {
      hide RunSizes, Sizes;
      var split := PrefillChunks(|items|, batch);
      var sizes := split.value;
      SizesSplit(|items|, batch);
      cells := start;
      var outs: seq<Capture> := [];
      var offset: nat, i: nat := 0, 0;
      ghost var whole := Prefill(range, start, first, items, batch);
      assert items[0..] == items && sizes[0..] == sizes;
      assert outs + whole.outs == whole.outs;
      while i < |sizes|
        invariant i <= |sizes| && offset <= |items|
        invariant Sum(sizes[i..]) == |items| - offset
        invariant
          var rest := Rest(range, cells, first, items, sizes, offset, i);
          Run(rest.cells, outs + rest.outs) == whole
      {
        if * {
          return Err(DecodeFailed), *;
        }
        RestStep(range, cells, first, items, sizes, offset, i, outs);
        var step := Decode(range, cells, first + offset, items[offset..offset + sizes[i]]);
        cells, outs := step.cells, outs + step.outs;
        offset, i := offset + sizes[i], i + 1;
      }
      assert sizes[i..] == [] && items[offset..] == [];
      assert outs + [] == outs;
      r := Ok(outs);
    }

    method RunLower(tokens: seq<Token>, begin: nat, end: nat) returns (r: Result<seq<Row>, Fault>)
      requires 0 < batch
      modifies this`lower
      ensures end <= begin || end > |tokens| ==> r == Err(BadRange)
      ensures r.Ok? ==>
        && begin < end <= |tokens|
        && var run := LowerRun(kernels, batch, old(lower), tokens[begin..end]);
          lower == run.cells && r.value == Lasts(run.outs)
    {
      hide Prefill, PosMax;
      if end <= begin || end > |tokens| {
        return Err(BadRange);
      }
      var out, cells := DecodeAll(kernels.lower, lower, PosMax(lower) + 1, tokens[begin..end]);
      lower := cells;
      match out {
        case Ok(captures) => r := Ok(Lasts(captures));
        case Err(fault) => r := Err(fault);
      }
    }

    // Returns the H30 rows and the capture at the last position.
    method RunUpper(rows: seq<Row>, first: nat) returns (r: Result<(seq<Row>, Capture), Fault>)
      requires 0 < batch
      modifies this`upper
      ensures rows == [] ==> r == Err(BadRows)
      ensures r.Ok? ==>
        && rows != []
        && var run := UpperRun(kernels, batch, old(upper), first, rows);
          upper == run.cells && r.value == (Lasts(run.outs), Last(run.outs))
    {
      hide Prefill, PosMax;
      if rows == [] {
        return Err(BadRows);
      }
      var out, cells := DecodeAll(kernels.upper, upper, first, rows);
      upper := cells;
      match out {
        case Ok(captures) => r := Ok((Lasts(captures), Last(captures)));
        case Err(fault) => r := Err(fault);
      }
    }

    // Stock blocks over tokens[begin..end), on top of the reference cells or,
    // when `restart`, of none.
    method ReferenceAppend(tokens: seq<Token>, begin: nat, end: nat, restart: bool) returns (r: Result<Capture, Fault>)
      requires 0 < batch && begin < end <= |tokens|
      modifies this`reference
      ensures r.Ok? ==>
        var run := StockRun(kernels, batch, if restart then [] else old(reference), tokens[begin..end]);
        reference == run.cells && r.value == Last(run.outs)
    {
      hide Prefill, PosMax;
      if restart {
        reference := [];
      }
      var out, cells := DecodeAll(kernels.stock, reference, PosMax(reference) + 1, tokens[begin..end]);
      reference := cells;
      match out {
        case Ok(captures) => r := Ok(Last(captures));
        case Err(fault) => r := Err(fault);
      }
    }

    method ClearReference()
      modifies this`reference
      ensures reference == []
    {
      reference := [];
    }

    method SaveState(upperRange: bool) returns (r: Result<Cells, Fault>)
      ensures r.Ok? ==> r.value == if upperRange then upper else lower
    {
      if * {
        return Err(SaveFailed);
      }
      r := Ok(if upperRange then upper else lower);
    }

    method Clear()
      modifies this`lower, this`upper, this`resident, this`residentUpper
      ensures lower == [] && upper == [] && resident == None && !residentUpper
    {
      lower, upper := [], [];
      resident, residentUpper := None, false;
    }

    // The contexts hold all of the snapshot already.
    predicate HasResident(item: Snapshot)
      reads this
    {
      resident == Some(item.id) && (item.depth.D18? || residentUpper)
    }

    // Leaves the contexts holding the snapshot's cells. Returns restored bytes;
    // 0 when it was resident.
    method MakeResident(item: Snapshot) returns (r: Result<nat, Fault>)
      requires item.depth.D30? ==> item.upperKv.Some?
      requires resident == Some(item.id) ==> Holds(item)
      modifies this`lower, this`upper, this`resident, this`residentUpper
      ensures r.Ok? ==> resident == Some(item.id) && Holds(item) && (item.depth.D30? ==> residentUpper)
      ensures r.Ok? ==> r.value == if old(HasResident(item)) then 0 else StateBytes(kernels, item)
      ensures r.Ok? && !old(HasResident(item)) ==>
        r.value == kernels.stateBytes(lower) + if item.depth == D30 then kernels.stateBytes(upper) else 0
      ensures r.Ok? && old(resident) != Some(item.id) && item.depth.D18? ==> upper == []
      ensures r.Err? ==> resident == None && lower == [] && upper == []
    {
      hide PosMax;
      var held := |item.tokens| - 1;
      var wantUpper := item.depth == D30;
      if resident == Some(item.id) && (!wantUpper || residentUpper)
        && PosMax(lower) == held && (!wantUpper || PosMax(upper) == held)
      {
        return Ok(0);
      }
      Clear();
      if * {
        return Err(RestoreFailed);
      }
      lower := item.lowerKv.cells;
      var restored := kernels.stateBytes(lower);
      if wantUpper {
        if * {
          Clear();
          return Err(RestoreFailed);
        }
        upper := item.upperKv.value.cells;
        restored := restored + kernels.stateBytes(upper);
      }
      if PosMax(lower) != held || (wantUpper && PosMax(upper) != held) {
        Clear();
        return Err(NotHeld);
      }
      resident, residentUpper := Some(item.id), wantUpper;
      return Ok(restored);
    }

    // Drops everything past the snapshot's tokens.
    method TrimTo(item: Snapshot) returns (r: Result<(), Fault>)
      modifies this`lower, this`upper, this`resident, this`residentUpper
      ensures r.Ok? ==>
        && lower == Truncate(old(lower), |item.tokens|)
        && upper == Truncate(old(upper), |item.tokens|)
        && PosMax(lower) == |item.tokens| - 1
        && resident == old(resident) && residentUpper == old(residentUpper)
      ensures r.Err? ==> resident == None && lower == [] && upper == []
    {
      hide PosMax, Truncate;
      var length := |item.tokens|;
      if PosMax(lower) >= length {
        if * {
          Clear();
          return Err(TrimFailed);
        }
        lower := Truncate(lower, length);
      } else {
        TruncateAll(lower, length);
      }
      if PosMax(upper) >= length {
        if * {
          Clear();
          return Err(TrimFailed);
        }
        upper := Truncate(upper, length);
      } else {
        TruncateAll(upper, length);
      }
      if PosMax(lower) != length - 1 {
        Clear();
        return Err(NotHeld);
      }
      return Ok(());
    }

    method SetResident(id: Id, upperToo: bool)
      modifies this`resident, this`residentUpper
      ensures resident == Some(id) && residentUpper == upperToo
    {
      resident, residentUpper := Some(id), upperToo;
    }
  }
}
