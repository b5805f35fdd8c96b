// The whole point of the split worker: with exact causal kernels, whatever
// commands it served before, each answer is the uninterrupted model's answer to
// the full prompt.
module StockAnswers {
  import opened Common
  import opened Chunks
  import opened KvCache
  import opened Kernels
  import opened LayerSplit
  import opened SnapshotRuntime
  import opened WorkerSpec
  import opened WorkerRuns

  // The kernels are those of `model`, cut at block `split`.
  ghost predicate Causal(c: Config, model: Model, split: nat) {
    && 0 < c.batch && split <= |model.blocks|
    && c.kernels.lower == TokensRange(model, model.blocks[..split], split)
    && c.kernels.upper == RowsRange(model, model.blocks[split..], 0)
    && c.kernels.stock == TokensRange(model, model.blocks, split)
  }

  // -- What the model says, without caches, batches or a split -------------------

  function Residual(model: Model, depth: nat, tokens: seq<Token>): (r: seq<Row>)
    requires depth <= |model.blocks|
    ensures |r| == |tokens|
  {
    Through(model.blocks, depth, EmbedAt(model, 0, tokens))
  }

  // The head's input after the last token.
  function StockNormalized(model: Model, tokens: seq<Token>): Row
    requires tokens != []
  {
    model.norm(Last(Residual(model, |model.blocks|, tokens)))
  }

  function StockLogits(model: Model, tokens: seq<Token>): Logits
    requires tokens != []
  {
    model.head(model.norm(Last(Residual(model, |model.blocks|, tokens))))
  }

  // All that is read at the last token: its residual, the head's input, the logits.
  ghost predicate ReadsLast(model: Model, tokens: seq<Token>, seen: Capture) {
    && tokens != [] && seen.last == Last(Residual(model, |model.blocks|, tokens))
    && seen.normalized == StockNormalized(model, tokens) && seen.logits == StockLogits(model, tokens)
  }

  // Greedy decoding: the output and whether it ended at an end token.
  function Greedy(model: Model, k: Kernels, prompt: seq<Token>, output: seq<Token>, maxTokens: nat): (seq<Token>, bool)
    requires prompt != [] && |output| < maxTokens
    decreases maxTokens - |output|
  {
    var token := k.argmax(StockLogits(model, prompt));
    if k.isEog(token) then (output, true)
    else if |output| + 1 == maxTokens then (output + [token], false)
    else Greedy(model, k, prompt + [token], output + [token], maxTokens)
  }

  // -- Cells that hold exactly a prompt --------------------------------------------

  ghost predicate LowerHolds(model: Model, split: nat, tokens: seq<Token>, cells: Cells)
    requires split <= |model.blocks|
  {
    Holds(model.blocks[..split], EmbedAt(model, 0, tokens), cells)
  }

  ghost predicate UpperHolds(model: Model, split: nat, tokens: seq<Token>, cells: Cells)
    requires split <= |model.blocks|
  {
    Holds(model.blocks[split..], Residual(model, split, tokens), cells)
  }

  ghost predicate Exact(model: Model, split: nat, item: Snapshot)
    requires split <= |model.blocks|
  {
    && LowerHolds(model, split, item.tokens, item.lowerKv.cells)
    && (item.upperKv.Some? ==> UpperHolds(model, split, item.tokens, item.upperKv.value.cells))
    && (item.h18.Some? ==> item.h18.value == Residual(model, split, item.tokens))
    && (item.h30.Some? ==> item.h30.value == Residual(model, |model.blocks|, item.tokens))
    && (item.lastNormalized.Some? ==>
      item.tokens != [] && item.lastNormalized.value == StockNormalized(model, item.tokens))
  }

  // What is there at each depth, of a snapshot made by this worker.
  ghost predicate Whole(item: Snapshot) {
    && item.tokens != []
    && match item.depth
      case D18 => item.h18.Some? && item.upperKv.None? && item.h30.None? && item.lastNormalized.None?
      case D30 => item.upperKv.Some? && item.h30.Some? && item.lastNormalized.Some?
  }

  lemma EmbedConcat(model: Model, a: seq<Token>, b: seq<Token>)
    ensures EmbedAt(model, 0, a + b) == EmbedAt(model, 0, a) + EmbedAt(model, |a|, b)
  {
  }

  lemma HoldsPosMax(blocks: seq<Block>, rows: seq<Row>, cells: Cells)
    requires Holds(blocks, rows, cells)
    ensures PosMax(cells) == |rows| - 1
  {
    if cells != [] {
      ConsecutivePosMax(cells, 0);
    }
  }

  lemma LowerExact(c: Config, model: Model, split: nat, before: seq<Token>, suffix: seq<Token>, cells: Cells)
    requires Causal(c, model, split) && suffix != []
    requires LowerHolds(model, split, before, cells)
    ensures
      var run := LowerRun(c.kernels, c.batch, cells, suffix);
      && LowerHolds(model, split, before + suffix, run.cells)
      && Lasts(run.outs) == Residual(model, split, before + suffix)[|before|..]
  {
    hide Through, RunSizes, Sizes, PosMax;
    var below := model.blocks[..split];
    var rows, more := EmbedAt(model, 0, before), EmbedAt(model, |before|, suffix);
    var sizes := Sizes(|suffix|, c.batch);
    SizesSplit(|suffix|, c.batch);
    HoldsPosMax(below, rows, cells);
    EmbedConcat(model, before, suffix);
    TokensRun(model, below, split, cells, |before|, suffix, sizes);
    RunExact(model, below, split, cells, rows, more, sizes);
    ThroughTake(model.blocks, split, split, rows + more);
  }

  lemma ResidualPrefix(model: Model, depth: nat, before: seq<Token>, suffix: seq<Token>)
    requires depth <= |model.blocks|
    ensures Residual(model, depth, before + suffix) ==
      Residual(model, depth, before) + Residual(model, depth, before + suffix)[|before|..]
  {
    EmbedConcat(model, before, suffix);
    ThroughPrefix(model.blocks, depth, EmbedAt(model, 0, before), EmbedAt(model, |before|, suffix));
  }

  // The blocks above the split turn H18 rows into H30 rows.
  lemma ResidualAbove(model: Model, split: nat, tokens: seq<Token>)
    requires split <= |model.blocks|
    ensures Through(model.blocks[split..], |model.blocks| - split, Residual(model, split, tokens)) ==
      Residual(model, |model.blocks|, tokens)
  {
    var rows := EmbedAt(model, 0, tokens);
    ThroughTake(model.blocks, split, split, rows);
    ThroughCompose(model.blocks, split, |model.blocks|, rows);
  }

  lemma UpperExact(c: Config, model: Model, split: nat, before: seq<Token>, suffix: seq<Token>, cells: Cells)
    requires Causal(c, model, split) && suffix != []
    requires UpperHolds(model, split, before, cells)
    ensures
      var h18 := Residual(model, split, before + suffix)[|before|..];
      var run := UpperRun(c.kernels, c.batch, cells, |before|, h18);
      && UpperHolds(model, split, before + suffix, run.cells)
      && Lasts(run.outs) == Residual(model, |model.blocks|, before + suffix)[|before|..]
      && ReadsLast(model, before + suffix, Last(run.outs))
  {
    hide Through, RunSizes, Sizes;
    var all := Residual(model, split, before + suffix);
    ResidualPrefix(model, split, before, suffix);
    ResidualAbove(model, split, before + suffix);
    var more := all[|before|..];
    SizesSplit(|more|, c.batch);
    RunExact(model, model.blocks[split..], 0, cells, Residual(model, split, before), more, Sizes(|more|, c.batch));
  }

  // A branch off cells that hold a prompt.
  lemma BranchExact(c: Config, model: Model, split: nat, before: seq<Token>, suffix: seq<Token>, lower: Cells,
      upper: Cells)
    requires Causal(c, model, split) && suffix != []
    requires LowerHolds(model, split, before, lower) && UpperHolds(model, split, before, upper)
    ensures
      var b := BranchOn(c, lower, upper, |before|, suffix);
      && LowerHolds(model, split, before + suffix, b.lower)
      && UpperHolds(model, split, before + suffix, b.upper)
      && b.h18 == Residual(model, split, before + suffix)[|before|..]
      && b.h30 == Residual(model, |model.blocks|, before + suffix)[|before|..]
      && ReadsLast(model, before + suffix, b.seen)
  {
    LowerExact(c, model, split, before, suffix, lower);
    UpperExact(c, model, split, before, suffix, upper);
  }

  lemma EmptyHolds(model: Model, split: nat)
    requires split <= |model.blocks|
    ensures LowerHolds(model, split, [], []) && UpperHolds(model, split, [], [])
    ensures Holds(model.blocks, EmbedAt(model, 0, []), [])
  {
  }

  // A chunked prefill of the whole model, on top of what it already holds.
  lemma PrefillExact(stock: Range<Token, Column, Capture>, batch: nat, model: Model, split: nat, before: seq<Token>,
      suffix: seq<Token>, cells: Cells)
    requires 0 < batch && split <= |model.blocks| && stock == TokensRange(model, model.blocks, split) && suffix != []
    requires Holds(model.blocks, EmbedAt(model, 0, before), cells)
    ensures
      var run := Prefill(stock, cells, |before|, suffix, batch);
      && Holds(model.blocks, EmbedAt(model, 0, before + suffix), run.cells)
      && |run.outs| == |suffix| && ReadsLast(model, before + suffix, Last(run.outs))
  {
    hide Through, RunSizes, Sizes, PosMax;
    var rows, more := EmbedAt(model, 0, before), EmbedAt(model, |before|, suffix);
    var sizes := Sizes(|suffix|, batch);
    SizesSplit(|suffix|, batch);
    EmbedConcat(model, before, suffix);
    TokensRun(model, model.blocks, split, cells, |before|, suffix, sizes);
    RunExact(model, model.blocks, split, cells, rows, more, sizes);
  }

  lemma StockExact(c: Config, model: Model, split: nat, before: seq<Token>, suffix: seq<Token>, cells: Cells)
    requires Causal(c, model, split) && suffix != []
    requires Holds(model.blocks, EmbedAt(model, 0, before), cells)
    ensures
      var run := StockRun(c.kernels, c.batch, cells, suffix);
      && Holds(model.blocks, EmbedAt(model, 0, before + suffix), run.cells)
      && ReadsLast(model, before + suffix, Last(run.outs))
  {
    hide Holds, ReadsLast, Prefill, PosMax;
    HoldsPosMax(model.blocks, EmbedAt(model, 0, before), cells);
    PrefillExact(c.kernels.stock, c.batch, model, split, before, suffix, cells);
  }

  // -- Every snapshot of a run is exact ---------------------------------------------

  ghost predicate AllExact(model: Model, split: nat, st: State)
    requires split <= |model.blocks|
  {
    forall id :: id in st.snapshots ==> Exact(model, split, st.snapshots[id])
  }

  lemma Made18Exact(c: Config, model: Model, split: nat, id: Id, kind: Kind, tokens: seq<Token>, digest: Digest,
      tag: nat)
    requires Causal(c, model, split) && tokens != []
    ensures Exact(model, split, Made18(c, id, kind, tokens, digest, tag))
  {
    assert [] + tokens == tokens;
    EmptyHolds(model, split);
    LowerExact(c, model, split, [], tokens, []);
    var all := Residual(model, split, tokens);
    assert all[0..] == all;
  }

  lemma Made30Exact(c: Config, model: Model, split: nat, id: Id, from: Snapshot, paired: bool, tag: nat)
    requires Causal(c, model, split) && Exact(model, split, from)
    requires from.h18.Some? && from.h18.value != []
    ensures Exact(model, split, Made30(c, id, from, paired, tag))
  {
    assert [] + from.tokens == from.tokens;
    EmptyHolds(model, split);
    UpperExact(c, model, split, [], from.tokens, []);
    var h18, h30 := Residual(model, split, from.tokens), Residual(model, |model.blocks|, from.tokens);
    assert h18[0..] == h18 && h30[0..] == h30;
  }

  lemma BranchOfExact(c: Config, model: Model, split: nat, parent: Snapshot, full: seq<Token>)
    requires Causal(c, model, split) && Exact(model, split, parent)
    requires parent.upperKv.Some? && Extends(full, parent.tokens)
    ensures
      var b := BranchOf(c, parent, full);
      && LowerHolds(model, split, full, b.lower)
      && UpperHolds(model, split, full, b.upper)
      && b.h18 == Residual(model, split, full)[|parent.tokens|..]
      && b.h30 == Residual(model, |model.blocks|, full)[|parent.tokens|..]
      && ReadsLast(model, full, b.seen)
  {
    var suffix := full[|parent.tokens|..];
    assert full == parent.tokens + suffix;
    BranchExact(c, model, split, parent.tokens, suffix, parent.lowerKv.cells, parent.upperKv.value.cells);
  }

  lemma ChildExact(c: Config, model: Model, split: nat, parent: Snapshot, full: seq<Token>, digest: Digest, id: Id,
      tag: nat)
    requires Causal(c, model, split) && Exact(model, split, parent)
    requires parent.upperKv.Some? && Extends(full, parent.tokens)
    ensures Exact(model, split, ChildOf(c, parent, full, digest, id, tag))
  {
    hide Through, Holds, BranchOn;
    BranchOfExact(c, model, split, parent, full);
    var suffix := full[|parent.tokens|..];
    assert full == parent.tokens + suffix;
    ResidualPrefix(model, split, parent.tokens, suffix);
    ResidualPrefix(model, |model.blocks|, parent.tokens, suffix);
  }

  lemma {:induction false} PublishedExact(c: Config, model: Model, split: nat, st: State, of: Id, qs: seq<Question>,
      i: nat)
    requires Causal(c, model, split) && AllExact(model, split, st)
    requires Admitted(c, st, of, qs) && i <= |qs|
    ensures AllExact(model, split, PublishedAll(c, st, st.snapshots[of], qs[..i]))
    decreases i
  {
    hide ChildOf, Exact;
    if i > 0 {
      PublishedExact(c, model, split, st, of, qs, i - 1);
      PublishedSnoc(c, st, st.snapshots[of], qs, i - 1);
      var q, now := qs[i - 1], PublishedAll(c, st, st.snapshots[of], qs[..i - 1]);
      if q.saveAs.Some? {
        ChildExact(c, model, split, st.snapshots[of], q.full, q.digest, q.saveAs.value, now.nextTag);
      }
    }
  }

  // Files written for an exact snapshot are exact again when loaded.
  ghost predicate ExactFiles(model: Model, split: nat, files: Saved)
    requires split <= |model.blocks|
  {
    files.lower.Some? ==> forall id, tag :: Exact(model, split, FromFiles(id, files, tag))
  }

  lemma SavedFilesExact(model: Model, split: nat, item: Snapshot)
    requires split <= |model.blocks| && Exact(model, split, item)
    ensures ExactFiles(model, split, FilesOf(item))
  {
    hide Holds, Through;
  }

  lemma StepExact(c: Config, model: Model, split: nat, st: State, cmd: Command, resp: Response, st': State)
    requires Causal(c, model, split) && AllExact(model, split, st)
    requires Step(c, st, cmd, resp, st')
    requires cmd.Load? && cmd.files.Some? ==> ExactFiles(model, split, cmd.files.value)
    ensures AllExact(model, split, st')
  {
    hide Exact, Made18, Made30, FromFiles, ChildOf, BranchOf;
    if st' != st {
      match cmd
      case Create(id18, id30, kind, tokens, digest) => CreateExact(c, model, split, st, cmd);
      case Promote(of, newId) => Made30Exact(c, model, split, newId, st.snapshots[of], true, st.nextTag);
      case Evaluate(of, qs) =>
        assert qs[..|qs|] == qs;
        var j :| 0 <= j <= |qs| && st' == PublishedAll(c, st, st.snapshots[of], qs[..j]);
        PublishedExact(c, model, split, st, of, qs, j);
      case StateEval(of, q) =>
        assert [q][..0] == [] && [q][..1] == [q];
        PublishedSnoc(c, st, st.snapshots[of], [q], 0);
        var j :| 0 <= j <= 1 && st' == PublishedAll(c, st, st.snapshots[of], [q][..j]);
        PublishedExact(c, model, split, st, of, [q], j);
      case Load(id, files) => assert Exact(model, split, FromFiles(id, files.value, st.nextTag));
      case _ =>
    }
  }

  lemma CreateExact(c: Config, model: Model, split: nat, st: State, cmd: Command)
    requires Causal(c, model, split) && AllExact(model, split, st)
    requires cmd.Create? && cmd.tokens != []
    ensures AllExact(model, split, AfterCreate(c, st, cmd))
  {
    if cmd.id18.Some? || cmd.id30.Some? {
      var id := if cmd.id18.Some? then cmd.id18.value else cmd.id30.value;
      var s18 := Made18(c, id, cmd.kind, cmd.tokens, cmd.digest, st.nextTag);
      Made18Exact(c, model, split, id, cmd.kind, cmd.tokens, cmd.digest, st.nextTag);
      if cmd.id30.Some? {
        Made30Exact(c, model, split, cmd.id30.value, s18, cmd.id18.Some?, st.nextTag + 1);
      }
    }
  }

  // A run loads only files of exact snapshots.
  ghost predicate LoadsExact(model: Model, split: nat, cmds: seq<Command>)
    requires split <= |model.blocks|
  {
    forall i :: 0 <= i < |cmds| && cmds[i].Load? && cmds[i].files.Some? ==>
      ExactFiles(model, split, cmds[i].files.value)
  }

  lemma {:induction false} RunExactly(c: Config, model: Model, split: nat, states: seq<State>, cmds: seq<Command>,
      resps: seq<Response>, i: nat)
    requires Causal(c, model, split) && Served(c, states, cmds, resps) && i <= |cmds|
    requires AllExact(model, split, states[0]) && LoadsExact(model, split, cmds)
    ensures AllExact(model, split, states[i])
    decreases i
  {
    hide Step, AllExact;
    if i > 0 {
      RunExactly(c, model, split, states, cmds, resps, i - 1);
      StepExact(c, model, split, states[i - 1], cmds[i - 1], resps[i - 1], states[i]);
    }
  }

  // -- What a command registers ------------------------------------------------------------

  // An 18 of these tokens: the lower cells and boundary rows, nothing of the upper
  // blocks, and a lower blob of its own.
  ghost predicate Low(model: Model, split: nat, s: Snapshot, id: Id, kind: Kind, tokens: seq<Token>, digest: Digest)
    requires split <= |model.blocks|
  {
    && s.id == id && s.depth == D18 && s.parent == None && s.kind == kind && s.tokens == tokens && s.digest == digest
    && LowerHolds(model, split, tokens, s.lowerKv.cells) && s.upperKv == None
    && s.h18 == Some(Residual(model, split, tokens)) && s.h30 == None && s.lastNormalized == None && s.lowerOwned
  }

  // A 30 of these tokens: both ranges' cells, the output rows and the head's input
  // after the last token. Beside its 18 it shares the lower blob and names the 18,
  // which keeps the boundary rows; alone it has both itself.
  ghost predicate Full(model: Model, split: nat, s: Snapshot, id: Id, kind: Kind, tokens: seq<Token>, digest: Digest,
      beside: Option<Snapshot>)
    requires split <= |model.blocks|
  {
    && s.id == id && s.depth == D30 && s.kind == kind && s.tokens == tokens && s.digest == digest && tokens != []
    && LowerHolds(model, split, tokens, s.lowerKv.cells)
    && s.upperKv.Some? && UpperHolds(model, split, tokens, s.upperKv.value.cells)
    && s.h30 == Some(Residual(model, |model.blocks|, tokens))
    && s.lastNormalized == Some(StockNormalized(model, tokens))
    && match beside
      case Some(low) => s.parent == Some(low.id) && s.lowerKv == low.lowerKv && s.h18 == None && !s.lowerOwned
      case None => s.parent == None && s.h18 == Some(Residual(model, split, tokens)) && s.lowerOwned
  }

  // A child of a branch: the whole prompt in blobs of its own, joined to what rows
  // the parent has.
  ghost predicate Grown(model: Model, split: nat, s: Snapshot, id: Id, parent: Snapshot, full: seq<Token>,
      digest: Digest)
    requires split <= |model.blocks|
  {
    && s.id == id && s.depth == D30 && s.parent == Some(parent.id) && s.kind == Readout && s.tokens == full
    && s.digest == digest && full != [] && s.lowerOwned
    && LowerHolds(model, split, full, s.lowerKv.cells)
    && s.upperKv.Some? && UpperHolds(model, split, full, s.upperKv.value.cells)
    && s.h18 == (if parent.h18.Some? then Some(Residual(model, split, full)) else None)
    && s.h30 == (if parent.h30.Some? then Some(Residual(model, |model.blocks|, full)) else None)
    && s.lastNormalized == Some(StockNormalized(model, full))
  }

  // With causal kernels, what a create leaves: the checkpoints asked for, as above,
  // and everything else as it was.
  ghost predicate CreatedRight(c: Config, st: State, cmd: Command, st': State)
    requires cmd.Create?
  {
    && (forall id :: id in st.snapshots && Some(id) != cmd.id18 && Some(id) != cmd.id30 ==>
      id in st'.snapshots && st'.snapshots[id] == st.snapshots[id])
    && (forall id :: id in st'.snapshots ==> id in st.snapshots || Some(id) == cmd.id18 || Some(id) == cmd.id30)
    && forall model: Model, split: nat :: Causal(c, model, split) ==> Checkpointed(model, split, st'.snapshots, cmd)
  }

  ghost predicate Checkpointed(model: Model, split: nat, made: map<Id, Snapshot>, cmd: Command)
    requires cmd.Create? && split <= |model.blocks|
  {
    && (cmd.id18.Some? ==>
      && cmd.id18.value in made
      && Low(model, split, made[cmd.id18.value], cmd.id18.value, cmd.kind, cmd.tokens, cmd.digest))
    && (cmd.id30.Some? ==>
      && cmd.id30.value in made
      && Full(model, split, made[cmd.id30.value], cmd.id30.value, cmd.kind, cmd.tokens, cmd.digest,
        if cmd.id18.Some? then Some(made[cmd.id18.value]) else None))
  }

  lemma LowMade(c: Config, model: Model, split: nat, id: Id, kind: Kind, tokens: seq<Token>, digest: Digest, tag: nat)
    requires Causal(c, model, split) && tokens != []
    ensures Low(model, split, Made18(c, id, kind, tokens, digest, tag), id, kind, tokens, digest)
  {
    hide Holds, Residual, LowerRun;
    Made18Exact(c, model, split, id, kind, tokens, digest, tag);
  }

  lemma FullMade(c: Config, model: Model, split: nat, id: Id, from: Snapshot, paired: bool, tag: nat)
    requires Causal(c, model, split) && Exact(model, split, from) && from.tokens != [] && from.h18.Some?
    requires from.h18.value != []
    ensures Full(model, split, Made30(c, id, from, paired, tag), id, from.kind, from.tokens, from.digest,
      if paired then Some(from) else None)
  {
    hide Holds, Residual, UpperRun, StockNormalized;
    Made30Exact(c, model, split, id, from, paired, tag);
  }

  lemma CreateRight(c: Config, st: State, cmd: Command)
    requires 0 < c.batch && cmd.Create? && cmd.tokens != [] && cmd.id18 != cmd.id30
    ensures CreatedRight(c, st, cmd, AfterCreate(c, st, cmd))
  {
    hide Low, Full, Made18, Made30, Exact;
    forall model: Model, split: nat | Causal(c, model, split)
      ensures Checkpointed(model, split, AfterCreate(c, st, cmd).snapshots, cmd)
    {
      if cmd.id18.Some? || cmd.id30.Some? {
        var id := if cmd.id18.Some? then cmd.id18.value else cmd.id30.value;
        var s18 := Made18(c, id, cmd.kind, cmd.tokens, cmd.digest, st.nextTag);
        LowMade(c, model, split, id, cmd.kind, cmd.tokens, cmd.digest, st.nextTag);
        LowExact(model, split, s18, id, cmd.kind, cmd.tokens, cmd.digest);
        if cmd.id30.Some? {
          FullMade(c, model, split, cmd.id30.value, s18, cmd.id18.Some?, st.nextTag + 1);
        }
      }
    }
  }

  lemma LowExact(model: Model, split: nat, s: Snapshot, id: Id, kind: Kind, tokens: seq<Token>, digest: Digest)
    requires split <= |model.blocks| && Low(model, split, s, id, kind, tokens, digest) && tokens != []
    ensures Exact(model, split, s) && s.tokens == tokens && s.kind == kind && s.digest == digest && s.lowerOwned
    ensures s.h18.Some? && s.h18.value != []
  {
    hide Holds;
  }

  // What a promotion adds to what is there, beside an exact 18.
  ghost predicate PromotedRight(c: Config, st: State, of: Id, newId: Id, st': State) {
    && of in st.snapshots && st'.snapshots.Keys == st.snapshots.Keys + {newId}
    && (forall id :: id in st.snapshots ==> st'.snapshots[id] == st.snapshots[id])
    && var from := st.snapshots[of];
      forall model: Model, split: nat :: Causal(c, model, split) && Exact(model, split, from) ==>
        Full(model, split, st'.snapshots[newId], newId, from.kind, from.tokens, from.digest, Some(from))
  }

  lemma PromoteRight(c: Config, st: State, of: Id, newId: Id)
    requires 0 < c.batch && of in st.snapshots && newId !in st.snapshots && st.snapshots[of].tokens != []
    requires st.snapshots[of].h18.Some? && st.snapshots[of].h18.value != []
    ensures PromotedRight(c, st, of, newId, WithPromotion(c, st, of, newId))
  {
    hide Full, Made30, Exact;
    var from := st.snapshots[of];
    forall model: Model, split: nat | Causal(c, model, split) && Exact(model, split, from)
      ensures Full(model, split, WithPromotion(c, st, of, newId).snapshots[newId], newId, from.kind, from.tokens,
        from.digest, Some(from))
    {
      FullMade(c, model, split, newId, from, true, st.nextTag);
    }
  }

  // What a branch of an exact 30 saves.
  ghost predicate GrownRight(c: Config, parent: Snapshot, q: Question, id: Id, s: Snapshot) {
    forall model: Model, split: nat :: Causal(c, model, split) && Exact(model, split, parent) ==>
      Grown(model, split, s, id, parent, q.full, q.digest)
  }

  lemma ChildRight(c: Config, parent: Snapshot, q: Question, id: Id, tag: nat)
    requires 0 < c.batch && parent.upperKv.Some? && Extends(q.full, parent.tokens)
    ensures GrownRight(c, parent, q, id, ChildOf(c, parent, q.full, q.digest, id, tag))
  {
    forall model: Model, split: nat | Causal(c, model, split) && Exact(model, split, parent)
      ensures Grown(model, split, ChildOf(c, parent, q.full, q.digest, id, tag), id, parent, q.full, q.digest)
    {
      ChildGrown(c, model, split, parent, q, id, tag);
    }
  }

  lemma ChildGrown(c: Config, model: Model, split: nat, parent: Snapshot, q: Question, id: Id, tag: nat)
    requires Causal(c, model, split) && Exact(model, split, parent)
    requires parent.upperKv.Some? && Extends(q.full, parent.tokens)
    ensures Grown(model, split, ChildOf(c, parent, q.full, q.digest, id, tag), id, parent, q.full, q.digest)
  {
    hide Through, Holds, BranchOn, Residual, StockNormalized;
    ChildExact(c, model, split, parent, q.full, q.digest, id, tag);
  }

  // -- The answers ----------------------------------------------------------------------

  // Every branch of every run reads the uninterrupted model's logits for its full
  // prompt: through promotions, saved children of children, reloads and failures.
  lemma AnswersAreStock(c: Config, model: Model, split: nat, states: seq<State>, cmds: seq<Command>,
      resps: seq<Response>, i: nat, of: Id, full: seq<Token>, branch: Branch)
    requires Causal(c, model, split) && Served(c, states, cmds, resps) && i < |cmds|
    requires states[0].snapshots == map[] && LoadsExact(model, split, cmds)
    requires Branches(cmds[i], resps[i], of, full, branch)
    ensures ReadsLast(model, full, branch.seen)
  {
    hide Step;
    RunExactly(c, model, split, states, cmds, resps, i);
    BranchPurity(c, states, cmds, resps, i, of, full, branch);
    BranchOfExact(c, model, split, states[i].snapshots[of], full);
  }

  ghost predicate EngineHolds(model: Model, split: nat, tokens: seq<Token>, engine: Engine)
    requires split <= |model.blocks|
  {
    match engine
    case Split(lower, upper) => LowerHolds(model, split, tokens, lower) && UpperHolds(model, split, tokens, upper)
    case Stock(cells) => Holds(model.blocks, EmbedAt(model, 0, tokens), cells)
  }

  lemma AdvanceExact(c: Config, model: Model, split: nat, engine: Engine, sequence: seq<Token>, begin: nat)
    requires Causal(c, model, split) && begin < |sequence|
    requires EngineHolds(model, split, sequence[..begin], engine)
    ensures
      var (e, seen) := Advance(c, engine, sequence, begin);
      EngineHolds(model, split, sequence, e) && seen.logits == StockLogits(model, sequence)
  {
    hide BranchOn, StockRun;
    var before, suffix := sequence[..begin], sequence[begin..];
    assert before + suffix == sequence;
    match engine
    case Split(lower, upper) => BranchExact(c, model, split, before, suffix, lower, upper);
    case Stock(cells) =>
      assert begin == 0 ==> before == [];
      EmptyHolds(model, split);
      StockExact(c, model, split, before, suffix, if begin == 0 then [] else cells);
  }

  // Every entry of a trace is what the model says after the output so far.
  ghost predicate Traced(model: Model, prompt: seq<Token>, ride: Rider) {
    && prompt != []
    && forall i :: 0 <= i < |ride.steps| ==>
        i <= |ride.output| && ride.steps[i] == StockLogits(model, prompt + ride.output[..i])
  }

  lemma TracedNext(model: Model, prompt: seq<Token>, so: Rider, token: Token, logits: Logits, eog: bool, work: nat)
    requires Traced(model, prompt, so) && |so.steps| == |so.output|
    requires logits == StockLogits(model, prompt + so.output)
    ensures Traced(model, prompt, Rider(so.output + [token], so.steps + [logits], eog, work))
    ensures Traced(model, prompt, Rider(so.output, so.steps + [logits], eog, work))
  {
    hide StockLogits;
    forall i | 0 <= i < |so.steps| + 1
      ensures (so.steps + [logits])[i] == StockLogits(model, prompt + (so.output + [token])[..i])
      ensures (so.steps + [logits])[i] == StockLogits(model, prompt + so.output[..i])
    {
      assert (so.output + [token])[..i] == so.output[..i];
      assert so.output[..|so.output|] == so.output;
    }
  }

  lemma {:induction false} GenerateIsGreedy(c: Config, model: Model, split: nat, engine: Engine, seen: Capture,
      prompt: seq<Token>, sequence: seq<Token>, so: Rider, maxTokens: nat)
    requires Causal(c, model, split) && sequence != [] && |so.output| < maxTokens
    requires EngineHolds(model, split, sequence, engine) && seen.logits == StockLogits(model, sequence)
    requires sequence == prompt + so.output && Traced(model, prompt, so) && |so.steps| == |so.output|
    ensures
      var ride := Generate(c, engine, seen, sequence, so, maxTokens);
      && (ride.output, ride.eog) == Greedy(model, c.kernels, sequence, so.output, maxTokens)
      && Traced(model, prompt, ride)
    decreases maxTokens - |so.output|
  {
    hide Advance, EngineHolds, StockLogits, Traced;
    TracedNext(model, prompt, so, c.kernels.argmax(seen.logits), seen.logits, so.eog, so.work);
    TracedNext(model, prompt, so, c.kernels.argmax(seen.logits), seen.logits, true, so.work);
    TracedNext(model, prompt, so, c.kernels.argmax(seen.logits), seen.logits, false, so.work);
    TracedNext(model, prompt, so, c.kernels.argmax(seen.logits), seen.logits, false, so.work + 1);
    var token := c.kernels.argmax(seen.logits);
    var output := so.output + [token];
    if !c.kernels.isEog(token) && |output| < maxTokens {
      var next := sequence + [token];
      assert next[..|sequence|] == sequence;
      AdvanceExact(c, model, split, engine, next, |sequence|);
      var (e, s) := Advance(c, engine, next, |sequence|);
      assert next == prompt + output;
      GenerateIsGreedy(c, model, split, e, s, prompt, next, Rider(output, so.steps + [seen.logits], false, so.work + 1),
        maxTokens);
    }
  }

  lemma RideFromIsGreedy(c: Config, model: Model, split: nat, engine: Engine, full: seq<Token>, from: nat, work: nat,
      maxTokens: nat)
    requires Causal(c, model, split) && from < |full| && 0 < maxTokens
    requires EngineHolds(model, split, full[..from], engine)
    ensures
      var ride := RideFrom(c, engine, full, from, work, maxTokens);
      Traced(model, full, ride) && (ride.output, ride.eog) == Greedy(model, c.kernels, full, [], maxTokens)
  {
    hide Advance, EngineHolds;
    AdvanceExact(c, model, split, engine, full, from);
    var (e, s) := Advance(c, engine, full, from);
    assert full + [] == full;
    GenerateIsGreedy(c, model, split, e, s, full, full, Rider([], [], false, work + |full| - from), maxTokens);
  }

  // All three ride modes generate the model's greedy continuation of the prompt.
  lemma RidesAreGreedy(c: Config, model: Model, split: nat, states: seq<State>, cmds: seq<Command>,
      resps: seq<Response>, i: nat)
    requires Causal(c, model, split) && Served(c, states, cmds, resps) && i < |cmds|
    requires states[0].snapshots == map[] && LoadsExact(model, split, cmds)
    requires cmds[i].Ride? && resps[i].Rode?
    ensures cmds[i].full != [] && 0 < cmds[i].maxTokens
    ensures (resps[i].ride.output, resps[i].ride.eog) == Greedy(model, c.kernels, cmds[i].full, [], cmds[i].maxTokens)
    ensures Traced(model, cmds[i].full, resps[i].ride)
  {
    RunExactly(c, model, split, states, cmds, resps, i);
    assert Step(c, states[i], cmds[i], resps[i], states[i + 1]);
    RideOfIsGreedy(c, model, split, states[i], cmds[i].mode, cmds[i].full, cmds[i].maxTokens);
  }

  lemma RideOfIsGreedy(c: Config, model: Model, split: nat, st: State, mode: Mode, full: seq<Token>, maxTokens: nat)
    requires Causal(c, model, split) && AllExact(model, split, st)
    requires full != [] && RideAdmitted(c, st, mode, full, maxTokens)
    ensures
      var ride := RideOf(c, st, mode, full, maxTokens);
      Traced(model, full, ride) && (ride.output, ride.eog) == Greedy(model, c.kernels, full, [], maxTokens)
  {
    hide RideFrom, Advance;
    EmptyHolds(model, split);
    match mode
    case FromSnapshot(id) =>
      var parent := st.snapshots[id];
      RideFromIsGreedy(c, model, split, Split(parent.lowerKv.cells, parent.upperKv.value.cells), full, |parent.tokens|,
        0, maxTokens);
    case SplitPrefill(brk) => BaselineIsGreedy(c, model, split, Split([], []), full, brk, maxTokens);
    case Reference(brk) => BaselineIsGreedy(c, model, split, Stock([]), full, brk, maxTokens);
  }

  lemma BaselineIsGreedy(c: Config, model: Model, split: nat, engine: Engine, full: seq<Token>, brk: nat,
      maxTokens: nat)
    requires Causal(c, model, split) && brk < |full| && 0 < maxTokens
    requires EngineHolds(model, split, [], engine)
    ensures
      var ride := RideBaseline(c, engine, full, brk, maxTokens);
      Traced(model, full, ride) && (ride.output, ride.eog) == Greedy(model, c.kernels, full, [], maxTokens)
  {
    hide RideFrom, Advance, EngineHolds;
    if brk == 0 {
      assert full[..0] == [];
      RideFromIsGreedy(c, model, split, engine, full, 0, 0, maxTokens);
    } else {
      var head := full[..brk];
      assert head[..0] == [];
      AdvanceExact(c, model, split, engine, head, 0);
      RideFromIsGreedy(c, model, split, Advance(c, engine, head, 0).0, full, brk, brk, maxTokens);
    }
  }

  // -- What is there at each depth -----------------------------------------------------

  ghost predicate AllWhole(st: State) {
    forall id :: id in st.snapshots ==> Whole(st.snapshots[id])
  }

  ghost predicate WholeFiles(files: Saved) {
    files.lower.Some? ==> forall id, tag :: Whole(FromFiles(id, files, tag))
  }

  lemma MadeWhole(c: Config, st: State, cmd: Command)
    requires 0 < c.batch && cmd.Create? && cmd.tokens != [] && AllWhole(st)
    ensures AllWhole(AfterCreate(c, st, cmd))
  {
    hide LowerRun, UpperRun;
  }

  lemma ChildWhole(c: Config, parent: Snapshot, full: seq<Token>, digest: Digest, id: Id, tag: nat)
    requires 0 < c.batch && Whole(parent) && parent.depth.D30? && Extends(full, parent.tokens)
    ensures Whole(ChildOf(c, parent, full, digest, id, tag))
  {
    hide BranchOn;
  }

  lemma {:induction false} PublishedWhole(c: Config, st: State, of: Id, qs: seq<Question>, n: nat)
    requires 0 < c.batch && Admitted(c, st, of, qs) && AllWhole(st) && n <= |qs|
    ensures AllWhole(PublishedAll(c, st, st.snapshots[of], qs[..n]))
  {
    hide ChildOf, Whole;
    if 0 < n {
      PublishedWhole(c, st, of, qs, n - 1);
      PublishedSnoc(c, st, st.snapshots[of], qs, n - 1);
      var q, now := qs[n - 1], PublishedAll(c, st, st.snapshots[of], qs[..n - 1]);
      if q.saveAs.Some? {
        ChildWhole(c, st.snapshots[of], q.full, q.digest, q.saveAs.value, now.nextTag);
      }
    }
  }

  lemma StepWhole(c: Config, st: State, cmd: Command, resp: Response, st': State)
    requires 0 < c.batch && Step(c, st, cmd, resp, st') && AllWhole(st)
    requires cmd.Load? && cmd.files.Some? ==> WholeFiles(cmd.files.value)
    ensures AllWhole(st')
  {
    hide Made18, Made30, FromFiles, ChildOf, BranchOf, AfterCreate, PublishedAll;
    if st' != st {
      match cmd
      case Create(_, _, _, _, _) => MadeWhole(c, st, cmd);
      case Promote(of, newId) => PromotionWhole(c, st, of, newId);
      case Evaluate(of, qs) =>
        assert qs[..|qs|] == qs;
        var j :| 0 <= j <= |qs| && st' == PublishedAll(c, st, st.snapshots[of], qs[..j]);
        PublishedWhole(c, st, of, qs, j);
      case StateEval(of, q) =>
        assert [q][..0] == [] && [q][..1] == [q];
        PublishedSnoc(c, st, st.snapshots[of], [q], 0);
        NonePublished(c, st, st.snapshots[of], [q]);
        var j :| 0 <= j <= 1 && st' == PublishedAll(c, st, st.snapshots[of], [q][..j]);
        PublishedWhole(c, st, of, [q], j);
      case Load(id, files) => assert Whole(FromFiles(id, files.value, st.nextTag));
      case _ =>
    }
  }

  lemma NonePublished(c: Config, st: State, parent: Snapshot, qs: seq<Question>)
    requires 0 < c.batch && parent.upperKv.Some?
    ensures PublishedAll(c, st, parent, qs[..0]) == st
  {
  }

  lemma PromotionWhole(c: Config, st: State, of: Id, newId: Id)
    requires 0 < c.batch && of in st.snapshots && AllWhole(st)
    requires st.snapshots[of].h18.Some? && st.snapshots[of].h18.value != []
    ensures AllWhole(WithPromotion(c, st, of, newId))
  {
    hide UpperRun;
  }

  // -- Whatever model the kernels were cut from ---------------------------------------

  ghost predicate Faithful(c: Config, item: Snapshot) {
    Whole(item) && forall model: Model, split: nat :: Causal(c, model, split) ==> Exact(model, split, item)
  }

  ghost predicate FaithfulFiles(c: Config, files: Saved) {
    WholeFiles(files) && forall model: Model, split: nat :: Causal(c, model, split) ==> ExactFiles(model, split, files)
  }

  ghost predicate AllFaithful(c: Config, held: map<Id, Snapshot>) {
    forall id :: id in held ==> Faithful(c, held[id])
  }

  lemma SavedFaithful(c: Config, item: Snapshot)
    requires Faithful(c, item)
    ensures FaithfulFiles(c, FilesOf(item))
  {
    FilesWhole(item);
    hide Exact, ExactFiles, FilesOf;
    forall model: Model, split: nat | Causal(c, model, split)
      ensures ExactFiles(model, split, FilesOf(item))
    {
      SavedFilesExact(model, split, item);
    }
  }

  lemma FilesWhole(item: Snapshot)
    requires Whole(item)
    ensures WholeFiles(FilesOf(item))
  {
  }

  lemma LoadedFaithful(c: Config, id: Id, files: Saved, tag: nat)
    requires FaithfulFiles(c, files) && files.lower.Some?
    ensures Faithful(c, FromFiles(id, files, tag))
  {
    hide Exact, FromFiles, Whole;
    assert Whole(FromFiles(id, files, tag));
    forall model: Model, split: nat | Causal(c, model, split)
      ensures Exact(model, split, FromFiles(id, files, tag))
    {
      assert ExactFiles(model, split, files);
    }
  }

  lemma StepFaithful(c: Config, st: State, cmd: Command, resp: Response, st': State)
    requires 0 < c.batch && AllFaithful(c, st.snapshots) && !cmd.Load?
    requires Step(c, st, cmd, resp, st')
    ensures AllFaithful(c, st'.snapshots)
  {
    hide Exact, Step, Whole;
    StepWhole(c, st, cmd, resp, st');
    forall id, model: Model, split: nat | id in st'.snapshots && Causal(c, model, split)
      ensures Exact(model, split, st'.snapshots[id])
    {
      StepExact(c, model, split, st, cmd, resp, st');
    }
  }

  // A branch off a faithful snapshot reads the uninterrupted model's logits.
  lemma BranchIsStock(c: Config, model: Model, split: nat, parent: Snapshot, full: seq<Token>)
    requires Causal(c, model, split) && Faithful(c, parent) && parent.upperKv.Some? && Extends(full, parent.tokens)
    ensures ReadsLast(model, full, BranchOf(c, parent, full).seen)
  {
    hide Exact;
    BranchOfExact(c, model, split, parent, full);
  }

  // A ride on one is greedy.
  lemma RideIsGreedy(c: Config, model: Model, split: nat, parent: Snapshot, full: seq<Token>, maxTokens: nat)
    requires Causal(c, model, split) && Faithful(c, parent) && parent.upperKv.Some? && Extends(full, parent.tokens)
    requires 0 < maxTokens
    ensures
      var ride := RideFrom(c, Split(parent.lowerKv.cells, parent.upperKv.value.cells), full, |parent.tokens|, 0,
        maxTokens);
      Traced(model, full, ride) && (ride.output, ride.eog) == Greedy(model, c.kernels, full, [], maxTokens)
  {
    hide RideFrom, Greedy;
    assert Exact(model, split, parent);
    assert full[..|parent.tokens|] == parent.tokens;
    RideFromIsGreedy(c, model, split, Split(parent.lowerKv.cells, parent.upperKv.value.cells), full, |parent.tokens|,
      0, maxTokens);
  }

  // So is what a create reads.
  lemma CreatedIsStock(c: Config, model: Model, split: nat, cmd: Command)
    requires Causal(c, model, split) && cmd.Create? && cmd.tokens != [] && CreateReadout(c, cmd).Some?
    ensures CreateReadout(c, cmd).value == StockLogits(model, cmd.tokens)
  {
    hide LowerRun, UpperRun, Holds, Residual, StockLogits;
    var all := Residual(model, split, cmd.tokens);
    assert [] + cmd.tokens == cmd.tokens && all[0..] == all;
    var tops := Residual(model, |model.blocks|, cmd.tokens);
    assert tops[0..] == tops;
    EmptyHolds(model, split);
    LowerExact(c, model, split, [], cmd.tokens, []);
    UpperExact(c, model, split, [], cmd.tokens, []);
  }
}
