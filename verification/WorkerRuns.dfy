// What holds over every run of the snapshot worker's request loop.
module WorkerRuns {
  import opened Common
  import opened Kernels
  import opened SnapshotRuntime
  import opened WorkerSpec

  // -- Snapshots never change ---------------------------------------------------

  ghost predicate Kept(st: State, st': State, id: Id) {
    id in st.snapshots ==> id in st'.snapshots && st'.snapshots[id] == st.snapshots[id]
  }

  lemma StepKeeps(c: Config, st: State, cmd: Command, resp: Response, st': State, id: Id)
    requires 0 < c.batch && Step(c, st, cmd, resp, st') && cmd != Drop(id)
    ensures Kept(st, st', id)
  {
    hide Made18, Made30, BranchOf;
    if id in st.snapshots {
      match cmd
      case Evaluate(of, qs) => PublishingKeeps(c, st, of, qs, st', id);
      case StateEval(of, q) =>
        assert [q][..1] == [q] && [q][..0] == [];
        if resp.Stated? {
          PublishedSnoc(c, st, st.snapshots[of], [q], 0);
        }
        PublishingKeeps(c, st, of, [q], st', id);
      case _ =>
    }
  }

  lemma PublishingKeeps(c: Config, st: State, of: Id, qs: seq<Question>, st': State, id: Id)
    requires 0 < c.batch && id in st.snapshots
    requires
      || PartlyPublished(c, st, of, qs, st')
      || (Admitted(c, st, of, qs) && st' == PublishedAll(c, st, st.snapshots[of], qs))
    ensures Kept(st, st', id)
  {
    if st' != st {
      assert qs[..|qs|] == qs;
      var j :| 0 <= j <= |qs| && st' == PublishedAll(c, st, st.snapshots[of], qs[..j]);
      PublishedKeys(c, st, of, qs, j);
    }
  }

  // A registered snapshot stays as it is through any commands but its own drop.
  lemma {:induction false} RunKeeps(c: Config, states: seq<State>, cmds: seq<Command>, resps: seq<Response>, id: Id,
      i: nat, j: nat)
    requires 0 < c.batch && Served(c, states, cmds, resps)
    requires i <= j <= |cmds|
    requires forall m :: i <= m < j ==> cmds[m] != Drop(id)
    ensures Kept(states[i], states[j], id)
    decreases j
  {
    hide Step;
    if i < j {
      RunKeeps(c, states, cmds, resps, id, i, j - 1);
      StepKeeps(c, states[j - 1], cmds[j - 1], resps[j - 1], states[j], id);
    }
  }

  // -- Branch purity ---------------------------------------------------------------

  // Command `cmd` branched `full` off snapshot `of` and read `branch`.
  ghost predicate Branches(cmd: Command, resp: Response, of: Id, full: seq<Token>, branch: Branch) {
    || (cmd.Evaluate? && resp.Evaluated? && cmd.of == of && |resp.branches| == |cmd.questions|
        && exists q :: 0 <= q < |cmd.questions| && cmd.questions[q].full == full && resp.branches[q] == branch)
    || (cmd.StateEval? && resp.Stated? && cmd.of == of && cmd.question.full == full && resp.branch == branch)
  }

  // A branch reads a function of the parent's cells, its length and the suffix.
  // Siblings, their order, a failed command in between, and whether the parent
  // was resident or restored do not enter it.
  lemma BranchPurity(c: Config, states: seq<State>, cmds: seq<Command>, resps: seq<Response>, i: nat, of: Id,
      full: seq<Token>, branch: Branch)
    requires 0 < c.batch && Served(c, states, cmds, resps)
    requires i < |cmds| && Branches(cmds[i], resps[i], of, full, branch)
    ensures of in states[i].snapshots && Extends(full, states[i].snapshots[of].tokens)
    ensures
      var parent := states[i].snapshots[of];
      && parent.upperKv.Some?
      && branch == BranchOn(c, parent.lowerKv.cells, parent.upperKv.value.cells, |parent.tokens|,
        full[|parent.tokens|..])
  {
    assert Step(c, states[i], cmds[i], resps[i], states[i + 1]);
  }

  // Asking the same parent the same thing twice reads the same, whatever was
  // asked, saved, promoted, loaded or dropped in between.
  lemma SameQuestionSameAnswer(c: Config, states: seq<State>, cmds: seq<Command>, resps: seq<Response>, i: nat, j: nat,
      of: Id, full: seq<Token>, first: Branch, second: Branch)
    requires 0 < c.batch && Served(c, states, cmds, resps)
    requires i <= j < |cmds|
    requires Branches(cmds[i], resps[i], of, full, first)
    requires Branches(cmds[j], resps[j], of, full, second)
    requires forall m :: i <= m < j ==> cmds[m] != Drop(of)
    ensures first == second
  {
    hide Step, BranchOn;
    RunKeeps(c, states, cmds, resps, of, i, j);
    BranchPurity(c, states, cmds, resps, i, of, full, first);
    BranchPurity(c, states, cmds, resps, j, of, full, second);
  }

  // A snapshot saved and loaded again, also by another worker, is the saved one
  // but for the identity and the ownership of its blobs.
  function Untagged(item: Snapshot): Snapshot {
    item.(lowerKv := Blob(0, item.lowerKv.cells),
          upperKv := if item.upperKv.Some? then Some(Blob(0, item.upperKv.value.cells)) else None)
  }

  lemma LoadUndoesSave(item: Snapshot, context: nat, tag: nat)
    ensures Loadable(FilesOf(item), context) <==> WellFormed(item, context)
    ensures Untagged(FromFiles(item.id, FilesOf(item), tag)) == Untagged(item).(lowerOwned := true)
  {
  }

  // -- Promotion equals pairing -------------------------------------------------------

  // Creating an 18 and promoting it later yields the 30 that one create of the
  // pair would have made.
  lemma PromotionEqualsPairing(c: Config, states: seq<State>, cmds: seq<Command>, resps: seq<Response>, i: nat, j: nat,
      a: Id, b: Id, st: State)
    requires 0 < c.batch && Served(c, states, cmds, resps)
    requires i < j < |cmds|
    requires cmds[i].Create? && cmds[i].id18 == Some(a) && cmds[i].id30 != Some(a) && resps[i].Created?
    requires cmds[j] == Promote(a, b) && resps[j].Promoted?
    requires forall m :: i < m < j ==> cmds[m] != Drop(a)
    ensures b in states[j + 1].snapshots
    ensures cmds[i].tokens != []
    ensures
      var pair := AfterCreate(c, st, Create(Some(a), Some(b), cmds[i].kind, cmds[i].tokens, cmds[i].digest)).snapshots;
      b in pair && (a != b ==> Untagged(states[j + 1].snapshots[b]) == Untagged(pair[b]))
  {
    hide LowerRun, UpperRun;
    assert Step(c, states[i], cmds[i], resps[i], states[i + 1]);
    assert Step(c, states[j], cmds[j], resps[j], states[j + 1]);
    hide Step;
    RunKeeps(c, states, cmds, resps, a, i + 1, j);
    assert states[i + 1].snapshots[a] == Made18(c, a, cmds[i].kind, cmds[i].tokens, cmds[i].digest, states[i].nextTag);
  }

  // -- Riding ------------------------------------------------------------------------

  // The 30 snapshots create and promote make: their cells are those of one
  // uninterrupted prefill of their tokens.
  ghost predicate Genuine(c: Config, item: Snapshot)
    requires 0 < c.batch
  {
    && item.upperKv.Some? && item.tokens != []
    && var low := LowerRun(c.kernels, c.batch, [], item.tokens);
      item.lowerKv.cells == low.cells && item.upperKv.value.cells == Upper30(c, Lasts(low.outs)).cells
  }

  lemma CreateMakesGenuine(c: Config, st: State, cmd: Command)
    requires 0 < c.batch && cmd.Create? && cmd.tokens != [] && cmd.id30.Some?
    ensures Genuine(c, AfterCreate(c, st, cmd).snapshots[cmd.id30.value])
  {
    hide LowerRun, UpperRun;
  }

  // A promotion of an 18 that create made, however long ago.
  lemma PromoteMakesGenuine(c: Config, states: seq<State>, cmds: seq<Command>, resps: seq<Response>, i: nat, j: nat,
      a: Id, b: Id)
    requires 0 < c.batch && Served(c, states, cmds, resps)
    requires i < j < |cmds|
    requires cmds[i].Create? && cmds[i].id18 == Some(a) && cmds[i].id30 != Some(a) && resps[i].Created?
    requires cmds[j] == Promote(a, b) && resps[j].Promoted?
    requires forall m :: i < m < j ==> cmds[m] != Drop(a)
    ensures b in states[j + 1].snapshots && Genuine(c, states[j + 1].snapshots[b])
  {
    hide LowerRun, UpperRun;
    assert Step(c, states[i], cmds[i], resps[i], states[i + 1]);
    assert Step(c, states[j], cmds[j], resps[j], states[j + 1]);
    hide Step;
    RunKeeps(c, states, cmds, resps, a, i + 1, j);
    assert states[i + 1].snapshots[a] == Made18(c, a, cmds[i].kind, cmds[i].tokens, cmds[i].digest, states[i].nextTag);
  }

  // Tokens pushed through the blocks do not steer the output.
  lemma {:induction false} GenerateWork(c: Config, engine: Engine, seen: Capture, sequence: seq<Token>, a: Rider,
      b: Rider, maxTokens: nat)
    requires 0 < c.batch && |a.output| < maxTokens
    requires b.output == a.output && b.steps == a.steps
    ensures
      var x, y := Generate(c, engine, seen, sequence, a, maxTokens), Generate(c, engine, seen, sequence, b, maxTokens);
      && x.output == y.output && x.steps == y.steps && x.eog == y.eog
      && x.work - a.work == y.work - b.work
    decreases maxTokens - |a.output|
  {
    hide Advance;
    var token := c.kernels.argmax(seen.logits);
    var output := a.output + [token];
    if !c.kernels.isEog(token) && |output| < maxTokens {
      var next := sequence + [token];
      var (e, s) := Advance(c, engine, next, |sequence|);
      var steps := a.steps + [seen.logits];
      GenerateWork(c, e, s, next, Rider(output, steps, false, a.work + 1), Rider(output, steps, false, b.work + 1),
        maxTokens);
    }
  }

  // Riding a snapshot reads, step by step, what prefilling the whole prompt from
  // nothing with a break at the snapshot's length reads; it only skips the
  // snapshot's own tokens.
  lemma RideEquivalence(c: Config, st: State, id: Id, full: seq<Token>, maxTokens: nat)
    requires 0 < c.batch && full != []
    requires RideAdmitted(c, st, FromSnapshot(id), full, maxTokens)
    requires Genuine(c, st.snapshots[id])
    ensures
      var n := |st.snapshots[id].tokens|;
      var ride := RideOf(c, st, FromSnapshot(id), full, maxTokens);
      var baseline := RideBaseline(c, Split([], []), full, n, maxTokens);
      && ride.output == baseline.output && ride.steps == baseline.steps && ride.eog == baseline.eog
      && baseline.work == ride.work + n
  {
    hide LowerRun, UpperRun;
    var parent := st.snapshots[id];
    var n := |parent.tokens|;
    assert full[..n][0..] == parent.tokens;
    var engine := Split(parent.lowerKv.cells, parent.upperKv.value.cells);
    assert Advance(c, Split([], []), full[..n], 0).0 == engine;
    var (e, s) := Advance(c, engine, full, n);
    hide Advance;
    GenerateWork(c, e, s, full, Rider([], [], false, |full| - n), Rider([], [], false, n + |full| - n), maxTokens);
  }

  // Command k made the 30 `id`: by a create, or by the promotion of an 18 that a
  // create made and nothing dropped since.
  ghost predicate MadeBy(cmds: seq<Command>, resps: seq<Response>, k: nat, id: Id)
    requires k < |cmds| == |resps|
  {
    || (cmds[k].Create? && cmds[k].id30 == Some(id) && resps[k].Created?)
    || (cmds[k].Promote? && cmds[k].newId == id && resps[k].Promoted?
        && exists i :: 0 <= i < k && LowMadeBy(cmds, resps, i, k, cmds[k].of))
  }

  // Command i made the 18 `id`, which is still there at command k.
  ghost predicate LowMadeBy(cmds: seq<Command>, resps: seq<Response>, i: nat, k: nat, id: Id)
    requires i < k < |cmds| == |resps|
  {
    && cmds[i].Create? && cmds[i].id18 == Some(id) && cmds[i].id30 != Some(id) && resps[i].Created?
    && forall m :: i < m < k ==> cmds[m] != Drop(id)
  }

  lemma MadeGenuine(c: Config, states: seq<State>, cmds: seq<Command>, resps: seq<Response>, k: nat, id: Id)
    requires 0 < c.batch && Served(c, states, cmds, resps) && k < |cmds| && MadeBy(cmds, resps, k, id)
    ensures id in states[k + 1].snapshots && Genuine(c, states[k + 1].snapshots[id])
  {
    hide LowerRun, UpperRun;
    assert Step(c, states[k], cmds[k], resps[k], states[k + 1]);
    hide Genuine, Made18, Made30;
    if cmds[k].Create? {
      CreateMakesGenuine(c, states[k], cmds[k]);
    } else {
      var i :| 0 <= i < k && LowMadeBy(cmds, resps, i, k, cmds[k].of);
      PromoteMakesGenuine(c, states, cmds, resps, i, k, cmds[k].of, id);
    }
  }

  // Two rides anywhere in a run, one on a snapshot a create or a promotion made,
  // one that prefills the same prompt with a break at its length, answer the same;
  // the baseline works exactly the skipped tokens more.
  lemma RidesAgree(c: Config, states: seq<State>, cmds: seq<Command>, resps: seq<Response>, k: nat, i: nat, j: nat,
      id: Id)
    requires 0 < c.batch && Served(c, states, cmds, resps)
    requires k < i < |cmds| && j < |cmds| && MadeBy(cmds, resps, k, id)
    requires forall m :: k < m < i ==> cmds[m] != Drop(id)
    requires cmds[i].Ride? && cmds[i].mode == FromSnapshot(id) && resps[i].Rode?
    requires id in states[i].snapshots ==>
      cmds[j] == cmds[i].(mode := SplitPrefill(|states[i].snapshots[id].tokens|))
    requires resps[j].Rode?
    ensures id in states[i].snapshots
    ensures
      var ride, baseline := resps[i].ride, resps[j].ride;
      && ride.output == baseline.output && ride.steps == baseline.steps && ride.eog == baseline.eog
      && baseline.work == ride.work + |states[i].snapshots[id].tokens|
  {
    hide LowerRun, UpperRun, RideFrom, RideBaseline, Genuine;
    MadeGenuine(c, states, cmds, resps, k, id);
    RunKeeps(c, states, cmds, resps, id, k + 1, i);
    assert Step(c, states[i], cmds[i], resps[i], states[i + 1]);
    assert Step(c, states[j], cmds[j], resps[j], states[j + 1]);
    RideEquivalence(c, states[i], id, cmds[i].full, cmds[i].maxTokens);
  }

  // decode_steps of the response.
  function DecodeSteps(ride: Rider): nat {
    if ride.output == [] then 0 else |ride.output| - 1 + if ride.eog then 1 else 0
  }

  lemma {:induction false} GenerateCounts(c: Config, engine: Engine, seen: Capture, sequence: seq<Token>, so: Rider,
      maxTokens: nat)
    requires 0 < c.batch && |so.output| < maxTokens && |so.steps| == |so.output|
    ensures
      var r := Generate(c, engine, seen, sequence, so, maxTokens);
      && |so.output| <= |r.output| <= maxTokens && (!r.eog <==> |r.output| == maxTokens)
      && |r.steps| == |r.output| + (if r.eog then 1 else 0)
      && r.work + (if r.eog then 0 else 1) == so.work + |r.output| - |so.output|
    decreases maxTokens - |so.output|
  {
    hide Advance;
    var token := c.kernels.argmax(seen.logits);
    var output := so.output + [token];
    if !c.kernels.isEog(token) && |output| < maxTokens {
      var next := sequence + [token];
      var (e, s) := Advance(c, engine, next, |sequence|);
      GenerateCounts(c, e, s, next, Rider(output, so.steps + [seen.logits], false, so.work + 1), maxTokens);
    }
  }

  // The accounting of every ride: block work is the prefilled tokens plus the
  // reported decode steps; it stops early exactly at an end token; the trace has
  // one entry per output token and one for the end token; and the contexts never
  // need more room than was checked.
  lemma RideAccounting(c: Config, st: State, mode: Mode, full: seq<Token>, maxTokens: nat)
    requires 0 < c.batch && full != []
    requires RideAdmitted(c, st, mode, full, maxTokens)
    ensures
      var ride := RideOf(c, st, mode, full, maxTokens);
      var reused := if mode.FromSnapshot? then |st.snapshots[mode.id].tokens| else 0;
      && ride.work == |full| - reused + DecodeSteps(ride)
      && |ride.output| <= maxTokens && (!ride.eog <==> |ride.output| == maxTokens)
      && |ride.steps| == |ride.output| + (if ride.eog then 1 else 0)
      && reused + ride.work <= c.context
  {
    hide Advance;
    match mode
    case FromSnapshot(id) =>
      var parent := st.snapshots[id];
      RideFromCounts(c, Split(parent.lowerKv.cells, parent.upperKv.value.cells), full, |parent.tokens|, 0, maxTokens);
    case SplitPrefill(brk) => RideBaselineCounts(c, Split([], []), full, brk, maxTokens);
    case Reference(brk) => RideBaselineCounts(c, Stock([]), full, brk, maxTokens);
  }

  lemma RideFromCounts(c: Config, engine: Engine, full: seq<Token>, from: nat, work: nat, maxTokens: nat)
    requires 0 < c.batch && from < |full| && 0 < maxTokens
    ensures
      var r := RideFrom(c, engine, full, from, work, maxTokens);
      && r.work == work + |full| - from + DecodeSteps(r)
      && |r.output| <= maxTokens && (!r.eog <==> |r.output| == maxTokens)
      && |r.steps| == |r.output| + (if r.eog then 1 else 0)
  {
    hide Advance;
    var (e, s) := Advance(c, engine, full, from);
    GenerateCounts(c, e, s, full, Rider([], [], false, work + |full| - from), maxTokens);
  }

  lemma RideBaselineCounts(c: Config, engine: Engine, full: seq<Token>, brk: nat, maxTokens: nat)
    requires 0 < c.batch && brk < |full| && 0 < maxTokens
    ensures
      var r := RideBaseline(c, engine, full, brk, maxTokens);
      && r.work == |full| + DecodeSteps(r)
      && |r.output| <= maxTokens && (!r.eog <==> |r.output| == maxTokens)
      && |r.steps| == |r.output| + (if r.eog then 1 else 0)
  {
    hide Advance;
    if brk == 0 {
      RideFromCounts(c, engine, full, 0, 0, maxTokens);
    } else {
      RideFromCounts(c, Advance(c, engine, full[..brk], 0).0, full, brk, brk, maxTokens);
    }
  }
}
