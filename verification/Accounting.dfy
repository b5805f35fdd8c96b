// The accounting checks the Python side makes on every worker answer, and that a
// faithful worker never fails one (unridden/api/snapshots/schema.py).
module Accounting {
  import opened Common
  import opened Kernels
  import opened SnapshotRuntime
  import opened WorkerSpec
  import opened WorkerRuns

  // The part of a WorkerSnapshotRow that is checked.
  datatype RowReport = RowReport(depth: Depth, parent: Option<Id>, tokens: nat, lowerKv: nat, upperKv: nat, h18: nat,
    h30: nat, kind: Kind)

  // snapshot_row
  function Report(k: Kernels, s: Snapshot): (row: RowReport)
    ensures row.lowerKv + row.upperKv + row.h18 + row.h30 == RowBytes(k, s)  // _row_bytes
  {
    RowReport(s.depth, s.parent, |s.tokens|,
      if s.lowerOwned then k.stateBytes(s.lowerKv.cells) else 0,
      if s.upperKv.Some? then k.stateBytes(s.upperKv.value.cells) else 0,
      Rows(s.h18) * k.rowBytes, Rows(s.h30) * k.rowBytes, s.kind)
  }

  // _coverage_matches_depth
  predicate Covered(row: RowReport) {
    1 <= row.tokens && (row.depth == D18 ==> row.upperKv == 0 && row.h30 == 0)
  }

  // WorkerCreated._consistent_set, rows low to high.
  predicate ConsistentSet(rows: seq<RowReport>, tokens: nat, readout: bool) {
    && 1 <= |rows| <= 2
    && (forall i :: 0 <= i < |rows| ==> Covered(rows[i]) && rows[i].tokens == tokens)
    && (|rows| == 2 ==> rows[0].depth == D18 && rows[1].depth == D30 && rows[1].parent.Some? && rows[1].h18 == 0)
    && (readout ==> rows[|rows| - 1].depth == D30)
  }

  // WorkerPromoted._promotion_ran_only_upper
  predicate OnlyUpper(row: RowReport, lowerTokens: nat) {
    Covered(row) && row.depth == D30 && row.parent.Some? && lowerTokens == 0
  }

  // WorkerSnapshotBranch and the v1 ties of suffix, processed and prompt tokens;
  // `resident` is what the answer says of the restore.
  predicate BranchAccounted(report: BranchReport, processed: nat, reused: nat, prompt: nat, resident: bool,
      child: Option<RowReport>) {
    && 1 <= report.suffix == processed && reused + processed == prompt
    && (resident ==> report.restored == 0)
    && (child.Some? ==> Covered(child.value) && child.value.depth == D30)
  }

  // The part of a WorkerRide that is checked. `restore` says whether the parent
  // was resident, for a continued snapshot only.
  datatype RideReport = RideReport(prompt: nat, reused: nat, prefilled: nat, generated: nat, ids: seq<Token>,
    blockTokens: nat, steps: nat,
    restore: Option<bool>, restored: nat)

  // What the worker puts in the answer of a ride.
  function RideAnswer(full: seq<Token>, ride: Rider, snapshot: bool, reused: nat, restored: nat): RideReport
    requires reused <= |full|
  {
    RideReport(|full|, reused, |full| - reused, |ride.output|, ride.output, ride.work, |ride.steps|,
      if snapshot then Some(restored == 0) else None, restored)
  }

  // WorkerRide._accounting, and what the service asks of a continued snapshot.
  predicate RideAccounted(report: RideReport, mode: Mode) {
    && 1 <= report.prompt == report.reused + report.prefilled && 1 <= report.prefilled
    && report.generated == |report.ids|
    && (mode.FromSnapshot? <==> report.restore.Some?) && (report.restore == Some(true) ==> report.restored == 0)
    && (report.steps == 0 || report.steps == |report.ids| || report.steps == |report.ids| + 1)
  }

  function CreatedRows(c: Config, st: State, cmd: Command): seq<RowReport>
    requires 0 < c.batch && cmd.Create? && cmd.tokens != []
  {
    var made := AfterCreate(c, st, cmd).snapshots;
    (if cmd.id18.Some? && cmd.id18.value in made then [Report(c.kernels, made[cmd.id18.value])] else [])
    + (if cmd.id30.Some? && cmd.id30.value in made then [Report(c.kernels, made[cmd.id30.value])] else [])
  }

  lemma CreatedConsistent(c: Config, st: State, cmd: Command, resp: Response, st': State)
    requires 0 < c.batch && cmd.Create? && cmd.tokens != [] && CreateStep(c, st, cmd, resp, st') && resp.Created?
    ensures ConsistentSet(CreatedRows(c, st, cmd), |cmd.tokens|, resp.readout.Some?)
  {
    hide LowerRun, UpperRun;
  }

  lemma PromotedOnlyUpper(c: Config, st: State, of: Id, newId: Id, resp: Response, st': State)
    requires 0 < c.batch && PromoteStep(c, st, of, newId, resp, st') && resp.Promoted?
    requires WellFormed(st.snapshots[of], c.context)
    ensures newId in st'.snapshots && OnlyUpper(Report(c.kernels, st'.snapshots[newId]), 0)
  {
    hide UpperRun;
  }

  // -- Every snapshot of a run ----------------------------------------------------------------

  ghost predicate AllWellFormed(c: Config, st: State) {
    forall id :: id in st.snapshots ==> WellFormed(st.snapshots[id], c.context)
  }

  lemma MadeWellFormed(c: Config, st: State, cmd: Command)
    requires 0 < c.batch && cmd.Create? && 1 <= |cmd.tokens| <= c.context && AllWellFormed(c, st)
    ensures AllWellFormed(c, AfterCreate(c, st, cmd))
  {
    hide LowerRun, UpperRun;
  }

  lemma PromotionWellFormed(c: Config, st: State, of: Id, newId: Id)
    requires 0 < c.batch && of in st.snapshots && AllWellFormed(c, st)
    requires st.snapshots[of].h18.Some? && st.snapshots[of].h18.value != []
    ensures AllWellFormed(c, WithPromotion(c, st, of, newId))
  {
    hide LowerRun, UpperRun;
  }

  lemma {:induction false} PublishedWellFormed(c: Config, st: State, of: Id, qs: seq<Question>, n: nat)
    requires 0 < c.batch && Admitted(c, st, of, qs) && AllWellFormed(c, st) && n <= |qs|
    ensures AllWellFormed(c, PublishedAll(c, st, st.snapshots[of], qs[..n]))
  {
    hide LowerRun, UpperRun;
    if 0 < n {
      PublishedWellFormed(c, st, of, qs, n - 1);
      PublishedSnoc(c, st, st.snapshots[of], qs, n - 1);
    }
  }

  lemma PartWellFormed(c: Config, st: State, of: Id, qs: seq<Question>, st': State)
    requires 0 < c.batch && AllWellFormed(c, st)
    requires
      || PartlyPublished(c, st, of, qs, st')
      || (Admitted(c, st, of, qs) && st' == PublishedAll(c, st, st.snapshots[of], qs))
    ensures AllWellFormed(c, st')
  {
    hide AllWellFormed;
    if st' != st {
      assert qs[..|qs|] == qs;
      var j :| 0 <= j <= |qs| && st' == PublishedAll(c, st, st.snapshots[of], qs[..j]);
      PublishedWellFormed(c, st, of, qs, j);
    }
  }

  lemma StepWellFormed(c: Config, st: State, cmd: Command, resp: Response, st': State)
    requires 0 < c.batch && Step(c, st, cmd, resp, st') && AllWellFormed(c, st)
    ensures AllWellFormed(c, st')
  {
    hide PublishedAll, AfterCreate, WithPromotion, BranchOf, Admitted, WellFormed, PartlyPublished;
    match cmd
    case Create(_, _, _, _, _) =>
      if resp.Created? {
        MadeWellFormed(c, st, cmd);
      }
    case Promote(of, newId) =>
      if resp.Promoted? {
        PromotionWellFormed(c, st, of, newId);
      }
    case Evaluate(of, qs) => PartWellFormed(c, st, of, qs, st');
    case StateEval(of, q) => StatedWellFormed(c, st, of, q, resp, st');
    case Ride(_, _, _, _) =>
    case Drop(_) =>
    case Save(_) =>
    case Load(id, files) =>
      if resp.Loaded? {
        LoadedWellFormed(c, id, files.value, st.nextTag);
      }
  }

  lemma StatedWellFormed(c: Config, st: State, of: Id, q: Question, resp: Response, st': State)
    requires 0 < c.batch && StateEvalStep(c, st, of, q, resp, st') && AllWellFormed(c, st)
    ensures AllWellFormed(c, st')
  {
    hide AllWellFormed, BranchOf;
    if resp.Stated? {
      PublishedSnoc(c, st, st.snapshots[of], [q], 0);
      assert [q][..1] == [q] && [q][..0] == [];
    }
    PartWellFormed(c, st, of, [q], st');
  }

  lemma LoadedWellFormed(c: Config, id: Id, files: Saved, tag: nat)
    requires Loadable(files, c.context)
    ensures WellFormed(FromFiles(id, files, tag), c.context)
  {
  }

  lemma {:induction false} RunWellFormed(c: Config, states: seq<State>, cmds: seq<Command>, resps: seq<Response>,
      i: nat)
    requires 0 < c.batch && Served(c, states, cmds, resps) && AllWellFormed(c, states[0]) && i < |states|
    ensures AllWellFormed(c, states[i])
  {
    hide Step, AllWellFormed;
    if 0 < i {
      RunWellFormed(c, states, cmds, resps, i - 1);
      StepWellFormed(c, states[i - 1], cmds[i - 1], resps[i - 1], states[i]);
    }
  }

  // In every run of the worker, whatever is loaded, promoted or dropped on the way,
  // the answer of every create and every promotion passes its checks, and every
  // registered snapshot has its rows, one a token, and its caches by depth.
  lemma AnswersPass(c: Config, states: seq<State>, cmds: seq<Command>, resps: seq<Response>, i: nat)
    requires 0 < c.batch && Served(c, states, cmds, resps) && states[0].snapshots == map[] && i < |cmds|
    ensures AllWellFormed(c, states[i]) && AllWellFormed(c, states[i + 1])
    ensures resps[i].Created? ==>
      && cmds[i].Create? && cmds[i].tokens != []
      && ConsistentSet(CreatedRows(c, states[i], cmds[i]), |cmds[i].tokens|, resps[i].readout.Some?)
    ensures resps[i].Promoted? ==>
      && cmds[i].Promote? && cmds[i].newId in states[i + 1].snapshots
      && OnlyUpper(Report(c.kernels, states[i + 1].snapshots[cmds[i].newId]), 0)
  {
    hide PublishedAll, AfterCreate, WithPromotion, CreatedRows, ConsistentSet, OnlyUpper, Report, AllWellFormed,
      Admitted, PartlyPublished;
    NoneIllFormed(c, states[0]);
    RunWellFormed(c, states, cmds, resps, i);
    RunWellFormed(c, states, cmds, resps, i + 1);
    assert Step(c, states[i], cmds[i], resps[i], states[i + 1]);
    if resps[i].Created? {
      CreatedConsistent(c, states[i], cmds[i], resps[i], states[i + 1]);
    } else if resps[i].Promoted? {
      WellFormedAt(c, states[i], cmds[i].of);
      PromotedOnlyUpper(c, states[i], cmds[i].of, cmds[i].newId, resps[i], states[i + 1]);
    }
  }

  lemma NoneIllFormed(c: Config, st: State)
    requires st.snapshots == map[]
    ensures AllWellFormed(c, st)
  {
  }

  lemma WellFormedAt(c: Config, st: State, id: Id)
    requires AllWellFormed(c, st) && id in st.snapshots
    ensures WellFormed(st.snapshots[id], c.context)
  {
  }

  // -- A batch of branches ----------------------------------------------------------------

  // The child of a branch as it is registered: that of the i-th question.
  lemma {:induction false} ChildPublished(c: Config, st: State, of: Id, qs: seq<Question>, n: nat, i: nat)
    requires 0 < c.batch && Admitted(c, st, of, qs) && i < n <= |qs| && qs[i].saveAs.Some?
    ensures
      var id, now := qs[i].saveAs.value, PublishedAll(c, st, st.snapshots[of], qs[..n]).snapshots;
      id in now && exists tag: nat :: now[id] == ChildOf(c, st.snapshots[of], qs[i].full, qs[i].digest, id, tag)
  {
    hide BranchOf;
    var parent := st.snapshots[of];
    PublishedSnoc(c, st, parent, qs, n - 1);
    var before := PublishedAll(c, st, parent, qs[..n - 1]);
    if i < n - 1 {
      ChildPublished(c, st, of, qs, n - 1, i);
    } else {
      assert Published(c, before, parent, qs[i]).snapshots[qs[i].saveAs.value]
          == ChildOf(c, parent, qs[i].full, qs[i].digest, qs[i].saveAs.value, before.nextTag);
    }
  }

  // Every branch of an answered batch passes its check, the child it saved included:
  // its rows are its block tokens, one H18 and one H30 a token, and only the first
  // branch can have brought the parent back.
  lemma BranchesAccount(c: Config, st: State, of: Id, qs: seq<Question>, resp: Response, st': State, resident: bool,
      reports: seq<BranchReport>, i: nat)
    requires 0 < c.batch && EvaluateStep(c, st, of, qs, resp, st') && resp.Evaluated? && i < |qs|
    requires BatchReported(c.kernels, st.snapshots[of], qs, resident, reports) && |reports| == |qs|
    ensures
      var parent, branch, saved := st.snapshots[of], resp.branches[i], qs[i].saveAs;
      && |branch.h18| == |branch.h30| == reports[i].suffix
      && (saved.Some? ==> saved.value in st'.snapshots)
      && BranchAccounted(reports[i], |branch.h18|, |parent.tokens|, |qs[i].full|, reports[i].restored == 0,
        if saved.Some? then Some(Report(c.kernels, st'.snapshots[saved.value])) else None)
      && (StateBytes(c.kernels, parent) > 0 ==> (reports[i].restored == 0 <==> resident || 0 < i))
  {
    hide LowerRun, UpperRun, PublishedAll, StateBytes;
    assert qs[..|qs|] == qs;
    if qs[i].saveAs.Some? {
      ChildPublished(c, st, of, qs, |qs|, i);
    }
  }

  // SnapshotUsage without its times, and the input tokens of the answer.
  datatype Usage = Usage(suffixes: seq<nat>, lower: nat, upper: nat, processed: nat, restored: nat, reused: nat)

  function Sum(counts: seq<nat>): nat {
    if counts == [] then 0 else Sum(counts[..|counts| - 1]) + counts[|counts| - 1]
  }

  function Suffixes(reports: seq<BranchReport>): (r: seq<nat>)
    ensures |r| == |reports|
  {
    seq(|reports|, i requires 0 <= i < |reports| => reports[i].suffix)
  }

  function Restores(reports: seq<BranchReport>): (r: seq<nat>)
    ensures |r| == |reports|
  {
    seq(|reports|, i requires 0 <= i < |reports| => reports[i].restored)
  }

  // The tokens of all prompts, read from their beginning.
  function Prompted(qs: seq<Question>): nat {
    if qs == [] then 0 else Prompted(qs[..|qs| - 1]) + |qs[|qs| - 1].full|
  }

  function Totals(reports: seq<BranchReport>, reused: nat): Usage {
    var suffixes := Suffixes(reports);
    Usage(suffixes, Sum(suffixes), Sum(suffixes), Sum(suffixes), Sum(Restores(reports)), reused)
  }

  // What decide adds up over the answers of the worker.
  method Tally(reports: seq<BranchReport>, reused: nat) returns (u: Usage)
    ensures u == Totals(reports, reused)
  {
    var suffixes: seq<nat> := [];
    var lower, upper, processed, restored := 0, 0, 0, 0;
    for i := 0 to |reports|
      invariant suffixes == Suffixes(reports[..i])
      invariant lower == upper == processed == Sum(Suffixes(reports[..i])) && restored == Sum(Restores(reports[..i]))
    {
      SumsNext(reports, i);
      suffixes := suffixes + [reports[i].suffix];
      lower, upper := lower + reports[i].suffix, upper + reports[i].suffix;
      processed, restored := processed + reports[i].suffix, restored + reports[i].restored;
    }
    assert reports[..|reports|] == reports;
    return Usage(suffixes, lower, upper, processed, restored, reused);
  }

  lemma SumsNext(reports: seq<BranchReport>, i: nat)
    requires i < |reports|
    ensures Suffixes(reports[..i + 1]) == Suffixes(reports[..i]) + [reports[i].suffix]
    ensures Sum(Suffixes(reports[..i + 1])) == Sum(Suffixes(reports[..i])) + reports[i].suffix
    ensures Sum(Restores(reports[..i + 1])) == Sum(Restores(reports[..i])) + reports[i].restored
  {
    assert Suffixes(reports[..i + 1])[..i] == Suffixes(reports[..i]);
    assert Restores(reports[..i + 1])[..i] == Restores(reports[..i]);
  }

  // What an answered batch cost: each question its suffix, at least one token; the
  // suffixes are what the prompts have beyond the parent's tokens, which none of
  // them reads again; and the parent is brought back once or not at all.
  ghost predicate Spent(k: Kernels, parent: Snapshot, qs: seq<Question>, u: Usage) {
    && parent.upperKv.Some? && |u.suffixes| == |qs| && u.reused == |parent.tokens|
    && (forall i :: 0 <= i < |qs| ==> 1 <= u.suffixes[i] && u.suffixes[i] + u.reused == |qs[i].full|)
    && u.lower == u.upper == u.processed && u.processed + |qs| * u.reused == Prompted(qs)
    && (u.restored == 0 || u.restored == StateBytes(k, parent))
  }

  lemma OneMoreTime(n: nat, length: nat)
    ensures (n + 1) * length == n * length + length
  {
  }

  lemma {:induction false} SuffixSums(k: Kernels, parent: Snapshot, qs: seq<Question>, resident: bool,
      reports: seq<BranchReport>, n: nat)
    requires BatchReported(k, parent, qs, resident, reports) && n <= |reports|
    ensures Sum(Suffixes(reports[..n])) + n * |parent.tokens| == Prompted(qs[..n])
  {
    hide StateBytes, Sum, Suffixes;
    if n == 0 {
      NoSums(reports);
    } else {
      SuffixSums(k, parent, qs, resident, reports, n - 1);
      SumsNext(reports, n - 1);
      OneMoreTime(n - 1, |parent.tokens|);
      assert qs[..n][..n - 1] == qs[..n - 1];
    }
  }

  lemma NoSums(reports: seq<BranchReport>)
    ensures Sum(Suffixes(reports[..0])) == 0 && Sum(Restores(reports[..0])) == 0
  {
  }

  // Only the first branch can have restored anything.
  lemma {:induction false} RestoreSums(k: Kernels, parent: Snapshot, qs: seq<Question>, resident: bool,
      reports: seq<BranchReport>, n: nat)
    requires BatchReported(k, parent, qs, resident, reports) && n <= |reports|
    ensures Sum(Restores(reports[..n])) == if resident || n == 0 then 0 else StateBytes(k, parent)
  {
    hide StateBytes, Sum, Restores;
    if n == 0 {
      NoSums(reports);
    } else {
      RestoreSums(k, parent, qs, resident, reports, n - 1);
      SumsNext(reports, n - 1);
    }
  }

  lemma BatchSpent(k: Kernels, parent: Snapshot, qs: seq<Question>, resident: bool, reports: seq<BranchReport>)
    requires BatchReported(k, parent, qs, resident, reports) && |reports| == |qs|
    ensures Spent(k, parent, qs, Totals(reports, |parent.tokens|))
    ensures Totals(reports, |parent.tokens|).restored == if resident || qs == [] then 0 else StateBytes(k, parent)
  {
    hide StateBytes, Sum;
    SuffixSums(k, parent, qs, resident, reports, |qs|);
    RestoreSums(k, parent, qs, resident, reports, |qs|);
    assert reports[..|qs|] == reports && qs[..|qs|] == qs;
  }

  // -- Rides --------------------------------------------------------------------------------

  // What riding the parent cost: the prompt beyond its tokens and the decode steps
  // through both ranges, and at most one restore.
  ghost predicate RideSpent(k: Kernels, parent: Snapshot, full: seq<Token>, ride: Rider, report: RideReport) {
    && parent.upperKv.Some? && RideAccounted(report, FromSnapshot(parent.id))
    && report.prompt == |full| && report.reused == |parent.tokens| && report.ids == ride.output
    && report.steps == |ride.steps| && report.restore == Some(report.restored == 0)
    && report.blockTokens == report.prefilled + DecodeSteps(ride)
    && (report.restored == 0 || report.restored == StateBytes(k, parent))
  }

  // Every ride passes its check, and its block work is the prefilled tokens plus the
  // decode steps; `restored` is what the worker brought back, nothing for a baseline.
  lemma RideAccounts(c: Config, st: State, mode: Mode, full: seq<Token>, maxTokens: nat, trace: bool, resp: Response,
      restored: nat)
    requires 0 < c.batch && RideStep(c, st, mode, full, maxTokens, trace, resp) && resp.Rode?
    ensures
      var reused := if mode.FromSnapshot? then |st.snapshots[mode.id].tokens| else 0;
      var report := RideAnswer(full, resp.ride, mode.FromSnapshot?, reused, restored);
      && RideAccounted(report, mode)
      && report.blockTokens == report.prefilled + DecodeSteps(resp.ride)
      && report.reused + report.blockTokens <= c.context
  {
    hide RideOf;
    RideAccounting(c, st, mode, full, maxTokens);
  }

  lemma SnapshotRideSpent(c: Config, st: State, id: Id, full: seq<Token>, maxTokens: nat, trace: bool, resp: Response,
      resident: bool, restored: nat)
    requires 0 < c.batch && RideStep(c, st, FromSnapshot(id), full, maxTokens, trace, resp) && resp.Rode?
    requires restored == if resident then 0 else StateBytes(c.kernels, st.snapshots[id])
    ensures Extends(full, st.snapshots[id].tokens)
    ensures RideSpent(c.kernels, st.snapshots[id], full, resp.ride,
      RideAnswer(full, resp.ride, true, |st.snapshots[id].tokens|, restored))
  {
    hide RideOf;
    RideAccounts(c, st, FromSnapshot(id), full, maxTokens, trace, resp, restored);
  }
}
