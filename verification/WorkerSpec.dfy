// What each command of the snapshot worker computes, as functions of its
// registry (the commands of unridden/api/native/snapshots/snapshot-worker.cpp).
module WorkerSpec {
  import opened Common
  import opened KvCache
  import opened Kernels
  import opened SnapshotRuntime

  datatype Config = Config(kernels: Kernels, batch: nat, context: nat, hasReference: bool)

  // The registry. `nextTag` is the next shared-pointer identity.
  datatype State = State(snapshots: map<Id, Snapshot>, nextTag: nat)

  datatype WorkerError =
    | Invalid | Budget | NotFound | Exists | PrefixMismatch | FollowupUnsupported
    | Unavailable | Integrity | Execution

  // A rendered and tokenized prompt of a branch.
  datatype Question = Question(full: seq<Token>, digest: Digest, saveAs: Option<Id>)

  datatype Mode = FromSnapshot(id: Id) | SplitPrefill(brk: nat) | Reference(brk: nat)

  // The files of a saved snapshot, after checksums; lower_owned is not saved.
  datatype Saved = Saved(
    depth: Depth, kind: Kind, parent: Option<Id>, tokens: seq<Token>, digest: Digest,
    lower: Option<Cells>, upper: Option<Cells>,
    h18: Option<seq<Row>>, h30: Option<seq<Row>>, lastNormalized: Option<Row>)

  datatype Command =
    | Create(id18: Option<Id>, id30: Option<Id>, kind: Kind, tokens: seq<Token>, digest: Digest)
    | Promote(of: Id, newId: Id)
    | Evaluate(of: Id, questions: seq<Question>)
    | StateEval(of: Id, question: Question)
    | Ride(mode: Mode, full: seq<Token>, maxTokens: nat, trace: bool)
    | Drop(id: Id)
    | Save(id: Id)
    | Load(id: Id, files: Option<Saved>)

  datatype Response =
    | Created(readout: Option<Logits>)
    | Promoted
    | Evaluated(branches: seq<Branch>)
    | Stated(branch: Branch)
    | Rode(ride: Rider)
    | Dropped(freed: nat)
    | SavedAs(files: Saved)
    | Loaded
    | Failed(error: WorkerError)

  // -- Snapshots ----------------------------------------------------------------

  function Rows(matrix: Option<seq<Row>>): nat {
    if matrix.Some? then |matrix.value| else 0
  }

  // snapshot_row: the bytes a row reports, the lower blob only where it is owned.
  function RowBytes(k: Kernels, item: Snapshot): nat {
    (if item.lowerOwned then k.stateBytes(item.lowerKv.cells) else 0)
    + (if item.upperKv.Some? then k.stateBytes(item.upperKv.value.cells) else 0)
    + Rows(item.h18) * k.rowBytes
    + Rows(item.h30) * k.rowBytes
  }

  // What every registered snapshot has, wherever it came from.
  ghost predicate WellFormed(item: Snapshot, context: nat) {
    && 1 <= |item.tokens| <= context
    && (item.depth.D30? <==> item.upperKv.Some?)
    && (item.depth.D18? ==> item.h18.Some?)
    && (item.h18.Some? ==> |item.h18.value| == |item.tokens|)
    && (item.h30.Some? ==> |item.h30.value| == |item.tokens|)
  }

  function Made18(c: Config, id: Id, kind: Kind, tokens: seq<Token>, digest: Digest, tag: nat): Snapshot
    requires 0 < c.batch && tokens != []
  {
    var run := LowerRun(c.kernels, c.batch, [], tokens);
    Snapshot(id, D18, None, kind, tokens, digest, Blob(tag, run.cells), None, Some(Lasts(run.outs)), None, None, true)
  }

  // The upper blocks over an 18's boundary rows: shared by create and promote.
  function Upper30(c: Config, h18: seq<Row>): Run<Column, Capture>
    requires 0 < c.batch && h18 != []
  {
    UpperRun(c.kernels, c.batch, [], 0, h18)
  }

  // The 30 made beside an 18 (`from`) or, without one, alone.
  function Made30(c: Config, id: Id, from: Snapshot, paired: bool, tag: nat): Snapshot
    requires 0 < c.batch && from.h18.Some? && from.h18.value != []
  {
    var run := Upper30(c, from.h18.value);
    Snapshot(id, D30, if paired then Some(from.id) else None, from.kind, from.tokens, from.digest, from.lowerKv,
      Some(Blob(tag, run.cells)), if paired then None else from.h18, Some(Lasts(run.outs)),
      Some(Last(run.outs).normalized), !paired)
  }

  function AfterCreate(c: Config, st: State, cmd: Command): State
    requires 0 < c.batch && cmd.Create? && cmd.tokens != []
  {
    if cmd.id18.None? && cmd.id30.None? then st
    else
      var s18 := Made18(c, (if cmd.id18.Some? then cmd.id18 else cmd.id30).value, cmd.kind, cmd.tokens, cmd.digest,
        st.nextTag);
      var lower := if cmd.id18.Some? then st.snapshots[cmd.id18.value := s18] else st.snapshots;
      if cmd.id30.Some? then
        State(lower[cmd.id30.value := Made30(c, cmd.id30.value, s18, cmd.id18.Some?, st.nextTag + 1)], st.nextTag + 2)
      else
        State(lower, st.nextTag + 1)
  }

  function CreateReadout(c: Config, cmd: Command): Option<Logits>
    requires 0 < c.batch && cmd.Create? && cmd.tokens != []
  {
    if cmd.id30.None? then None
    else
      var h18 := Lasts(LowerRun(c.kernels, c.batch, [], cmd.tokens).outs);
      Some(Last(Upper30(c, h18).outs).logits)
  }

  function WithPromotion(c: Config, st: State, of: Id, newId: Id): State
    requires 0 < c.batch && of in st.snapshots
    requires st.snapshots[of].h18.Some? && st.snapshots[of].h18.value != []
  {
    State(st.snapshots[newId := Made30(c, newId, st.snapshots[of], true, st.nextTag)], st.nextTag + 1)
  }

  // -- Branches -------------------------------------------------------------------

  // One branch: the suffix through both ranges on top of the parent's cells.
  datatype Branch = Branch(seen: Capture, h18: seq<Row>, h30: seq<Row>, lower: Cells, upper: Cells)

  // What a branch reports: the tokens it ran through both ranges, and the bytes it
  // brought back before, none exactly when the parent was resident.
  datatype BranchReport = BranchReport(suffix: nat, restored: nat)

  function ReportOf(k: Kernels, parent: Snapshot, full: seq<Token>, resident: bool): BranchReport
    requires parent.upperKv.Some? && Extends(full, parent.tokens)
  {
    BranchReport(|full| - |parent.tokens|, if resident then 0 else StateBytes(k, parent))
  }

  // Only the first branch of a batch can find its parent not resident.
  ghost predicate BatchReported(k: Kernels, parent: Snapshot, qs: seq<Question>, resident: bool,
      reports: seq<BranchReport>) {
    && parent.upperKv.Some? && |reports| <= |qs|
    && forall i :: 0 <= i < |reports| ==>
        Extends(qs[i].full, parent.tokens) && reports[i] == ReportOf(k, parent, qs[i].full, resident || i > 0)
  }

  predicate Extends(full: seq<Token>, tokens: seq<Token>) {
    |tokens| < |full| && full[..|tokens|] == tokens
  }

  function BranchOf(c: Config, parent: Snapshot, full: seq<Token>): Branch
    requires 0 < c.batch && parent.upperKv.Some? && |parent.tokens| < |full|
  {
    BranchOn(c, parent.lowerKv.cells, parent.upperKv.value.cells, |parent.tokens|, full[|parent.tokens|..])
  }

  // It sees the parent's two cell lists, its length and the suffix: nothing else.
  function BranchOn(c: Config, lower: Cells, upper: Cells, length: nat, suffix: seq<Token>): Branch
    requires 0 < c.batch && suffix != []
  {
    var low := LowerRun(c.kernels, c.batch, lower, suffix);
    var up := UpperRun(c.kernels, c.batch, upper, length, Lasts(low.outs));
    Branch(Last(up.outs), Lasts(low.outs), Lasts(up.outs), low.cells, up.cells)
  }

  function Joined(rows: Option<seq<Row>>, more: seq<Row>): Option<seq<Row>> {
    if rows.Some? then Some(rows.value + more) else None
  }

  function ChildOf(c: Config, parent: Snapshot, full: seq<Token>, digest: Digest, id: Id, tag: nat): Snapshot
    requires 0 < c.batch && parent.upperKv.Some? && |parent.tokens| < |full|
  {
    var b := BranchOf(c, parent, full);
    Snapshot(id, D30, Some(parent.id), Readout, full, digest, Blob(tag, b.lower), Some(Blob(tag + 1, b.upper)),
      Joined(parent.h18, b.h18), Joined(parent.h30, b.h30), Some(b.seen.normalized), true)
  }

  function Published(c: Config, st: State, parent: Snapshot, q: Question): State
    requires 0 < c.batch && parent.upperKv.Some? && |parent.tokens| < |q.full|
  {
    if q.saveAs.None? then st
    else State(st.snapshots[q.saveAs.value := ChildOf(c, parent, q.full, q.digest, q.saveAs.value, st.nextTag)],
      st.nextTag + 2)
  }

  function PublishedAll(c: Config, st: State, parent: Snapshot, qs: seq<Question>): State
    requires 0 < c.batch && parent.upperKv.Some?
    requires forall i :: 0 <= i < |qs| ==> |parent.tokens| < |qs[i].full|
  {
    if qs == [] then st
    else Published(c, PublishedAll(c, st, parent, qs[..|qs| - 1]), parent, qs[|qs| - 1])
  }

  // The preflight of evaluate and state_eval, before any inference.
  ghost predicate Admitted(c: Config, st: State, of: Id, qs: seq<Question>) {
    && of in st.snapshots
    && st.snapshots[of].depth.D30?
    && st.snapshots[of].upperKv.Some?
    && (forall i :: 0 <= i < |qs| ==> Extends(qs[i].full, st.snapshots[of].tokens) && |qs[i].full| <= c.context)
    && (forall i :: 0 <= i < |qs| && qs[i].saveAs.Some? ==> qs[i].saveAs.value !in st.snapshots)
    && (forall i, j :: 0 <= i < j < |qs| && qs[i].saveAs.Some? ==> qs[i].saveAs != qs[j].saveAs)
  }

  // -- Greedy generation ----------------------------------------------------------

  datatype Engine = Split(lower: Cells, upper: Cells) | Stock(cells: Cells)

  // The result of a ride: the output, the logits read at each step, whether it
  // stopped at an end-of-generation token, and the tokens pushed through the
  // blocks.
  datatype Rider = Rider(output: seq<Token>, steps: seq<Logits>, eog: bool, work: nat)

  // Decodes sequence[begin..] on top of what the engine holds.
  function Advance(c: Config, engine: Engine, sequence: seq<Token>, begin: nat): (Engine, Capture)
    requires 0 < c.batch && begin < |sequence|
  {
    match engine
    case Split(lower, upper) =>
      var b := BranchOn(c, lower, upper, begin, sequence[begin..]);
      (Split(b.lower, b.upper), b.seen)
    case Stock(cells) =>
      var run := StockRun(c.kernels, c.batch, if begin == 0 then [] else cells, sequence[begin..]);
      (Stock(run.cells), Last(run.outs))
  }

  function Generate(c: Config, engine: Engine, seen: Capture, sequence: seq<Token>, so: Rider, maxTokens: nat): Rider
    requires 0 < c.batch && |so.output| < maxTokens
    decreases maxTokens - |so.output|
  {
    var token := c.kernels.argmax(seen.logits);
    var steps := so.steps + [seen.logits];
    if c.kernels.isEog(token) then Rider(so.output, steps, true, so.work)
    else
      var output := so.output + [token];
      if |output| == maxTokens then Rider(output, steps, false, so.work)
      else
        var next := sequence + [token];
        var (e, s) := Advance(c, engine, next, |sequence|);
        Generate(c, e, s, next, Rider(output, steps, false, so.work + 1), maxTokens)
  }

  // Prefills sequence[from..] and generates.
  function RideFrom(c: Config, engine: Engine, full: seq<Token>, from: nat, work: nat, maxTokens: nat): Rider
    requires 0 < c.batch && from < |full| && 0 < maxTokens
  {
    var (e, s) := Advance(c, engine, full, from);
    Generate(c, e, s, full, Rider([], [], false, work + |full| - from), maxTokens)
  }

  // The baselines start from empty contexts and may break the prefill.
  function RideBaseline(c: Config, engine: Engine, full: seq<Token>, brk: nat, maxTokens: nat): Rider
    requires 0 < c.batch && brk < |full| && 0 < maxTokens
  {
    if brk == 0 then RideFrom(c, engine, full, 0, 0, maxTokens)
    else RideFrom(c, Advance(c, engine, full[..brk], 0).0, full, brk, brk, maxTokens)
  }

  function RideOf(c: Config, st: State, mode: Mode, full: seq<Token>, maxTokens: nat): Rider
    requires 0 < c.batch && 0 < maxTokens && full != []
    requires RideAdmitted(c, st, mode, full, maxTokens)
  {
    match mode
    case FromSnapshot(id) =>
      var parent := st.snapshots[id];
      RideFrom(c, Split(parent.lowerKv.cells, parent.upperKv.value.cells), full, |parent.tokens|, 0, maxTokens)
    case SplitPrefill(brk) => RideBaseline(c, Split([], []), full, brk, maxTokens)
    case Reference(brk) => RideBaseline(c, Stock([]), full, brk, maxTokens)
  }

  ghost predicate RideAdmitted(c: Config, st: State, mode: Mode, full: seq<Token>, maxTokens: nat) {
    && 1 <= maxTokens <= c.context
    && |full| + maxTokens <= c.context
    && match mode
      case FromSnapshot(id) =>
        && id in st.snapshots
        && st.snapshots[id].depth.D30?
        && st.snapshots[id].upperKv.Some?
        && Extends(full, st.snapshots[id].tokens)
      case SplitPrefill(brk) => c.hasReference && brk < |full|
      case Reference(brk) => c.hasReference && brk < |full|
  }

  // -- Persistence ----------------------------------------------------------------

  function FilesOf(item: Snapshot): Saved {
    Saved(item.depth, item.kind, item.parent, item.tokens, item.digest, Some(item.lowerKv.cells),
      if item.upperKv.Some? then Some(item.upperKv.value.cells) else None, item.h18, item.h30, item.lastNormalized)
  }

  // The checks load makes on files whose checksums match.
  ghost predicate Loadable(files: Saved, context: nat) {
    && 1 <= |files.tokens| <= context
    && files.lower.Some?
    && (files.depth.D30? <==> files.upper.Some?)
    && (files.depth.D18? ==> files.h18.Some?)
    && (files.h18.Some? ==> |files.h18.value| == |files.tokens|)
    && (files.h30.Some? ==> |files.h30.value| == |files.tokens|)
  }

  function FromFiles(id: Id, files: Saved, tag: nat): Snapshot
    requires files.lower.Some?
  {
    Snapshot(id, files.depth, files.parent, files.kind, files.tokens, files.digest, Blob(tag, files.lower.value),
      if files.upper.Some? then Some(Blob(tag + 1, files.upper.value)) else None,
      files.h18, files.h30, files.lastNormalized, true)
  }

  // -- One command -----------------------------------------------------------------

  // Every behaviour of a command. A failure leaves the registry alone, except
  // that evaluate and state_eval may already have published some children.
  ghost predicate Step(c: Config, st: State, cmd: Command, resp: Response, st': State)
    requires 0 < c.batch
  {
    match cmd
    case Create(_, _, _, _, _) => CreateStep(c, st, cmd, resp, st')
    case Promote(of, newId) => PromoteStep(c, st, of, newId, resp, st')
    case Evaluate(of, qs) => EvaluateStep(c, st, of, qs, resp, st')
    case StateEval(of, q) => StateEvalStep(c, st, of, q, resp, st')
    case Ride(mode, full, maxTokens, trace) => st' == st && RideStep(c, st, mode, full, maxTokens, trace, resp)
    case Drop(id) => DropStep(c, st, id, resp, st')
    case Save(id) => st' == st && SaveStep(st, id, resp)
    case Load(id, files) => LoadStep(c, st, id, files, resp, st')
  }

  // Why a command may be refused: each error has its own reason, and inference is
  // only tried, and can only fail, when nothing else stands against it.
  ghost predicate CreateDenied(c: Config, st: State, cmd: Command, error: WorkerError)
    requires cmd.Create?
  {
    match error
    case Invalid => cmd.id18 == cmd.id30
    case Exists =>
      (cmd.id18.Some? && cmd.id18.value in st.snapshots) || (cmd.id30.Some? && cmd.id30.value in st.snapshots)
    case Budget => |cmd.tokens| > c.context
    case Execution =>
      && cmd.id18 != cmd.id30 && |cmd.tokens| <= c.context
      && (cmd.id18.Some? ==> cmd.id18.value !in st.snapshots) && (cmd.id30.Some? ==> cmd.id30.value !in st.snapshots)
    case _ => false
  }

  ghost predicate PromoteDenied(st: State, of: Id, newId: Id, error: WorkerError) {
    match error
    case NotFound => of !in st.snapshots
    case Unavailable => of in st.snapshots && (st.snapshots[of].depth.D30? || st.snapshots[of].h18.None?)
    case Exists => newId in st.snapshots
    case Execution => of in st.snapshots && st.snapshots[of].depth.D18? && newId !in st.snapshots
    case _ => false
  }

  // The same for the prompts of branches off one parent.
  ghost predicate BranchesDenied(c: Config, st: State, of: Id, qs: seq<Question>, error: WorkerError) {
    match error
    case NotFound => of !in st.snapshots
    case Unavailable => of in st.snapshots && st.snapshots[of].depth.D18?
    case Budget => exists i :: 0 <= i < |qs| && |qs[i].full| > c.context
    case FollowupUnsupported => of in st.snapshots && Strays(st.snapshots[of], qs) && st.snapshots[of].kind == Readout
    case PrefixMismatch => of in st.snapshots && Strays(st.snapshots[of], qs) && st.snapshots[of].kind == Context
    case Exists => exists i :: 0 <= i < |qs| && qs[i].saveAs.Some? && qs[i].saveAs.value in st.snapshots
    case Execution => Admitted(c, st, of, qs)
    case _ => false
  }

  ghost predicate FullDenied(c: Config, st: State, of: Id, full: seq<Token>, error: WorkerError) {
    match error
    case NotFound => of !in st.snapshots
    case FollowupUnsupported =>
      of in st.snapshots && !Extends(full, st.snapshots[of].tokens) && st.snapshots[of].kind == Readout
    case PrefixMismatch =>
      of in st.snapshots && !Extends(full, st.snapshots[of].tokens) && st.snapshots[of].kind == Context
    case _ => false
  }

  // Some prompt does not go on from the parent's tokens.
  ghost predicate Strays(parent: Snapshot, qs: seq<Question>) {
    exists i :: 0 <= i < |qs| && !Extends(qs[i].full, parent.tokens)
  }

  ghost predicate EvaluateDenied(c: Config, st: State, of: Id, qs: seq<Question>, error: WorkerError) {
    if error == Invalid then qs == [] || |qs| > 32 || SavedTwice(qs) else BranchesDenied(c, st, of, qs, error)
  }

  ghost predicate SavedTwice(qs: seq<Question>) {
    exists i, j :: 0 <= i < j < |qs| && qs[i].saveAs.Some? && qs[i].saveAs == qs[j].saveAs
  }

  ghost predicate RideDenied(c: Config, st: State, mode: Mode, full: seq<Token>, maxTokens: nat, error: WorkerError) {
    match error
    case Invalid => !(1 <= maxTokens <= c.context) || (!mode.FromSnapshot? && mode.brk >= |full|)
    case Budget => |full| + maxTokens > c.context
    case Unavailable =>
      if mode.FromSnapshot? then mode.id in st.snapshots && st.snapshots[mode.id].depth.D18? else !c.hasReference
    case Execution => RideAdmitted(c, st, mode, full, maxTokens)
    case _ => mode.FromSnapshot? && FullDenied(c, st, mode.id, full, error)
  }

  ghost predicate CreateStep(c: Config, st: State, cmd: Command, resp: Response, st': State)
    requires 0 < c.batch && cmd.Create?
  {
    match resp
    case Created(readout) =>
      && 1 <= |cmd.tokens| <= c.context
      && (cmd.id18.Some? || cmd.id30.Some?) && cmd.id18 != cmd.id30
      && (cmd.id18.Some? ==> cmd.id18.value !in st.snapshots)
      && (cmd.id30.Some? ==> cmd.id30.value !in st.snapshots)
      && st' == AfterCreate(c, st, cmd)
      && readout == CreateReadout(c, cmd)
    case Failed(error) => st' == st && CreateDenied(c, st, cmd, error)
    case _ => false
  }

  ghost predicate PromoteStep(c: Config, st: State, of: Id, newId: Id, resp: Response, st': State)
    requires 0 < c.batch
  {
    match resp
    case Promoted =>
      && of in st.snapshots && st.snapshots[of].depth.D18? && newId !in st.snapshots
      && st.snapshots[of].h18.Some? && st.snapshots[of].h18.value != []
      && st' == WithPromotion(c, st, of, newId)
    case Failed(error) => st' == st && PromoteDenied(st, of, newId, error)
    case _ => false
  }

  ghost predicate EvaluateStep(c: Config, st: State, of: Id, qs: seq<Question>, resp: Response, st': State)
    requires 0 < c.batch
  {
    match resp
    case Evaluated(branches) =>
      && Admitted(c, st, of, qs) && |branches| == |qs|
      && (forall i :: 0 <= i < |qs| ==> branches[i] == BranchOf(c, st.snapshots[of], qs[i].full))
      && st' == PublishedAll(c, st, st.snapshots[of], qs)
    case Failed(error) => PartlyPublished(c, st, of, qs, st') && EvaluateDenied(c, st, of, qs, error)
    case _ => false
  }

  ghost predicate StateEvalStep(c: Config, st: State, of: Id, q: Question, resp: Response, st': State)
    requires 0 < c.batch
  {
    match resp
    case Stated(branch) =>
      && Admitted(c, st, of, [q]) && Extends(q.full, st.snapshots[of].tokens)
      && branch == BranchOf(c, st.snapshots[of], q.full)
      && st' == Published(c, st, st.snapshots[of], q)
    // Exported vectors that are not finite are refused once they are read.
    case Failed(error) =>
      && PartlyPublished(c, st, of, [q], st')
      && BranchesDenied(c, st, of, [q], if error == Invalid then Execution else error)
    case _ => false
  }

  ghost predicate RideStep(c: Config, st: State, mode: Mode, full: seq<Token>, maxTokens: nat, trace: bool,
      resp: Response)
    requires 0 < c.batch
  {
    match resp
    case Rode(ride) =>
      && RideAdmitted(c, st, mode, full, maxTokens) && full != []
      && var spec := RideOf(c, st, mode, full, maxTokens);
        ride == if trace then spec else spec.(steps := [])
    case Failed(error) => RideDenied(c, st, mode, full, maxTokens, error)
    case _ => false
  }

  ghost predicate DropStep(c: Config, st: State, id: Id, resp: Response, st': State) {
    match resp
    case Dropped(freed) =>
      && id in st.snapshots && freed == RowBytes(c.kernels, st.snapshots[id])
      && st' == State(st.snapshots - {id}, st.nextTag)
    case Failed(error) => id !in st.snapshots && error == NotFound && st' == st
    case _ => false
  }

  ghost predicate SaveStep(st: State, id: Id, resp: Response) {
    match resp
    case SavedAs(files) => id in st.snapshots && files == FilesOf(st.snapshots[id])
    case Failed(error) => if id in st.snapshots then error == Invalid else error == NotFound
    case _ => false
  }

  ghost predicate LoadStep(c: Config, st: State, id: Id, files: Option<Saved>, resp: Response, st': State) {
    match resp
    case Loaded =>
      && id !in st.snapshots && files.Some? && Loadable(files.value, c.context)
      && st' == State(st.snapshots[id := FromFiles(id, files.value, st.nextTag)], st.nextTag + 2)
    case Failed(error) =>
      && st' == st
      && (error == Exists || error == Integrity)
      && (error == Exists ==> id in st.snapshots)
      && (error == Integrity ==> files.None? || !Loadable(files.value, c.context))
    case _ => false
  }

  ghost predicate PartlyPublished(c: Config, st: State, of: Id, qs: seq<Question>, st': State)
    requires 0 < c.batch
  {
    || st' == st
    || (Admitted(c, st, of, qs) &&
        exists j :: 0 <= j <= |qs| && st' == PublishedAll(c, st, st.snapshots[of], qs[..j]))
  }

  // A prompt never renders to no tokens.
  ghost predicate Rendered(cmd: Command) {
    && (cmd.Create? ==> cmd.tokens != [])
    && (cmd.Ride? ==> cmd.full != [])
  }

  // A run of the request loop: the registries between the commands, and what was
  // answered.
  ghost predicate Served(c: Config, states: seq<State>, cmds: seq<Command>, resps: seq<Response>)
    requires 0 < c.batch
  {
    && |resps| == |cmds| && |states| == |cmds| + 1
    && forall i :: 0 <= i < |cmds| ==> Step(c, states[i], cmds[i], resps[i], states[i + 1])
  }

  lemma PublishedSnoc(c: Config, st: State, parent: Snapshot, qs: seq<Question>, i: nat)
    requires 0 < c.batch && parent.upperKv.Some? && i < |qs|
    requires forall j :: 0 <= j < |qs| ==> |parent.tokens| < |qs[j].full|
    ensures PublishedAll(c, st, parent, qs[..i + 1]) ==
      Published(c, PublishedAll(c, st, parent, qs[..i]), parent, qs[i])
  {
    assert qs[..i + 1][..i] == qs[..i];
  }

  // Publishing adds children under their own fresh ids and changes nothing else.
  lemma {:induction false} PublishedKeys(c: Config, st: State, of: Id, qs: seq<Question>, i: nat)
    requires 0 < c.batch && Admitted(c, st, of, qs) && i <= |qs|
    ensures
      var now := PublishedAll(c, st, st.snapshots[of], qs[..i]).snapshots;
      && (forall id :: id in st.snapshots ==> id in now && now[id] == st.snapshots[id])
      && (forall id :: id in now && id !in st.snapshots ==> exists j :: 0 <= j < i && qs[j].saveAs == Some(id))
    decreases i
  {
    if i > 0 {
      PublishedKeys(c, st, of, qs, i - 1);
      assert qs[..i][..i - 1] == qs[..i - 1];
    }
  }
}
