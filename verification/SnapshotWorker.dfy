// The registry and the commands of the snapshot worker
// (class worker of unridden/api/native/snapshots/snapshot-worker.cpp). Any
// inference step may fail; rendering and tokenization happen before a command.
module SnapshotWorker {
  import opened Common
  import opened KvCache
  import opened Kernels
  import opened SnapshotRuntime
  import opened WorkerSpec
  import opened StockAnswers

  class Worker {
    const config: Config
    const runtime: Runtime
    var snapshots: map<Id, Snapshot>
    var nextTag: nat

    constructor (config: Config)
      requires 0 < config.batch
      ensures fresh(runtime) && this.config == config
      ensures Valid() && State() == WorkerSpec.State(map[], 0)
    {
      this.config := config;
      runtime := new Runtime(config.kernels, config.batch);
      snapshots, nextTag := map[], 0;
    }

    // A new process in place of one that died: nothing is registered or resident.
    method Restart()
      requires Ready()
      modifies this, runtime
      ensures Valid() && snapshots == map[]
    {
      runtime.Clear();
      runtime.ClearReference();
      snapshots := map[];
    }

    function State(): State
      reads this
    {
      WorkerSpec.State(snapshots, nextTag)
    }

    ghost predicate Ready() {
      0 < config.batch && runtime.kernels == config.kernels && runtime.batch == config.batch
    }

    ghost predicate Registered()
      reads this
    {
      && Ready()
      && forall id :: id in snapshots ==> snapshots[id].id == id && WellFormed(snapshots[id], config.context)
    }

    // Between commands a resident id names a registered snapshot whose cells
    // the contexts hold, no more and no less.
    ghost predicate Valid()
      reads this, runtime
    {
      && Registered()
      && (runtime.resident.Some? ==>
          && runtime.resident.value in snapshots
          && runtime.Holds(snapshots[runtime.resident.value]))
    }

    // snapshots_.emplace, with the shared pointers the item took.
    method Emplace(item: Snapshot, tags: nat)
      requires Registered() && WellFormed(item, config.context)
      modifies this
      ensures Registered()
      ensures State() == WorkerSpec.State(old(snapshots)[item.id := item], old(nextTag) + tags)
    {
      snapshots := snapshots[item.id := item];
      nextTag := nextTag + tags;
    }

    method Create(id18: Option<Id>, id30: Option<Id>, kind: Kind, tokens: seq<Token>, digest: Digest)
      returns (resp: Response)
      requires Valid() && tokens != []
      modifies this, runtime
      ensures Valid()
      ensures CreateStep(config, old(State()), Command.Create(id18, id30, kind, tokens, digest), resp, State())
      ensures resp.Created? ==>
        CreatedRight(config, old(State()), Command.Create(id18, id30, kind, tokens, digest), State())
    {
      hide CreatedRight;
      if id18.None? && id30.None? {
        return Failed(Invalid);
      }
      if id18.Some? && id18.value in snapshots {
        return Failed(Exists);
      }
      if id30.Some? && id30.value in snapshots {
        return Failed(Exists);
      }
      if id18 == id30 {
        return Failed(Invalid);
      }
      if |tokens| > config.context {
        return Failed(Budget);
      }
      ghost var st, cmd := State(), Command.Create(id18, id30, kind, tokens, digest);
      resp := CreateAdmitted(id18, id30, kind, tokens, digest);
      CreateRight(config, st, cmd);
    }

    method CreateAdmitted(id18: Option<Id>, id30: Option<Id>, kind: Kind, tokens: seq<Token>, digest: Digest)
      returns (resp: Response)
      requires Valid() && 1 <= |tokens| <= config.context
      requires id18 != id30
      requires id18.Some? ==> id18.value !in snapshots
      requires id30.Some? ==> id30.value !in snapshots
      modifies this, runtime
      ensures Valid()
      ensures CreateStep(config, old(State()), Command.Create(id18, id30, kind, tokens, digest), resp, State())
    {
      hide LowerRun, UpperRun, PosMax;
      var made18 := RunCreate18(if id18.Some? then id18.value else id30.value, kind, tokens, digest);
      if made18.Err? {
        runtime.Clear();
        return Failed(Execution);
      }
      var s18 := made18.value;
      if id30.None? {
        // Published only once every requested checkpoint is complete.
        Emplace(s18, 1);
        runtime.SetResident(id18.value, false);
        return Response.Created(None);
      }
      var readout := Add30(s18, id30.value, id18.Some?);
      if readout.Err? {
        runtime.Clear();
        return Failed(Execution);
      }
      return Response.Created(Some(readout.value));
    }

    // The 30 beside `from`, or alone; both are published together.
    method Add30(from: Snapshot, id: Id, paired: bool) returns (r: Result<Logits, Fault>)
      requires Registered() && runtime.upper == []
      requires from.depth.D18? && WellFormed(from, config.context)
      requires runtime.lower == from.lowerKv.cells && PosMax(runtime.lower) == |from.tokens| - 1
      modifies this, runtime
      ensures Registered() && (r.Ok? ==> Valid())
      ensures r.Ok? ==>
        && r.value == Last(Upper30(config, from.h18.value).outs).logits
        && var made := Made30(config, id, from, paired, old(nextTag) + 1);
          State() == WorkerSpec.State((if paired then old(snapshots)[from.id := from] else old(snapshots))[id := made],
            old(nextTag) + 2)
      ensures r.Err? ==> State() == old(State())
    {
      hide LowerRun, UpperRun, PosMax;
      var made30 := RunUpper30(from, id, paired, nextTag + 1);
      if made30.Err? {
        return Err(made30.error);
      }
      var (s30, logits) := made30.value;
      if paired {
        Emplace(from, 0);
      }
      Emplace(s30, 2);
      runtime.SetResident(id, true);
      return Ok(logits);
    }

    // The lower range over a prompt, from empty contexts.
    method RunCreate18(id: Id, kind: Kind, tokens: seq<Token>, digest: Digest) returns (r: Result<Snapshot, Fault>)
      requires Registered() && 1 <= |tokens| <= config.context
      modifies runtime
      ensures Registered()
      ensures r.Ok? ==>
        && r.value == Made18(config, id, kind, tokens, digest, nextTag)
        && WellFormed(r.value, config.context)
        && runtime.lower == r.value.lowerKv.cells && PosMax(runtime.lower) == |tokens| - 1
        && runtime.upper == []
    {
      hide Prefill, PosMax;
      runtime.Clear();
      var low := runtime.RunLower(tokens, 0, |tokens|);
      if low.Err? {
        return Err(low.error);
      }
      var cells := runtime.SaveState(false);
      if cells.Err? {
        return Err(cells.error);
      }
      assert tokens[0..|tokens|] == tokens;
      TrimUndoesPrefill(config.kernels.lower, [], 0, tokens, config.batch, 0);
      return Ok(Snapshot(id, D18, None, kind, tokens, digest, Blob(nextTag, cells.value), None, Some(low.value), None,
        None, true));
    }

    // The upper range over an 18's boundary rows, on an empty upper context.
    method RunUpper30(from: Snapshot, id: Id, paired: bool, tag: nat) returns (r: Result<(Snapshot, Logits), Fault>)
      requires Registered() && runtime.upper == []
      requires from.depth.D18? && WellFormed(from, config.context)
      modifies runtime`upper
      ensures Registered()
      ensures r.Ok? ==>
        && r.value.0 == Made30(config, id, from, paired, tag)
        && WellFormed(r.value.0, config.context)
        && r.value.1 == Last(Upper30(config, from.h18.value).outs).logits
        && runtime.upper == r.value.0.upperKv.value.cells && PosMax(runtime.upper) == |from.tokens| - 1
    {
      hide Prefill, PosMax;
      var h18 := from.h18.value;
      var up := runtime.RunUpper(h18, 0);
      if up.Err? {
        return Err(up.error);
      }
      var cells := runtime.SaveState(true);
      if cells.Err? {
        return Err(cells.error);
      }
      TrimUndoesPrefill(config.kernels.upper, [], 0, h18, config.batch, 0);
      var made := Snapshot(id, D30, if paired then Some(from.id) else None, from.kind, from.tokens, from.digest,
        from.lowerKv,
        Some(Blob(tag, cells.value)), if paired then None else Some(h18), Some(up.value.0),
        Some(up.value.1.normalized), !paired);
      return Ok((made, up.value.1.logits));
    }

    method Promote(of: Id, newId: Id) returns (resp: Response)
      requires Valid()
      modifies this, runtime
      ensures Valid()
      ensures PromoteStep(config, old(State()), of, newId, resp, State())
      ensures resp.Promoted? ==> PromotedRight(config, old(State()), of, newId, State())
    {
      hide PromotedRight, WithPromotion;
      if of !in snapshots {
        return Failed(NotFound);
      }
      var parent := snapshots[of];
      if parent.depth != D18 || parent.h18.None? {
        return Failed(Unavailable);
      }
      if newId in snapshots {
        return Failed(Exists);
      }
      ghost var st := State();
      PromoteRight(config, st, of, newId);
      resp := PromoteAdmitted(parent, newId);
    }

    method PromoteAdmitted(parent: Snapshot, newId: Id) returns (resp: Response)
      requires Valid() && parent.id in snapshots && snapshots[parent.id] == parent
      requires parent.depth.D18? && newId !in snapshots
      modifies this, runtime
      ensures Valid()
      ensures PromoteStep(config, old(State()), parent.id, newId, resp, State())
    {
      hide LowerRun, UpperRun, PosMax;
      runtime.Clear();
      var restored := runtime.MakeResident(parent);
      if restored.Err? {
        return Failed(Execution);
      }
      var made := RunUpper30(parent, newId, true, nextTag);
      if made.Err? {
        runtime.Clear();
        return Failed(Execution);
      }
      Emplace(made.value.0, 1);
      runtime.SetResident(newId, true);
      return Promoted;
    }

    // The suffix through both ranges on top of the parent's cells.
    method Forward(parent: Snapshot, full: seq<Token>) returns (r: Result<Branch, Fault>, restored: nat)
      requires Registered()
      requires parent.depth.D30? && WellFormed(parent, config.context) && Extends(full, parent.tokens)
      requires runtime.resident == Some(parent.id) ==> runtime.Holds(parent)
      modifies runtime
      ensures Registered()
      ensures r.Ok? ==> restored == if old(runtime.HasResident(parent)) then 0 else StateBytes(config.kernels, parent)
      ensures r.Ok? ==>
        && runtime.resident == Some(parent.id) && runtime.residentUpper
        && PosMax(parent.lowerKv.cells) == PosMax(parent.upperKv.value.cells) == |parent.tokens| - 1
        && r.value == BranchOf(config, parent, full)
        && runtime.lower == r.value.lower && runtime.upper == r.value.upper
    {
      hide Prefill, PosMax;
      var n := |parent.tokens|;
      var resident := runtime.MakeResident(parent);
      if resident.Err? {
        return Err(resident.error), 0;
      }
      var low := runtime.RunLower(full, n, |full|);
      if low.Err? {
        return Err(low.error), 0;
      }
      var up := runtime.RunUpper(low.value, n);
      if up.Err? {
        return Err(up.error), 0;
      }
      assert full[n..|full|] == full[n..];
      return Ok(Branch(up.value.1, low.value, up.value.0, runtime.lower, runtime.upper)), resident.value;
    }

    // Saves both ranges as a child of `parent`.
    method PublishChild(parent: Snapshot, q: Question, branch: Branch, id: Id) returns (r: Result<(), Fault>)
      requires Registered()
      requires parent.depth.D30? && WellFormed(parent, config.context) && Extends(q.full, parent.tokens)
      requires branch == BranchOf(config, parent, q.full)
      requires runtime.lower == branch.lower && runtime.upper == branch.upper
      requires |q.full| <= config.context && q.saveAs == Some(id) && id !in snapshots
      modifies this
      ensures Registered()
      ensures State() == if r.Ok? then Published(config, old(State()), parent, q) else old(State())
      ensures r.Ok? ==> id in snapshots && GrownRight(config, parent, q, id, snapshots[id])
    {
      hide LowerRun, UpperRun, PosMax, GrownRight;
      ChildRight(config, parent, q, id, nextTag);
      var lowerCells := runtime.SaveState(false);
      if lowerCells.Err? {
        return Err(lowerCells.error);
      }
      var upperCells := runtime.SaveState(true);
      if upperCells.Err? {
        return Err(upperCells.error);
      }
      var child := Snapshot(id, D30, Some(parent.id), Readout, q.full, q.digest,
        Blob(nextTag, lowerCells.value), Some(Blob(nextTag + 1, upperCells.value)),
        Joined(parent.h18, branch.h18), Joined(parent.h30, branch.h30), Some(branch.seen.normalized), true);
      assert child == ChildOf(config, parent, q.full, q.digest, id, nextTag);
      assert |branch.h18| == |branch.h30| == |q.full| - |parent.tokens|;
      Emplace(child, 2);
      return Ok(());
    }

    // One branch: parent resident, suffix through both ranges, then publish a
    // child if asked and trim back. On a fault the contexts are not cleared yet.
    method RunBranch(parent: Snapshot, q: Question) returns (r: Result<Branch, Fault>, report: BranchReport)
      requires Valid() && parent.id in snapshots && snapshots[parent.id] == parent
      requires parent.depth.D30? && Extends(q.full, parent.tokens) && |q.full| <= config.context
      requires q.saveAs.Some? ==> q.saveAs.value !in snapshots
      modifies this, runtime
      ensures Registered()
      ensures r.Ok? ==> report == ReportOf(config.kernels, parent, q.full, old(runtime.HasResident(parent)))
      ensures r.Ok? ==> runtime.HasResident(parent)
      ensures r.Ok? ==>
        && runtime.resident == Some(parent.id) && runtime.Holds(parent)
        && r.value == BranchOf(config, parent, q.full)
        && State() == Published(config, old(State()), parent, q)
      ensures r.Err? ==> State() == old(State()) || State() == Published(config, old(State()), parent, q)
    {
      hide LowerRun, UpperRun, PosMax;
      var branch, restored := Forward(parent, q.full);
      report := BranchReport(|q.full| - |parent.tokens|, restored);
      if branch.Err? {
        return branch, report;
      }
      if q.saveAs.Some? {
        var saved := PublishChild(parent, q, branch.value, q.saveAs.value);
        if saved.Err? {
          return Err(saved.error), report;
        }
      }
      BranchTrims(config, parent, q.full);
      var trimmed := runtime.TrimTo(parent);
      if trimmed.Err? {
        return Err(trimmed.error), report;
      }
      return branch, report;
    }

    // The preflight of one branch prompt.
    method Preflight(parent: Snapshot, q: Question) returns (error: Option<WorkerError>)
      requires Valid()
      ensures error.None? <==>
        && Extends(q.full, parent.tokens) && |q.full| <= config.context
        && (q.saveAs.Some? ==> q.saveAs.value !in snapshots)
      ensures error.Some? ==>
        match error.value
        case Budget => |q.full| > config.context
        case FollowupUnsupported => !Extends(q.full, parent.tokens) && parent.kind == Readout
        case PrefixMismatch => !Extends(q.full, parent.tokens) && parent.kind == Context
        case Exists => q.saveAs.Some? && q.saveAs.value in snapshots
        case _ => false
    {
      if |q.full| > config.context {
        return Some(Budget);
      }
      if |q.full| <= |parent.tokens| || q.full[..|parent.tokens|] != parent.tokens {
        return Some(if parent.kind == Readout then FollowupUnsupported else PrefixMismatch);
      }
      if q.saveAs.Some? && q.saveAs.value in snapshots {
        return Some(Exists);
      }
      return None;
    }

    method Evaluate(of: Id, questions: seq<Question>) returns (resp: Response, reports: seq<BranchReport>)
      requires Valid()
      modifies this, runtime
      ensures Valid()
      ensures EvaluateStep(config, old(State()), of, questions, resp, State())
      ensures resp.Evaluated? ==> |reports| == |questions|
      ensures resp.Evaluated? ==>
        BatchReported(config.kernels, old(snapshots)[of], questions, old(runtime.HasResident(snapshots[of])), reports)
    {
      if of !in snapshots {
        return Failed(NotFound), [];
      }
      var parent := snapshots[of];
      if parent.depth != D30 {
        return Failed(Unavailable), [];
      }
      if questions == [] || |questions| > 32 {
        return Failed(Invalid), [];
      }
      var error := PreflightAll(of, questions);
      if error.Some? {
        return Failed(error.value), [];
      }
      resp, reports := EvaluateAdmitted(parent, questions);
    }

    // Every question of a batch, before any inference.
    method PreflightAll(of: Id, questions: seq<Question>) returns (error: Option<WorkerError>)
      requires Valid() && of in snapshots && snapshots[of].depth.D30?
      ensures error.None? ==> Admitted(config, State(), of, questions)
      ensures error.Some? ==> EvaluateDenied(config, State(), of, questions, error.value)
    {
      var parent := snapshots[of];
      ghost var st := State();
      var newIds: set<Id> := {};
      for i := 0 to |questions|
        invariant forall j :: 0 <= j < i && questions[j].saveAs.Some? ==> questions[j].saveAs.value in newIds
        invariant forall id :: id in newIds ==> exists j :: 0 <= j < i && questions[j].saveAs == Some(id)
        invariant Admitted(config, st, of, questions[..i])
      {
        error := Preflight(parent, questions[i]);
        if error.Some? {
          RefusedAt(config, st, of, questions, i, error.value);
          return;
        }
        if questions[i].saveAs.Some? {
          if questions[i].saveAs.value in newIds {
            ghost var j :| 0 <= j < i && questions[j].saveAs == questions[i].saveAs;
            return Some(Invalid);
          }
          newIds := newIds + {questions[i].saveAs.value};
        }
      }
      assert questions[..|questions|] == questions;
      return None;
    }

    // What the preflight finds against one prompt is against the batch.
    lemma RefusedAt(c: Config, st: State, of: Id, qs: seq<Question>, i: nat, error: WorkerError)
      requires i < |qs| && of in st.snapshots && st.snapshots[of].depth.D30?
      requires
        match error
        case Budget => |qs[i].full| > c.context
        case FollowupUnsupported => !Extends(qs[i].full, st.snapshots[of].tokens) && st.snapshots[of].kind == Readout
        case PrefixMismatch => !Extends(qs[i].full, st.snapshots[of].tokens) && st.snapshots[of].kind == Context
        case Exists => qs[i].saveAs.Some? && qs[i].saveAs.value in st.snapshots
        case _ => false
      ensures BranchesDenied(c, st, of, qs, error) && EvaluateDenied(c, st, of, qs, error)
    {
    }

    method EvaluateAdmitted(parent: Snapshot, questions: seq<Question>)
      returns (resp: Response, reports: seq<BranchReport>)
      requires Valid() && parent.id in snapshots && snapshots[parent.id] == parent
      requires Admitted(config, State(), parent.id, questions)
      modifies this, runtime
      ensures Valid()
      ensures EvaluateStep(config, old(State()), parent.id, questions, resp, State())
      ensures resp.Evaluated? ==> |reports| == |questions|
      ensures resp.Evaluated? ==>
        BatchReported(config.kernels, parent, questions, old(runtime.HasResident(parent)), reports)
    {
      hide BranchOf, ChildOf, PosMax, ReportOf, WellFormed, StateBytes, Runtime.Holds, EvaluateDenied, EvaluateStep,
        Branched, BatchReported, Published, Admitted;
      ghost var st := State();
      ghost var resident := runtime.HasResident(parent);
      AdmittedParent(config, st, parent.id, questions);
      var branches: seq<Branch> := [];
      reports := [];
      BranchedNone(config, st, parent, questions, resident);
      for i := 0 to |questions|
        invariant Valid() && |branches| == |reports| == i
        invariant BatchReported(config.kernels, parent, questions, resident, reports)
        invariant runtime.HasResident(parent) == (resident || i > 0)
        invariant Branched(config, st, parent, questions, branches, State())
      {
        BranchedStop(config, st, parent, questions, branches, State());
        BranchedNext(config, st, parent, questions, branches, State());
        QuestionFits(config, st, parent, questions, i);
        ghost var one := Published(config, State(), parent, questions[i]);
        BranchedStop(config, st, parent, questions, branches + [BranchOf(config, parent, questions[i].full)], one);
        BranchedParent(config, st, parent, questions, branches + [BranchOf(config, parent, questions[i].full)], one);
        var branch, report := RunBranch(parent, questions[i]);
        if branch.Err? {
          runtime.Clear();
          return Failed(Execution), reports;
        }
        ReportedNext(config.kernels, parent, questions, resident, reports, report);
        branches, reports := branches + [branch.value], reports + [report];
        // Reading out the labels may fail once the child is published.
        if * {
          runtime.Clear();
          return Failed(Execution), reports;
        }
      }
      BranchedDone(config, st, parent, questions, branches, State());
      return Evaluated(branches), reports;
    }

    method StateEval(of: Id, question: Question) returns (resp: Response, report: BranchReport)
      requires Valid()
      modifies this, runtime
      ensures Valid()
      ensures StateEvalStep(config, old(State()), of, question, resp, State())
      ensures resp.Stated? ==>
        report == ReportOf(config.kernels, old(snapshots)[of], question.full, old(runtime.HasResident(snapshots[of])))
    {
      hide BranchOf, ReportOf, Published;
      report := BranchReport(0, 0);
      if of !in snapshots {
        return Failed(NotFound), report;
      }
      var parent := snapshots[of];
      if parent.depth != D30 {
        return Failed(Unavailable), report;
      }
      var error := Preflight(parent, question);
      if error.Some? {
        RefusedAt(config, State(), of, [question], 0, error.value);
        return Failed(error.value), report;
      }
      resp, report := StateEvalAdmitted(parent, question);
    }

    method StateEvalAdmitted(parent: Snapshot, question: Question) returns (resp: Response, report: BranchReport)
      requires Valid() && parent.id in snapshots && snapshots[parent.id] == parent && parent.depth.D30?
      requires Extends(question.full, parent.tokens) && |question.full| <= config.context
      requires question.saveAs.Some? ==> question.saveAs.value !in snapshots
      modifies this, runtime
      ensures Valid()
      ensures StateEvalStep(config, old(State()), parent.id, question, resp, State())
      ensures resp.Stated? ==>
        parent.upperKv.Some? && report == ReportOf(config.kernels, parent, question.full,
          old(runtime.HasResident(parent)))
    {
      hide BranchOf, ChildOf, PosMax, ReportOf, StateBytes, Runtime.Holds, Admitted, Published;
      ghost var st := State();
      OneAdmitted(config, st, parent.id, question);
      var branch: Result<Branch, Fault>;
      branch, report := RunBranch(parent, question);
      OnePublished(config, st, parent.id, question, State());
      if branch.Err? {
        runtime.Clear();
        return Failed(Execution), report;
      }
      // The exported vectors may turn out nonfinite after the child is published.
      if * {
        return Failed(Invalid), report;
      }
      return Stated(branch.value), report;
    }

    // -- ride -----------------------------------------------------------------

    function EngineOf(stock: bool): Engine
      reads this, runtime
    {
      if stock then Stock(runtime.reference) else Split(runtime.lower, runtime.upper)
    }

    // One step through whatever graph the mode uses.
    method AdvanceEngine(stock: bool, sequence: seq<Token>, begin: nat) returns (r: Result<Capture, Fault>)
      requires Ready() && begin < |sequence|
      requires !stock ==> PosMax(runtime.lower) == begin - 1
      modifies runtime`lower, runtime`upper, runtime`reference
      ensures r.Ok? ==> (EngineOf(stock), r.value) == Advance(config, old(EngineOf(stock)), sequence, begin)
      ensures stock ==> runtime.lower == old(runtime.lower) && runtime.upper == old(runtime.upper)
    {
      hide Prefill, PosMax;
      assert sequence[begin..|sequence|] == sequence[begin..];
      if stock {
        r := runtime.ReferenceAppend(sequence, begin, |sequence|, begin == 0);
        return;
      }
      var low := runtime.RunLower(sequence, begin, |sequence|);
      if low.Err? {
        return Err(low.error);
      }
      var up := runtime.RunUpper(low.value, begin);
      if up.Err? {
        return Err(up.error);
      }
      return Ok(up.value.1);
    }

    // The split contexts hold `lower` and `upper` and then cells from `length` on,
    // the last one at position `count` - 1.
    ghost predicate Riding(stock: bool, lower: Cells, upper: Cells, length: nat, count: nat)
      reads this, runtime
    {
      if stock then runtime.lower == lower && runtime.upper == upper
      else
        && length <= count
        && GrownFrom(lower, runtime.lower, length) && PosMax(runtime.lower) == count - 1
        && GrownFrom(upper, runtime.upper, length) && PosMax(runtime.upper) == count - 1
    }

    // AdvanceEngine, keeping count of what the contexts hold.
    method RideStep(stock: bool, sequence: seq<Token>, begin: nat, ghost lower: Cells, ghost upper: Cells,
        ghost length: nat)
      returns (r: Result<Capture, Fault>)
      requires Ready() && begin < |sequence|
      requires Riding(stock, lower, upper, length, begin)
      modifies runtime`lower, runtime`upper, runtime`reference
      ensures r.Ok? ==>
        && (EngineOf(stock), r.value) == Advance(config, old(EngineOf(stock)), sequence, begin)
        && Riding(stock, lower, upper, length, |sequence|)
    {
      hide Prefill, PosMax;
      r := AdvanceEngine(stock, sequence, begin);
      if r.Ok? && !stock {
        AdvanceGrows(config, old(runtime.lower), old(runtime.upper), sequence, begin, lower, upper, length);
      }
    }

    method GenerateAll(stock: bool, first: Capture, full: seq<Token>, work: nat, maxTokens: nat,
        ghost lower: Cells, ghost upper: Cells, ghost length: nat)
      returns (r: Result<Rider, Fault>, ghost count: nat)
      requires Ready() && 0 < maxTokens
      requires Riding(stock, lower, upper, length, |full|)
      modifies runtime`lower, runtime`upper, runtime`reference
      ensures r.Ok? ==>
        && r.value == Generate(config, old(EngineOf(stock)), first, full, Rider([], [], false, work), maxTokens)
        && Riding(stock, lower, upper, length, count)
    {
      hide Advance;
      var seen, sequence := first, full;
      var output: seq<Token> := [];
      var steps: seq<Logits> := [];
      var tokens := work;
      ghost var spec := Generate(config, EngineOf(stock), seen, sequence, Rider(output, steps, false, tokens),
        maxTokens);
      while true
        invariant |output| < maxTokens
        invariant Riding(stock, lower, upper, length, |sequence|)
        invariant spec ==
          Generate(config, EngineOf(stock), seen, sequence, Rider(output, steps, false, tokens), maxTokens)
        decreases maxTokens - |output|
      {
        var token := config.kernels.argmax(seen.logits);
        steps := steps + [seen.logits];
        if config.kernels.isEog(token) {
          return Ok(Rider(output, steps, true, tokens)), |sequence|;
        }
        output := output + [token];
        if |output| == maxTokens {
          return Ok(Rider(output, steps, false, tokens)), |sequence|;
        }
        ghost var before := EngineOf(stock);
        var next := RideStep(stock, sequence + [token], |sequence|, lower, upper, length);
        if next.Err? {
          return Err(next.error), *;
        }
        GenerateStep(config, before, seen, sequence,
          Rider(output[..|output| - 1], steps[..|steps| - 1], false, tokens), maxTokens,
          EngineOf(stock), next.value);
        sequence := sequence + [token];
        seen := next.value;
        tokens := tokens + 1;
      }
    }

    // Prefill from `from`, then generate.
    method RideAll(stock: bool, full: seq<Token>, from: nat, work: nat, maxTokens: nat,
        ghost lower: Cells, ghost upper: Cells, ghost length: nat)
      returns (r: Result<Rider, Fault>, ghost count: nat)
      requires Ready() && 0 < maxTokens && from < |full|
      requires Riding(stock, lower, upper, length, from)
      modifies runtime`lower, runtime`upper, runtime`reference
      ensures r.Ok? ==>
        && r.value == RideFrom(config, old(EngineOf(stock)), full, from, work, maxTokens)
        && Riding(stock, lower, upper, length, count)
    {
      hide Advance, Generate;
      var first := RideStep(stock, full, from, lower, upper, length);
      label Filled:
      if first.Err? {
        return Err(first.error), *;
      }
      r, count := GenerateAll(stock, first.value, full, work + |full| - from, maxTokens, lower, upper, length);
      RideFromIs(config, old(EngineOf(stock)), full, from, work, maxTokens, old@Filled(EngineOf(stock)), first.value);
    }

    // Baseline modes: empty contexts, an optional break in the prefill.
    method RideBaselineAll(stock: bool, full: seq<Token>, brk: nat, maxTokens: nat) returns (r: Result<Rider, Fault>)
      requires Ready() && 0 < maxTokens && brk < |full|
      requires !stock ==> runtime.lower == [] && runtime.upper == []
      modifies runtime`lower, runtime`upper, runtime`reference
      ensures r.Ok? ==> r.value == RideBaseline(config, old(EngineOf(stock)), full, brk, maxTokens)
      ensures r.Ok? && stock ==> runtime.lower == old(runtime.lower) && runtime.upper == old(runtime.upper)
    {
      ghost var lower, upper := runtime.lower, runtime.upper;
      ghost var count: nat;
      if brk == 0 {
        r, count := RideAll(stock, full, 0, 0, maxTokens, lower, upper, 0);
        return;
      }
      var head := RideStep(stock, full[..brk], 0, lower, upper, 0);
      if head.Err? {
        return Err(head.error);
      }
      r, count := RideAll(stock, full, brk, brk, maxTokens, lower, upper, 0);
    }

    method Ride(mode: Mode, full: seq<Token>, maxTokens: nat, trace: bool) returns (resp: Response, restored: nat)
      requires Valid() && full != []
      modifies runtime
      ensures Valid()
      ensures WorkerSpec.RideStep(config, State(), mode, full, maxTokens, trace, resp)
      ensures resp.Rode? && mode.FromSnapshot? ==>
        && mode.id in snapshots && runtime.resident == Some(mode.id) && runtime.Holds(snapshots[mode.id])
        && runtime.residentUpper
        && restored ==
          (if old(runtime.HasResident(snapshots[mode.id])) then 0 else StateBytes(config.kernels, snapshots[mode.id]))
    {
      restored := 0;
      if !mode.FromSnapshot? && !config.hasReference {
        return Failed(Unavailable), 0;
      }
      if maxTokens < 1 || maxTokens > config.context {
        return Failed(Invalid), 0;
      }
      if |full| > config.context {
        return Failed(Budget), 0;
      }
      hide WorkerSpec.RideStep;
      match mode {
        case FromSnapshot(id) => resp, restored := RideFromSnapshot(id, full, maxTokens, trace);
        case SplitPrefill(brk) => resp := RideFromNothing(false, brk, full, maxTokens, trace);
        case Reference(brk) => resp := RideFromNothing(true, brk, full, maxTokens, trace);
      }
    }

    method RideFromSnapshot(id: Id, full: seq<Token>, maxTokens: nat, trace: bool)
      returns (resp: Response, restored: nat)
      requires Valid() && 1 <= maxTokens <= config.context && full != []
      modifies runtime
      ensures Valid()
      ensures WorkerSpec.RideStep(config, State(), FromSnapshot(id), full, maxTokens, trace, resp)
      ensures resp.Rode? ==>
        && id in snapshots && runtime.resident == Some(id)
        && runtime.Holds(snapshots[id]) && runtime.residentUpper
        && restored ==
          (if old(runtime.HasResident(snapshots[id])) then 0 else StateBytes(config.kernels, snapshots[id]))
    {
      hide RideFrom, PosMax;
      if id !in snapshots {
        return Failed(NotFound), 0;
      }
      var parent := snapshots[id];
      if parent.depth != D30 {
        return Failed(Unavailable), 0;
      }
      var error := Preflight(parent, Question(full, parent.digest, None));
      if error.Some? {
        return Failed(error.value), 0;
      }
      if |full| + maxTokens > config.context {
        return Failed(Budget), 0;
      }
      var ride: Result<Rider, Fault>;
      ride, restored := RideSnapshot(parent, full, maxTokens);
      resp := RideResponse(ride, trace);
    }

    // The response, unless an output token has no text piece.
    method RideResponse(ride: Result<Rider, Fault>, trace: bool) returns (resp: Response)
      requires Registered()
      requires ride.Ok? ==> Valid()
      modifies runtime
      ensures Valid()
      ensures resp ==
        Failed(Execution) || (ride.Ok? && resp == Rode(if trace then ride.value else ride.value.(steps := [])))
      ensures ride.Ok? ==>
        && runtime.resident == old(runtime.resident) && runtime.residentUpper == old(runtime.residentUpper)
        && runtime.lower == old(runtime.lower) && runtime.upper == old(runtime.upper)
    {
      if ride.Err? {
        runtime.Clear();
        runtime.ClearReference();
        return Failed(Execution);
      }
      if * {
        return Failed(Execution);
      }
      return Rode(if trace then ride.value else ride.value.(steps := []));
    }

    method RideFromNothing(stock: bool, brk: nat, full: seq<Token>, maxTokens: nat, trace: bool)
      returns (resp: Response)
      requires Valid() && 1 <= maxTokens <= config.context && full != [] && config.hasReference
      modifies runtime
      ensures Valid()
      ensures WorkerSpec.RideStep(config, State(), if stock then Reference(brk) else SplitPrefill(brk), full,
          maxTokens, trace, resp)
    {
      hide RideBaseline, PosMax;
      if |full| + maxTokens > config.context {
        return Failed(Budget);
      }
      if !stock {
        runtime.Clear();
      }
      if brk >= |full| {
        return Failed(Invalid);
      }
      if stock {
        StockStartIsFresh(config, EngineOf(true), full, brk, maxTokens);
      }
      var ride := RideBaselineAll(stock, full, brk, maxTokens);
      if stock {
        runtime.ClearReference();
      } else {
        runtime.Clear();
      }
      resp := RideResponse(ride, trace);
    }

    method RideSnapshot(parent: Snapshot, full: seq<Token>, maxTokens: nat)
      returns (r: Result<Rider, Fault>, restored: nat)
      requires Valid() && parent.id in snapshots && snapshots[parent.id] == parent
      requires parent.depth.D30? && Extends(full, parent.tokens) && 0 < maxTokens
      modifies runtime
      ensures r.Ok? ==> restored == if old(runtime.HasResident(parent)) then 0 else StateBytes(config.kernels, parent)
      ensures r.Ok? ==>
        && r.value == RideFrom(config, Split(parent.lowerKv.cells, parent.upperKv.value.cells), full, |parent.tokens|,
          0, maxTokens)
        && runtime.resident == Some(parent.id) && runtime.Holds(parent) && runtime.residentUpper
    {
      hide RideFrom;
      var resident := runtime.MakeResident(parent);
      if resident.Err? {
        return Err(resident.error), 0;
      }
      restored := resident.value;
      r := RideResident(parent, full, maxTokens);
    }

    // The parent's cells are in the contexts, and are all that is left there.
    method RideResident(parent: Snapshot, full: seq<Token>, maxTokens: nat) returns (r: Result<Rider, Fault>)
      requires Ready() && parent.upperKv.Some? && Extends(full, parent.tokens) && 0 < maxTokens
      requires runtime.Holds(parent) && runtime.residentUpper
      modifies runtime
      ensures r.Ok? ==>
        && r.value == RideFrom(config, Split(parent.lowerKv.cells, parent.upperKv.value.cells), full, |parent.tokens|,
          0, maxTokens)
        && runtime.resident == old(runtime.resident) && runtime.Holds(parent) && runtime.residentUpper
    {
      hide RideFrom;
      var n := |parent.tokens|;
      ghost var lower, upper := runtime.lower, runtime.upper;
      ghost var count: nat;
      r, count := RideAll(false, full, n, 0, maxTokens, lower, upper, n);
      if r.Err? {
        return;
      }
      GrownTrims(lower, runtime.lower, n);
      GrownTrims(upper, runtime.upper, n);
      var trimmed := runtime.TrimTo(parent);
      if trimmed.Err? {
        return Err(trimmed.error);
      }
    }

    method Drop(id: Id) returns (resp: Response)
      requires Valid()
      modifies this, runtime
      ensures Valid()
      ensures DropStep(config, old(State()), id, resp, State())
    {
      if id !in snapshots {
        return Failed(NotFound);
      }
      var freed := RowBytes(config.kernels, snapshots[id]);
      if runtime.resident == Some(id) {
        runtime.Clear();
      }
      snapshots := snapshots - {id};
      return Dropped(freed);
    }

    method Save(id: Id) returns (resp: Response)
      requires Valid()
      ensures SaveStep(State(), id, resp)
    {
      if id !in snapshots {
        return Failed(NotFound);
      }
      if * {
        return Failed(Invalid);
      }
      return SavedAs(FilesOf(snapshots[id]));
    }

    // `files` is what the directory holds, or None when it cannot be read or a
    // checksum differs.
    method Load(id: Id, files: Option<Saved>) returns (resp: Response)
      requires Valid()
      modifies this
      ensures Valid()
      ensures LoadStep(config, old(State()), id, files, resp, State())
    {
      if id in snapshots {
        return Failed(Exists);
      }
      if files.None? {
        return Failed(Integrity);
      }
      var f := files.value;
      if !(1 <= |f.tokens| <= config.context) || f.lower.None?
        || (f.depth == D30 && f.upper.None?)
        || (f.depth == D18 && (f.upper.Some? || f.h18.None?))
        || (f.h18.Some? && |f.h18.value| != |f.tokens|)
        || (f.h30.Some? && |f.h30.value| != |f.tokens|)
      {
        return Failed(Integrity);
      }
      Emplace(FromFiles(id, f, nextTag), 2);
      return Loaded;
    }

    // -- the request loop -----------------------------------------------------

    method Handle(cmd: Command) returns (resp: Response)
      requires Valid() && Rendered(cmd)
      modifies this, runtime
      ensures Valid()
      ensures Step(config, old(State()), cmd, resp, State())
    {
      match cmd {
        case Create(id18, id30, kind, tokens, digest) => resp := Create(id18, id30, kind, tokens, digest);
        case Promote(of, newId) => resp := Promote(of, newId);
        case Evaluate(of, questions) => var evaluated, _ := Evaluate(of, questions); resp := evaluated;
        case StateEval(of, question) => var stated, _ := StateEval(of, question); resp := stated;
        case Ride(mode, full, maxTokens, trace) => var rode, _ := Ride(mode, full, maxTokens, trace); resp := rode;
        case Drop(id) => resp := Drop(id);
        case Save(id) => resp := Save(id);
        case Load(id, files) => resp := Load(id, files);
      }
    }

    method Serve(cmds: seq<Command>) returns (resps: seq<Response>, ghost states: seq<State>)
      requires Valid() && forall i :: 0 <= i < |cmds| ==> Rendered(cmds[i])
      modifies this, runtime
      ensures Valid()
      ensures Served(config, states, cmds, resps) && states[0] == old(State()) && Last(states) == State()
    {
      hide Step;
      resps, states := [], [State()];
      for i := 0 to |cmds|
        invariant Valid()
        invariant |resps| == i && |states| == i + 1 && states[0] == old(State()) && states[i] == State()
        invariant forall j :: 0 <= j < i ==> Step(config, states[j], cmds[j], resps[j], states[j + 1])
      {
        var resp := Handle(cmds[i]);
        resps, states := resps + [resp], states + [State()];
      }
    }
  }

  // Trimming a branch gives back the parent's cells.
  lemma BranchTrims(c: Config, parent: Snapshot, full: seq<Token>)
    requires 0 < c.batch && parent.upperKv.Some? && |parent.tokens| < |full|
    requires PosMax(parent.lowerKv.cells) == PosMax(parent.upperKv.value.cells) == |parent.tokens| - 1
    ensures
      var b := BranchOf(c, parent, full);
      && Truncate(b.lower, |parent.tokens|) == parent.lowerKv.cells
      && Truncate(b.upper, |parent.tokens|) == parent.upperKv.value.cells
  {
    var n := |parent.tokens|;
    var h18 := BranchOf(c, parent, full).h18;
    TrimUndoesPrefill(c.kernels.lower, parent.lowerKv.cells, n, full[n..], c.batch, n);
    TrimUndoesPrefill(c.kernels.upper, parent.upperKv.value.cells, n, h18, c.batch, n);
  }

  lemma AdvanceGrows(c: Config, now: Cells, nowUpper: Cells, sequence: seq<Token>, begin: nat, lower: Cells,
      upper: Cells, length: nat)
    requires 0 < c.batch && begin < |sequence| && length <= begin
    requires GrownFrom(lower, now, length) && PosMax(now) == begin - 1
    requires GrownFrom(upper, nowUpper, length) && PosMax(nowUpper) == begin - 1
    ensures
      var e := Advance(c, Split(now, nowUpper), sequence, begin).0;
      && GrownFrom(lower, e.lower, length) && PosMax(e.lower) == |sequence| - 1
      && GrownFrom(upper, e.upper, length) && PosMax(e.upper) == |sequence| - 1
  {
    var suffix := sequence[begin..];
    var h18 := Lasts(LowerRun(c.kernels, c.batch, now, suffix).outs);
    PrefillGrows(c.kernels.lower, lower, now, begin, suffix, c.batch, length);
    PrefillGrows(c.kernels.upper, upper, nowUpper, begin, h18, c.batch, length);
  }

  // One turn of the decode loop.
  lemma GenerateStep(c: Config, engine: Engine, seen: Capture, sequence: seq<Token>, so: Rider, maxTokens: nat,
      next: Engine, nextSeen: Capture)
    requires 0 < c.batch && |so.output| + 1 < maxTokens
    requires !c.kernels.isEog(c.kernels.argmax(seen.logits))
    requires (next, nextSeen) == Advance(c, engine, sequence + [c.kernels.argmax(seen.logits)], |sequence|)
    ensures
      var token := c.kernels.argmax(seen.logits);
      Generate(c, engine, seen, sequence, so, maxTokens)
      == Generate(c, next, nextSeen, sequence + [token],
        Rider(so.output + [token], so.steps + [seen.logits], false, so.work + 1), maxTokens)
  {
    hide Advance;
  }

  lemma RideFromIs(c: Config, engine: Engine, full: seq<Token>, from: nat, work: nat, maxTokens: nat, next: Engine,
      seen: Capture)
    requires 0 < c.batch && from < |full| && 0 < maxTokens
    requires (next, seen) == Advance(c, engine, full, from)
    ensures RideFrom(c, engine, full, from, work, maxTokens)
      == Generate(c, next, seen, full, Rider([], [], false, work + |full| - from), maxTokens)
  {
  }

  // Whatever the reference context held, a baseline clears it first.
  lemma StockStartIsFresh(c: Config, engine: Engine, full: seq<Token>, brk: nat, maxTokens: nat)
    requires 0 < c.batch && brk < |full| && 0 < maxTokens && engine.Stock?
    ensures RideBaseline(c, engine, full, brk, maxTokens) == RideBaseline(c, Stock([]), full, brk, maxTokens)
  {
  }

  // The first |branches| questions are answered and their children published.
  ghost predicate Branched(c: Config, st: State, parent: Snapshot, qs: seq<Question>, branches: seq<Branch>, st': State)
    requires 0 < c.batch && Admitted(c, st, parent.id, qs) && parent == st.snapshots[parent.id]
  {
    && |branches| <= |qs|
    && (forall j :: 0 <= j < |branches| ==> branches[j] == BranchOf(c, parent, qs[j].full))
    && st' == PublishedAll(c, st, parent, qs[..|branches|])
  }

  lemma AdmittedParent(c: Config, st: State, of: Id, qs: seq<Question>)
    requires Admitted(c, st, of, qs)
    ensures of in st.snapshots && st.snapshots[of].depth.D30? && st.snapshots[of].upperKv.Some?
  {
  }

  lemma QuestionFits(c: Config, st: State, parent: Snapshot, qs: seq<Question>, i: nat)
    requires Admitted(c, st, parent.id, qs) && parent == st.snapshots[parent.id] && i < |qs|
    ensures Extends(qs[i].full, parent.tokens) && |qs[i].full| <= c.context
  {
  }

  lemma BranchedNone(c: Config, st: State, parent: Snapshot, qs: seq<Question>, resident: bool)
    requires 0 < c.batch && Admitted(c, st, parent.id, qs) && parent == st.snapshots[parent.id]
    ensures Branched(c, st, parent, qs, [], st) && BatchReported(c.kernels, parent, qs, resident, [])
  {
    assert qs[..0] == [];
  }

  lemma BranchedParent(c: Config, st: State, parent: Snapshot, qs: seq<Question>, branches: seq<Branch>, st': State)
    requires 0 < c.batch && Admitted(c, st, parent.id, qs) && parent == st.snapshots[parent.id]
    requires Branched(c, st, parent, qs, branches, st')
    ensures parent.id in st'.snapshots && st'.snapshots[parent.id] == parent
  {
    hide BranchOf;
    PublishedKeys(c, st, parent.id, qs, |branches|);
  }

  // Inference may stop after any branch, whose children then stay.
  lemma BranchedStop(c: Config, st: State, parent: Snapshot, qs: seq<Question>, branches: seq<Branch>, st': State)
    requires 0 < c.batch && Admitted(c, st, parent.id, qs) && parent == st.snapshots[parent.id]
    requires Branched(c, st, parent, qs, branches, st')
    ensures EvaluateStep(c, st, parent.id, qs, Failed(Execution), st')
  {
    hide PublishedAll;
  }

  lemma BranchedDone(c: Config, st: State, parent: Snapshot, qs: seq<Question>, branches: seq<Branch>, st': State)
    requires 0 < c.batch && Admitted(c, st, parent.id, qs) && parent == st.snapshots[parent.id]
    requires Branched(c, st, parent, qs, branches, st') && |branches| == |qs|
    ensures EvaluateStep(c, st, parent.id, qs, Evaluated(branches), st')
  {
    hide PublishedAll, BranchOf;
    assert qs[..|qs|] == qs;
  }

  lemma ReportedNext(k: Kernels, parent: Snapshot, qs: seq<Question>, resident: bool, reports: seq<BranchReport>,
      report: BranchReport)
    requires BatchReported(k, parent, qs, resident, reports) && |reports| < |qs|
    requires Extends(qs[|reports|].full, parent.tokens)
    requires report == ReportOf(k, parent, qs[|reports|].full, resident || |reports| > 0)
    ensures BatchReported(k, parent, qs, resident, reports + [report])
  {
    hide StateBytes;
  }

  lemma OneAdmitted(c: Config, st: State, of: Id, q: Question)
    requires of in st.snapshots && WellFormed(st.snapshots[of], c.context) && st.snapshots[of].depth.D30?
    requires Extends(q.full, st.snapshots[of].tokens) && |q.full| <= c.context
    requires q.saveAs.Some? ==> q.saveAs.value !in st.snapshots
    ensures Admitted(c, st, of, [q])
  {
  }

  lemma OnePublished(c: Config, st: State, of: Id, q: Question, st': State)
    requires 0 < c.batch && Admitted(c, st, of, [q]) && of in st.snapshots
    requires st.snapshots[of].upperKv.Some? && Extends(q.full, st.snapshots[of].tokens)
    requires st' == st || st' == Published(c, st, st.snapshots[of], q)
    ensures PartlyPublished(c, st, of, [q], st') && of in st'.snapshots && st'.snapshots[of] == st.snapshots[of]
  {
    hide BranchOf, ChildOf;
    assert [q][0] == q;
    assert [q][..0] == [] && [q][..1] == [q];
    PublishedSnoc(c, st, st.snapshots[of], [q], 0);
  }

  // Between two questions the parent is still there, the next id is still free,
  // and one more branch publishes one more child.
  lemma BranchedNext(c: Config, st: State, parent: Snapshot, qs: seq<Question>, branches: seq<Branch>, st': State)
    requires 0 < c.batch && Admitted(c, st, parent.id, qs) && parent == st.snapshots[parent.id]
    requires Branched(c, st, parent, qs, branches, st') && |branches| < |qs|
    ensures parent.id in st'.snapshots && st'.snapshots[parent.id] == parent
    ensures
      var q := qs[|branches|];
      && (q.saveAs.Some? ==> q.saveAs.value !in st'.snapshots)
      && Branched(c, st, parent, qs, branches + [BranchOf(c, parent, q.full)], Published(c, st', parent, q))
  {
    hide BranchOf, ChildOf;
    PublishedKeys(c, st, parent.id, qs, |branches|);
    PublishedSnoc(c, st, parent, qs, |branches|);
  }
}
