// The children a decision saves: what the worker answered, and what their records
// are (unridden/api/snapshots/service.py).
module Offspring {
  import opened Common
  import opened Kernels
  import opened SnapshotRuntime
  import LayerSplit
  import opened StockAnswers
  import opened WorkerSpec
  import opened Registry
  import opened Ledger
  import opened Descent
  import opened Broods
  import opened Plans

  // A plan whose parent is leased, made before the ids of the children.
  ghost predicate Planned(b: Book, plan: Plan, tokens: seq<Token>, ids: seq<Id>) {
    && Fits(b, plan, tokens) && b.recs[plan.effective].leases > 0
    && plan.effective !in Elems(ids) && (plan.childContext.Some? ==> plan.childContext.value !in Elems(ids))
  }

  lemma PlannedFrom(b: Book, plan: Plan, tokens: seq<Token>, ids: seq<Id>, hostBudget: nat, context: nat)
    requires Fits(b, plan, tokens) && b.recs[plan.effective].leases > 0 && Books(b, hostBudget, context)
    requires Elems(ids) !! b.recs.Keys
    ensures Planned(b, plan, tokens, ids)
  {
    hide Books, Elems;
    RefsIn(b, hostBudget, context, plan.effective);
    var e := b.recs[plan.effective].core;
    assert e.contextParent.Some? ==> e.contextParent.value in Refs(e);
  }

  lemma PlannedKept(b: Book, after: Book, added: set<Id>, plan: Plan, tokens: seq<Token>, ids: seq<Id>)
    requires Planned(b, plan, tokens, ids) && Evolves(b, after, added)
    ensures Planned(after, plan, tokens, ids) && after.recs[plan.effective].core == b.recs[plan.effective].core
  {
    hide Evolves;
    StaysLeased(b, after, added, plan.effective);
    FitsKept(b, after, added, plan, tokens);
  }

  // What a request leaves when it ends: nothing in the worker but children under
  // its own ids, which can be taken back; when it is done, nothing at all.
  ghost predicate Left(b: Book, held: map<Id, Snapshot>, clock: int, ids: seq<Id>, done: bool) {
    && Strangers(b, held, clock, ids)
    && Sound(b, held, {}, held.Keys - Residents(b.recs)) && held.Keys - Residents(b.recs) <= Elems(ids)
    && (done ==> held.Keys - Residents(b.recs) == {})
  }

  lemma LeftSettled(b: Book, held: map<Id, Snapshot>, clock: int, ids: seq<Id>)
    requires Left(b, held, clock, ids, true)
    ensures Sound(b, held, {}, {})
  {
    hide Sound, Strangers;
  }

  lemma LeftBrooding(b: Book, held: map<Id, Snapshot>, hatched: map<Id, Snapshot>, clock: int, ids: seq<Id>, i: nat)
    requires i <= |ids| && Brooding(b, held, hatched, clock, ids, i)
    ensures Left(b, held, clock, ids, i == |ids|)
  {
    hide Strangers, Lineage, Persisted, PendingSafe, Residents, Cores, SubMap;
    assert Elems(ids[i..]) <= Elems(ids);
    if i == |ids| {
      assert ids[i..] == [];
      assert Elems(ids[i..]) == {};
    }
  }

  lemma LeftSound(b: Book, held: map<Id, Snapshot>, clock: int, ids: seq<Id>, pending: set<Id>)
    requires Strangers(b, held, clock, ids) && Sound(b, held, {}, pending) && pending <= Elems(ids)
    ensures Left(b, held, clock, ids, false)
  {
    hide Strangers, Lineage, Persisted, PendingSafe, Residents, Cores, Elems;
  }

  lemma LeftFresh(b: Book, c: Config, held: map<Id, Snapshot>, clock: int, ids: seq<Id>, hostBudget: nat)
    requires Books(b, hostBudget, c.context) && Agrees(b, c, held) && Sound(b, held, {}, {}) && Elems(ids) !! b.aux.used
    ensures Left(b, held, clock, ids, true) && Elems(ids) !! held.Keys && Elems(ids) !! b.recs.Keys
  {
    hide Books, Agrees, Lineage, Persisted, PendingSafe, Residents, Cores, Elems, Strangers, Undoable;
    FreshStrangers(b, c, held, clock, ids, hostBudget);
  }

  lemma LeftUnpinned(b: Book, held: map<Id, Snapshot>, clock: int, ids: seq<Id>, done: bool)
    requires Left(b, held, clock, ids, done) && b.aux.scopes != []
    ensures Left(UnpinnedBook(b), held, clock, ids, done)
  {
    hide Lineage, Persisted, PendingSafe, Residents, Cores, Elems, Ordered, Unnamed, UnpinRecs, Sound;
    UnpinnedSound(b, held, {}, held.Keys - Residents(b.recs));
    PinnedMaps(b, Last(b.aux.scopes));
    StrangersUnpinned(b, held, clock, ids);
  }

  lemma StrangersUnpinned(b: Book, held: map<Id, Snapshot>, clock: int, ids: seq<Id>)
    requires Strangers(b, held, clock, ids) && b.aux.scopes != []
    ensures Strangers(UnpinnedBook(b), held, clock, ids)
  {
    hide Elems, Ordered, Refs;
  }

  lemma LeftUndoable(b: Book, held: map<Id, Snapshot>, clock: int, ids: seq<Id>, hostBudget: nat, context: nat)
    requires Left(b, held, clock, ids, false) && Books(b, hostBudget, context) && b.aux.scopes == []
    ensures Persisted(b.recs) && Lineage(b) && held.Keys - Residents(b.recs) <= Elems(ids)
    ensures Undoable(b.recs, held, clock, ids, |ids|)
  {
    hide Books, Lineage, Persisted, PendingSafe, Residents, Cores, Strangers, Undoable, Elems;
    Unleased(b, hostBudget, context);
    StrangersUndoable(b, held, clock, ids);
  }

  // -- Registering a child ---------------------------------------------------------------

  function ChildRecord(owner: Owner, plan: Plan, prompt: Prompt, row: Snapshot, persistence: Persistence): Record {
    Record(owner, D30, Readout, Some(plan.effective), plan.childContext, prompt, |row.tokens|, persistence, row.digest,
      0, 0, None, 0)
  }

  // Everything about the next child that register and its aftermath need.
  lemma ChildRow(b: Book, c: Config, held: map<Id, Snapshot>, hatched: map<Id, Snapshot>, clock: int, ids: seq<Id>,
      i: nat, q: Question,
      plan: Plan, tokens: seq<Token>, owner: Owner, prompt: Prompt, ttl: nat)
    requires i < |ids| && Brooding(b, held, hatched, clock, ids, i) && Planned(b, plan, tokens, ids)
    requires ids[i] in hatched && Hatchling(hatched[ids[i]], q, plan.effective) && tokens <= q.full && 0 < ttl
    requires Sized(c.kernels)
    ensures ids[i] in held && held[ids[i]] == hatched[ids[i]] && ids[i] !in b.aux.used && ids[i] in Elems(ids)
    ensures
      var row := held[ids[i]];
      var core := ChildRecord(owner, plan, prompt, row, b.recs[plan.effective].core.persistence);
      var bytes := RowBytes(c.kernels, row);
      var entry := Entry(core, clock, ttl, bytes);
      && bytes > 0 && Matches(c, core, bytes, row, row.tokens) && core.tokens == |row.tokens|
      && Descends(b.recs, b.aux.frozen, entry, row.tokens) && Refs(entry) !! Elems(ids) && entry.expiresAt > clock
      && PendingSafe(Cores(b.recs), Residents(b.recs), held, Live(b.recs, clock))
      && PendingSafe(Cores(b.recs), Residents(b.recs), held, Pins(b.recs) + Refs(core))
    ensures Persisted(b.recs) && held.Keys - Residents(b.recs) == Elems(ids[i..])
  {
    hide Sized, RowBytes, Lineage, Persisted, PendingSafe, Residents, Cores, Live, Pins, Descends, Strangers, Fits,
      Elems, SubMap;
    FitsIn(b, plan, tokens);
    SubMapIn(b, held, hatched, clock, ids, i);
    ElemsIn(ids);
    var row := held[ids[i]];
    RowBytesPositive(c.kernels, row);
    var core := ChildRecord(owner, plan, prompt, row, b.recs[plan.effective].core.persistence);
    var entry := Entry(core, clock, ttl, RowBytes(c.kernels, row));
    ChildDescends(b, plan, tokens, entry, row.tokens);
    assert Refs(entry) == {plan.effective} + Named(plan.childContext);
    SafeAny(b, held, Live(b.recs, clock));
    SafeAny(b, held, Pins(b.recs) + Refs(core));
  }

  lemma FitsIn(b: Book, plan: Plan, tokens: seq<Token>)
    requires Fits(b, plan, tokens)
    ensures plan.effective in b.recs && plan.effective in b.aux.frozen && b.aux.frozen[plan.effective] == tokens
  {
  }

  lemma SubMapIn(b: Book, held: map<Id, Snapshot>, hatched: map<Id, Snapshot>, clock: int, ids: seq<Id>, i: nat)
    requires i < |ids| && Brooding(b, held, hatched, clock, ids, i)
    ensures ids[i] in held && held[ids[i]] == hatched[ids[i]]
  {
    hide Sized, Lineage, Persisted, PendingSafe, Residents, Cores, Strangers;
    assert ids[i..][0] == ids[i];
    assert ids[i] in Elems(ids[i..]);
  }

  lemma SafeAny(b: Book, held: map<Id, Snapshot>, safe: set<Id>)
    requires PendingSafe(Cores(b.recs), Residents(b.recs), held, {})
    ensures PendingSafe(Cores(b.recs), Residents(b.recs), held, safe)
  {
    hide PendingSafe, Cores, Residents;
    PendingSafeWider(b.recs, held, {}, safe);
  }

  // -- The children a request leaves --------------------------------------------------------

  // What the record of the answer to `q` says: its parent is the plan's, its anchor
  // the one the plan hands down.
  ghost predicate ChildCore(core: Record, owner: Owner, plan: Plan, prompt: Prompt, q: Question,
      persistence: Persistence, clock: int, ttl: nat) {
    core == Record(owner, D30, Readout, Some(plan.effective), plan.childContext, prompt, |q.full|, persistence,
      q.digest,
      clock, clock + ttl, None, core.persistedBytes)
  }

  // It was just registered: resident, with the tokens of the question, and on disk
  // if its parent is.
  ghost predicate Recorded(b: Book, id: Id, owner: Owner, plan: Plan, prompt: Prompt, q: Question,
      persistence: Persistence, clock: int, ttl: nat) {
    && id in b.recs && b.recs[id].resident && id in b.aux.used && id in b.aux.frozen && b.aux.frozen[id] == q.full
    && ChildCore(b.recs[id].core, owner, plan, prompt, q, persistence, clock, ttl)
    && (persistence == Disk ==> id in b.disk && b.disk[id].manifest == b.recs[id].core)
  }

  lemma ChildRecorded(after: Book, id: Id, owner: Owner, plan: Plan, prompt: Prompt, q: Question, row: Snapshot,
      persistence: Persistence,
      clock: int, ttl: nat, bytes: nat, hostBudget: nat, context: nat)
    requires Hatchling(row, q, plan.effective) && Books(after, hostBudget, context) && Persisted(after.recs)
    requires Entered(after, id, Entry(ChildRecord(owner, plan, prompt, row, persistence), clock, ttl, bytes),
        row.tokens, true)
    ensures Recorded(after, id, owner, plan, prompt, q, persistence, clock, ttl)
  {
    hide Books, Loadable;
    UsedAll(after, hostBudget, context);
    DiskIsDurable(after, hostBudget, context, id);
  }

  // A batch of questions whose answers are saved, and how.
  datatype Saving = Saving(owner: Owner, plan: Plan, prompts: seq<Prompt>, qs: seq<Question>, ids: seq<Id>,
    persistence: Persistence, clock: int, ttl: nat)

  // The j-th child is recorded as asked. Only a memory-only one may be missing
  // again, evicted for room since `before`.
  ghost predicate SavedAt(before: Book, b: Book, s: Saving, j: nat)
    requires j < |s.ids|
  {
    && j < |s.prompts| && j < |s.qs| && s.ids[j] in b.aux.used
    && (s.ids[j] in b.recs ==>
        && ChildCore(b.recs[s.ids[j]].core, s.owner, s.plan, s.prompts[j], s.qs[j], s.persistence, s.clock, s.ttl)
        && s.ids[j] in b.aux.frozen && b.aux.frozen[s.ids[j]] == s.qs[j].full)
    && (s.ids[j] !in b.recs ==> s.persistence == Memory && Squeezed(before, b, s.ids[j]))
    && (s.persistence == Disk ==> s.ids[j] in b.disk)
  }

  // The first i children; the last of them is there.
  ghost predicate SavedAll(before: Book, b: Book, s: Saving, i: nat)
    requires i <= |s.ids|
  {
    && before.aux.evictions <= b.aux.evictions
    && (forall j :: 0 <= j < i ==> SavedAt(before, b, s, j))
    && (0 < i ==> s.ids[i - 1] in b.recs)
  }

  lemma SavedKeeps(before: Book, b: Book, after: Book, s: Saving, j: nat, id: Id)
    requires j < |s.ids| && SavedAt(before, b, s, j) && before.aux.evictions <= b.aux.evictions
    requires Evolves(b, after, {id}) && s.ids[j] != id && b.clock == s.clock && 0 < s.ttl
    ensures SavedAt(before, after, s, j)
  {
    hide Squeezed;
    var child := s.ids[j];
    SqueezedLater(before, b, after, child);
    if child in b.recs {
      assert Spared(b, after, child);
      if child in after.recs {
        assert SameRec(b, after, child);
      }
    }
  }

  lemma SavedNext(before: Book, b: Book, after: Book, s: Saving, i: nat)
    requires i < |s.ids| && Distinct(s.ids) && |s.prompts| >= |s.ids| && |s.qs| >= |s.ids|
    requires SavedAll(before, b, s, i) && Evolves(b, after, {s.ids[i]}) && b.clock == s.clock && 0 < s.ttl
    requires Recorded(after, s.ids[i], s.owner, s.plan, s.prompts[i], s.qs[i], s.persistence, s.clock, s.ttl)
    ensures SavedAll(before, after, s, i + 1)
  {
    assert before.aux.evictions <= after.aux.evictions;
    hide Evolves, SavedAt, ChildCore, Squeezed;
    forall j | 0 <= j < i + 1
      ensures SavedAt(before, after, s, j)
    {
      if j < i {
        SavedKeeps(before, b, after, s, j, s.ids[i]);
      } else {
        assert SavedAt(before, after, s, i) by {
          RecordedSaved(before, after, s, i);
        }
      }
    }
  }

  lemma RecordedSaved(before: Book, after: Book, s: Saving, i: nat)
    requires i < |s.ids| && |s.prompts| >= |s.ids| && |s.qs| >= |s.ids|
    requires Recorded(after, s.ids[i], s.owner, s.plan, s.prompts[i], s.qs[i], s.persistence, s.clock, s.ttl)
    ensures SavedAt(before, after, s, i)
  {
  }

  lemma SavedUnpinned(before: Book, c: Book, s: Saving, i: nat)
    requires i <= |s.ids| && SavedAll(before, c, s, i) && c.aux.scopes != []
    ensures SavedAll(before, UnpinnedBook(c), s, i)
  {
    hide ChildCore;
    PinMaps(c.recs, Last(c.aux.scopes));
    forall j | 0 <= j < i
      ensures SavedAt(before, UnpinnedBook(c), s, j)
    {
      assert SavedAt(before, c, s, j);
      LeaseSqueezes(before, before, c, UnpinnedBook(c), s.ids[j]);
    }
  }

  lemma SavedSince(earlier: Book, before: Book, b: Book, s: Saving, i: nat)
    requires i <= |s.ids| && SavedAll(before, b, s, i) && earlier.aux.evictions <= before.aux.evictions
    ensures SavedAll(earlier, b, s, i)
  {
    hide ChildCore, Squeezed;
    forall j | 0 <= j < i
      ensures SavedAt(earlier, b, s, j)
    {
      assert SavedAt(before, b, s, j);
      SqueezedLater(earlier, before, b, s.ids[j]);
    }
  }

  // The children of an answered request, one for each question or none, with the
  // persistence of the snapshot they branch from.
  ghost predicate Kids(before: Book, b: Book, owner: Owner, plan: Plan, prompts: seq<Prompt>, qs: seq<Question>,
      ids: seq<Id>, clock: int, ttl: nat) {
    && plan.effective in b.recs
    && SavedAll(before, b, Saving(owner, plan, prompts, qs, ids, b.recs[plan.effective].core.persistence, clock, ttl),
      |ids|)
  }

  lemma KidsUnpinned(before: Book, c: Book, owner: Owner, plan: Plan, prompts: seq<Prompt>, qs: seq<Question>,
      ids: seq<Id>, clock: int, ttl: nat)
    requires Kids(before, c, owner, plan, prompts, qs, ids, clock, ttl) && c.aux.scopes != []
    ensures Kids(before, UnpinnedBook(c), owner, plan, prompts, qs, ids, clock, ttl)
  {
    hide SavedAll;
    SavedUnpinned(before, c, Saving(owner, plan, prompts, qs, ids, c.recs[plan.effective].core.persistence, clock,
      ttl), |ids|);
  }

  lemma KidsSince(earlier: Book, before: Book, b: Book, owner: Owner, plan: Plan, prompts: seq<Prompt>,
      qs: seq<Question>, ids: seq<Id>, clock: int, ttl: nat)
    requires Kids(before, b, owner, plan, prompts, qs, ids, clock, ttl) && earlier.aux.evictions <= before.aux.evictions
    ensures Kids(earlier, b, owner, plan, prompts, qs, ids, clock, ttl)
  {
    hide SavedAll;
    SavedSince(earlier, before, b, Saving(owner, plan, prompts, qs, ids, b.recs[plan.effective].core.persistence,
      clock, ttl), |ids|);
  }

  lemma NoneSaved(before: Book, b: Book, s: Saving)
    requires before.aux.evictions <= b.aux.evictions
    ensures SavedAll(before, b, s, 0)
  {
  }

  // -- Asking the worker ------------------------------------------------------------------

  // Every question was answered from the same faithful parent, at the same tokens.
  ghost predicate Answered(c: Config, parent: Snapshot, qs: seq<Question>, branches: seq<Branch>)
    requires 0 < c.batch
  {
    && parent.upperKv.Some? && Faithful(c, parent) && |branches| == |qs|
    && forall i :: 0 <= i < |qs| ==>
      Extends(qs[i].full, parent.tokens) && branches[i] == BranchOf(c, parent, qs[i].full)
  }

  lemma EvaluateAnswers(c: Config, st: State, of: Id, qs: seq<Question>, resp: Response, st': State)
    requires 0 < c.batch && EvaluateStep(c, st, of, qs, resp, st') && resp.Evaluated? && AllFaithful(c, st.snapshots)
    ensures of in st.snapshots && Answered(c, st.snapshots[of], qs, resp.branches)
  {
    hide BranchOf, Faithful;
  }

  lemma StateEvalAnswers(c: Config, st: State, of: Id, q: Question, resp: Response, st': State)
    requires 0 < c.batch && StateEvalStep(c, st, of, q, resp, st') && resp.Stated? && AllFaithful(c, st.snapshots)
    ensures of in st.snapshots && Answered(c, st.snapshots[of], [q], [resp.branch])
  {
    hide BranchOf, Faithful;
  }

  // The children in the worker once every question is answered.
  ghost predicate Hatchlings(hatched: map<Id, Snapshot>, of: Id, tokens: seq<Token>, qs: seq<Question>, ids: seq<Id>) {
    forall i :: 0 <= i < |ids| ==> HatchedAt(hatched, of, tokens, qs, ids, i)
  }

  ghost predicate HatchedAt(hatched: map<Id, Snapshot>, of: Id, tokens: seq<Token>, qs: seq<Question>, ids: seq<Id>,
      i: nat)
    requires i < |ids|
  {
    i < |qs| && ids[i] in hatched && Hatchling(hatched[ids[i]], qs[i], of) && tokens <= qs[i].full
  }

  lemma HatchlingsOf(c: Config, held0: map<Id, Snapshot>, held: map<Id, Snapshot>, of: Id, qs: seq<Question>,
      branches: seq<Branch>, ids: seq<Id>)
    requires 0 < c.batch && Hatched(held0, held, of, qs, |qs|) && SavedUnder(qs, ids) && of in held0
    requires Answered(c, held0[of], qs, branches)
    ensures Hatchlings(held, of, held0[of].tokens, qs, ids)
  {
    hide BranchOf;
    forall i | 0 <= i < |ids|
      ensures HatchedAt(held, of, held0[of].tokens, qs, ids, i)
    {
      assert qs[i].saveAs == Some(ids[i]);
      assert Extends(qs[i].full, held0[of].tokens);
    }
  }

  lemma PlannedIn(b: Book, plan: Plan, tokens: seq<Token>, ids: seq<Id>)
    requires Planned(b, plan, tokens, ids)
    ensures plan.effective in b.recs && b.recs[plan.effective].leases > 0 && b.aux.frozen.Keys >= {plan.effective}
  {
  }

  lemma TailElems(ids: seq<Id>, i: nat)
    requires i <= |ids|
    ensures Elems(ids[i..]) <= Elems(ids)
  {
  }

  lemma LeftWeaker(b: Book, held: map<Id, Snapshot>, clock: int, ids: seq<Id>)
    requires Left(b, held, clock, ids, true)
    ensures Left(b, held, clock, ids, false)
  {
    hide Sound, Strangers, Elems;
  }

  lemma LeftWeakened(b: Book, held: map<Id, Snapshot>, clock: int, ids: seq<Id>, done: bool)
    requires Left(b, held, clock, ids, done)
    ensures Left(b, held, clock, ids, false)
  {
    hide Sound, Strangers, Elems;
  }

  lemma PlannedTokens(b: Book, plan: Plan, tokens: seq<Token>, ids: seq<Id>)
    requires Planned(b, plan, tokens, ids)
    ensures plan.effective in b.recs && plan.effective in b.aux.frozen && b.aux.frozen[plan.effective] == tokens
  {
  }

  lemma HatchedNext(hatched: map<Id, Snapshot>, of: Id, tokens: seq<Token>, qs: seq<Question>, ids: seq<Id>, i: nat)
    requires i < |ids| && Hatchlings(hatched, of, tokens, qs, ids)
    ensures i < |qs| && ids[i] in hatched && Hatchling(hatched[ids[i]], qs[i], of) && tokens <= qs[i].full
  {
    assert HatchedAt(hatched, of, tokens, qs, ids, i);
  }

  // The plan under its lease, and after it.
  lemma PinnedPlan(b: Book, base: Book, pins: set<Id>, plan: Plan, tokens: seq<Token>, ids: seq<Id>, hostBudget: nat,
      context: nat)
    requires Fits(b, plan, tokens) && Evolves(b, base, {}) && plan.effective in pins
    requires pins <= PinnedBook(base, pins).recs.Keys
    requires Books(PinnedBook(base, pins), hostBudget, context) && Elems(ids) !! base.aux.used
    requires base.recs.Keys <= base.aux.used
    ensures Planned(PinnedBook(base, pins), plan, tokens, ids) && PinnedBook(base, pins).aux.used == base.aux.used
  {
    hide Evolves, Books, Elems, Planned;
    FitsIn(b, plan, tokens);
    assert plan.effective in base.recs;
    FitsKept(b, base, {}, plan, tokens);
    PinnedCore(base.recs, pins, plan.effective);
    assert Elems(ids) !! PinnedBook(base, pins).recs.Keys;
    PlannedFrom(PinnedBook(base, pins), plan, tokens, ids, hostBudget, context);
  }

  lemma PinnedPlanDone(base: Book, pins: set<Id>, c: Book, added: set<Id>, plan: Plan, tokens: seq<Token>, ids: seq<Id>)
    requires Planned(PinnedBook(base, pins), plan, tokens, ids) && Evolves(PinnedBook(base, pins), c, added)
    requires c.aux.scopes != []
    ensures Fits(UnpinnedBook(c), plan, tokens)
  {
    hide Evolves, PinnedBook, Elems;
    PlannedKept(PinnedBook(base, pins), c, added, plan, tokens, ids);
  }

  lemma NoElems()
    ensures Elems([]) == {}
  {
  }

  lemma ElemsHas(ids: seq<Id>)
    ensures forall id :: id in ids <==> id in Elems(ids)
  {
  }

  lemma TwoAdds(a: Book, b: Book, c: Book, first: set<Id>, more: set<Id>)
    requires Evolves(a, b, first) && Evolves(b, c, more) && first !! a.aux.used && more !! b.aux.used
    requires a.recs.Keys <= a.aux.used && b.recs.Keys <= b.aux.used
    ensures Evolves(a, c, first + more)
  {
    hide Evolves;
    UsedGrows(a, b, first);
    EvolvesTrans(a, b, c, first, more);
  }

  // A whole request: expired, planned and asked, taken back where it failed.
  lemma RequestEvolves(b0: Book, b1: Book, b2: Book, after: Book, newId: Id, ids: seq<Id>)
    requires Evolves(b0, b1, {}) && Evolves(b1, b2, {newId} + Elems(ids)) && Evolves(b2, after, Elems(ids))
    requires ({newId} + Elems(ids)) !! b0.aux.used && b1.aux.used == b0.aux.used
    requires b0.recs.Keys <= b0.aux.used && b1.recs.Keys <= b1.aux.used && b2.recs.Keys <= b2.aux.used
    ensures Evolves(b0, after, {newId} + Elems(ids)) && after.aux.scopes == b0.aux.scopes
  {
    EvolvesScopes(b0, b1, {});
    EvolvesScopes(b1, b2, {newId} + Elems(ids));
    EvolvesScopes(b2, after, Elems(ids));
    hide Evolves, Elems;
    var added := {newId} + Elems(ids);
    var none: set<Id> := {};
    EvolvesTrans(b0, b1, b2, none, added);
    assert none + added == added;
    EvolvesTrans(b0, b2, after, added, Elems(ids));
    assert added + Elems(ids) == added;
  }

  // What has no books is not in the worker either, once a request is over.
  lemma UnregisteredUnheld(b: Book, c: Config, held: map<Id, Snapshot>, before: Book, ids: seq<Id>, pendingIds: seq<Id>)
    requires Agrees(b, c, held) && Sound(b, held, {}, {}) && b.recs.Keys <= before.recs.Keys
    requires (forall id :: id in pendingIds ==> id !in b.recs)
    requires pendingIds == ids || forall id :: id in ids ==> id !in before.recs
    ensures forall id :: id in ids ==> id !in b.recs && id !in held
  {
    hide Agrees, Lineage, Persisted, PendingSafe, Residents, Cores;
    HeldAreResident(b, c, held);
  }

  // -- Riding ----------------------------------------------------------------------------

  // What riding `parent` reads, with or without its trace.
  ghost predicate RidSnapshot(c: Config, parent: Snapshot, full: seq<Token>, maxTokens: nat, trace: bool, ride: Rider) {
    && 0 < c.batch && parent.upperKv.Some? && Faithful(c, parent) && Extends(full, parent.tokens) && 0 < maxTokens
    && var spec := RideFrom(c, Split(parent.lowerKv.cells, parent.upperKv.value.cells), full, |parent.tokens|, 0,
      maxTokens);
      ride == if trace then spec else spec.(steps := [])
  }

  lemma RideReads(c: Config, st: State, id: Id, full: seq<Token>, maxTokens: nat, trace: bool, resp: Response)
    requires 0 < c.batch && RideStep(c, st, FromSnapshot(id), full, maxTokens, trace, resp) && resp.Rode?
    requires AllFaithful(c, st.snapshots)
    ensures id in st.snapshots && RidSnapshot(c, st.snapshots[id], full, maxTokens, trace, resp.ride)
  {
    hide RideFrom, Faithful;
  }

  // -- The uninterrupted model ------------------------------------------------------

  // Every answer is the uninterrupted model's answer to its full prompt.
  lemma AnsweredIsStock(c: Config, model: LayerSplit.Model, split: nat, parent: Snapshot, qs: seq<Question>,
      branches: seq<Branch>)
    requires Causal(c, model, split) && Answered(c, parent, qs, branches)
    ensures |branches| == |qs|
    ensures forall i :: 0 <= i < |qs| ==> ReadsLast(model, qs[i].full, branches[i].seen)
  {
    hide Causal, BranchOf, ReadsLast, Faithful;
    forall i | 0 <= i < |qs|
      ensures ReadsLast(model, qs[i].full, branches[i].seen)
    {
      BranchIsStock(c, model, split, parent, qs[i].full);
    }
  }

  // Every ride is its greedy continuation of the full prompt.
  lemma RidIsGreedy(c: Config, model: LayerSplit.Model, split: nat, parent: Snapshot, full: seq<Token>, maxTokens: nat,
      trace: bool, ride: Rider)
    requires Causal(c, model, split) && RidSnapshot(c, parent, full, maxTokens, trace, ride)
    ensures full != [] && 0 < maxTokens && (ride.output, ride.eog) == Greedy(model, c.kernels, full, [], maxTokens)
    ensures Traced(model, full, ride)
  {
    hide Causal, RideFrom, Greedy, Faithful;
    RideIsGreedy(c, model, split, parent, full, maxTokens);
  }

  lemma PendingGone(recs: Recs, held: map<Id, Snapshot>, id: Id)
    requires held.Keys - Residents(recs) == {}
    ensures (held - {id}).Keys - (Residents(recs) - {id}) == {}
  {
    forall p | p in held
      ensures p in Residents(recs)
    {
      assert p !in held.Keys - Residents(recs);
    }
    hide Residents;
  }

  // A deletion, done or refused, leaves the books settled.
  lemma DeletedSettled(b: Book, after: Book, held: map<Id, Snapshot>, id: Id, ok: bool, hostBudget: nat, context: nat)
    requires Lineage(b) && Books(after, hostBudget, context) && Persisted(after.recs)
    requires after.aux.frozen.Keys == after.recs.Keys
    requires held.Keys - Residents(after.recs) == {} && b.recs.Keys <= b.aux.used && b.aux.scopes == []
    requires ok ==> id in b.recs && b.recs[id].leases == 0 && after == Forgotten(Touched(b, id), id)
    requires !ok ==> after == b || (id in b.recs && after == Touched(b, id))
    requires ok ==> forall c :: c in b.recs ==> id !in Refs(b.recs[c].core)
    ensures Sound(after, held, {}, {}) && after.aux.scopes == []
    ensures ok ==> forall c :: c in after.recs ==> id !in Refs(after.recs[c].core)
    ensures !ok ==> forall c :: c in b.recs ==> c in after.recs && after.recs[c].core == b.recs[c].core
  {
    hide Books, Evolves, Persisted, Residents, Cores, Lineage, Refs, Forgotten;
    LineageKeys(b);
    if ok {
      DeletedEvolves(b, id);
      UsedGrows(b, after, {id});
      SettledWithout(b, after, held, id, hostBudget, context);
      forall c | c in after.recs
        ensures id !in Refs(after.recs[c].core)
      {
        SameFields(b, after, {id}, c);
      }
    } else {
      EvolvesRefl(b);
      if id in b.recs {
        TouchedEvolves(b, id);
      }
      ghost var none: set<Id> := {};
      UsedGrows(b, after, none);
      SettledKept(b, after, held, hostBudget, context);
    }
  }

  lemma DeletedPending(b: Book, after: Book, held: map<Id, Snapshot>, now: map<Id, Snapshot>, id: Id, ok: bool)
    requires held.Keys - Residents(b.recs) == {}
    requires ok ==> id in b.recs && after == Forgotten(Touched(b, id), id) && now == held - {id}
    requires !ok ==> (after == b || (id in b.recs && after == Touched(b, id))) && now == held
    ensures now.Keys - Residents(after.recs) == {}
    ensures ok ==> id !in after.recs && id !in after.disk && id !in now
  {
    hide Residents, ForgetRecs, Cores, Pins, Persisted;
    if id in b.recs {
      TouchedMaps(b, id);
    }
    if ok {
      ForgottenKeys(Touched(b, id), id);
      ForgottenResidents(Touched(b, id), id);
      PendingGone(b.recs, held, id);
    }
  }
}
