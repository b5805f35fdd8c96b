// Which snapshot a request branches from, and what the records it registers have
// to do with those already there (unridden/api/snapshots/service.py).
module Plans {
  import opened Common
  import opened Kernels
  import opened SnapshotRuntime
  import opened WorkerSpec
  import opened StockAnswers
  import opened Registry
  import opened Ledger
  import opened Descent
  import opened Broods

  // How a question relates to the snapshot it is asked of.
  datatype Relationship = Continue | ReplaceQuestion

  datatype Promotion = NotPromoted | Reused | Performed

  datatype Plan = Plan(requested: Id, effective: Id, promotion: Promotion, mode: Kind, prompt: Prompt,
    childContext: Option<Id>)

  // The plan a record leads to. A replacement goes back to the recorded anchor and
  // hands it down; a follow-up hands down the record's anchor, or is one itself.
  predicate Derives(core: Record, relationship: Relationship, plan: Plan) {
    match relationship
    case Continue =>
      && plan.mode == core.boundary && plan.prompt == core.prompt
      && (core.depth == D30 ==> plan.effective == plan.requested && plan.promotion == NotPromoted)
      && plan.childContext == if core.boundary == Context then Some(plan.effective) else core.contextParent
    case ReplaceQuestion =>
      && core.boundary == Readout && plan.mode == Context && plan.promotion == NotPromoted
      && core.contextParent == Some(plan.effective) == plan.childContext
  }

  // `effective` answers for `id` at full depth: it is a 30 of the same prompt,
  // tokens, anchor and persistence.
  ghost predicate Stands(b: Book, id: Id, effective: Id) {
    && id in b.recs && effective in b.recs && b.aux.frozen.Keys == b.recs.Keys
    && b.aux.frozen[effective] == b.aux.frozen[id]
    && var r, e := b.recs[id].core, b.recs[effective].core;
      && e.depth == D30 && e.boundary == r.boundary && e.prompt == r.prompt && e.owner == r.owner
      && e.digest == r.digest
      && e.persistence == r.persistence && e.contextParent == r.contextParent
  }

  // What the record of a promotion says: everything its 18 does but the depth, with the
  // 18 as its parent and a lifetime of its own.
  ghost predicate PromotionCore(b: Book, id: Id, newId: Id, clock: int, ttl: nat) {
    && id in b.recs && newId in b.recs && newId in b.aux.frozen
    && var p, e := b.recs[id].core, b.recs[newId].core;
      e == Record(p.owner, D30, p.boundary, Some(id), if p.boundary == Readout then p.contextParent else None, p.prompt,
        |b.aux.frozen[newId]|, p.persistence, p.digest, clock, clock + ttl, Some(id), e.persistedBytes)
  }

  lemma PromotionCoreKept(b: Book, after: Book, added: set<Id>, id: Id, newId: Id, clock: int, ttl: nat)
    requires PromotionCore(b, id, newId, clock, ttl) && Evolves(b, after, added)
    requires id in after.recs && newId in after.recs && after.aux.frozen.Keys == after.recs.Keys
    ensures PromotionCore(after, id, newId, clock, ttl)
  {
    hide Evolves;
    SameFields(b, after, added, id);
    SameFields(b, after, added, newId);
  }

  lemma PromotionCoreUnpinned(c: Book, id: Id, newId: Id, clock: int, ttl: nat)
    requires PromotionCore(c, id, newId, clock, ttl) && c.aux.scopes != []
    ensures PromotionCore(UnpinnedBook(c), id, newId, clock, ttl)
  {
  }

  // The plan names a 30 that is there, and the anchor its children will record.
  ghost predicate Fits(b: Book, plan: Plan, tokens: seq<Token>) {
    && plan.effective in b.recs && plan.effective in b.aux.frozen && b.aux.frozen[plan.effective] == tokens
    && var e := b.recs[plan.effective].core;
      && e.depth == D30 && e.boundary == plan.mode && e.prompt == plan.prompt
      && plan.childContext == if plan.mode == Context then Some(plan.effective) else e.contextParent
  }

  lemma StandsItself(b: Book, id: Id)
    requires Lineage(b) && id in b.recs && b.recs[id].core.depth == D30
    ensures Stands(b, id, id)
  {
    hide Descends;
  }

  lemma MemoStands(b: Book, id: Id, child: Id)
    requires Lineage(b) && id in b.recs && child in b.recs
    requires PromotionOf(b.recs[child].core, id, b.recs[id].core)
    ensures Stands(b, id, child)
  {
    LineageAt(b, id);
    LineageAt(b, child);
    assert id in Refs(b.recs[child].core);
  }

  lemma StandsKept(b: Book, after: Book, added: set<Id>, id: Id, effective: Id)
    requires Stands(b, id, effective) && Evolves(b, after, added)
    requires id in after.recs && effective in after.recs && after.aux.frozen.Keys == after.recs.Keys
    ensures Stands(after, id, effective)
  {
    SameFields(b, after, added, id);
    SameFields(b, after, added, effective);
  }

  lemma StandsFits(b: Book, id: Id, effective: Id, promotion: Promotion)
    requires Stands(b, id, effective)
    ensures
      var r := b.recs[id].core;
      var plan := Plan(id, effective, promotion, r.boundary, r.prompt,
        if r.boundary == Context then Some(effective) else r.contextParent);
      Fits(b, plan, b.aux.frozen[effective])
  {
  }

  // replace_question: the anchor itself, without a promotion.
  lemma AnchorFits(b: Book, id: Id, hostBudget: nat, context: nat)
    requires Lineage(b) && Books(b, hostBudget, context) && id in b.recs && b.recs[id].core.contextParent.Some?
    ensures
      var anchor := b.recs[id].core.contextParent.value;
      && anchor in b.recs && b.recs[anchor].core.depth == D30 && b.recs[anchor].core.boundary == Context
      && b.recs[anchor].refcount > 0
      && b.aux.frozen.Keys == b.recs.Keys && b.aux.frozen[anchor] <= b.aux.frozen[id]
      && Fits(b, Plan(id, anchor, NotPromoted, Context, b.recs[anchor].core.prompt, Some(anchor)), b.aux.frozen[anchor])
  {
    hide Books;
    LineageAt(b, id);
    var anchor := b.recs[id].core.contextParent.value;
    assert anchor in Refs(b.recs[id].core);
    Referenced(b, hostBudget, context, id, anchor);
  }

  lemma Referenced(b: Book, hostBudget: nat, context: nat, child: Id, id: Id)
    requires Books(b, hostBudget, context) && child in b.recs && id in Refs(b.recs[child].core)
    ensures id in b.recs && b.recs[id].refcount > 0
  {
    hide Leased, Promotions, Recency, Durable, Total, Graph, Leases, Residents, Bytes, Uses, Memo, Durables;
    assert Cores(b.recs)[child] == b.recs[child].core;
    ChildrenCounted(Cores(b.recs), Refcounts(b.recs), b.aux.birth, b.aux.births, child, id);
    assert Refcounts(b.recs)[id] == b.recs[id].refcount;
  }

  lemma FitsKept(b: Book, after: Book, added: set<Id>, plan: Plan, tokens: seq<Token>)
    requires Fits(b, plan, tokens) && Evolves(b, after, added) && plan.effective in after.recs
    ensures Fits(after, plan, tokens)
  {
    SameFields(b, after, added, plan.effective);
  }

  // -- A child of a plan -----------------------------------------------------------

  // A saved child, anchored where its plan says, fits in the lineage; and the
  // chain goes on: whatever context it names is the one the next replacement
  // branches from.
  lemma ChildDescends(b: Book, plan: Plan, tokens: seq<Token>, core: Record, full: seq<Token>)
    requires Lineage(b) && Fits(b, plan, tokens) && tokens <= full
    requires core.parent == Some(plan.effective) && core.contextParent == plan.childContext && core.boundary == Readout
    requires core.persistence == b.recs[plan.effective].core.persistence && core.promotionOf.None?
    requires core.persistedBytes > 0
    ensures Descends(b.recs, b.aux.frozen, core, full)
    ensures Refs(core) <= b.recs.Keys
  {
    LineageAt(b, plan.effective);
    var e := b.recs[plan.effective].core;
    if plan.mode == Readout && plan.childContext.Some? {
      assert plan.childContext.value in Refs(e);
      assert Anchors(b.recs, b.aux.frozen, plan.childContext.value, tokens);
    }
  }

  // -- What a command leaves -------------------------------------------------------

  // Books that agree with the worker say it is faithful; so is what a command adds.
  lemma ServedFaithful(b: Book, c: Config, st: State, cmd: Command, resp: Response, st': State)
    requires 0 < c.batch && Agrees(b, c, st.snapshots) && !cmd.Load? && Step(c, st, cmd, resp, st')
    ensures AllFaithful(c, st.snapshots) && AllFaithful(c, st'.snapshots)
  {
    hide Agrees, Step, Sharing, AllFaithful;
    AgreesSharing(b, c, st.snapshots);
    StepFaithful(c, st, cmd, resp, st');
  }

  // -- A promotion ---------------------------------------------------------------------

  // What promote leaves in the worker: one 30 beside its 18.
  ghost predicate PromotedBeside(held0: map<Id, Snapshot>, held: map<Id, Snapshot>, of: Id, newId: Id) {
    && of in held0 && newId !in held0 && newId in held && held == held0[newId := held[newId]]
    && var s, p := held[newId], held0[of];
      && p.depth == D18 && s.depth == D30 && s.parent == Some(of) && !s.lowerOwned && s.lowerKv == p.lowerKv
      && s.kind == p.kind && s.tokens == p.tokens && s.digest == p.digest && s.upperKv.Some?
  }

  lemma PromoteBeside(c: Config, st: State, of: Id, newId: Id, resp: Response, st': State)
    requires 0 < c.batch && PromoteStep(c, st, of, newId, resp, st') && resp.Promoted?
    requires (of in st.snapshots ==> st.snapshots[of].id == of)
    ensures PromotedBeside(st.snapshots, st'.snapshots, of, newId)
  {
    hide UpperRun;
  }

  // An 18 the worker holds owns its lower blob.
  lemma PromotedSharing(held0: map<Id, Snapshot>, held: map<Id, Snapshot>, of: Id, newId: Id)
    requires PromotedBeside(held0, held, of, newId) && Sharing(held0)
    ensures Sharing(held) && SubMap(held0, held) && Ordered(held, [newId])
  {
    assert held0[of].lowerOwned;
    forall id | id in held && !held[id].lowerOwned
      ensures held[id].parent.Some? && held[id].parent.value in held && held[id].parent != Some(newId)
      ensures SharedWith(held[id], held[held[id].parent.value])
    {
    }
  }

  lemma PromotedSound(b: Book, c: Config, held0: map<Id, Snapshot>, held: map<Id, Snapshot>, of: Id, newId: Id,
      clock: int, hostBudget: nat)
    requires Books(b, hostBudget, c.context) && Agrees(b, c, held0) && Sound(b, held0, {}, {})
    requires PromotedBeside(held0, held, of, newId) && newId !in b.aux.used && AllFaithful(c, held)
    ensures Agrees(b, c, held) && Sound(b, held, {of}, {newId}) && Strangers(b, held, clock, [newId])
  {
    hide Books, Agrees, Lineage, Persisted, PendingSafe, Residents, Cores, Sharing, Unnamed, Ordered, SubMap,
      AllFaithful;
    UsedAll(b, hostBudget, c.context);
    HeldAreResident(b, c, held0);
    AgreesSharing(b, c, held0);
    PromotedSharing(held0, held, of, newId);
    AgreesMore(b, c, held0, held);
    ElemsOne(newId);
    FreshUnnamed(b, hostBudget, c.context, {newId});
    assert held.Keys - Residents(b.recs) == {newId};
    OneLeansSafe(b.recs, held0, held, of, newId);
  }

  lemma ElemsOne(id: Id)
    ensures Elems([id]) == {id}
  {
  }

  lemma OneLeansSafe(recs: Recs, held0: map<Id, Snapshot>, held: map<Id, Snapshot>, of: Id, newId: Id)
    requires PromotedBeside(held0, held, of, newId) && held0.Keys == Residents(recs)
    ensures PendingSafe(Cores(recs), Residents(recs), held, {of})
  {
    hide Residents, Cores;
  }

  lemma PromotionDescends(b: Book, of: Id, core: Record, tokens: seq<Token>)
    requires Lineage(b) && of in b.recs && tokens == b.aux.frozen[of]
    requires core.parent == Some(of) && core.promotionOf == Some(of) && core.boundary == b.recs[of].core.boundary
    requires core.contextParent == if core.boundary == Readout then b.recs[of].core.contextParent else None
    requires core.persistence == b.recs[of].core.persistence && core.persistedBytes > 0
    ensures Descends(b.recs, b.aux.frozen, core, tokens)
  {
    LineageAt(b, of);
    if core.contextParent.Some? {
      assert core.contextParent.value in Refs(b.recs[of].core);
    }
  }

  // The record of a promotion.
  function PromotedRecord(parent: Record, parentId: Id, row: Snapshot): Record {
    Record(parent.owner, D30, parent.boundary, Some(parentId),
      if parent.boundary == Readout then parent.contextParent else None,
      parent.prompt, |row.tokens|, parent.persistence, row.digest, 0, 0, Some(parentId), 0)
  }

  lemma HeldFields(b: Book, c: Config, held: map<Id, Snapshot>, id: Id)
    requires Agrees(b, c, held) && id in b.recs && id in held
    ensures id in b.aux.frozen && held[id].tokens == b.aux.frozen[id]
    ensures held[id].kind == b.recs[id].core.boundary && held[id].digest == b.recs[id].core.digest
    ensures held[id].depth == b.recs[id].core.depth
  {
    HeldIff(b, c, held, id);
    FieldsOf(b.recs, id);
    hide RowBytes, FilesMatch, Sharing, Cores, Bytes, Durables, AllFaithful, FaithfulFiles;
    assert Matches(c, Cores(b.recs)[id], Bytes(b.recs)[id], held[id], b.aux.frozen[id]);
  }

  // What the worker holds is as long as its record says.
  lemma TokensCounted(b: Book, c: Config, held: map<Id, Snapshot>, id: Id)
    requires Agrees(b, c, held) && id in b.recs
    ensures id in b.aux.frozen && |b.aux.frozen[id]| == b.recs[id].core.tokens
  {
    hide Matches, FilesMatch, Sharing, Bytes, Durables, AllFaithful, FaithfulFiles, Residents;
    assert Cores(b.recs)[id] == b.recs[id].core;
  }

  lemma PromotedMatches(b: Book, c: Config, held0: map<Id, Snapshot>, held: map<Id, Snapshot>, of: Id, newId: Id,
      clock: int, ttl: nat, bytes: nat)
    requires Agrees(b, c, held) && Lineage(b) && PromotedBeside(held0, held, of, newId) && of in b.recs
    requires newId !in b.recs
    requires RowBytes(c.kernels, held[newId]) == bytes > 0
    ensures Matches(c, PromotedRecord(b.recs[of].core, of, held[newId]), bytes, held[newId], held[newId].tokens)
    ensures
      var entry := Entry(PromotedRecord(b.recs[of].core, of, held[newId]), clock, ttl, bytes);
      Descends(b.recs, b.aux.frozen, entry, held[newId].tokens) && newId !in Refs(entry)
  {
    hide Lineage, Descends, RowBytes, Agrees, Refs;
    HeldFields(b, c, held, of);
    var entry := Entry(PromotedRecord(b.recs[of].core, of, held[newId]), clock, ttl, bytes);
    PromotionDescends(b, of, entry, held[newId].tokens);
    DescendsRefs(b, entry, held[newId].tokens);
  }

  lemma DescendsRefs(b: Book, core: Record, tokens: seq<Token>)
    requires Descends(b.recs, b.aux.frozen, core, tokens)
    ensures Refs(core) <= b.recs.Keys
  {
  }

  lemma PromotedStands(b: Book, after: Book, of: Id, newId: Id, entry: Record, tokens: seq<Token>, row: Snapshot,
      clock: int, ttl: nat, bytes: nat)
    requires Lineage(b) && Lineage(after) && Evolves(b, after, {newId}) && of in b.recs && of in after.recs
    requires newId !in b.recs
    requires entry == Entry(PromotedRecord(b.recs[of].core, of, row), clock, ttl, bytes) && tokens == b.aux.frozen[of]
    requires Entered(after, newId, entry, tokens, true)
    requires tokens == row.tokens && row.digest == b.recs[of].core.digest
    ensures Stands(after, of, newId) && PromotionCore(after, of, newId, clock, ttl)
  {
    hide Evolves, Descends;
    LineageAt(b, of);
    SameFields(b, after, {newId}, of);
    if b.recs[of].core.boundary == Context {
      ContextHasNoAnchor(b, of);
    }
  }

  lemma ContextHasNoAnchor(b: Book, id: Id)
    requires Lineage(b) && id in b.recs && b.recs[id].core.boundary == Context
    ensures b.recs[id].core.contextParent == None
  {
    LineageAt(b, id);
  }

  // What follows once register has answered for a promotion.
  lemma PromotionRegistered(b: Book, c: Config, held0: map<Id, Snapshot>, held: map<Id, Snapshot>, after: Book,
      now: map<Id, Snapshot>, of: Id, newId: Id,
      clock: int, ttl: nat, bytes: nat, ok: bool, hostBudget: nat)
    requires Agrees(b, c, held) && Sound(b, held, {of}, {newId}) && Strangers(b, held, clock, [newId])
    requires PromotedBeside(held0, held, of, newId) && of in b.recs && newId !in b.recs && 0 < ttl
    requires RowBytes(c.kernels, held[newId]) == bytes > 0
    requires Books(after, hostBudget, c.context) && after.aux.frozen.Keys == after.recs.Keys && Persisted(after.recs)
    requires of in after.recs
    requires Evolves(b, after, {newId}) && SubMap(now, held)
    requires now.Keys - Residents(after.recs) == if ok then {} else {newId}
    requires Entered(after, newId, Entry(PromotedRecord(b.recs[of].core, of, held[newId]), clock, ttl, bytes),
        held[newId].tokens, ok)
    ensures ok ==> Sound(after, now, {}, {}) && Stands(after, of, newId) && PromotionCore(after, of, newId, clock, ttl)
    ensures !ok ==> Persisted(after.recs) && Lineage(after) && now.Keys - Residents(after.recs) <= Elems([newId])
    ensures !ok ==> Undoable(after.recs, now, clock, [newId], 1)
  {
    hide Books, Lineage, Agrees, Persisted, PendingSafe, Residents, Cores, Evolves, Descends, Entered, Strangers,
      Undoable, SubMap, RowBytes, Entry, Refs, Elems, Matches, Stands, PromotionCore;
    var row := held[newId];
    var entry := Entry(PromotedRecord(b.recs[of].core, of, row), clock, ttl, bytes);
    PromotedMatches(b, c, held0, held, of, newId, clock, ttl, bytes);
    HeldFields(b, c, held, of);
    RegisteredSound(b, held, after, now, newId, entry, row.tokens, ok, {of}, {newId}, hostBudget, c.context);
    EnteredCore(after, newId, entry, row.tokens, ok);
    ElemsOne(newId);
    if ok {
      OwnedSafe(after, now, {of} + {newId}, {newId} - {newId});
      PromotedStands(b, after, of, newId, entry, row.tokens, row, clock, ttl, bytes);
    } else {
      StrangersKept(b, held, after, now, clock, [newId], newId);
      StrangersUndoable(after, now, clock, [newId]);
    }
  }

  // -- A create ------------------------------------------------------------------------

  function Checkpoints(id18: Option<Id>, id30: Option<Id>): seq<Id> {
    (if id18.Some? then [id18.value] else []) + (if id30.Some? then [id30.value] else [])
  }

  ghost predicate Checkpoint(s: Snapshot, depth: Depth, parent: Option<Id>, kind: Kind, tokens: seq<Token>,
      digest: Digest) {
    && s.depth == depth && s.parent == parent && s.kind == kind && s.tokens == tokens && s.digest == digest
    && (s.lowerOwned <==> parent.None?) && (depth == D30 ==> s.upperKv.Some?)
  }

  ghost predicate CreatedBeside(held0: map<Id, Snapshot>, held: map<Id, Snapshot>, id18: Option<Id>, id30: Option<Id>,
      kind: Kind, tokens: seq<Token>, digest: Digest) {
    && SubMap(held0, held) && held.Keys == held0.Keys + Elems(Checkpoints(id18, id30))
    && (id18.Some? ==> id18.value in held && Checkpoint(held[id18.value], D18, None, kind, tokens, digest))
    && (id30.Some? ==> id30.value in held && Checkpoint(held[id30.value], D30, id18, kind, tokens, digest))
    && (id18.Some? && id30.Some? ==> id18 != id30 && held[id30.value].lowerKv == held[id18.value].lowerKv)
  }

  lemma CreateBeside(c: Config, st: State, cmd: Command, resp: Response, st': State)
    requires 0 < c.batch && cmd.Create? && cmd.tokens != [] && CreateStep(c, st, cmd, resp, st') && resp.Created?
    ensures CreatedBeside(st.snapshots, st'.snapshots, cmd.id18, cmd.id30, cmd.kind, cmd.tokens, cmd.digest)
  {
    hide UpperRun, LowerRun;
  }

  lemma CreatedSharing(held0: map<Id, Snapshot>, held: map<Id, Snapshot>, id18: Option<Id>, id30: Option<Id>,
      kind: Kind, tokens: seq<Token>, digest: Digest)
    requires CreatedBeside(held0, held, id18, id30, kind, tokens, digest)
    requires Sharing(held0) && Elems(Checkpoints(id18, id30)) !! held0.Keys
    ensures Sharing(held) && Ordered(held, Checkpoints(id18, id30))
    ensures forall p :: p in held && p !in held0 && !held[p].lowerOwned ==> id18.Some? && held[p].parent == id18
  {
    var ids := Checkpoints(id18, id30);
    ElemsIn(ids);
    forall p | p in held && !held[p].lowerOwned
      ensures held[p].parent.Some? && held[p].parent.value in held && SharedWith(held[p], held[held[p].parent.value])
      ensures p in held0 ==> held[p].parent.value in held0
      ensures p !in held0 ==> id18.Some? && id30 == Some(p) && held[p].parent == id18
    {
      if p !in held0 {
        assert p in Elems(ids);
      }
    }
    forall i, p | 0 <= i < |ids| && p in held && Leans(held[p], ids[i])
      ensures exists j :: i < j < |ids| && ids[j] == p
    {
      assert ids[i] in Elems(ids);
      assert ids == [id18.value, id30.value] && ids[1] == p;
    }
  }

  lemma CreatedSound(b: Book, c: Config, held0: map<Id, Snapshot>, held: map<Id, Snapshot>, id18: Option<Id>,
      id30: Option<Id>, kind: Kind, tokens: seq<Token>, digest: Digest, clock: int, hostBudget: nat)
    requires Books(b, hostBudget, c.context) && Agrees(b, c, held0) && Sound(b, held0, {}, {})
    requires CreatedBeside(held0, held, id18, id30, kind, tokens, digest)
    requires Elems(Checkpoints(id18, id30)) !! b.aux.used && AllFaithful(c, held)
    ensures Agrees(b, c, held) && Sound(b, held, {}, Elems(Checkpoints(id18, id30)))
    ensures Strangers(b, held, clock, Checkpoints(id18, id30))
  {
    hide Books, Agrees, Lineage, Persisted, PendingSafe, Residents, Cores, Sharing, Unnamed, Ordered, SubMap,
      Checkpoints, Elems, Checkpoint, AllFaithful;
    var ids := Checkpoints(id18, id30);
    UsedAll(b, hostBudget, c.context);
    HeldAreResident(b, c, held0);
    AgreesSharing(b, c, held0);
    assert Elems(ids) !! held0.Keys && Elems(ids) !! b.recs.Keys;
    CreatedSharing(held0, held, id18, id30, kind, tokens, digest);
    AgreesMore(b, c, held0, held);
    FreshUnnamed(b, hostBudget, c.context, Elems(ids));
    ElemsIn(ids);
    assert held.Keys - Residents(b.recs) == Elems(ids);
    CheckpointsIn(id18, id30);
    NewLeanSafe(b.recs, held0, held, id18);
  }

  lemma CheckpointsIn(id18: Option<Id>, id30: Option<Id>)
    ensures Elems(Checkpoints(id18, id30)) == Named(id18) + Named(id30)
  {
    var ids := Checkpoints(id18, id30);
    if id18.Some? {
      assert ids[0] == id18.value;
    }
    if id30.Some? {
      assert ids[|ids| - 1] == id30.value;
    }
  }

  lemma NewLeanSafe(recs: Recs, held0: map<Id, Snapshot>, held: map<Id, Snapshot>, id18: Option<Id>)
    requires held0.Keys == Residents(recs)
    requires forall p :: p in held && p !in held0 && !held[p].lowerOwned ==> id18.Some? && held[p].parent == id18
    requires id18.Some? ==> id18.value !in recs
    ensures PendingSafe(Cores(recs), Residents(recs), held, {})
  {
    hide Residents;
  }

  // -- Steps of a request --------------------------------------------------------------

  lemma ChainAdds(a: Book, b: Book, c: Book, id: Id)
    requires Evolves(a, b, {}) && Evolves(b, c, {id}) && id !in b.aux.used
    requires a.recs.Keys <= a.aux.used && b.recs.Keys <= b.aux.used
    ensures Evolves(a, c, {id})
  {
    hide Evolves;
    var none: set<Id> := {};
    UsedGrows(a, b, none);
    EvolvesTrans(a, b, c, none, {id});
    assert none + {id} == {id};
  }

  lemma AddsThenMoves(a: Book, b: Book, c: Book, id: Id)
    requires Evolves(a, b, {id}) && Evolves(b, c, {}) && id !in a.aux.used
    requires a.recs.Keys <= a.aux.used
    ensures Evolves(a, c, {id})
  {
    hide Evolves;
    var none: set<Id> := {};
    EvolvesUpTo(b, c, none, {id});
    AddsThenBack(a, b, c, id);
  }

  // It was added, and perhaps taken back.
  lemma AddsThenBack(a: Book, b: Book, c: Book, id: Id)
    requires Evolves(a, b, {id}) && Evolves(b, c, {id}) && id !in a.aux.used
    requires a.recs.Keys <= a.aux.used
    ensures Evolves(a, c, {id})
  {
    hide Evolves;
    EvolvesTrans(a, b, c, {id}, {id});
    assert {id} + {id} == {id};
  }

  lemma PinnedFacts(b: Book, base: Book, pins: set<Id>, id: Id)
    requires id in pins && pins <= PinnedBook(base, pins).recs.Keys && Evolves(b, base, {})
    ensures
      var after := PinnedBook(base, pins);
      && id in after.recs && after.recs[id].leases > 0 && after.aux.used == b.aux.used
      && (id in b.recs && id in base.recs ==> after.recs[id].core == b.recs[id].core)
  {
    PinnedCore(base.recs, pins, id);
    EvolvesUsed(b, base);
    if id in b.recs && id in base.recs {
      var none: set<Id> := {};
      SameFields(b, base, none, id);
    }
  }

  lemma StandsUnpinned(c: Book, id: Id, effective: Id)
    requires Stands(c, id, effective) && c.aux.scopes != []
    ensures Stands(UnpinnedBook(c), id, effective)
  {
  }

  lemma SafeLeased(b: Book, held: map<Id, Snapshot>, id: Id, clock: int, more: set<Id>)
    requires PendingSafe(Cores(b.recs), Residents(b.recs), held, {id}) && id in b.recs && b.recs[id].leases > 0
    ensures PendingSafe(Cores(b.recs), Residents(b.recs), held, Live(b.recs, clock))
    ensures PendingSafe(Cores(b.recs), Residents(b.recs), held, Pins(b.recs) + more)
  {
    hide PendingSafe, Cores, Residents;
    PendingSafeWider(b.recs, held, {id}, Live(b.recs, clock));
    PendingSafeWider(b.recs, held, {id}, Pins(b.recs) + more);
  }

  lemma SoundParts(b: Book, held: map<Id, Snapshot>, safe: set<Id>, pending: set<Id>)
    requires Sound(b, held, safe, pending)
    ensures Persisted(b.recs) && Lineage(b) && PendingSafe(Cores(b.recs), Residents(b.recs), held, safe)
    ensures held.Keys - Residents(b.recs) == pending && b.aux.frozen.Keys == b.recs.Keys
  {
    hide Persisted, PendingSafe, Descends, Cores, Residents;
  }

  lemma PromotedTokens(parent: Record, parentId: Id, row: Snapshot)
    ensures PromotedRecord(parent, parentId, row).tokens == |row.tokens|
  {
  }

  lemma StandsIn(b: Book, id: Id, effective: Id)
    requires Stands(b, id, effective)
    ensures id in b.recs && effective in b.recs
  {
  }

  lemma PromoteRefused(c: Config, st: State, of: Id, newId: Id, resp: Response, st': State)
    requires 0 < c.batch && PromoteStep(c, st, of, newId, resp, st') && !resp.Promoted?
    ensures st' == st && resp.Failed?
  {
  }

  lemma UnmovedEvolves(b: Book, after: Book, id: Id)
    requires Unmoved(b, after)
    ensures Evolves(b, after, {}) && Evolves(b, after, {id}) && after.aux == b.aux && after.recs.Keys == b.recs.Keys
  {
    hide Evolves, Cores, Residents, Pins, Refcounts, Persisted;
    var none: set<Id> := {};
    EvolvesUpTo(b, after, none, {id});
  }

  lemma AnchoredReadout(b: Book, id: Id)
    requires Lineage(b) && id in b.recs && b.recs[id].core.contextParent.Some?
    ensures b.recs[id].core.boundary == Readout
  {
    LineageAt(b, id);
  }

  // -- Registering what a create made ---------------------------------------------------

  // A create request, compiled.
  datatype Freeze = Freeze(owner: Owner, kind: Kind, prompt: Prompt, persistence: Persistence, ttl: nat)

  function CheckpointRecord(f: Freeze, row: Snapshot): Record {
    Record(f.owner, row.depth, f.kind, row.parent, None, f.prompt, |row.tokens|, f.persistence, row.digest, 0, 0, None,
      0)
  }

  function CheckpointEntry(k: Kernels, f: Freeze, row: Snapshot, clock: int): Record {
    Entry(CheckpointRecord(f, row), clock, f.ttl, RowBytes(k, row))
  }

  // `id` is registered as the create request asked.
  ghost predicate Frozen(b: Book, k: Kernels, f: Freeze, row: Snapshot, clock: int, id: Id) {
    && id in b.recs && b.recs[id].core == CheckpointEntry(k, f, row, clock)
    && id in b.aux.frozen && b.aux.frozen[id] == row.tokens
  }

  // ids[..i] are registered, the others have no books yet; until the last is in,
  // all can still be taken back.
  ghost predicate Laying(b: Book, k: Kernels, held: map<Id, Snapshot>, created: map<Id, Snapshot>, f: Freeze,
      clock: int, ids: seq<Id>, i: nat)
    requires i <= |ids|
  {
    && Sound(b, held, Elems(ids[..i]), Elems(ids[i..])) && SubMap(held, created)
    && (i < |ids| ==> Strangers(b, held, clock, ids))
    && (forall j :: i <= j < |ids| ==> ids[j] !in b.aux.used)
    && (forall j :: 0 <= j < |ids| ==> ids[j] in created)
    && (forall j :: 0 <= j < i ==> Frozen(b, k, f, created[ids[j]], clock, ids[j]))
  }

  // The rows a create answers with, low to high.
  ghost predicate RowsOf(created: map<Id, Snapshot>, ids: seq<Id>, f: Freeze) {
    && |ids| <= 2 && Distinct(ids)
    && (forall i :: 0 <= i < |ids| ==> RowAt(created, ids[i], f, if i == 0 then None else Some(ids[0])))
  }

  ghost predicate RowAt(created: map<Id, Snapshot>, id: Id, f: Freeze, parent: Option<Id>) {
    && id in created && created[id].kind == f.kind && created[id].parent == parent
    && (created[id].lowerOwned || created[id].upperKv.Some?)
  }

  lemma CreatedRows(held0: map<Id, Snapshot>, created: map<Id, Snapshot>, id18: Option<Id>, id30: Option<Id>,
      tokens: seq<Token>, digest: Digest, f: Freeze)
    requires CreatedBeside(held0, created, id18, id30, f.kind, tokens, digest)
    ensures RowsOf(created, Checkpoints(id18, id30), f)
  {
  }

  lemma LayingStart(b: Book, k: Kernels, created: map<Id, Snapshot>, f: Freeze, clock: int, ids: seq<Id>)
    requires Sound(b, created, {}, Elems(ids)) && Strangers(b, created, clock, ids) && Elems(ids) !! b.aux.used
    requires RowsOf(created, ids, f)
    ensures Laying(b, k, created, created, f, clock, ids, 0)
  {
    hide Sound, Strangers;
    ElemsIn(ids);
    assert ids[0..] == ids && Elems(ids[..0]) == {};
  }

  lemma CheckpointDescends(b: Book, k: Kernels, held: map<Id, Snapshot>, created: map<Id, Snapshot>, f: Freeze,
      clock: int, ids: seq<Id>, i: nat)
    requires i < |ids| && Laying(b, k, held, created, f, clock, ids, i) && RowsOf(created, ids, f)
    requires RowBytes(k, created[ids[i]]) > 0
    ensures Descends(b.recs, b.aux.frozen, CheckpointEntry(k, f, created[ids[i]], clock), created[ids[i]].tokens)
    ensures Refs(CheckpointEntry(k, f, created[ids[i]], clock)) == if i == 0 then {} else {ids[0]}
  {
    hide Sound, Strangers, SubMap, RowBytes;
    var row := created[ids[i]];
    assert RowAt(created, ids[i], f, if i == 0 then None else Some(ids[0]));
    if i > 0 {
      assert Frozen(b, k, f, created[ids[0]], clock, ids[0]);
    }
  }

  lemma LayingNext(b: Book, c: Config, held0: map<Id, Snapshot>, after: Book, held: map<Id, Snapshot>, created: map<Id,
      Snapshot>, f: Freeze, clock: int,
      ids: seq<Id>, i: nat, ok: bool, hostBudget: nat)
    requires i < |ids| && Laying(b, c.kernels, held0, created, f, clock, ids, i) && RowsOf(created, ids, f) && 0 < f.ttl
    requires RowBytes(c.kernels, created[ids[i]]) > 0
    requires Books(after, hostBudget, c.context) && Persisted(after.recs) && after.aux.frozen.Keys == after.recs.Keys
    requires b.recs.Keys <= b.aux.used && SubMap(held, held0) && Evolves(b, after, {ids[i]})
    requires Entered(after, ids[i], CheckpointEntry(c.kernels, f, created[ids[i]], clock), created[ids[i]].tokens, ok)
    requires held.Keys - Residents(after.recs) == if ok then Elems(ids[i..]) - {ids[i]} else Elems(ids[i..])
    ensures ok ==> Laying(after, c.kernels, held, created, f, clock, ids, i + 1)
    ensures !ok ==> Persisted(after.recs) && Lineage(after) && held.Keys - Residents(after.recs) <= Elems(ids)
    ensures !ok ==> Strangers(after, held, clock, ids)
  {
    hide Books, Lineage, Agrees, Persisted, PendingSafe, Residents, Cores, Evolves, Descends, Strangers, SubMap,
      RowBytes, Refs, Elems, Entered, Entry, Frozen, CheckpointEntry;
    var id := ids[i];
    var entry := CheckpointEntry(c.kernels, f, created[id], clock);
    CheckpointDescends(b, c.kernels, held0, created, f, clock, ids, i);
    ElemsTail(ids, i);
    RegisteredSound(b, held0, after, held, id, entry, created[id].tokens, ok, Elems(ids[..i]), Elems(ids[i..]),
      hostBudget, c.context);
    SubMapTrans(held, held0, created);
    EnteredCore(after, id, entry, created[id].tokens, ok);
    EvolvesKeys(b, after, id);
    EntryExpires(c.kernels, f, created[id], clock);
    ElemsOf(ids, i);
    if ok {
      if i + 1 < |ids| {
        StrangersKept(b, held0, after, held, clock, ids, id);
      }
      FrozenNext(b, c, after, created, f, clock, ids, i, hostBudget);
    } else {
      StrangersKept(b, held0, after, held, clock, ids, id);
    }
  }

  lemma EntryExpires(k: Kernels, f: Freeze, row: Snapshot, clock: int)
    requires 0 < f.ttl
    ensures CheckpointEntry(k, f, row, clock).expiresAt > clock
  {
  }

  lemma ElemsOf(ids: seq<Id>, i: nat)
    requires i < |ids|
    ensures Elems(ids[..i + 1]) == Elems(ids[..i]) + {ids[i]} && Elems(ids[i..]) <= Elems(ids)
  {
    assert ids[..i + 1] == ids[..i] + [ids[i]];
  }

  lemma FrozenNext(b: Book, c: Config, after: Book, created: map<Id, Snapshot>, f: Freeze, clock: int, ids: seq<Id>,
      i: nat, hostBudget: nat)
    requires i < |ids| && RowsOf(created, ids, f) && Books(after, hostBudget, c.context) && Evolves(b, after, {ids[i]})
    requires forall j :: 0 <= j < i ==> Frozen(b, c.kernels, f, created[ids[j]], clock, ids[j])
    requires Entered(after, ids[i], CheckpointEntry(c.kernels, f, created[ids[i]], clock), created[ids[i]].tokens, true)
    ensures forall j :: 0 <= j < i + 1 ==> Frozen(after, c.kernels, f, created[ids[j]], clock, ids[j])
  {
    hide Books, Evolves, Refs, RowBytes;
    if i == 1 {
      RefsIn(after, hostBudget, c.context, ids[1]);
      ParentIn(after.recs[ids[1]].core);
      assert Frozen(b, c.kernels, f, created[ids[0]], clock, ids[0]);
      SameFields(b, after, {ids[1]}, ids[0]);
    }
  }

  lemma ParentIn(r: Record)
    ensures r.parent.Some? ==> r.parent.value in Refs(r)
  {
  }

  lemma CheckpointMatches(c: Config, f: Freeze, row: Snapshot)
    requires row.kind == f.kind
    ensures Matches(c, CheckpointRecord(f, row), RowBytes(c.kernels, row), row, row.tokens)
    ensures CheckpointRecord(f, row).tokens == |row.tokens|
  {
    hide RowBytes;
  }

  lemma LayingSafe(b: Book, k: Kernels, held: map<Id, Snapshot>, created: map<Id, Snapshot>, f: Freeze, clock: int,
      ids: seq<Id>, i: nat, refs: set<Id>)
    requires i < |ids| && Laying(b, k, held, created, f, clock, ids, i) && RowsOf(created, ids, f) && 0 < f.ttl
    requires refs == if i == 0 then {} else {ids[0]}
    ensures PendingSafe(Cores(b.recs), Residents(b.recs), held, Live(b.recs, clock))
    ensures PendingSafe(Cores(b.recs), Residents(b.recs), held, Pins(b.recs) + refs)
    ensures Persisted(b.recs) && held.Keys - Residents(b.recs) == Elems(ids[i..]) && ids[i] in held
    ensures held[ids[i]] == created[ids[i]]
  {
    hide PendingSafe, Cores, Residents, Lineage, Persisted, Strangers, RowBytes, Entry;
    assert ids[i..][0] == ids[i];
    assert ids[i] in Elems(ids[i..]);
    if i > 0 {
      assert Frozen(b, k, f, created[ids[0]], clock, ids[0]);
      EntryExpires(k, f, created[ids[0]], clock);
      assert Elems(ids[..i]) <= {ids[0]};
    } else {
      assert Elems(ids[..i]) <= {};
    }
    PendingSafeWider(b.recs, held, Elems(ids[..i]), Live(b.recs, clock));
    PendingSafeWider(b.recs, held, Elems(ids[..i]), Pins(b.recs) + refs);
  }

  lemma LayingDone(b: Book, k: Kernels, held: map<Id, Snapshot>, created: map<Id, Snapshot>, f: Freeze, clock: int,
      ids: seq<Id>)
    requires Laying(b, k, held, created, f, clock, ids, |ids|)
    ensures Sound(b, held, {}, {})
    ensures forall id :: id in ids ==> id in created && Frozen(b, k, f, created[id], clock, id)
  {
    hide Lineage, Persisted, PendingSafe, Residents, Cores, Frozen;
    assert ids[|ids|..] == [] && Elems(ids[|ids|..]) == {};
    OwnedSafe(b, held, Elems(ids[..|ids|]), {});
  }

  lemma EvolvesScopes(b: Book, after: Book, added: set<Id>)
    requires Evolves(b, after, added)
    ensures after.aux.scopes == b.aux.scopes && after.aux.used <= b.aux.used + added
  {
  }

  lemma CreateRefused(c: Config, st: State, cmd: Command, resp: Response, st': State)
    requires 0 < c.batch && cmd.Create? && CreateStep(c, st, cmd, resp, st') && !resp.Created?
    ensures st' == st && resp.Failed?
  {
  }

  // One more of the ids added, or not; then all perhaps taken back.
  lemma OneMore(b0: Book, b: Book, after: Book, ids: set<Id>, id: Id)
    requires Evolves(b0, b, ids) && Evolves(b, after, {id}) && id in ids && id !in b.aux.used && ids !! b0.aux.used
    requires b0.recs.Keys <= b0.aux.used && b.recs.Keys <= b.aux.used
    ensures Evolves(b0, after, ids)
  {
    hide Evolves;
    EvolvesTrans(b0, b, after, ids, {id});
    assert ids + {id} == ids;
  }

  lemma MovesAfter(b0: Book, b: Book, after: Book, ids: set<Id>)
    requires Evolves(b0, b, ids) && Evolves(b, after, ids) && ids !! b0.aux.used
    requires b0.recs.Keys <= b0.aux.used
    ensures Evolves(b0, after, ids)
  {
    hide Evolves;
    EvolvesTrans(b0, b, after, ids, ids);
    assert ids + ids == ids;
  }

  // Everything about the next row that register and its aftermath need.
  lemma LayingRow(b: Book, c: Config, held: map<Id, Snapshot>, created: map<Id, Snapshot>, f: Freeze, clock: int,
      ids: seq<Id>, i: nat)
    requires i < |ids| && Laying(b, c.kernels, held, created, f, clock, ids, i) && RowsOf(created, ids, f) && 0 < f.ttl
    requires Sized(c.kernels)
    ensures ids[i] in held && held[ids[i]] == created[ids[i]] && ids[i] !in b.aux.used && ids[i] in Elems(ids)
    ensures
      var row := held[ids[i]];
      && Matches(c, CheckpointRecord(f, row), RowBytes(c.kernels, row), row, row.tokens)
      && CheckpointRecord(f, row).tokens == |row.tokens|
      && RowBytes(c.kernels, row) > 0
      && CheckpointEntry(c.kernels, f, row, clock) ==
        Entry(CheckpointRecord(f, row), clock, f.ttl, RowBytes(c.kernels, row))
      && PendingSafe(Cores(b.recs), Residents(b.recs), held, Live(b.recs, clock))
      && PendingSafe(Cores(b.recs), Residents(b.recs), held, Pins(b.recs) + Refs(CheckpointRecord(f, row)))
    ensures Persisted(b.recs) && held.Keys - Residents(b.recs) == Elems(ids[i..])
  {
    hide Laying, RowsOf, Sized, RowBytes, Matches, PendingSafe, Live, Refs, Entry, CheckpointRecord;
    CreatedRow(created, ids, f, i);
    RowBytesPositive(c.kernels, created[ids[i]]);
    CheckpointMatches(c, f, created[ids[i]]);
    CheckpointDescends(b, c.kernels, held, created, f, clock, ids, i);
    EntryRefs(CheckpointRecord(f, created[ids[i]]), clock, f.ttl, RowBytes(c.kernels, created[ids[i]]));
    LayingSafe(b, c.kernels, held, created, f, clock, ids, i, Refs(CheckpointRecord(f, created[ids[i]])));
    LayingFresh(b, c.kernels, held, created, f, clock, ids, i);
    ElemsIn(ids);
  }

  lemma CreatedRow(created: map<Id, Snapshot>, ids: seq<Id>, f: Freeze, i: nat)
    requires RowsOf(created, ids, f) && i < |ids|
    ensures RowAt(created, ids[i], f, if i == 0 then None else Some(ids[0]))
  {
  }

  lemma EntryRefs(r: Record, clock: int, ttl: nat, bytes: nat)
    ensures Refs(Entry(r, clock, ttl, bytes)) == Refs(r)
  {
  }

  lemma LayingFresh(b: Book, k: Kernels, held: map<Id, Snapshot>, created: map<Id, Snapshot>, f: Freeze, clock: int,
      ids: seq<Id>, i: nat)
    requires i < |ids| && Laying(b, k, held, created, f, clock, ids, i)
    ensures ids[i] !in b.aux.used
  {
    hide Sound, Strangers;
  }

  // A checkpoint as a create published it.
  ghost predicate Froze(b: Book, f: Freeze, tokens: seq<Token>, digest: Digest, clock: int, id: Id, depth: Depth,
      parent: Option<Id>) {
    && id in b.recs && id in b.aux.frozen && b.aux.frozen[id] == tokens
    && var r := b.recs[id].core;
      && r.owner == f.owner && r.depth == depth && r.boundary == f.kind && r.parent == parent && r.contextParent == None
      && r.prompt == f.prompt && r.tokens == |tokens| && r.persistence == f.persistence && r.promotionOf == None
      && r.createdAt == clock && r.expiresAt == clock + f.ttl && r.digest == digest
  }

  lemma FrozenRows(b: Book, k: Kernels, held0: map<Id, Snapshot>, created: map<Id, Snapshot>, id18: Option<Id>,
      id30: Option<Id>, tokens: seq<Token>, digest: Digest, f: Freeze, clock: int)
    requires CreatedBeside(held0, created, id18, id30, f.kind, tokens, digest)
    requires forall id :: id in Checkpoints(id18, id30) ==> id in created && Frozen(b, k, f, created[id], clock, id)
    ensures id18.Some? ==> Froze(b, f, tokens, digest, clock, id18.value, D18, None)
    ensures id30.Some? ==> Froze(b, f, tokens, digest, clock, id30.value, D30, id18)
  {
    hide RowBytes;
    if id18.Some? {
      assert Checkpoints(id18, id30)[0] == id18.value;
    }
    if id30.Some? {
      assert Checkpoints(id18, id30)[|Checkpoints(id18, id30)| - 1] == id30.value;
    }
  }
}
