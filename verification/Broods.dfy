// What the worker's answers mean for the books: the snapshots a create, a
// promotion or an evaluation leaves behind until they are registered or dropped
// (unridden/api/snapshots/service.py).
module Broods {
  import opened Common
  import opened Kernels
  import opened SnapshotRuntime
  import opened WorkerSpec
  import opened StockAnswers
  import opened Registry
  import opened Ledger
  import opened Descent

  function Elems(ids: seq<Id>): set<Id> {
    set id | id in ids
  }

  ghost predicate Distinct(ids: seq<Id>) {
    forall i, j :: 0 <= i < j < |ids| ==> ids[i] != ids[j]
  }

  // A saved state is never empty.
  ghost predicate Sized(k: Kernels) {
    forall cells :: k.stateBytes(cells) > 0
  }

  lemma RowBytesPositive(k: Kernels, s: Snapshot)
    requires Sized(k) && (s.lowerOwned || s.upperKv.Some?)
    ensures RowBytes(k, s) > 0
  {
  }

  // -- The children of an evaluation --------------------------------------------------

  ghost predicate Hatchling(s: Snapshot, q: Question, of: Id) {
    && s.parent == Some(of) && s.depth == D30 && s.kind == Readout && s.lowerOwned
    && s.tokens == q.full && s.digest == q.digest
  }

  // The first n questions' children, and nothing else, are new.
  ghost predicate Hatched(held0: map<Id, Snapshot>, held: map<Id, Snapshot>, of: Id, qs: seq<Question>, n: nat)
    requires n <= |qs|
  {
    && SubMap(held0, held)
    && (forall id :: id in held && id !in held0 ==> exists j :: 0 <= j < n && qs[j].saveAs == Some(id))
    && (forall j :: 0 <= j < n && qs[j].saveAs.Some? ==>
      qs[j].saveAs.value in held && Hatchling(held[qs[j].saveAs.value], qs[j], of))
  }

  lemma {:induction false} PublishedHatch(c: Config, st: State, of: Id, qs: seq<Question>, n: nat)
    requires 0 < c.batch && Admitted(c, st, of, qs) && n <= |qs| && st.snapshots[of].id == of
    ensures Hatched(st.snapshots, PublishedAll(c, st, st.snapshots[of], qs[..n]).snapshots, of, qs, n)
    decreases n
  {
    hide ChildOf, Hatched;
    if n == 0 {
      NoneHatched(st.snapshots, of, qs);
    } else {
      PublishedHatch(c, st, of, qs, n - 1);
      PublishedSnoc(c, st, st.snapshots[of], qs, n - 1);
      var before := PublishedAll(c, st, st.snapshots[of], qs[..n - 1]);
      var q := qs[n - 1];
      var child := if q.saveAs.Some? then ChildOf(c, st.snapshots[of], q.full, q.digest, q.saveAs.value,
        before.nextTag) else st.snapshots[of];
      ChildHatches(c, st.snapshots[of], q, before.nextTag);
      HatchOne(c, st, of, qs, n - 1, before.snapshots, child);
    }
  }

  lemma NoneHatched(held: map<Id, Snapshot>, of: Id, qs: seq<Question>)
    ensures Hatched(held, held, of, qs, 0)
  {
  }

  lemma ChildHatches(c: Config, parent: Snapshot, q: Question, tag: nat)
    requires 0 < c.batch && parent.upperKv.Some? && |parent.tokens| < |q.full|
    ensures q.saveAs.Some? ==> Hatchling(ChildOf(c, parent, q.full, q.digest, q.saveAs.value, tag), q, parent.id)
  {
    hide BranchOf;
  }

  lemma HatchOne(c: Config, st: State, of: Id, qs: seq<Question>, n: nat, was: map<Id, Snapshot>, child: Snapshot)
    requires Admitted(c, st, of, qs) && n < |qs|
    requires Hatched(st.snapshots, was, of, qs, n)
    requires qs[n].saveAs.Some? ==> Hatchling(child, qs[n], of)
    ensures Hatched(st.snapshots, if qs[n].saveAs.Some? then was[qs[n].saveAs.value := child] else was, of, qs, n + 1)
  {
    var now := if qs[n].saveAs.Some? then was[qs[n].saveAs.value := child] else was;
    if qs[n].saveAs.Some? {
      assert qs[n].saveAs.value !in st.snapshots;
    }
    forall id | id in now && id !in st.snapshots
      ensures exists j :: 0 <= j < n + 1 && qs[j].saveAs == Some(id)
    {
      if id in was {
        assert exists j :: 0 <= j < n && qs[j].saveAs == Some(id);
      } else {
        assert qs[n].saveAs == Some(id);
      }
    }
  }

  // Whatever the answer, some first questions' children are there; after a
  // success, all.
  lemma EvaluatedHatch(c: Config, st: State, of: Id, qs: seq<Question>, resp: Response, st': State) returns (n: nat)
    requires 0 < c.batch && EvaluateStep(c, st, of, qs, resp, st') && (of in st.snapshots ==> st.snapshots[of].id == of)
    ensures n <= |qs| && Hatched(st.snapshots, st'.snapshots, of, qs, n)
    ensures resp.Evaluated? ==> n == |qs| && Admitted(c, st, of, qs)
  {
    hide BranchOf, Hatched, WorkerSpec.Published;
    assert qs[..|qs|] == qs;
    if resp.Evaluated? {
      n := |qs|;
      PublishedHatch(c, st, of, qs, n);
    } else {
      n := PartlyHatch(c, st, of, qs, st');
    }
  }

  lemma PartlyHatch(c: Config, st: State, of: Id, qs: seq<Question>, st': State) returns (n: nat)
    requires 0 < c.batch && PartlyPublished(c, st, of, qs, st') && (of in st.snapshots ==> st.snapshots[of].id == of)
    ensures n <= |qs| && Hatched(st.snapshots, st'.snapshots, of, qs, n)
  {
    hide BranchOf, WorkerSpec.Published;
    if st' == st {
      n := 0;
    } else {
      n :| 0 <= n <= |qs| && st' == PublishedAll(c, st, st.snapshots[of], qs[..n]);
      PublishedHatch(c, st, of, qs, n);
    }
  }

  lemma StatedHatch(c: Config, st: State, of: Id, q: Question, resp: Response, st': State) returns (n: nat)
    requires 0 < c.batch && StateEvalStep(c, st, of, q, resp, st') && (of in st.snapshots ==> st.snapshots[of].id == of)
    ensures n <= 1 && Hatched(st.snapshots, st'.snapshots, of, [q], n)
    ensures resp.Stated? ==> n == 1 && Admitted(c, st, of, [q])
  {
    hide BranchOf, Hatched, WorkerSpec.Published;
    assert [q][..0] == [] && [q][..1] == [q];
    if resp.Stated? {
      n := 1;
      PublishedSnoc(c, st, st.snapshots[of], [q], 0);
      PublishedHatch(c, st, of, [q], 1);
    } else {
      n := PartlyHatch(c, st, of, [q], st');
    }
  }

  // The ids the questions save under: all of them or none.
  ghost predicate SavedUnder(qs: seq<Question>, ids: seq<Id>) {
    || (ids == [] && forall j :: 0 <= j < |qs| ==> qs[j].saveAs.None?)
    || (|ids| == |qs| && forall j :: 0 <= j < |qs| ==> qs[j].saveAs == Some(ids[j]))
  }

  ghost predicate Unleaned(held: map<Id, Snapshot>, ids: set<Id>) {
    forall p :: p in held && !held[p].lowerOwned ==> held[p].parent.Some? && held[p].parent.value !in ids
  }

  lemma HatchedSharing(held0: map<Id, Snapshot>, held: map<Id, Snapshot>, of: Id, qs: seq<Question>, n: nat,
      ids: set<Id>)
    requires n <= |qs| && Hatched(held0, held, of, qs, n) && Sharing(held0) && ids !! held0.Keys
    ensures Sharing(held) && Unleaned(held, ids)
    ensures forall p :: p in held && p !in held0 ==> held[p].lowerOwned
  {
    hide SharedWith;
    forall p | p in held && p !in held0
      ensures held[p].lowerOwned
    {
      var j :| 0 <= j < n && qs[j].saveAs == Some(p);
      assert Hatchling(held[qs[j].saveAs.value], qs[j], of);
    }
  }

  lemma HatchedKeys(held0: map<Id, Snapshot>, held: map<Id, Snapshot>, of: Id, qs: seq<Question>, n: nat, ids: seq<Id>)
    requires n <= |qs| && Hatched(held0, held, of, qs, n) && SavedUnder(qs, ids) && Elems(ids) !! held0.Keys
    ensures held.Keys - held0.Keys <= Elems(ids)
    ensures n == |qs| ==> held.Keys - held0.Keys == Elems(ids)
  {
    forall p | p in held && p !in held0
      ensures p in ids
    {
      var j :| 0 <= j < n && qs[j].saveAs == Some(p);
    }
    if n == |qs| {
      forall id | id in ids
        ensures id in held && id !in held0
      {
        var j :| 0 <= j < |ids| && ids[j] == id;
        assert qs[j].saveAs == Some(id);
        assert id in Elems(ids);
      }
    }
  }

  // -- Children waiting to be registered ------------------------------------------------

  // The children ids[i..] have no books yet, those before were registered; nobody
  // refers to any of them.
  ghost predicate Brooding(b: Book, held: map<Id, Snapshot>, hatched: map<Id, Snapshot>, clock: int, ids: seq<Id>,
      i: nat)
    requires i <= |ids|
  {
    && Sound(b, held, {}, Elems(ids[i..]))
    && SubMap(held, hatched) && (forall p :: p in held.Keys - Residents(b.recs) ==> hatched[p].lowerOwned)
    && Strangers(b, held, clock, ids)
    && (forall j :: i <= j < |ids| ==> ids[j] !in b.aux.used)
  }

  ghost predicate Strangers(b: Book, held: map<Id, Snapshot>, clock: int, ids: seq<Id>) {
    && Unnamed(b.recs, Elems(ids)) && Ordered(held, ids)
    && (forall j :: 0 <= j < |ids| && ids[j] in b.recs ==> b.recs[ids[j]].core.expiresAt > clock)
  }

  // Only later ones share the blob of an earlier one.
  ghost predicate Ordered(held: map<Id, Snapshot>, ids: seq<Id>) {
    forall i, p :: 0 <= i < |ids| && p in held && Leans(held[p], ids[i]) ==> exists j :: i < j < |ids| && ids[j] == p
  }

  lemma OrderedLess(held0: map<Id, Snapshot>, held: map<Id, Snapshot>, ids: seq<Id>)
    requires Ordered(held0, ids) && SubMap(held, held0)
    ensures Ordered(held, ids)
  {
    forall i, p | 0 <= i < |ids| && p in held && Leans(held[p], ids[i])
      ensures exists j :: i < j < |ids| && ids[j] == p
    {
      assert Leans(held0[p], ids[i]);
    }
  }

  lemma UnleanedOrdered(held: map<Id, Snapshot>, ids: seq<Id>)
    requires Unleaned(held, Elems(ids))
    ensures Ordered(held, ids)
  {
    ElemsIn(ids);
    forall i, p | 0 <= i < |ids| && p in held
      ensures !Leans(held[p], ids[i])
    {
      assert ids[i] in Elems(ids);
    }
  }

  lemma OwnedSafe(b: Book, held: map<Id, Snapshot>, safe: set<Id>, pending: set<Id>)
    requires Sound(b, held, safe, pending)
    requires forall p :: p in pending ==> held[p].lowerOwned
    ensures Sound(b, held, {}, pending)
  {
    hide Lineage, Persisted, Cores, Residents;
    forall p | p in held && p !in Residents(b.recs)
      ensures held[p].lowerOwned
    {
      assert p in pending;
    }
  }

  // After an evaluation: the books agree with what the worker holds now, and all
  // that is new is children under the ids asked for.
  lemma HatchedSound(b: Book, c: Config, held0: map<Id, Snapshot>, held: map<Id, Snapshot>, of: Id, qs: seq<Question>,
      n: nat, clock: int, ids: seq<Id>, hostBudget: nat)
    requires Books(b, hostBudget, c.context) && Agrees(b, c, held0) && Sound(b, held0, {}, {})
    requires n <= |qs| && Hatched(held0, held, of, qs, n) && SavedUnder(qs, ids) && Elems(ids) !! b.aux.used
    requires AllFaithful(c, held)
    ensures Agrees(b, c, held) && Strangers(b, held, clock, ids)
    ensures Sound(b, held, {}, held.Keys - held0.Keys) && held.Keys - held0.Keys <= Elems(ids)
    ensures n == |qs| ==> Brooding(b, held, held, clock, ids, 0)
  {
    hide Books, Agrees, Lineage, Persisted, PendingSafe, Residents, Cores, Hatched, SavedUnder, Sharing, Unleaned,
      Elems, Unnamed, Ordered, AllFaithful;
    UsedAll(b, hostBudget, c.context);
    HeldAreResident(b, c, held0);
    assert Elems(ids) !! held0.Keys && Elems(ids) !! b.recs.Keys;
    AgreesSharing(b, c, held0);
    HatchedSharing(held0, held, of, qs, n, Elems(ids));
    UnleanedOrdered(held, ids);
    HatchedKeys(held0, held, of, qs, n, ids);
    HatchedSub(held0, held, of, qs, n);
    assert forall id :: id in held && id !in held0 ==> id in held.Keys - held0.Keys;
    AgreesMore(b, c, held0, held);
    FreshUnnamed(b, hostBudget, c.context, Elems(ids));
    ElemsIn(ids);
    assert held.Keys - Residents(b.recs) == held.Keys - held0.Keys;
    AllOwnedSound(b, held0, held);
    assert ids[0..] == ids;
  }

  lemma HatchedSub(held0: map<Id, Snapshot>, held: map<Id, Snapshot>, of: Id, qs: seq<Question>, n: nat)
    requires n <= |qs| && Hatched(held0, held, of, qs, n)
    ensures SubMap(held0, held)
  {
  }

  lemma ElemsIn(ids: seq<Id>)
    ensures forall j :: 0 <= j < |ids| ==> ids[j] in Elems(ids)
  {
  }

  lemma HeldAreResident(b: Book, c: Config, held: map<Id, Snapshot>)
    requires Agrees(b, c, held) && held.Keys - Residents(b.recs) == {}
    ensures held.Keys == Residents(b.recs) && held.Keys <= b.recs.Keys
  {
    hide Residents, Cores, Bytes, Durables, Matches, FilesMatch, Sharing, Faithful, FaithfulFiles;
    forall id | id in held
      ensures id in Residents(b.recs)
    {
      assert id !in held.Keys - Residents(b.recs);
    }
  }

  lemma AllOwnedSound(b: Book, held0: map<Id, Snapshot>, held: map<Id, Snapshot>)
    requires Sound(b, held0, {}, {}) && held0.Keys == Residents(b.recs)
    requires forall p :: p in held && p !in held0 ==> held[p].lowerOwned
    ensures Sound(b, held, {}, held.Keys - Residents(b.recs))
  {
    hide Lineage, Persisted, Cores, Residents;
  }

  // One more child registered, or the registration refused.
  lemma BroodingNext(b: Book, held0: map<Id, Snapshot>, after: Book, held: map<Id, Snapshot>, hatched: map<Id,
      Snapshot>, clock: int, ids: seq<Id>, i: nat,
      core: Record, tokens: seq<Token>, ok: bool, hostBudget: nat, context: nat)
    requires i < |ids| && Distinct(ids) && Brooding(b, held0, hatched, clock, ids, i)
    requires Evolves(b, after, {ids[i]}) && Entered(after, ids[i], core, tokens, ok)
    requires Books(after, hostBudget, context)
    requires b.recs.Keys <= b.aux.used && Persisted(after.recs) && after.aux.frozen.Keys == after.recs.Keys
    requires SubMap(held, held0)
    requires held.Keys - Residents(after.recs) == if ok then Elems(ids[i..]) - {ids[i]} else Elems(ids[i..])
    requires Descends(b.recs, b.aux.frozen, core, tokens) && Refs(core) !! Elems(ids) && core.expiresAt > clock
    ensures ok ==> Brooding(after, held, hatched, clock, ids, i + 1)
    ensures !ok ==> Sound(after, held, {}, Elems(ids[i..])) && Strangers(after, held, clock, ids)
  {
    hide Books, Sound, Evolves, Descends, Elems, Refs, SubMap, Residents, Ordered, Unnamed, Entered;
    RegisteredSoundAt(b, held0, after, held, hatched, ids, i, core, tokens, ok, hostBudget, context);
    SubMapTrans(held, held0, hatched);
    EnteredCore(after, ids[i], core, tokens, ok);
    EvolvesKeys(b, after, ids[i]);
    StrangersKept(b, held0, after, held, clock, ids, ids[i]);
  }

  lemma StrangersKept(b: Book, held0: map<Id, Snapshot>, after: Book, held: map<Id, Snapshot>, clock: int,
      ids: seq<Id>, id: Id)
    requires Strangers(b, held0, clock, ids) && Evolves(b, after, {id}) && SubMap(held, held0)
    requires id in after.recs ==> Refs(after.recs[id].core) !! Elems(ids) && after.recs[id].core.expiresAt > clock
    ensures Strangers(after, held, clock, ids)
  {
    hide Evolves, Elems, Refs, SubMap, Ordered, Unnamed;
    OrderedLess(held0, held, ids);
    UnnamedKept(b, after, id, Elems(ids));
    forall j | 0 <= j < |ids| && ids[j] in after.recs
      ensures after.recs[ids[j]].core.expiresAt > clock
    {
      if ids[j] != id {
        KeysEvolve(b, after, {id}, ids[j]);
        SameFields(b, after, {id}, ids[j]);
      }
    }
  }

  // Ids nobody has seen can be taken back before anything happened.
  lemma FreshStrangers(b: Book, c: Config, held: map<Id, Snapshot>, clock: int, ids: seq<Id>, hostBudget: nat)
    requires Books(b, hostBudget, c.context) && Agrees(b, c, held) && held.Keys - Residents(b.recs) == {}
    requires Elems(ids) !! b.aux.used
    ensures Strangers(b, held, clock, ids) && Elems(ids) !! held.Keys && Elems(ids) !! b.recs.Keys
    ensures Undoable(b.recs, held, clock, ids, |ids|)
  {
    hide Books, Agrees, Residents, Sharing, Elems, Unnamed, Ordered, Undoable;
    UsedAll(b, hostBudget, c.context);
    HeldAreResident(b, c, held);
    AgreesSharing(b, c, held);
    FreshUnnamed(b, hostBudget, c.context, Elems(ids));
    SharersHeld(held, Elems(ids));
    UnleanedOrdered(held, ids);
    ElemsIn(ids);
    StrangersUndoable(b, held, clock, ids);
  }

  lemma SharersHeld(held: map<Id, Snapshot>, ids: set<Id>)
    requires Sharing(held) && ids !! held.Keys
    ensures Unleaned(held, ids)
  {
    hide SharedWith;
  }

  lemma EnteredCore(after: Book, id: Id, core: Record, tokens: seq<Token>, ok: bool)
    requires Entered(after, id, core, tokens, ok)
    ensures id in after.recs <==> ok
    ensures ok ==> after.recs[id].core == core
  {
  }

  lemma RegisteredSoundAt(b: Book, held0: map<Id, Snapshot>, after: Book, held: map<Id, Snapshot>, hatched: map<Id,
      Snapshot>, ids: seq<Id>, i: nat,
      core: Record, tokens: seq<Token>, ok: bool, hostBudget: nat, context: nat)
    requires i < |ids| && Distinct(ids) && Sound(b, held0, {}, Elems(ids[i..])) && ids[i] !in b.recs
    requires Evolves(b, after, {ids[i]}) && Entered(after, ids[i], core, tokens, ok)
    requires Books(after, hostBudget, context)
    requires Persisted(after.recs) && after.aux.frozen.Keys == after.recs.Keys && SubMap(held, held0)
    requires SubMap(held0, hatched)
    requires held.Keys - Residents(after.recs) == if ok then Elems(ids[i..]) - {ids[i]} else Elems(ids[i..])
    requires Descends(b.recs, b.aux.frozen, core, tokens)
    requires forall p :: p in held0.Keys - Residents(b.recs) ==> hatched[p].lowerOwned
    ensures Sound(after, held, {}, Elems(ids[if ok then i + 1 else i..]))
    ensures forall p :: p in held.Keys - Residents(after.recs) ==> hatched[p].lowerOwned
  {
    hide Books, Lineage, Persisted, PendingSafe, Evolves, Descends, Residents, Entered, Cores;
    assert held0.Keys - Residents(b.recs) == Elems(ids[i..]);
    ElemsTail(ids, i);
    RegisteredSound(b, held0, after, held, ids[i], core, tokens, ok, {}, Elems(ids[i..]), hostBudget, context);
    OwnedSafe(after, held, {} + {ids[i]}, if ok then Elems(ids[i..]) - {ids[i]} else Elems(ids[i..]));
  }

  lemma ElemsTail(ids: seq<Id>, i: nat)
    requires i < |ids| && Distinct(ids)
    ensures ids[i] in Elems(ids[i..]) && Elems(ids[i..]) - {ids[i]} == Elems(ids[i + 1..])
  {
    forall id | id in ids[i + 1..]
      ensures id != ids[i] && id in ids[i..]
    {
      var j :| 0 <= j < |ids[i + 1..]| && ids[i + 1..][j] == id;
      assert ids[i + 1 + j] == id && ids[i..][j + 1] == id;
    }
    forall id | id in ids[i..] && id != ids[i]
      ensures id in ids[i + 1..]
    {
      var j :| 0 <= j < |ids[i..]| && ids[i..][j] == id;
      assert ids[i + 1..][j - 1] == id;
    }
  }

  // Nothing is leased once every scope has ended.
  lemma Unleased(b: Book, hostBudget: nat, context: nat)
    requires Books(b, hostBudget, context) && b.aux.scopes == []
    ensures forall id :: id in b.recs ==> b.recs[id].leases == 0
  {
    hide Graph, Promotions, Recency, Durable, Total, Closed;
    forall id | id in b.recs
      ensures b.recs[id].leases == 0
    {
      assert Leases(b.recs)[id] == Count(b.aux.scopes, id);
    }
  }

  lemma StrangersUndoable(b: Book, held: map<Id, Snapshot>, clock: int, ids: seq<Id>)
    requires Strangers(b, held, clock, ids)
    requires forall id :: id in b.recs && id in ids ==> b.recs[id].leases == 0
    ensures Undoable(b.recs, held, clock, ids, |ids|)
  {
    hide Refs;
    ElemsIn(ids);
  }

  // -- Rollback -----------------------------------------------------------------------

  // ids[n..] are taken back; the rest still can be.
  ghost predicate Undoing(b0: Book, b: Book, held: map<Id, Snapshot>, clock: int, ids: seq<Id>, n: nat)
    requires n <= |ids|
  {
    && Persisted(b.recs) && Lineage(b) && Evolves(b0, b, Elems(ids)) && b.recs.Keys <= b0.recs.Keys
    && b.aux.used == b0.aux.used
    && held.Keys - Residents(b.recs) <= Elems(ids[..n])
    && Undoable(b.recs, held, clock, ids, n)
    && (forall j :: n <= j < |ids| ==> ids[j] !in b.recs && ids[j] !in held)
  }

  lemma UndoingStart(b: Book, held: map<Id, Snapshot>, clock: int, ids: seq<Id>)
    requires Persisted(b.recs) && Lineage(b) && held.Keys - Residents(b.recs) <= Elems(ids)
    requires Undoable(b.recs, held, clock, ids, |ids|)
    ensures Undoing(b, b, held, clock, ids, |ids|)
  {
    hide Persisted, Lineage, Undoable, Residents, Elems;
    LineageKeys(b);
    EvolvesRefl(b);
    var none: set<Id> := {};
    EvolvesUpTo(b, b, none, Elems(ids));
    assert ids[..|ids|] == ids;
  }

  lemma UndoneStep(b0: Book, b: Book, after: Book, held: map<Id, Snapshot>, clock: int, ids: seq<Id>, n: nat,
      hostBudget: nat, context: nat)
    requires 0 < n <= |ids| && Undoing(b0, b, held, clock, ids, n)
    requires Evolves(b, after, {ids[n - 1]}) && Books(after, hostBudget, context) && Persisted(after.recs)
    requires after.aux.frozen.Keys == after.recs.Keys
    requires after.aux.used == b.aux.used
    requires after.recs.Keys == b.recs.Keys - {ids[n - 1]} && Residents(after.recs) == Residents(b.recs) - {ids[n - 1]}
    ensures Undoing(b0, after, held - {ids[n - 1]}, clock, ids, n - 1)
  {
    hide Persisted, Lineage, Undoable, Residents, Evolves, Books, Elems;
    var id := ids[n - 1];
    LineageKept(b, after, {id}, hostBudget, context);
    EvolvesThenLess(b0, b, after, Elems(ids), {id});
    ElemsIn(ids);
    assert Elems(ids) + {id} == Elems(ids);
    forall id | id in after.recs
      ensures after.recs[id].core == b.recs[id].core && after.recs[id].leases == b.recs[id].leases
    {
      SameFields(b, after, {ids[n - 1]}, id);
    }
    UndoStep(b.recs, after.recs, held, clock, ids, n);
    ElemsInit(ids, n);
    var less := held - {ids[n - 1]};
    assert less.Keys - Residents(after.recs) <= (held.Keys - Residents(b.recs)) - {ids[n - 1]};
  }

  lemma ElemsInit(ids: seq<Id>, n: nat)
    requires 0 < n <= |ids|
    ensures Elems(ids[..n]) - {ids[n - 1]} <= Elems(ids[..n - 1])
  {
    forall id | id in ids[..n] && id != ids[n - 1]
      ensures id in ids[..n - 1]
    {
      var j :| 0 <= j < |ids[..n]| && ids[..n][j] == id;
      assert ids[..n - 1][j] == id;
    }
  }

  lemma UndoneForgotten(b0: Book, b: Book, held: map<Id, Snapshot>, clock: int, ids: seq<Id>, n: nat, hostBudget: nat,
      context: nat)
    requires 0 < n <= |ids| && Undoing(b0, b, held, clock, ids, n) && ids[n - 1] in b.recs
    requires b.recs[ids[n - 1]].leases == 0
    requires Books(Forgotten(Touched(b, ids[n - 1]), ids[n - 1]), hostBudget, context)
    requires b.recs.Keys <= b.aux.used
    ensures Undoing(b0, Forgotten(Touched(b, ids[n - 1]), ids[n - 1]), held - {ids[n - 1]}, clock, ids, n - 1)
  {
    hide Lineage, Undoable, Residents, Evolves, Books, ForgetRecs, Persisted, Cores;
    var id := ids[n - 1];
    var t := Touched(b, id);
    LineageKeys(b);
    DeletedEvolves(b, id);
    TouchedMaps(b, id);
    ForgottenResidents(t, id);
    assert Forgotten(t, id).aux.frozen.Keys == Forgotten(t, id).recs.Keys && Forgotten(t, id).aux.used == b.aux.used;
    hide Forgotten, Touched;
    UndoneStep(b0, b, Forgotten(t, id), held, clock, ids, n, hostBudget, context);
  }

  lemma UndoneDropped(b0: Book, b: Book, held: map<Id, Snapshot>, clock: int, ids: seq<Id>, n: nat, hostBudget: nat,
      context: nat)
    requires 0 < n <= |ids| && Undoing(b0, b, held, clock, ids, n) && ids[n - 1] !in b.recs
    requires Books(b, hostBudget, context)
    ensures Undoing(b0, b, held - {ids[n - 1]}, clock, ids, n - 1)
  {
    hide Lineage, Undoable, Residents, Evolves, Books, Persisted;
    LineageKeys(b);
    EvolvesRefl(b);
    var none: set<Id> := {};
    EvolvesUpTo(b, b, none, {ids[n - 1]});
    ResidentsIn(b.recs);
    UndoneStep(b0, b, b, held, clock, ids, n, hostBudget, context);
  }

  lemma UndoingDone(b0: Book, b: Book, held: map<Id, Snapshot>, clock: int, ids: seq<Id>)
    requires Undoing(b0, b, held, clock, ids, 0)
    ensures Sound(b, held, {}, {}) && Evolves(b0, b, Elems(ids)) && b.recs.Keys <= b0.recs.Keys
    ensures b.aux.used == b0.aux.used
    ensures forall id :: id in ids ==> id !in b.recs && id !in held
  {
    hide Lineage, Undoable, Residents, Evolves, Persisted, PendingSafe, Cores;
    assert ids[..0] == [];
    assert held.Keys - Residents(b.recs) == {};
    NothingPending(b.recs, held, {});
  }

  lemma UndoingFacts(b0: Book, b: Book, held: map<Id, Snapshot>, clock: int, ids: seq<Id>, n: nat)
    requires n <= |ids| && Undoing(b0, b, held, clock, ids, n)
    ensures Undoable(b.recs, held, clock, ids, n) && Persisted(b.recs) && Lineage(b)
    ensures Evolves(b0, b, Elems(ids)) && b.recs.Keys <= b0.recs.Keys && b.aux.used == b0.aux.used
  {
  }
}
