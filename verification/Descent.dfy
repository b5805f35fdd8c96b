// What the service keeps true of the records it registers: persistence is the
// same along every reference, a context parent anchors its child, a promotion
// has its parent's tokens (unridden/api/snapshots/service.py).
module Descent {
  import opened Common
  import opened Kernels
  import opened SnapshotRuntime
  import opened WorkerSpec
  import opened StockAnswers
  import opened Registry
  import opened Ledger

  // `anchor` can be branched from again by replace_question: it is a 30 whose
  // boundary is a context, and its tokens begin `tokens`.
  ghost predicate Anchors(recs: Recs, frozen: map<Id, seq<Token>>, anchor: Id, tokens: seq<Token>) {
    && anchor in recs && anchor in frozen
    && recs[anchor].core.depth == D30 && recs[anchor].core.boundary == Context
    && frozen[anchor] <= tokens
  }

  ghost predicate Descends(recs: Recs, frozen: map<Id, seq<Token>>, core: Record, tokens: seq<Token>) {
    && core.persistedBytes > 0
    && (forall ref :: ref in Refs(core) ==> ref in recs && recs[ref].core.persistence == core.persistence)
    && (core.contextParent.Some? ==>
      core.boundary == Readout && Anchors(recs, frozen, core.contextParent.value, tokens))
    && (core.promotionOf.Some? ==> core.promotionOf.value in frozen && frozen[core.promotionOf.value] == tokens)
  }

  ghost predicate Lineage(b: Book) {
    && b.aux.frozen.Keys == b.recs.Keys
    && forall id :: id in b.recs ==> Descends(b.recs, b.aux.frozen, b.recs[id].core, b.aux.frozen[id])
  }

  // Where the store and the worker stand inside a request.
  ghost predicate Sound(b: Book, held: map<Id, Snapshot>, safe: set<Id>, pending: set<Id>) {
    && Persisted(b.recs) && Lineage(b)
    && PendingSafe(Cores(b.recs), Residents(b.recs), held, safe)
    && held.Keys - Residents(b.recs) == pending
  }

  // -- What every store operation keeps -----------------------------------------------

  lemma DescendsKept(b: Book, after: Book, added: set<Id>, core: Record, tokens: seq<Token>)
    requires Evolves(b, after, added) && Descends(b.recs, b.aux.frozen, core, tokens)
    requires b.aux.frozen.Keys == b.recs.Keys && after.aux.frozen.Keys == after.recs.Keys
    requires Refs(core) <= after.recs.Keys
    requires core.promotionOf.Some? ==> core.promotionOf == core.parent
    ensures Descends(after.recs, after.aux.frozen, core, tokens)
  {
    forall ref | ref in Refs(core)
      ensures ref in b.recs && SameRec(b, after, ref)
    {
    }
    assert core.parent.Some? ==> core.parent.value in Refs(core);
    assert core.contextParent.Some? ==> core.contextParent.value in Refs(core);
  }

  lemma PromotionParent(b: Book, hostBudget: nat, context: nat, id: Id)
    requires Books(b, hostBudget, context) && id in b.recs && b.recs[id].core.promotionOf.Some?
    ensures b.recs[id].core.promotionOf == b.recs[id].core.parent
    ensures b.recs[id].core.promotionOf.value in b.recs
    ensures PromotionOf(b.recs[id].core, b.recs[id].core.promotionOf.value,
        b.recs[b.recs[id].core.promotionOf.value].core)
  {
    hide Refcounts, Leases, Residents, Bytes, Uses, Durables, Graph, Leased, Recency, Durable, Total;
    assert Cores(b.recs)[id] == b.recs[id].core;
  }

  lemma LineageKept(b: Book, after: Book, added: set<Id>, hostBudget: nat, context: nat)
    requires Evolves(b, after, added) && Lineage(b) && Books(after, hostBudget, context)
    requires after.aux.frozen.Keys == after.recs.Keys
    requires forall id :: id in added && id in after.recs ==>
      Descends(after.recs, after.aux.frozen, after.recs[id].core, after.aux.frozen[id])
    ensures Lineage(after)
  {
    hide Books, Descends, SameRec;
    forall id | id in after.recs
      ensures Descends(after.recs, after.aux.frozen, after.recs[id].core, after.aux.frozen[id])
    {
      if id !in added {
        hide Lineage, Evolves;
        KeysEvolve(b, after, added, id);
        RefsIn(after, hostBudget, context, id);
        if after.recs[id].core.promotionOf.Some? {
          PromotionParent(after, hostBudget, context, id);
        }
        assert Descends(b.recs, b.aux.frozen, b.recs[id].core, b.aux.frozen[id]) by {
          LineageAt(b, id);
        }
        SameFields(b, after, added, id);
        DescendsKept(b, after, added, after.recs[id].core, after.aux.frozen[id]);
      }
    }
  }

  lemma LineageAt(b: Book, id: Id)
    requires Lineage(b) && id in b.recs
    ensures id in b.aux.frozen && Descends(b.recs, b.aux.frozen, b.recs[id].core, b.aux.frozen[id])
    ensures b.aux.frozen.Keys == b.recs.Keys
  {
  }

  lemma SameFields(b: Book, after: Book, added: set<Id>, id: Id)
    requires Evolves(b, after, added) && id in b.recs && id in after.recs
    ensures id in b.aux.frozen && id in after.aux.frozen
    ensures after.recs[id].core == b.recs[id].core && after.aux.frozen[id] == b.aux.frozen[id]
    ensures after.recs[id].leases == b.recs[id].leases
  {
    assert SameRec(b, after, id);
  }

  lemma KeysEvolve(b: Book, after: Book, added: set<Id>, id: Id)
    requires Evolves(b, after, added) && id in after.recs && id !in added
    ensures id in b.recs
  {
  }

  // Nothing pending: the worker holds what the store says, so nothing constrains
  // what may go.
  lemma NothingPending(recs: Recs, held: map<Id, Snapshot>, safe: set<Id>)
    requires held.Keys - Residents(recs) == {}
    ensures PendingSafe(Cores(recs), Residents(recs), held, safe)
  {
    forall id | id in held
      ensures id in Residents(recs)
    {
      assert id !in held.Keys - Residents(recs);
    }
    hide Residents, Cores;
  }

  // A settled state stays settled through an operation that adds nothing.
  lemma SettledKept(b: Book, after: Book, held: map<Id, Snapshot>, hostBudget: nat, context: nat)
    requires Lineage(b) && Evolves(b, after, {}) && Books(after, hostBudget, context) && Persisted(after.recs)
    requires after.aux.frozen.Keys == after.recs.Keys
    requires held.Keys - Residents(after.recs) == {}
    ensures Sound(after, held, {}, {})
  {
    hide Lineage, Evolves, Books, Persisted, PendingSafe, Residents, Cores, Descends;
    LineageKept(b, after, {}, hostBudget, context);
    NothingPending(after.recs, held, {});
  }

  // So it does when one of its records is taken back.
  lemma SettledWithout(b: Book, after: Book, held: map<Id, Snapshot>, id: Id, hostBudget: nat, context: nat)
    requires Lineage(b) && Evolves(b, after, {id}) && Books(after, hostBudget, context) && Persisted(after.recs)
    requires after.aux.frozen.Keys == after.recs.Keys && id !in after.recs
    requires held.Keys - Residents(after.recs) == {}
    ensures Sound(after, held, {}, {})
  {
    hide Lineage, Evolves, Books, Persisted, PendingSafe, Residents, Cores, Descends;
    LineageKept(b, after, {id}, hostBudget, context);
    NothingPending(after.recs, held, {});
  }

  lemma ExpiredSettled(b: Book, held0: map<Id, Snapshot>, after: Book, held: map<Id, Snapshot>, clock: int,
      hostBudget: nat, context: nat)
    requires Sound(b, held0, {}, {}) && Books(after, hostBudget, context) && after.aux.frozen.Keys == after.recs.Keys
    requires Reclaimed(b, held0, after, held, clock, Live(b.recs, clock), {})
    ensures Sound(after, held, {}, {}) && Evolves(b, after, {})
    ensures after.aux == b.aux.(birth := after.aux.birth, frozen := after.aux.frozen)
  {
    hide Lineage, Evolves, Books, Persisted, PendingSafe, Residents, Cores, Live, Eroded, Registry.Kept, SameResidency;
    assert b.aux.frozen.Keys == b.recs.Keys by {
      LineageKeys(b);
    }
    ErodedEvolves(b, after);
    ErodedPersisted(b, after);
    ErodedUsed(b, after);
    ErodedBirths(b, after);
    SettledKept(b, after, held, hostBudget, context);
  }

  lemma ErodedBirths(b: Book, after: Book)
    requires Eroded(b, after)
    ensures after.aux.births == b.aux.births
  {
  }

  lemma LineageKeys(b: Book)
    requires Lineage(b)
    ensures b.aux.frozen.Keys == b.recs.Keys
  {
  }

  // Nothing but an expiry, a lookup of `touched` and a removal of `gone`.
  ghost predicate OnlyExpired(b: Book, held0: map<Id, Snapshot>, after: Book, held: map<Id, Snapshot>,
      touched: set<Id>, gone: set<Id>) {
    && after.recs.Keys == Registry.Kept(Cores(b.recs), Live(b.recs, b.clock)) - gone
    && after.recs.Keys <= b.recs.Keys
    && after.disk == b.disk - (b.recs.Keys - after.recs.Keys)
    && held == held0 - (b.recs.Keys - after.recs.Keys)
    && after.aux.evictions == b.aux.evictions && after.aux.used == b.aux.used && after.clock == b.clock
    && forall id :: id in after.recs ==> SameButCounts(b.recs[id], after.recs[id], id in touched)
  }

  ghost predicate SameButCounts(r: Rec, after: Rec, touched: bool) {
    after == r.(refcount := after.refcount, lastUsed := after.lastUsed) && (!touched ==> after.lastUsed == r.lastUsed)
  }

  lemma ReclaimedOnly(b: Book, held0: map<Id, Snapshot>, after: Book, held: map<Id, Snapshot>, clock: int,
      safe: set<Id>, pending: set<Id>)
    requires Reclaimed(b, held0, after, held, clock, safe, pending)
    requires after.recs.Keys == Registry.Kept(Cores(b.recs), Live(b.recs, clock))
    ensures OnlyExpired(b, held0, after, held, {}, {})
  {
    hide Registry.Kept, Cores, Live, PendingSafe, Residents, Spared;
    forall id | id in after.recs
      ensures SameButCounts(b.recs[id], after.recs[id], false)
    {
      assert ErodedRec(b.recs[id], after.recs[id]);
    }
    var none: set<Id> := {};
    assert after.recs.Keys - none == after.recs.Keys;
  }

  lemma TouchedOnly(b: Book, held0: map<Id, Snapshot>, b1: Book, held: map<Id, Snapshot>, id: Id)
    requires OnlyExpired(b, held0, b1, held, {}, {}) && id in b1.recs
    ensures OnlyExpired(b, held0, Touched(b1, id), held, {id}, {})
  {
    hide Registry.Kept, Cores, Live;
    assert Touched(b1, id).recs.Keys == b1.recs.Keys;
  }

  lemma ForgottenOnly(b: Book, held0: map<Id, Snapshot>, b1: Book, held: map<Id, Snapshot>, id: Id)
    requires OnlyExpired(b, held0, b1, held, {id}, {}) && id in b1.recs
    ensures OnlyExpired(b, held0, Forgotten(b1, id), held - {id}, {id}, {id})
  {
    hide Registry.Kept, Cores, Live, ForgetRecs;
    var after := Forgotten(b1, id);
    ForgetRecsEroded(b1.recs, id);
    assert b.recs.Keys - after.recs.Keys == (b.recs.Keys - b1.recs.Keys) + {id};
    forall other | other in after.recs
      ensures SameButCounts(b.recs[other], after.recs[other], other in {id})
    {
      assert ErodedRec(b1.recs[other], after.recs[other]);
      assert SameButCounts(b.recs[other], b1.recs[other], other in {id});
    }
  }

  lemma UntouchedOnly(b: Book, held0: map<Id, Snapshot>, after: Book, held: map<Id, Snapshot>, id: Id)
    requires OnlyExpired(b, held0, after, held, {}, {})
    ensures OnlyExpired(b, held0, after, held, {id}, {})
  {
    hide Registry.Kept, Cores, Live;
  }

  // Of what was there, only the unexpired and what they descend from still is.
  ghost predicate Tidied(b: Book, after: Book) {
    forall id :: id in b.recs && id in after.recs ==> id in Registry.Kept(Cores(b.recs), Live(b.recs, b.clock))
  }

  lemma TidiedSince(b: Book, held0: map<Id, Snapshot>, b1: Book, held: map<Id, Snapshot>, after: Book, own: set<Id>)
    requires OnlyExpired(b, held0, b1, held, {}, {}) && after.recs.Keys <= b1.recs.Keys + own
    requires b.recs.Keys <= b.aux.used && own !! b.aux.used
    ensures Tidied(b, after)
  {
    hide Registry.Kept, Cores, Live;
  }

  // The count is zero exactly when no record names this one.
  lemma CountsChildren(b: Book, hostBudget: nat, context: nat, id: Id)
    requires Books(b, hostBudget, context) && id in b.recs
    ensures b.recs[id].refcount == 0 <==> forall c :: c in b.recs ==> id !in Refs(b.recs[c].core)
  {
    hide Leases, Residents, Bytes, Uses, Memo, Durables, Leased, Promotions, Recency, Durable, Total, Refs;
    assert Refcounts(b.recs)[id] == |Children(Cores(b.recs), id)|;
    if c :| c in b.recs && id in Refs(b.recs[c].core) {
      assert c in Children(Cores(b.recs), id);
    } else {
      assert Children(Cores(b.recs), id) == {};
    }
  }

  // The clock is no part of the books.
  lemma ClockFree(b: Book, clock: int, c: Config, held: map<Id, Snapshot>, hostBudget: nat)
    requires Books(b, hostBudget, c.context) && Agrees(b, c, held) && Sound(b, held, {}, {})
    ensures var later := b.(clock := clock);
      Books(later, hostBudget, c.context) && Agrees(later, c, held) && Sound(later, held, {}, {})
  {
    hide Holdings, Cores, Refcounts, Leases, Residents, Bytes, Uses, Memo, Durables, Graph, Leased, Promotions, Recency,
      Durable, Total, PendingSafe, Persisted, Descends;
  }

  // A registration, done or refused.
  lemma RegisteredSound(b: Book, held0: map<Id, Snapshot>, after: Book, held: map<Id, Snapshot>, id: Id, core: Record,
      tokens: seq<Token>, ok: bool,
      safe: set<Id>, pending: set<Id>, hostBudget: nat, context: nat)
    requires Sound(b, held0, safe, pending) && id !in b.recs && id in pending
    requires Evolves(b, after, {id}) && Entered(after, id, core, tokens, ok) && Books(after, hostBudget, context)
    requires Persisted(after.recs) && after.aux.frozen.Keys == after.recs.Keys && SubMap(held, held0)
    requires held.Keys - Residents(after.recs) == if ok then pending - {id} else pending
    requires Descends(b.recs, b.aux.frozen, core, tokens)
    ensures Sound(after, held, safe + {id}, if ok then pending - {id} else pending)
  {
    hide Lineage, Evolves, Books, Persisted, PendingSafe, Residents, Cores, Descends, SubMap, Refs;
    LineageKeys(b);
    if ok {
      RefsIn(after, hostBudget, context, id);
      if core.promotionOf.Some? {
        PromotionParent(after, hostBudget, context, id);
      }
      DescendsKept(b, after, {id}, core, tokens);
    }
    LineageKept(b, after, {id}, hostBudget, context);
    EvolvesKeys(b, after, id);
    PendingSafeGrows(b, held0, after, held, id, safe, pending);
  }

  lemma EvolvesKeys(b: Book, after: Book, id: Id)
    requires Evolves(b, after, {id})
    ensures after.recs.Keys <= b.recs.Keys + {id} && after.aux.used <= b.aux.used + {id}
    ensures after.aux.scopes == b.aux.scopes
  {
  }

  lemma PendingSafeGrows(b: Book, held0: map<Id, Snapshot>, after: Book, held: map<Id, Snapshot>, id: Id,
      safe: set<Id>, pending: set<Id>)
    requires PendingSafe(Cores(b.recs), Residents(b.recs), held0, safe)
    requires held0.Keys - Residents(b.recs) == pending && held.Keys - Residents(after.recs) <= pending
    requires after.recs.Keys <= b.recs.Keys + {id} && SubMap(held, held0)
    ensures PendingSafe(Cores(after.recs), Residents(after.recs), held, safe + {id})
  {
    forall p | p in held && p !in Residents(after.recs)
      ensures p in held0 && p !in Residents(b.recs) && held[p] == held0[p]
    {
      assert p in held.Keys - Residents(after.recs);
    }
    hide Residents, Cores;
  }

  // -- New snapshots in the worker --------------------------------------------------------

  // The worker holds more than before, under ids without books.
  lemma AgreesMore(b: Book, c: Config, held0: map<Id, Snapshot>, held: map<Id, Snapshot>)
    requires Agrees(b, c, held0) && SubMap(held0, held)
    requires forall id :: id in held && id !in held0 ==> id !in b.recs
    requires Sharing(held) && AllFaithful(c, held)
    ensures Agrees(b, c, held)
  {
    hide Cores, Residents, Bytes, Durables, Matches, FilesMatch, Sharing, AllFaithful, FaithfulFiles;
    forall id | id in Residents(b.recs)
      ensures id in held && held[id] == held0[id]
    {
    }
  }

  lemma AgreesSharing(b: Book, c: Config, held: map<Id, Snapshot>)
    requires Agrees(b, c, held)
    ensures Sharing(held) && AllFaithful(c, held)
  {
    hide Cores, Residents, Bytes, Durables, Matches, FilesMatch, Sharing, AllFaithful, FaithfulFiles;
  }

  // The worker forgets a snapshot without books.
  lemma AgreesLess(b: Book, c: Config, held: map<Id, Snapshot>, id: Id)
    requires Agrees(b, c, held) && id !in b.recs && Unshared(held, id)
    ensures Agrees(b, c, held - {id})
  {
    hide Cores, Residents, Bytes, Durables, Matches, FilesMatch, SharedWith, Faithful, FaithfulFiles;
  }

  // -- Taking back what a failed request made ------------------------------------------------

  ghost predicate Unnamed(recs: Recs, ids: set<Id>) {
    forall c :: c in recs ==> Refs(recs[c].core) !! ids
  }

  lemma FreshUnnamed(b: Book, hostBudget: nat, context: nat, ids: set<Id>)
    requires Books(b, hostBudget, context) && ids !! b.recs.Keys
    ensures Unnamed(b.recs, ids)
  {
    hide Books, Refs;
    forall c | c in b.recs
      ensures Refs(b.recs[c].core) !! ids
    {
      RefsIn(b, hostBudget, context, c);
    }
  }

  lemma UnnamedKept(b: Book, after: Book, id: Id, ids: set<Id>)
    requires Unnamed(b.recs, ids) && Evolves(b, after, {id})
    requires id in after.recs && id !in b.recs ==> Refs(after.recs[id].core) !! ids
    ensures Unnamed(after.recs, ids)
  {
    hide Refs;
    forall c | c in after.recs
      ensures Refs(after.recs[c].core) !! ids
    {
      if c in b.recs {
        assert SameRec(b, after, c);
      }
    }
  }

  // The last n ids can be taken back from the end: nobody names them, only later
  // ones share their blobs, and what is registered of them is visible and free.
  ghost predicate Undoable(recs: Recs, held: map<Id, Snapshot>, clock: int, ids: seq<Id>, n: nat)
    requires n <= |ids|
  {
    && (forall i :: 0 <= i < |ids| ==> UndoableRec(recs, clock, ids[i]))
    && (forall i, p :: 0 <= i < n && p in held && Leans(held[p], ids[i]) ==> exists j :: i < j < n && ids[j] == p)
  }

  ghost predicate UndoableRec(recs: Recs, clock: int, id: Id) {
    && (forall c :: c in recs ==> id !in Refs(recs[c].core))
    && (id in recs ==> recs[id].leases == 0 && recs[id].core.expiresAt > clock)
  }

  ghost predicate Leans(s: Snapshot, on: Id) {
    !s.lowerOwned && s.parent == Some(on)
  }

  lemma UndoNext(b: Book, held: map<Id, Snapshot>, clock: int, ids: seq<Id>, n: nat, hostBudget: nat, context: nat)
    requires Books(b, hostBudget, context) && 0 < n <= |ids| && Undoable(b.recs, held, clock, ids, n)
    ensures Unshared(held, ids[n - 1])
    ensures ids[n - 1] in b.recs ==> b.recs[ids[n - 1]].refcount == 0 && b.recs[ids[n - 1]].leases == 0
    ensures ids[n - 1] in b.recs ==> b.recs[ids[n - 1]].core.expiresAt > clock
  {
    var id := ids[n - 1];
    assert UndoableRec(b.recs, clock, id);
    hide Books, Refs;
    if id in b.recs {
      Childless(b, hostBudget, context, id);
    }
    forall p | p in held && !held[p].lowerOwned
      ensures held[p].parent != Some(id)
    {
      assert Leans(held[p], ids[n - 1]) <==> held[p].parent == Some(id);
    }
  }

  lemma Childless(b: Book, hostBudget: nat, context: nat, id: Id)
    requires Books(b, hostBudget, context) && id in b.recs
    requires forall c :: c in b.recs ==> id !in Refs(b.recs[c].core)
    ensures b.recs[id].refcount == 0
  {
    hide Leased, Promotions, Recency, Durable, Total, Refs;
    assert Children(Cores(b.recs), id) == {};
    assert Refcounts(b.recs)[id] == |Children(Cores(b.recs), id)|;
  }

  lemma UndoStep(recs: Recs, after: Recs, held: map<Id, Snapshot>, clock: int, ids: seq<Id>, n: nat)
    requires 0 < n <= |ids| && Undoable(recs, held, clock, ids, n)
    requires after.Keys <= recs.Keys
    requires forall id :: id in after ==> after[id].core == recs[id].core && after[id].leases == recs[id].leases
    ensures Undoable(after, held - {ids[n - 1]}, clock, ids, n - 1)
  {
    hide Refs;
    var less := held - {ids[n - 1]};
    forall i | 0 <= i < |ids|
      ensures UndoableRec(after, clock, ids[i])
    {
      assert UndoableRec(recs, clock, ids[i]);
    }
    forall i, p | 0 <= i < n - 1 && p in less && Leans(less[p], ids[i])
      ensures exists j :: i < j < n - 1 && ids[j] == p
    {
      assert Leans(held[p], ids[i]);
      var j :| i < j < n && ids[j] == p;
    }
  }

  lemma SoundNothing(b: Book, held: map<Id, Snapshot>, safe: set<Id>)
    requires Sound(b, held, {}, {})
    ensures PendingSafe(Cores(b.recs), Residents(b.recs), held, safe) && held.Keys - Residents(b.recs) == {}
    ensures Persisted(b.recs) && Lineage(b) && b.aux.frozen.Keys == b.recs.Keys
  {
    hide Persisted, Residents, Cores, PendingSafe, Descends;
    NothingPending(b.recs, held, safe);
  }

  lemma UnmovedSettled(b: Book, after: Book, held: map<Id, Snapshot>, hostBudget: nat, context: nat)
    requires Sound(b, held, {}, {}) && Unmoved(b, after) && Books(after, hostBudget, context)
    ensures Sound(after, held, {}, {}) && Evolves(b, after, {}) && after.aux == b.aux && after.recs.Keys == b.recs.Keys
  {
    hide Evolves, Persisted, Residents, Cores, PendingSafe, Books, Lineage, Refcounts, Pins;
    LineageKeys(b);
    SettledKept(b, after, held, hostBudget, context);
  }

  // -- Around a lease -----------------------------------------------------------------

  lemma LineageLeases(b: Book, after: Book)
    requires Lineage(b) && SameButLeases(b.recs, after.recs) && after.aux.frozen == b.aux.frozen
    ensures Lineage(after)
  {
    forall id | id in after.recs
      ensures Descends(after.recs, after.aux.frozen, after.recs[id].core, after.aux.frozen[id])
    {
      assert Descends(b.recs, b.aux.frozen, b.recs[id].core, b.aux.frozen[id]);
      assert after.recs[id].core == b.recs[id].core;
    }
  }

  lemma SoundLeases(b: Book, after: Book, held: map<Id, Snapshot>, safe: set<Id>, pending: set<Id>)
    requires Sound(b, held, safe, pending) && SameButLeases(b.recs, after.recs) && after.aux.frozen == b.aux.frozen
    ensures Sound(after, held, safe, pending)
  {
    hide Residents, Cores, PendingSafe, Lineage;
    LineageLeases(b, after);
    LeasesOnly(b.recs, after.recs);
    assert Persisted(after.recs) by {
      forall id | id in after.recs && after.recs[id].core.persistence == Disk
        ensures after.recs[id].durable.Some?
      {
        assert after.recs[id] == b.recs[id].(leases := after.recs[id].leases);
      }
    }
  }

  lemma LeasedSettled(b: Book, base: Book, held: map<Id, Snapshot>, pins: set<Id>, hostBudget: nat, context: nat)
    requires Sound(b, held, {}, {}) && Evolves(b, base, {}) && base.aux == b.aux
    requires base.recs.Keys == base.aux.frozen.Keys
    requires Books(PinnedBook(base, pins), hostBudget, context)
    requires Residents(PinnedBook(base, pins).recs) == Residents(b.recs)
    requires Persisted(PinnedBook(base, pins).recs)
    ensures Sound(PinnedBook(base, pins), held, {}, {})
  {
    hide Evolves, Persisted, Residents, Cores, PendingSafe, Lineage, SameButLeases, PinRecs, Graph, Leased, Promotions,
      Recency, Durable, Total;
    PinMaps(base.recs, pins);
    LeasesOnly(base.recs, PinRecs(base.recs, pins));
    LineageBefore(b, base, pins, hostBudget, context);
    LineageLeases(base, PinnedBook(base, pins));
    NothingPending(PinRecs(base.recs, pins), held, {});
  }

  lemma LineageBefore(b: Book, base: Book, pins: set<Id>, hostBudget: nat, context: nat)
    requires Lineage(b) && Evolves(b, base, {}) && base.recs.Keys == base.aux.frozen.Keys
    requires Books(PinnedBook(base, pins), hostBudget, context)
    ensures Lineage(base)
  {
    hide Evolves, Books, Refs, Descends, PinRecs;
    forall id | id in base.recs
      ensures Descends(base.recs, base.aux.frozen, base.recs[id].core, base.aux.frozen[id])
    {
      var after := PinnedBook(base, pins);
      PinnedCore(base.recs, pins, id);
      RefsIn(after, hostBudget, context, id);
      if base.recs[id].core.promotionOf.Some? {
        PromotionParent(after, hostBudget, context, id);
      }
      KeysEvolve(b, base, {}, id);
      LineageAt(b, id);
      SameFields(b, base, {}, id);
      DescendsKept(b, base, {}, base.recs[id].core, base.aux.frozen[id]);
    }
  }

  lemma PinnedCore(recs: Recs, pins: set<Id>, id: Id)
    requires id in recs
    ensures PinRecs(recs, pins).Keys == recs.Keys && PinRecs(recs, pins)[id].core == recs[id].core
    ensures id in pins ==> PinRecs(recs, pins)[id].leases > 0
  {
  }

  // The lease ends: what happened under it has happened.
  lemma LeaseDone(b: Book, base: Book, pins: set<Id>, c: Book, added: set<Id>)
    requires Evolves(b, base, {}) && base.aux == b.aux && base.recs.Keys == base.aux.frozen.Keys
    requires base.recs.Keys <= base.aux.used
    requires b.recs.Keys <= b.aux.used && Evolves(PinnedBook(base, pins), c, added) && added !! b.aux.used
    ensures c.aux.scopes != [] && Last(c.aux.scopes) == pins && Evolves(b, UnpinnedBook(c), added)
  {
    PinnedScopes(base, pins, c, added);
    LeaseEvolves(base, pins, c, added);
    hide Evolves;
    var none: set<Id> := {};
    EvolvesTrans(b, base, UnpinnedBook(c), none, added);
    assert none + added == added;
  }

  lemma PinnedEvictions(b: Book, pins: set<Id>)
    ensures PinnedBook(b, pins).aux.evictions == b.aux.evictions
  {
  }

  lemma PinnedScopes(b: Book, pins: set<Id>, c: Book, added: set<Id>)
    requires Evolves(PinnedBook(b, pins), c, added)
    ensures c.aux.scopes != [] && Last(c.aux.scopes) == pins
    ensures UnpinnedBook(c).aux.scopes == b.aux.scopes
  {
    assert (b.aux.scopes + [pins])[..|b.aux.scopes|] == b.aux.scopes;
  }

  lemma UnpinnedSound(c: Book, held: map<Id, Snapshot>, safe: set<Id>, pending: set<Id>)
    requires Sound(c, held, safe, pending) && c.aux.scopes != []
    ensures Sound(UnpinnedBook(c), held, safe, pending)
  {
    hide Sound, SameButLeases;
    PinMaps(c.recs, Last(c.aux.scopes));
    SoundLeases(c, UnpinnedBook(c), held, safe, pending);
  }

  lemma EvolvesUpTo(b: Book, after: Book, added: set<Id>, more: set<Id>)
    requires Evolves(b, after, added) && added <= more
    ensures Evolves(b, after, more)
  {
  }

  lemma StaysLeased(b: Book, after: Book, added: set<Id>, id: Id)
    requires Evolves(b, after, added) && id in b.recs && b.recs[id].leases > 0
    ensures id in after.recs && after.recs[id].leases > 0 && after.recs[id].core == b.recs[id].core
    ensures b.recs[id].resident ==> after.recs[id].resident
  {
    assert SameRec(b, after, id);
  }
}
