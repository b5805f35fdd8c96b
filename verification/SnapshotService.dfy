// The request-serialised service over the store and the worker
// (class SnapshotService of unridden/api/snapshots/service.py). One request runs
// at a time; fresh ids come in as parameters; rendering is uninterpreted.
module SnapshotService {
  import opened Common
  import opened Kernels
  import opened SnapshotRuntime
  import Accounting
  import LayerSplit
  import opened StockAnswers
  import opened WorkerSpec
  import opened Registry
  import opened Ledger
  import opened SnapshotStore
  import opened Descent
  import opened DiskIndex
  import opened Broods
  import opened ByteBooks
  import opened Plans
  import opened Offspring
  import opened Threads

  type Ask(!new)  // a question or a prompt of a request

  // The compiler and the chat template with its tokenizer.
  datatype Rendering = Rendering(
    tokens: Prompt -> seq<Token>,
    freeze: Prompt -> nat,  // how many tokens a context freeze keeps
    digest: (Prompt, Kind) -> Digest,
    followup: (Kind, Prompt, Ask) -> Option<Prompt>,
    compiles: (Prompt, Kind) -> bool)  // whether a prompt can be frozen so

  // What each branch of a batch read, and what they cost together.
  datatype Batch = Batch(branches: seq<Branch>, usage: Accounting.Usage)

  // The answers of a decision or a state evaluation.
  datatype Decided = Decided(plan: Plan, prompts: seq<Prompt>, batch: Batch, children: seq<Id>)

  // A ride's text and its accounting.
  datatype Ridden = Ridden(ride: Rider, report: Accounting.RideReport)

  // A ride's plan, its compiled prompt and the snapshot it was read from.
  datatype Rode = Rode(plan: Plan, prompt: Prompt, parent: Snapshot)

  datatype ServiceError = Stored(StoreError) | Worked(WorkerError) | Unsupported | Uncompilable | Protocol

  // The store, the worker or the transport failed; the request itself was in order.
  predicate Outside(error: ServiceError) {
    error.Stored? || error.Worked? || error.Protocol?
  }

  function Failure<T>(r: Result<T, ServiceError>): Option<ServiceError> {
    if r.Err? then Some(r.error) else None
  }

  // A request finds its record when the opening expiry leaves it.
  ghost predicate Found(b: Book, id: Id) {
    id in Registry.Kept(Cores(b.recs), Live(b.recs, b.clock))
  }

  // The kind and prompt a request goes on from: its record's own, or for a replacement
  // the recorded anchor's.
  ghost predicate Bases(b: Book, id: Id, relationship: Relationship, mode: Kind, prompt: Prompt) {
    && id in b.recs
    && var core := b.recs[id].core;
      match relationship
      case Continue => mode == core.boundary && prompt == core.prompt
      case ReplaceQuestion =>
        && core.contextParent.Some? && core.contextParent.value in b.recs
        && mode == Context && prompt == b.recs[core.contextParent.value].core.prompt
  }

  // A replacement of what has no anchor.
  ghost predicate Anchorless(b: Book, id: Id, relationship: Relationship) {
    id in b.recs && relationship == ReplaceQuestion && b.recs[id].core.contextParent.None?
  }

  // No promotion is needed to branch.
  ghost predicate Direct(b: Book, id: Id, relationship: Relationship) {
    id in b.recs && (relationship == ReplaceQuestion || b.recs[id].core.depth == D30)
  }

  // The plan of a request goes on from what its record says.
  lemma PlanBased(b: Book, after: Book, id: Id, relationship: Relationship, plan: Plan, tokens: seq<Token>,
      own: set<Id>)
    requires id in b.recs && Derives(b.recs[id].core, relationship, plan) && Fits(after, plan, tokens)
    requires Lineage(b) && Evolves(b, after, own)
    ensures Bases(b, id, relationship, plan.mode, plan.prompt)
  {
    hide Evolves;
    if relationship == ReplaceQuestion {
      LineageAt(b, id);
      SameFields(b, after, own, plan.effective);
    }
  }

  // The opening expiry changes nothing of that.
  lemma BasesSince(b: Book, held0: map<Id, Snapshot>, after: Book, held: map<Id, Snapshot>, id: Id,
      relationship: Relationship, mode: Kind, prompt: Prompt)
    requires OnlyExpired(b, held0, after, held, {}, {}) && id in after.recs && Lineage(after)
    ensures Bases(b, id, relationship, mode, prompt) <==> Bases(after, id, relationship, mode, prompt)
    ensures Anchorless(b, id, relationship) <==> Anchorless(after, id, relationship)
    ensures Direct(b, id, relationship) <==> Direct(after, id, relationship)
  {
    hide Registry.Kept, Cores, Live;
    LineageAt(after, id);
    assert SameButCounts(b.recs[id], after.recs[id], false);
    var anchor := after.recs[id].core.contextParent;
    if anchor.Some? {
      assert anchor.value in after.recs;
      assert SameButCounts(b.recs[anchor.value], after.recs[anchor.value], false);
    }
  }

  class Service {
    const store: Store
    const defaultTtl: nat
    const rendering: Rendering
    var pendingIds: seq<Id>

    // The books and the worker agree, with nothing in the worker that has no
    // books; every record descends from those it names.
    ghost predicate Settled()
      reads store, store.worker, store.worker.runtime
    {
      && store.Valid() && Sound(store.Now(), store.worker.snapshots, {}, {})
      && Sized(store.worker.config.kernels) && 0 < defaultTtl
    }

    // A prompt never renders to no tokens.
    ghost predicate Renders() {
      forall p :: rendering.tokens(p) != []
    }

    // Between requests.
    ghost predicate Valid()
      reads this, store, store.worker, store.worker.runtime
    {
      Settled() && Renders() && store.aux.scopes == [] && pendingIds == []
    }

    // -- what holds between requests -------------------------------------------------

    // The worker's snapshots are the store's resident ones, no more and no less.
    lemma WorkerAndStoreAgree()
      requires Valid()
      ensures store.worker.snapshots.Keys == Residents(store.records)
      ensures forall id :: id in Residents(store.records) ==>
        && id in store.aux.frozen && store.worker.snapshots[id].tokens == store.aux.frozen[id]
        && store.worker.snapshots[id].digest == store.records[id].core.digest
        && store.worker.snapshots[id].depth == store.records[id].core.depth
        && store.worker.snapshots[id].parent == store.records[id].core.parent
    {
      hide Books, Sound, Sized, Residents;
      SoundNothing(store.Now(), store.worker.snapshots, {});
      HeldAreResident(store.Now(), store.worker.config, store.worker.snapshots);
      ResidentsIn(store.records);
      forall id | id in Residents(store.records)
        ensures id in store.aux.frozen && store.worker.snapshots[id].tokens == store.aux.frozen[id]
        ensures store.worker.snapshots[id].digest == store.records[id].core.digest
        ensures store.worker.snapshots[id].depth == store.records[id].core.depth
        ensures store.worker.snapshots[id].parent == store.records[id].core.parent
      {
        HeldFields(store.Now(), store.worker.config, store.worker.snapshots, id);
      }
    }

    // All the memory its snapshots take in the worker, shared blobs once, fits in
    // resident_bytes, and that in the host budget.
    lemma BytesCovered()
      requires Valid()
      ensures WorkerBytes(store.worker.config.kernels, store.worker.snapshots) <= store.residentBytes
      ensures store.residentBytes <= store.hostBudget
    {
      hide Books, Agrees, Sound, Sized, WorkerBytes;
      SoundNothing(store.Now(), store.worker.snapshots, {});
      BooksCoverWorker(store.Now(), store.worker.config, store.worker.snapshots, store.hostBudget);
    }

    // A set context_parent names a 30 that is there, with boundary context, whose
    // tokens begin the child's.
    lemma AnchorHolds(id: Id)
      requires Valid() && id in store.records && store.records[id].core.contextParent.Some?
      ensures
        var anchor := store.records[id].core.contextParent.value;
        && anchor in store.records && store.records[anchor].core.depth == D30
        && store.records[anchor].core.boundary == Context
        && anchor in store.aux.frozen && id in store.aux.frozen && store.aux.frozen[anchor] <= store.aux.frozen[id]
    {
      hide Books, Agrees, Sound, Sized;
      SoundParts(store.Now(), store.worker.snapshots, {}, {});
      LineageAt(store.Now(), id);
    }

    // The published directories are closed under their references and hold the
    // disk snapshots, all of them; a rebuild accepts every one.
    lemma DiskIsComplete()
      requires Valid()
      ensures Accepted(store.disk, store.worker.config.context)
      ensures forall id :: id in store.disk <==> id in store.records && store.records[id].core.persistence == Disk
      ensures forall id :: id in store.disk ==> Refs(store.disk[id].manifest) <= store.disk.Keys
      ensures forall id :: id in store.disk ==> id in store.records && store.disk[id].manifest == store.records[id].core
    {
      hide Books, Agrees, Sound, Sized, Recoverable, Refs, Accepted;
      SoundRecoverable(store.Now(), store.worker.config, store.worker.snapshots, store.hostBudget);
      DiskComplete(store.Now(), store.hostBudget, store.worker.config.context);
      forall id
        ensures id in store.disk <==> id in store.records && store.records[id].core.persistence == Disk
        ensures id in store.disk ==> id in store.records && store.disk[id].manifest == store.records[id].core
      {
        PublishedIffDisk(store.Now(), store.hostBudget, store.worker.config.context, id);
      }
    }

    // With exact causal kernels, all the worker holds and all that is on disk is what
    // the uninterrupted model holds for those tokens, whatever was promoted, evicted,
    // restored or rebuilt on the way.
    lemma SnapshotsAreStock()
      requires Valid()
      ensures AllFaithful(store.worker.config, store.worker.snapshots)
      ensures forall id :: id in store.disk ==> FaithfulFiles(store.worker.config, store.disk[id].files)
    {
      hide Books, Agrees, Sound, Sized, Recoverable, Sharing, AllFaithful, FaithfulFiles;
      AgreesSharing(store.Now(), store.worker.config, store.worker.snapshots);
      SoundRecoverable(store.Now(), store.worker.config, store.worker.snapshots, store.hostBudget);
      forall id | id in store.disk
        ensures FaithfulFiles(store.worker.config, store.disk[id].files)
      {
        PublishedIffDisk(store.Now(), store.hostBudget, store.worker.config.context, id);
      }
    }

    constructor (store: Store, defaultTtl: nat, rendering: Rendering)
      requires store.Valid() && Sound(store.Now(), store.worker.snapshots, {}, {}) && store.aux.scopes == []
      requires Sized(store.worker.config.kernels) && 0 < defaultTtl && forall p :: rendering.tokens(p) != []
      ensures Valid() && this.store == store && this.defaultTtl == defaultTtl && this.rendering == rendering
    {
      this.store, this.defaultTtl, this.rendering, pendingIds := store, defaultTtl, rendering, [];
    }

    // -- shared steps -----------------------------------------------------------

    method Expire()
      requires Settled()
      modifies store, store.worker, store.worker.runtime
      ensures Settled() && Evolves(old(store.Now()), store.Now(), {})
      ensures OnlyExpired(old(store.Now()), old(store.worker.snapshots), store.Now(), store.worker.snapshots, {}, {})
      ensures store.aux.scopes == [] ==> forall id :: id in store.records ==> store.Visible(id)
      ensures store.clock == old(store.clock) && Onward(old(store.Now()), store.Now())
    {
      hide Books, Agrees, Sound, Evolves, Reclaimed, PendingSafe, Residents, Cores, Live, Registry.Kept, Sized,
        OnlyExpired, Onward;
      ghost var b, held := store.Now(), store.worker.snapshots;
      SoundNothing(b, held, Live(store.records, store.clock));
      store.FrozenKeys();
      store.Expire();
      store.FrozenKeys();
      ExpiredSettled(b, held, store.Now(), store.worker.snapshots, store.clock, store.hostBudget,
        store.worker.config.context);
      ReclaimedOnly(b, held, store.Now(), store.worker.snapshots, store.clock, Live(b.recs, store.clock), {});
      ExpiryOnward(b, held, store.Now(), store.worker.snapshots, {}, {});
      if store.aux.scopes == [] {
        Unleased(store.Now(), store.hostBudget, store.worker.config.context);
      }
    }

    // _rollback: takes back what a failed request made, latest first. An id the
    // store does not know is dropped from the worker directly.
    method Rollback(ids: seq<Id>)
      requires store.Valid() && Persisted(store.records) && Lineage(store.Now())
      requires Sized(store.worker.config.kernels) && 0 < defaultTtl
      requires store.worker.snapshots.Keys - Residents(store.records) <= Elems(ids)
      requires Undoable(store.records, store.worker.snapshots, store.clock, ids, |ids|)
      modifies store, store.worker, store.worker.runtime
      ensures Settled() && Evolves(old(store.Now()), store.Now(), Elems(ids))
      ensures store.records.Keys <= old(store.records.Keys) && store.aux.used == old(store.aux.used)
      ensures forall id :: id in ids ==> id !in store.records && id !in store.worker.snapshots
      ensures store.clock == old(store.clock)
    {
      hide Books, Agrees, Sound, Evolves, PendingSafe, Residents, Cores, Undoing, Undoable, Sized, Elems, Persisted,
        Lineage;
      ghost var b0 := store.Now();
      store.FrozenKeys();
      UndoingStart(b0, store.worker.snapshots, store.clock, ids);
      var i: nat := |ids|;
      while i > 0
        invariant i <= |ids| && store.Valid() && store.clock == old(store.clock)
        invariant Undoing(b0, store.Now(), store.worker.snapshots, store.clock, ids, i)
      {
        RollbackOne(b0, ids, i);
        i := i - 1;
      }
      UndoingDone(b0, store.Now(), store.worker.snapshots, store.clock, ids);
    }

    method RollbackOne(ghost b0: Book, ids: seq<Id>, n: nat)
      requires store.Valid() && 0 < n <= |ids|
      requires Undoing(b0, store.Now(), store.worker.snapshots, store.clock, ids, n)
      modifies store, store.worker, store.worker.runtime
      ensures store.Valid() && store.clock == old(store.clock)
      ensures Undoing(b0, store.Now(), store.worker.snapshots, store.clock, ids, n - 1)
    {
      hide Books, Agrees, Sound, Evolves, Residents, Cores, Undoing, Undoable, Persisted, Lineage, Unshared, Forgotten,
        Touched;
      ghost var b, held := store.Now(), store.worker.snapshots;
      store.FrozenKeys();
      UndoingFacts(b0, b, held, store.clock, ids, n);
      UndoNext(b, held, store.clock, ids, n, store.hostBudget, store.worker.config.context);
      var gone := store.Delete(ids[n - 1]);
      if gone.Ok? {
        UndoneForgotten(b0, b, held, store.clock, ids, n, store.hostBudget, store.worker.config.context);
      } else {
        UndoneDropped(b0, b, held, store.clock, ids, n, store.hostBudget, store.worker.config.context);
        DropUnbooked(ids[n - 1]);
      }
    }

    // The worker's drop, for a snapshot without books; a missing one is forgiven.
    method DropUnbooked(id: Id)
      requires store.Valid() && id !in store.records && Unshared(store.worker.snapshots, id)
      modifies store.worker, store.worker.runtime
      ensures store.Valid() && store.worker.snapshots == old(store.worker.snapshots) - {id}
    {
      hide Books, Agrees, Unshared, RowBytes;
      AgreesLess(store.Now(), store.worker.config, store.worker.snapshots, id);
      var resp := store.worker.Drop(id);
      assert resp.Failed? ==> store.worker.snapshots - {id} == store.worker.snapshots;
    }

    // -- planning ---------------------------------------------------------------

    // _ensure_30: the snapshot itself, its memoised promotion, or a new one.
    method Ensure30(id: Id, newId: Id) returns (r: Result<(Id, Promotion), ServiceError>)
      requires Settled() && id in store.records && newId !in store.aux.used
      modifies store, store.worker, store.worker.runtime
      ensures Settled() && Evolves(old(store.Now()), store.Now(), {newId}) && store.clock == old(store.clock)
      ensures r.Ok? ==> Stands(store.Now(), id, r.value.0)
      ensures r.Err? ==> Outside(r.error)
      ensures old(store.records)[id].core.depth == D30 ==> r == Ok((id, NotPromoted)) && store.Now() == old(store.Now())
      ensures old(store.records)[id].core.depth == D18 && old(store.Visible(id) && store.Remembers(id)) ==>
        r == Ok((old(store.records)[id].promotionChild.value,
          Reused)) && store.worker.snapshots == old(store.worker.snapshots)
      ensures r.Ok? && r.value.1 == Performed ==> r.value.0 == newId && id in store.records
      ensures r.Ok? && r.value.1 == Performed ==> store.records[id].promotionChild == Some(newId)
      ensures r.Ok? && r.value.1 == Performed ==> PromotionCore(store.Now(), id, newId, store.clock, defaultTtl)
    {
      hide Books, Agrees, Sound, Evolves, PendingSafe, Residents, Cores, Persisted, Lineage, Stands, PromotionCore,
        Unmoved, PromotionOf, Sized;
      ghost var b, held := store.Now(), store.worker.snapshots;
      SoundParts(b, held, {}, {});
      EvolvesRefl(b);
      var none: set<Id> := {};
      EvolvesUpTo(b, b, none, {newId});
      if store.records[id].core.depth == D30 {
        StandsItself(b, id);
        return Ok((id, NotPromoted));
      }
      var memo := store.MemoizedPromotion(id);
      UnmovedSettled(b, store.Now(), held, store.hostBudget, store.worker.config.context);
      EvolvesUpTo(b, store.Now(), none, {newId});
      if memo.Err? {
        return Err(Stored(memo.error));
      }
      if memo.value.Some? {
        SoundParts(store.Now(), held, {}, {});
        MemoStands(store.Now(), id, memo.value.value);
        return Ok((memo.value.value, Reused));
      }
      store.FrozenKeys();
      r := PromoteAndMemoize(id, newId, b);
    }

    method PromoteAndMemoize(id: Id, newId: Id, ghost b0: Book) returns (r: Result<(Id, Promotion), ServiceError>)
      requires Settled() && id in store.records && newId !in store.aux.used
      requires Evolves(b0, store.Now(), {}) && b0.recs.Keys <= b0.aux.used && newId !in b0.aux.used
      modifies store, store.worker, store.worker.runtime
      ensures Settled() && Evolves(b0, store.Now(), {newId}) && store.clock == old(store.clock)
      ensures r.Ok? ==> Stands(store.Now(), id, r.value.0)
      ensures r.Err? ==> Outside(r.error)
      ensures r.Ok? ==> r.value == (newId, Performed) && id in store.records
      ensures r.Ok? ==> store.records[id].promotionChild == Some(newId)
      ensures r.Ok? ==> PromotionCore(store.Now(), id, newId, store.clock, defaultTtl)
    {
      hide Books, Agrees, Sound, Evolves, PendingSafe, Residents, Cores, Persisted, Lineage, Stands, PromotionCore,
        Unmoved, PromotionOf, Sized;
      ghost var b := store.Now();
      store.FrozenKeys();
      var done := PromoteUnderLease(id, newId);
      store.FrozenKeys();
      ChainAdds(b0, b, store.Now(), newId);
      if done.Err? {
        return Err(done.error);
      }
      ghost var c, held := store.Now(), store.worker.snapshots;
      var memo := store.MemoizePromotion(id, newId);
      UnmovedSettled(c, store.Now(), held, store.hostBudget, store.worker.config.context);
      store.FrozenKeys();
      AddsThenMoves(b0, c, store.Now(), newId);
      if memo.Err? {
        return Err(Stored(memo.error));
      }
      StandsIn(c, id, newId);
      StandsKept(c, store.Now(), {}, id, newId);
      PromotionCoreKept(c, store.Now(), {}, id, newId, store.clock, defaultTtl);
      return Ok((newId, Performed));
    }

    // with store.lease(record.id)
    method PromoteUnderLease(id: Id, newId: Id) returns (r: Result<(), ServiceError>)
      requires Settled() && id in store.records && newId !in store.aux.used
      modifies store, store.worker, store.worker.runtime
      ensures Settled() && Evolves(old(store.Now()), store.Now(), {newId}) && store.clock == old(store.clock)
      ensures r.Ok? ==>
        Stands(store.Now(), id, newId) && PromotionCore(store.Now(), id, newId, store.clock, defaultTtl)
      ensures r.Err? ==> Outside(r.error)
    {
      hide Books, Agrees, Sound, Evolves, PendingSafe, Residents, Cores, Persisted, Lineage, Stands, PromotionCore,
        Sized, PinnedBook, UnpinnedBook, Pins;
      ghost var b, held := store.Now(), store.worker.snapshots;
      SoundParts(b, held, {}, {});
      store.FrozenKeys();
      var leased, pins, base := store.Lease([id]);
      if leased.Err? {
        SettledKept(b, base, held, store.hostBudget, store.worker.config.context);
        var none: set<Id> := {};
        EvolvesUpTo(b, base, none, {newId});
        return Err(Stored(leased.error));
      }
      LeasedSettled(b, base, held, pins, store.hostBudget, store.worker.config.context);
      assert [id][0] in pins;
      PinnedFacts(b, base, pins, id);
      r := PromoteLeased(id, newId);
      ghost var c := store.Now();
      EvolvesUsed(b, base);
      LeaseDone(b, base, pins, c, {newId});
      UnpinnedSound(c, store.worker.snapshots, {}, {});
      if r.Ok? {
        StandsUnpinned(c, id, newId);
        PromotionCoreUnpinned(c, id, newId, store.clock, defaultTtl);
      }
      store.Release(pins);
    }

    // The parent is leased; it is brought back and promoted.
    method PromoteLeased(id: Id, newId: Id) returns (r: Result<(), ServiceError>)
      requires Settled() && id in store.records && store.records[id].leases > 0 && newId !in store.aux.used
      modifies store, store.worker, store.worker.runtime
      ensures Settled() && Evolves(old(store.Now()), store.Now(), {newId}) && store.clock == old(store.clock)
      ensures r.Ok? ==>
        Stands(store.Now(), id, newId) && PromotionCore(store.Now(), id, newId, store.clock, defaultTtl)
      ensures r.Err? ==> Outside(r.error)
    {
      hide Books, Agrees, Sound, Evolves, PendingSafe, Residents, Cores, Persisted, Lineage, Stands, PromotionCore,
        Sized, Pins;
      ghost var b, held := store.Now(), store.worker.snapshots;
      SoundNothing(b, held, Pins(store.records));
      store.FrozenKeys();
      var parent := store.Restore(id);
      store.FrozenKeys();
      SettledKept(b, store.Now(), store.worker.snapshots, store.hostBudget, store.worker.config.context);
      var none: set<Id> := {};
      EvolvesUpTo(b, store.Now(), none, {newId});
      EvolvesUsed(b, store.Now());
      if parent.Err? {
        return Err(Stored(parent.error));
      }
      StaysLeased(b, store.Now(), {}, id);
      r := PromoteResident(id, newId, b);
    }

    method PromoteResident(id: Id, newId: Id, ghost b0: Book) returns (r: Result<(), ServiceError>)
      requires Settled() && id in store.records && store.records[id].leases > 0 && newId !in store.aux.used
      requires Evolves(b0, store.Now(), {}) && b0.recs.Keys <= b0.aux.used && newId !in b0.aux.used
      modifies store, store.worker, store.worker.runtime
      ensures Settled() && Evolves(b0, store.Now(), {newId}) && store.clock == old(store.clock)
      ensures r.Ok? ==>
        Stands(store.Now(), id, newId) && PromotionCore(store.Now(), id, newId, store.clock, defaultTtl)
      ensures r.Err? ==> Outside(r.error)
    {
      hide Books, Agrees, Sound, Evolves, PendingSafe, Residents, Cores, Persisted, Lineage, Stands, PromotionCore,
        Sized, Strangers, Undoable, Elems, PromoteStep, PromotedBeside, AllFaithful;
      ghost var b, held, st := store.Now(), store.worker.snapshots, store.worker.State();
      store.FrozenKeys();
      SoundParts(b, held, {}, {});
      ElemsOne(newId);
      FreshStrangers(b, store.worker.config, held, store.clock, [newId], store.hostBudget);
      assert id in held ==> held[id].id == id;
      var resp := store.worker.Promote(id, newId);
      if !resp.Promoted? {
        PromoteRefused(store.worker.config, st, id, newId, resp, store.worker.State());
        Rollback([newId]);
        store.FrozenKeys();
        ChainAdds(b0, b, store.Now(), newId);
        return Err(Worked(resp.error));
      }
      PromoteBeside(store.worker.config, st, id, newId, resp, store.worker.State());
      ServedFaithful(b, store.worker.config, st, Command.Promote(id, newId), resp, store.worker.State());
      PromotedSound(b, store.worker.config, held, store.worker.snapshots, id, newId, store.clock, store.hostBudget);
      r := RegisterPromotion(id, newId, held);
      ChainAdds(b0, b, store.Now(), newId);
    }

    // Registers the promotion, or takes it back.
    method RegisterPromotion(id: Id, newId: Id, ghost held0: map<Id, Snapshot>) returns (r: Result<(), ServiceError>)
      requires store.Valid() && Sized(store.worker.config.kernels) && 0 < defaultTtl
      requires id in store.records && store.records[id].leases > 0 && newId !in store.aux.used
      requires PromotedBeside(held0, store.worker.snapshots, id, newId)
      requires Sound(store.Now(), store.worker.snapshots, {id}, {newId})
      requires Strangers(store.Now(), store.worker.snapshots, store.clock, [newId])
      modifies store, store.worker, store.worker.runtime
      ensures Settled() && Evolves(old(store.Now()), store.Now(), {newId}) && store.clock == old(store.clock)
      ensures r.Ok? ==>
        Stands(store.Now(), id, newId) && PromotionCore(store.Now(), id, newId, store.clock, defaultTtl)
      ensures r.Err? ==> Outside(r.error)
    {
      hide Books, Agrees, Sound, Evolves, PendingSafe, Residents, Cores, Persisted, Lineage, Stands, PromotionCore,
        Sized, Strangers, Undoable, Elems, Matches, Refs, RowBytes, Live, Pins, Entered, Descends, Entry, SubMap,
        PromotedRecord;
      ghost var b, held := store.Now(), store.worker.snapshots;
      store.FrozenKeys();
      SoundParts(b, held, {id}, {newId});
      var row := store.worker.snapshots[newId];
      var core := PromotedRecord(store.records[id].core, id, row);
      var bytes := RowBytes(store.worker.config.kernels, row);
      RowBytesPositive(store.worker.config.kernels, row);
      PromotedMatches(b, store.worker.config, held0, held, id, newId, store.clock, defaultTtl, bytes);
      PromotedTokens(store.records[id].core, id, row);
      SafeLeased(b, held, id, store.clock, Refs(core));
      var registered := store.Register(newId, core, bytes, defaultTtl, row.tokens);
      ghost var c := store.Now();
      store.FrozenKeys();
      StaysLeased(b, c, {newId}, id);
      PromotionRegistered(b, store.worker.config, held0, held, c, store.worker.snapshots, id, newId, store.clock,
        defaultTtl, bytes, registered.Ok?, store.hostBudget);
      if registered.Err? {
        Rollback([newId]);
        ElemsOne(newId);
        AddsThenBack(b, c, store.Now(), newId);
        return Err(Stored(registered.error));
      }
      return Ok(());
    }

    // The store's lookup, on settled books.
    method Look(id: Id) returns (r: Result<Record, ServiceError>)
      requires Settled()
      modifies store
      ensures Settled() && Unmoved(old(store.Now()), store.Now()) && store.clock == old(store.clock)
      ensures r == if old(store.Visible(id)) then Ok(old(store.records)[id].core) else Err(Stored(Missing))
      ensures store.Now() == if r.Ok? then Touched(old(store.Now()), id) else old(store.Now())
      ensures LookedUp(old(store.records), store.records, id, r.Ok?)
      ensures forall other :: other in store.records ==> store.records[other].core == old(store.records)[other].core
    {
      hide Books, Agrees, Sound, Evolves, PendingSafe, Residents, Cores, Persisted, Unmoved, Sized, LookedUp, Victim;
      ghost var b, held := store.Now(), store.worker.snapshots;
      store.FrozenKeys();
      UnmovedLookup(b, id);
      var got := store.Get(id);
      UnmovedSettled(b, store.Now(), held, store.hostBudget, store.worker.config.context);
      if got.Err? {
        return Err(Stored(got.error));
      }
      return Ok(got.value);
    }

    // _plan: where the request branches from. A replacement goes back to the
    // recorded anchor, which is always there and never needs a promotion.
    method MakePlan(id: Id, relationship: Relationship, newId: Id) returns (r: Result<Plan, ServiceError>)
      requires Settled() && newId !in store.aux.used
      modifies store, store.worker, store.worker.runtime
      ensures Settled() && Evolves(old(store.Now()), store.Now(), {newId}) && store.clock == old(store.clock)
      ensures r.Ok? ==> r.value.effective in store.aux.frozen
      ensures r.Ok? ==> Fits(store.Now(), r.value, store.aux.frozen[r.value.effective])
      ensures r.Ok? ==> old(store.Visible(id)) && r.value.requested == id
      ensures !old(store.Visible(id)) ==> r == Err(Stored(Missing))
      ensures r.Err? ==> r.error == Unsupported || Outside(r.error)
      ensures r.Err? && r.error == Unsupported ==>
        relationship == ReplaceQuestion && old(store.Visible(id)) && old(store.records)[id].core.contextParent.None?
      ensures relationship == Continue && old(store.Visible(id)) && old(store.records)[id].core.depth == D30 ==> r.Ok?
      ensures r.Ok? ==> Derives(old(store.records)[id].core, relationship, r.value)
      ensures relationship == ReplaceQuestion && old(store.Visible(id)) ==>
        r.Ok? == old(store.records)[id].core.contextParent.Some? && (r.Err? ==> r.error == Unsupported)
      ensures relationship == Continue && r.Ok? ==>
        && r.value.mode == old(store.records)[id].core.boundary && r.value.prompt == old(store.records)[id].core.prompt
        && (old(store.records)[id].core.depth == D30 ==> r.value.effective == id && r.value.promotion == NotPromoted)
    {
      hide Books, Agrees, Sound, Evolves, PendingSafe, Residents, Cores, Persisted, Lineage, Stands, Fits, Unmoved,
        Sized, Derives;
      ghost var b0 := store.Now();
      store.FrozenKeys();
      var record := Look(id);
      store.FrozenKeys();
      UnmovedEvolves(b0, store.Now(), newId);
      if record.Err? {
        return Err(record.error);
      }
      if relationship == ReplaceQuestion {
        r := PlanReplacement(id, newId, b0);
      } else {
        r := PlanFollowup(id, newId, b0);
      }
    }

    method PlanReplacement(id: Id, newId: Id, ghost b0: Book) returns (r: Result<Plan, ServiceError>)
      requires Settled() && newId !in store.aux.used && id in store.records
      requires Evolves(b0, store.Now(), {}) && b0.recs.Keys <= b0.aux.used && newId !in b0.aux.used
      modifies store, store.worker, store.worker.runtime
      ensures Settled() && Evolves(b0, store.Now(), {newId}) && store.clock == old(store.clock)
      ensures r.Ok? ==> r.value.effective in store.aux.frozen
      ensures r.Ok? ==> Fits(store.Now(), r.value, store.aux.frozen[r.value.effective])
      ensures r.Ok? ==> r.value.requested == id && Derives(old(store.records)[id].core, ReplaceQuestion, r.value)
      ensures r.Ok? == old(store.records)[id].core.contextParent.Some? && (r.Err? ==> r.error == Unsupported)
    {
      hide Books, Agrees, Sound, Evolves, PendingSafe, Residents, Cores, Persisted, Lineage, Stands, Fits, Unmoved,
        Sized, Descends;
      ghost var b1 := store.Now();
      store.FrozenKeys();
      SoundParts(b1, store.worker.snapshots, {}, {});
      var none: set<Id> := {};
      EvolvesUpTo(b0, b1, none, {newId});
      var record := store.records[id].core;
      if record.contextParent.Some? {
        LineageAt(b1, id);
        AnchoredReadout(b1, id);
        AnchorFits(b1, id, store.hostBudget, store.worker.config.context);
      }
      if record.boundary != Readout || record.contextParent.None? {
        return Err(Unsupported);
      }
      var anchor := record.contextParent.value;
      var context := Look(anchor);
      store.FrozenKeys();
      UnmovedEvolves(b1, store.Now(), newId);
      ghost var b2 := store.Now();
      SoundParts(b2, store.worker.snapshots, {}, {});
      AnchorFits(b2, id, store.hostBudget, store.worker.config.context);
      var effective := Ensure30(anchor, newId);
      EvolvesChain(b0, b1, b2);
      EvolvesUpTo(b0, b2, none, {newId});
      return Ok(Plan.Plan(id, effective.value.0, effective.value.1, Context, context.value.prompt,
        Some(effective.value.0)));
    }

    method PlanFollowup(id: Id, newId: Id, ghost b0: Book) returns (r: Result<Plan, ServiceError>)
      requires Settled() && newId !in store.aux.used && id in store.records
      requires Evolves(b0, store.Now(), {}) && b0.recs.Keys <= b0.aux.used && newId !in b0.aux.used
      modifies store, store.worker, store.worker.runtime
      ensures Settled() && Evolves(b0, store.Now(), {newId}) && store.clock == old(store.clock)
      ensures r.Ok? ==> r.value.effective in store.aux.frozen
      ensures r.Ok? ==> Fits(store.Now(), r.value, store.aux.frozen[r.value.effective])
      ensures r.Ok? ==> r.value.requested == id && Derives(old(store.records)[id].core, Continue, r.value)
      ensures r.Err? ==> Outside(r.error)
      ensures old(store.records)[id].core.depth == D30 ==> r.Ok?
      ensures r.Ok? ==>
        && r.value.mode == old(store.records)[id].core.boundary && r.value.prompt == old(store.records)[id].core.prompt
        && (old(store.records)[id].core.depth == D30 ==> r.value.effective == id && r.value.promotion == NotPromoted)
    {
      hide Books, Agrees, Sound, Evolves, PendingSafe, Residents, Cores, Persisted, Lineage, Stands, Fits, Unmoved,
        Sized;
      ghost var b1 := store.Now();
      store.FrozenKeys();
      var record := store.records[id].core;
      var effective := Ensure30(id, newId);
      ChainAdds(b0, b1, store.Now(), newId);
      if effective.Err? {
        return Err(effective.error);
      }
      StandsIn(store.Now(), id, effective.value.0);
      SameFields(b1, store.Now(), {newId}, id);
      StandsFits(store.Now(), id, effective.value.0, effective.value.1);
      return Ok(Plan.Plan(id, effective.value.0, effective.value.1, record.boundary, record.prompt,
        if record.boundary == Context then Some(effective.value.0) else record.contextParent));
    }

    // -- create -------------------------------------------------------------------

    // What a freeze keeps of the rendered prompt: all of it, or the tokens before
    // the marked state ends, at least one and never the last.
    function FrozenTokens(f: Freeze): Option<seq<Token>> {
      var full := rendering.tokens(f.prompt);
      if f.kind == Readout then Some(full)
      else if 1 <= rendering.freeze(f.prompt) < |full| then Some(full[..rendering.freeze(f.prompt)])
      else None
    }

    // A readout freeze keeps the whole prompt, a context freeze a proper part of it from
    // the beginning, as long as the rendering says.
    ghost predicate Freezes(f: Freeze, tokens: seq<Token>) {
      var full := rendering.tokens(f.prompt);
      && tokens != [] && tokens <= full && (f.kind == Readout <==> tokens == full)
      && (f.kind == Context ==> |tokens| == rendering.freeze(f.prompt))
    }

    // With exact causal kernels, the logits a 30 freeze reads are the uninterrupted
    // model's after the frozen tokens.
    ghost predicate ReadoutIsStock(tokens: seq<Token>, readout: Option<Logits>) {
      forall model: LayerSplit.Model, split: nat :: Causal(store.worker.config, model, split) && readout.Some? ==>
        tokens != [] && readout.value == StockLogits(model, tokens)
    }

    lemma CreatedReadsStock(st: State, id18: Option<Id>, id30: Option<Id>, kind: Kind, tokens: seq<Token>,
        digest: Digest, resp: Response, after: State)
      requires 0 < store.worker.config.batch && tokens != []
      requires CreateStep(store.worker.config, st, Command.Create(id18, id30, kind, tokens, digest), resp, after)
      requires resp.Created?
      ensures (resp.readout.Some? <==> id30.Some?) && ReadoutIsStock(tokens, resp.readout)
    {
      hide Causal, AfterCreate, StockLogits;
      var c, cmd := store.worker.config, Command.Create(id18, id30, kind, tokens, digest);
      assert resp.readout == CreateReadout(c, cmd);
      forall model: LayerSplit.Model, split: nat | Causal(c, model, split) && resp.readout.Some?
        ensures resp.readout.value == StockLogits(model, tokens)
      {
        CreatedIsStock(c, model, split, cmd);
      }
    }

    // Every checkpoint asked for is published, or nothing is left of the request.
    method Create(f: Freeze, id18: Option<Id>, id30: Option<Id>) returns (r: Result<Option<Logits>, ServiceError>)
      requires Valid() && 0 < f.ttl && Elems(Checkpoints(id18, id30)) !! store.aux.used
      modifies store, store.worker, store.worker.runtime
      ensures Valid() && store.clock == old(store.clock)
      ensures Evolves(old(store.Now()), store.Now(), Elems(Checkpoints(id18, id30)))
      ensures Tidied(old(store.Now()), store.Now()) && Onward(old(store.Now()), store.Now())
      ensures r.Err? ==> r.error == Uncompilable || Outside(r.error)
      ensures r == Err(Uncompilable) <==> !rendering.compiles(f.prompt, f.kind)
      ensures rendering.compiles(f.prompt, f.kind) && FrozenTokens(f).None? ==> r == Err(Worked(Invalid))
      ensures r.Ok? ==> FrozenTokens(f).Some? && Freezes(f, FrozenTokens(f).value) && (r.value.Some? <==> id30.Some?)
      ensures r.Ok? ==> ReadoutIsStock(FrozenTokens(f).value, r.value)
      ensures r.Ok? && id18.Some? ==>
        Froze(store.Now(), f, FrozenTokens(f).value, rendering.digest(f.prompt, f.kind), store.clock,
          id18.value, D18, None)
      ensures r.Ok? && id30.Some? ==>
        Froze(store.Now(), f, FrozenTokens(f).value, rendering.digest(f.prompt, f.kind), store.clock,
          id30.value, D30, id18)
      ensures r.Err? ==>
        forall id :: id in Checkpoints(id18, id30) ==> id !in store.records && id !in store.worker.snapshots
    {
      hide Store.Valid, Books, Agrees, Sound, Evolves, Froze, Elems, Checkpoints, Sized, ReadoutIsStock, OnlyExpired,
        Tidied, Onward;
      ghost var b0, held0 := store.Now(), store.worker.snapshots;
      store.FrozenKeys();
      Expire();
      ghost var b1, held1 := store.Now(), store.worker.snapshots;
      store.FrozenKeys();
      EvolvesUsed(b0, b1);
      r := CreateExpired(f, id18, id30);
      ghost var none: set<Id> := {};
      UsedGrows(b1, store.Now(), Elems(Checkpoints(id18, id30)));
      TidiedSince(b0, held0, b1, held1, store.Now(), Elems(Checkpoints(id18, id30)));
      EvolvesTrans(b0, b1, store.Now(), none, Elems(Checkpoints(id18, id30)));
      assert none + Elems(Checkpoints(id18, id30)) == Elems(Checkpoints(id18, id30));
      EvolvesScopes(b1, store.Now(), Elems(Checkpoints(id18, id30)));
      FrozenKeysSettled();
      RequestOnward(b0, store.Now(), Elems(Checkpoints(id18, id30)));
    }

    method CreateExpired(f: Freeze, id18: Option<Id>, id30: Option<Id>)
      returns (r: Result<Option<Logits>, ServiceError>)
      requires Settled() && Renders() && store.aux.scopes == [] && 0 < f.ttl
      requires Elems(Checkpoints(id18, id30)) !! store.aux.used
      modifies store, store.worker, store.worker.runtime
      ensures Settled() && store.clock == old(store.clock)
      ensures Evolves(old(store.Now()), store.Now(), Elems(Checkpoints(id18, id30)))
      ensures r.Err? ==> r.error == Uncompilable || Outside(r.error)
      ensures r == Err(Uncompilable) <==> !rendering.compiles(f.prompt, f.kind)
      ensures rendering.compiles(f.prompt, f.kind) && FrozenTokens(f).None? ==> r == Err(Worked(Invalid))
      ensures r.Ok? ==> FrozenTokens(f).Some? && Freezes(f, FrozenTokens(f).value) && (r.value.Some? <==> id30.Some?)
      ensures r.Ok? ==> ReadoutIsStock(FrozenTokens(f).value, r.value)
      ensures r.Ok? && id18.Some? ==>
        Froze(store.Now(), f, FrozenTokens(f).value, rendering.digest(f.prompt, f.kind), store.clock,
          id18.value, D18, None)
      ensures r.Ok? && id30.Some? ==>
        Froze(store.Now(), f, FrozenTokens(f).value, rendering.digest(f.prompt, f.kind), store.clock,
          id30.value, D30, id18)
      ensures r.Err? ==>
        forall id :: id in Checkpoints(id18, id30) ==> id !in store.records && id !in store.worker.snapshots
    {
      hide Books, Agrees, Sound, Evolves, Residents, Cores, Froze, Elems, Checkpoints, Sized, Strangers, Undoable,
        PendingSafe, Persisted, Lineage, CreateStep, CreatedBeside, AllFaithful, CreateReadout, ReadoutIsStock;
      ghost var b, held, st := store.Now(), store.worker.snapshots, store.worker.State();
      var ids := Checkpoints(id18, id30);
      store.FrozenKeys();
      SoundParts(b, held, {}, {});
      FreshStrangers(b, store.worker.config, held, store.clock, ids, store.hostBudget);
      ElemsIn(ids);
      EvolvesRefl(b);
      var none: set<Id> := {};
      EvolvesUpTo(b, b, none, Elems(ids));
      if !rendering.compiles(f.prompt, f.kind) {
        return Err(Uncompilable);
      }
      if FrozenTokens(f).None? {
        return Err(Worked(Invalid));
      }
      var tokens := FrozenTokens(f).value;
      var digest := rendering.digest(f.prompt, f.kind);
      var resp := store.worker.Create(id18, id30, f.kind, tokens, digest);
      if !resp.Created? {
        CreateRefused(store.worker.config, st, Command.Create(id18, id30, f.kind, tokens, digest), resp,
          store.worker.State());
        Rollback(ids);
        return Err(Worked(resp.error));
      }
      CreateBeside(store.worker.config, st, Command.Create(id18, id30, f.kind, tokens, digest), resp,
        store.worker.State());
      ServedFaithful(b, store.worker.config, st, Command.Create(id18, id30, f.kind, tokens, digest), resp,
        store.worker.State());
      CreatedSound(b, store.worker.config, held, store.worker.snapshots, id18, id30, f.kind, tokens, digest,
        store.clock, store.hostBudget);
      CreatedReadsStock(st, id18, id30, f.kind, tokens, digest, resp, store.worker.State());
      var registered := RegisterRows(f, id18, id30, held, tokens, digest);
      if registered.Err? {
        return Err(Stored(registered.error));
      }
      return Ok(resp.readout);
    }

    // Registers the rows, low to high, or takes every one back.
    method RegisterRows(f: Freeze, id18: Option<Id>, id30: Option<Id>, ghost held0: map<Id, Snapshot>,
        ghost tokens: seq<Token>, ghost digest: Digest)
      returns (r: Result<(), StoreError>)
      requires store.Valid() && Sized(store.worker.config.kernels) && 0 < defaultTtl && store.aux.scopes == []
      requires 0 < f.ttl
      requires CreatedBeside(held0, store.worker.snapshots, id18, id30, f.kind, tokens, digest)
      requires Sound(store.Now(), store.worker.snapshots, {}, Elems(Checkpoints(id18, id30)))
      requires Strangers(store.Now(), store.worker.snapshots, store.clock, Checkpoints(id18, id30))
      requires Elems(Checkpoints(id18, id30)) !! store.aux.used
      modifies store, store.worker, store.worker.runtime
      ensures Settled() && store.clock == old(store.clock)
      ensures Evolves(old(store.Now()), store.Now(), Elems(Checkpoints(id18, id30)))
      ensures r.Ok? && id18.Some? ==> Froze(store.Now(), f, tokens, digest, store.clock, id18.value, D18, None)
      ensures r.Ok? && id30.Some? ==> Froze(store.Now(), f, tokens, digest, store.clock, id30.value, D30, id18)
      ensures r.Err? ==>
        forall id :: id in Checkpoints(id18, id30) ==> id !in store.records && id !in store.worker.snapshots
    {
      hide Books, Agrees, Sound, Evolves, Residents, Cores, Froze, Elems, Checkpoints, Sized, Strangers, Undoable,
        PendingSafe, Persisted, Lineage, CreatedBeside, Laying, RowsOf;
      ghost var b0, created := store.Now(), store.worker.snapshots;
      var ids := Checkpoints(id18, id30);
      store.FrozenKeys();
      CreatedRows(held0, created, id18, id30, tokens, digest, f);
      LayingStart(b0, store.worker.config.kernels, created, f, store.clock, ids);
      EvolvesRefl(b0);
      var none: set<Id> := {};
      EvolvesUpTo(b0, b0, none, Elems(ids));
      for i := 0 to |ids|
        invariant store.Valid() && store.clock == old(store.clock)
        invariant Laying(store.Now(), store.worker.config.kernels, store.worker.snapshots, created, f, store.clock,
            ids, i)
        invariant Evolves(b0, store.Now(), Elems(ids))
      {
        r := RegisterRow(f, ids, i, created, b0);
        if r.Err? {
          return;
        }
      }
      LayingDone(store.Now(), store.worker.config.kernels, store.worker.snapshots, created, f, store.clock, ids);
      FrozenRows(store.Now(), store.worker.config.kernels, held0, created, id18, id30, tokens, digest, f, store.clock);
      return Ok(());
    }

    method RegisterRow(f: Freeze, ids: seq<Id>, i: nat, ghost created: map<Id, Snapshot>, ghost b0: Book)
      returns (r: Result<(), StoreError>)
      requires store.Valid() && Sized(store.worker.config.kernels) && 0 < defaultTtl && 0 < f.ttl && b0.aux.scopes == []
      requires i < |ids| && RowsOf(created, ids, f)
      requires Laying(store.Now(), store.worker.config.kernels, store.worker.snapshots, created, f, store.clock, ids, i)
      requires Evolves(b0, store.Now(), Elems(ids)) && b0.recs.Keys <= b0.aux.used && Elems(ids) !! b0.aux.used
      modifies store, store.worker, store.worker.runtime
      ensures store.Valid() && store.clock == old(store.clock) && Evolves(b0, store.Now(), Elems(ids))
      ensures r.Ok? ==>
        Laying(store.Now(), store.worker.config.kernels, store.worker.snapshots, created, f, store.clock, ids, i + 1)
      ensures r.Err? ==> Settled() && forall id :: id in ids ==> id !in store.records && id !in store.worker.snapshots
    {
      hide Books, Agrees, Sound, Evolves, Residents, Cores, Elems, Sized, Strangers, Undoable, PendingSafe, Persisted,
        Lineage, Laying, RowsOf, Matches, Refs, RowBytes, Live, Pins, Entered, Descends, Entry, SubMap,
        CheckpointRecord, CheckpointEntry;
      ghost var b, held := store.Now(), store.worker.snapshots;
      var id := ids[i];
      store.FrozenKeys();
      LayingRow(b, store.worker.config, held, created, f, store.clock, ids, i);
      var row := store.worker.snapshots[id];
      var core := CheckpointRecord(f, row);
      var bytes := RowBytes(store.worker.config.kernels, row);
      r := store.Register(id, core, bytes, f.ttl, row.tokens);
      ghost var after, now := store.Now(), store.worker.snapshots;
      store.FrozenKeys();
      LayingNext(b, store.worker.config, held, after, now, created, f, store.clock, ids, i, r.Ok?, store.hostBudget);
      OneMore(b0, b, after, Elems(ids), id);
      EvolvesScopes(b0, after, Elems(ids));
      if r.Err? {
        Unleased(after, store.hostBudget, store.worker.config.context);
        StrangersUndoable(after, now, store.clock, ids);
        Rollback(ids);
        MovesAfter(b0, after, store.Now(), Elems(ids));
      }
    }

    // -- decisions and state evaluations ----------------------------------------------

    // compile_context_followup and its like, one question after the other.
    method CompileAll(plan: Plan, asks: seq<Ask>) returns (r: Result<seq<Prompt>, ServiceError>)
      ensures r.Ok? ==> |r.value| == |asks|
      ensures r.Ok? ==>
        forall i :: 0 <= i < |asks| ==> rendering.followup(plan.mode, plan.prompt, asks[i]) == Some(r.value[i])
      ensures r.Err? <==> exists i :: 0 <= i < |asks| && rendering.followup(plan.mode, plan.prompt, asks[i]).None?
      ensures r.Err? ==> r.error == Uncompilable
    {
      var prompts: seq<Prompt> := [];
      for i := 0 to |asks|
        invariant |prompts| == i
        invariant forall j :: 0 <= j < i ==> rendering.followup(plan.mode, plan.prompt, asks[j]) == Some(prompts[j])
      {
        var prompt := rendering.followup(plan.mode, plan.prompt, asks[i]);
        if prompt.None? {
          return Err(Uncompilable);
        }
        prompts := prompts + [prompt.value];
      }
      return Ok(prompts);
    }

    // The questions as the worker renders them; ids name the children to save.
    function QuestionsOf(prompts: seq<Prompt>, ids: seq<Id>): (qs: seq<Question>)
      ensures |qs| == |prompts|
      ensures forall i :: 0 <= i < |prompts| ==>
        && qs[i].full == rendering.tokens(prompts[i]) && qs[i].digest == rendering.digest(prompts[i], Readout)
        && (qs[i].saveAs.Some? <==> i < |ids|) && (i < |ids| ==> qs[i].saveAs.value == ids[i])
    {
      seq(|prompts|, i requires 0 <= i < |prompts| =>
        Question(rendering.tokens(prompts[i]), rendering.digest(prompts[i], Readout),
          if i < |ids| then Some(ids[i]) else None))
    }

    lemma QuestionsSaved(prompts: seq<Prompt>, ids: seq<Id>)
      requires ids == [] || |ids| == |prompts|
      ensures SavedUnder(QuestionsOf(prompts, ids), ids)
    {
    }

    lemma OneReported(parent: Snapshot, q: Question, resident: bool, report: BranchReport)
      requires parent.upperKv.Some? && Extends(q.full, parent.tokens)
      requires report == ReportOf(store.worker.config.kernels, parent, q.full, resident)
      ensures BatchReported(store.worker.config.kernels, parent, [q], resident, [report])
    {
    }

    // One evaluate, or one state_eval, on the worker.
    method AskWorker(of: Id, qs: seq<Question>, single: bool, ids: seq<Id>)
      returns (r: Result<seq<Branch>, ServiceError>, reports: seq<BranchReport>)
      requires Settled() && SavedUnder(qs, ids) && Elems(ids) !! store.aux.used && (single ==> |qs| == 1)
      requires of in store.records
      modifies store.worker, store.worker.runtime
      ensures store.Valid() && Sized(store.worker.config.kernels) && 0 < defaultTtl
      ensures r.Ok? ==> Brooding(store.Now(), store.worker.snapshots, store.worker.snapshots, store.clock, ids, 0)
      ensures r.Ok? ==>
        && 0 < store.worker.config.batch && of in store.aux.frozen
        && of in old(store.worker.snapshots)
        && Answered(store.worker.config, old(store.worker.snapshots)[of], qs, r.value)
        && |reports| == |qs|
        && BatchReported(store.worker.config.kernels, old(store.worker.snapshots)[of], qs,
          old(store.worker.runtime.HasResident(store.worker.snapshots[of])), reports)
        && old(store.worker.snapshots)[of].tokens == store.aux.frozen[of]
        && |store.aux.frozen[of]| == store.records[of].core.tokens
        && Hatchlings(store.worker.snapshots, of, store.aux.frozen[of], qs, ids)
      ensures r.Err? ==> Left(store.Now(), store.worker.snapshots, store.clock, ids, false) && Outside(r.error)
    {
      hide Books, Agrees, Sound, Residents, Elems, Sized, SavedUnder, Hatched, EvaluateStep, StateEvalStep, Answered,
        Left, Brooding, Strangers, Hatchlings, AllFaithful;
      ghost var b, held, st := store.Now(), store.worker.snapshots, store.worker.State();
      store.FrozenKeys();
      ghost var resident := of in held && store.worker.runtime.HasResident(held[of]);
      ghost var n: nat;
      if single {
        var resp, report := store.worker.StateEval(of, qs[0]);
        assert qs == [qs[0]];
        ServedFaithful(b, store.worker.config, st, Command.StateEval(of, qs[0]), resp, store.worker.State());
        n := StatedHatch(store.worker.config, st, of, qs[0], resp, store.worker.State());
        r, reports := Err(Protocol), [report];
        if resp.Stated? {
          StateEvalAnswers(store.worker.config, st, of, qs[0], resp, store.worker.State());
          OneReported(held[of], qs[0], resident, report);
          r := Ok([resp.branch]);
        } else if resp.Failed? {
          r := Err(Worked(resp.error));
        }
      } else {
        var resp, told := store.worker.Evaluate(of, qs);
        ServedFaithful(b, store.worker.config, st, Command.Evaluate(of, qs), resp, store.worker.State());
        n := EvaluatedHatch(store.worker.config, st, of, qs, resp, store.worker.State());
        r, reports := Err(Protocol), told;
        if resp.Evaluated? {
          EvaluateAnswers(store.worker.config, st, of, qs, resp, store.worker.State());
          r := Ok(resp.branches);
        } else if resp.Failed? {
          r := Err(Worked(resp.error));
        }
      }
      HatchedSound(b, store.worker.config, held, store.worker.snapshots, of, qs, n, store.clock, ids, store.hostBudget);
      LeftSound(b, store.worker.snapshots, store.clock, ids, store.worker.snapshots.Keys - held.Keys);
      if r.Ok? {
        HeldFields(b, store.worker.config, held, of);
        TokensCounted(b, store.worker.config, held, of);
        HatchlingsOf(store.worker.config, held, store.worker.snapshots, of, qs, r.value, ids);
      }
    }

    // _register_child for the i-th answer.
    method RegisterChild(plan: Plan, owner: Owner, prompt: Prompt, ids: seq<Id>, i: nat, ghost tokens: seq<Token>,
        ghost q: Question, ghost hatched: map<Id, Snapshot>, ghost b0: Book)
      returns (r: Result<(), StoreError>)
      requires store.Valid() && Sized(store.worker.config.kernels) && 0 < defaultTtl
      requires i < |ids| && Distinct(ids) && Brooding(store.Now(), store.worker.snapshots, hatched, store.clock, ids, i)
      requires Planned(store.Now(), plan, tokens, ids) && plan.effective in store.records
      requires ids[i] in hatched && Hatchling(hatched[ids[i]], q, plan.effective) && tokens <= q.full
      requires Evolves(b0, store.Now(), Elems(ids)) && b0.recs.Keys <= b0.aux.used && Elems(ids) !! b0.aux.used
      modifies store, store.worker, store.worker.runtime
      ensures store.Valid() && store.clock == old(store.clock) && Evolves(b0, store.Now(), Elems(ids))
      ensures Evolves(old(store.Now()), store.Now(), {ids[i]})
      ensures r.Ok? ==> Brooding(store.Now(), store.worker.snapshots, hatched, store.clock, ids, i + 1)
      ensures r.Ok? ==> Planned(store.Now(), plan, tokens, ids)
      ensures plan.effective in store.records
      ensures store.records[plan.effective].core == old(store.records)[plan.effective].core
      ensures r.Ok? ==>
        Recorded(store.Now(), ids[i], owner, plan, prompt, q, store.records[plan.effective].core.persistence,
          store.clock, defaultTtl)
      ensures r.Err? ==> Left(store.Now(), store.worker.snapshots, store.clock, ids, false)
    {
      hide Books, Agrees, Sound, Evolves, Residents, Cores, Elems, Sized, Strangers, PendingSafe, Persisted, Lineage,
        Brooding, Planned, Left, Matches, Refs, RowBytes, Live, Pins, Entered, Descends, Entry, SubMap, ChildRecord,
        Hatchling, Recorded;
      ghost var b, held := store.Now(), store.worker.snapshots;
      var id := ids[i];
      store.FrozenKeys();
      PlannedIn(b, plan, tokens, ids);
      ChildRow(b, store.worker.config, held, hatched, store.clock, ids, i, q, plan, tokens, owner, prompt, defaultTtl);
      var row := store.worker.snapshots[id];
      var core := ChildRecord(owner, plan, prompt, row, store.records[plan.effective].core.persistence);
      var bytes := RowBytes(store.worker.config.kernels, row);
      r := store.Register(id, core, bytes, defaultTtl, row.tokens);
      ghost var after, now := store.Now(), store.worker.snapshots;
      store.FrozenKeys();
      BroodingNext(b, held, after, now, hatched, store.clock, ids, i, Entry(core, store.clock, defaultTtl, bytes),
        row.tokens, r.Ok?, store.hostBudget, store.worker.config.context);
      OneMore(b0, b, after, Elems(ids), id);
      PlannedKept(b, after, {id}, plan, tokens, ids);
      PlannedIn(after, plan, tokens, ids);
      if r.Ok? {
        ChildRecorded(after, id, owner, plan, prompt, q, row, b.recs[plan.effective].core.persistence, store.clock,
          defaultTtl, bytes,
          store.hostBudget, store.worker.config.context);
      } else {
        TailElems(ids, i);
        LeftSound(after, now, store.clock, ids, Elems(ids[i..]));
      }
    }

    // Under the lease of the effective parent: bring it back, ask, register the
    // children.
    method EvaluateLeased(plan: Plan, owner: Owner, prompts: seq<Prompt>, single: bool, ids: seq<Id>,
        ghost tokens: seq<Token>)
      returns (r: Result<Batch, ServiceError>, ghost parent: Option<Snapshot>)
      requires Settled() && Planned(store.Now(), plan, tokens, ids) && Elems(ids) !! store.aux.used && Distinct(ids)
      requires (ids == [] || |ids| == |prompts|) && (single ==> |prompts| == 1)
      modifies store, store.worker, store.worker.runtime
      ensures store.Valid() && Sized(store.worker.config.kernels) && 0 < defaultTtl && store.clock == old(store.clock)
      ensures Evolves(old(store.Now()), store.Now(), Elems(ids))
      ensures Left(store.Now(), store.worker.snapshots, store.clock, ids, r.Ok?)
      ensures r.Ok? ==> parent.Some? && parent.value.tokens == tokens
      ensures r.Err? ==> Outside(r.error)
      ensures r.Ok? ==> Told(parent.value, QuestionsOf(prompts, ids), r.value)
      ensures r.Ok? ==>
        Kids(old(store.Now()), store.Now(), owner, plan, prompts, QuestionsOf(prompts, ids), ids, store.clock,
          defaultTtl)
    {
      hide Books, Agrees, Sound, Evolves, Residents, Cores, Elems, Sized, PendingSafe, Persisted, Lineage, Planned,
        Left, Pins, SavedUnder, Kids, Told;
      ghost var b := store.Now();
      store.FrozenKeys();
      SoundNothing(b, store.worker.snapshots, Pins(store.records));
      PlannedIn(b, plan, tokens, ids);
      var restored := store.Restore(plan.effective);
      store.FrozenKeys();
      ghost var b1 := store.Now();
      SettledKept(b, b1, store.worker.snapshots, store.hostBudget, store.worker.config.context);
      EvolvesUsed(b, b1);
      var none: set<Id> := {};
      EvolvesUpTo(b, b1, none, Elems(ids));
      if restored.Err? {
        LeftFresh(b1, store.worker.config, store.worker.snapshots, store.clock, ids, store.hostBudget);
        LeftWeaker(b1, store.worker.snapshots, store.clock, ids);
        return Err(Stored(restored.error)), None;
      }
      PlannedKept(b, b1, none, plan, tokens, ids);
      PlannedTokens(b1, plan, tokens, ids);
      QuestionsSaved(prompts, ids);
      r, parent := AskAndRegister(plan, owner, prompts, single, ids, restored.value.tokens, tokens, b);
    }

    method AskAndRegister(plan: Plan, owner: Owner, prompts: seq<Prompt>, single: bool, ids: seq<Id>, reused: nat,
        ghost tokens: seq<Token>, ghost b0: Book)
      returns (r: Result<Batch, ServiceError>, ghost parent: Option<Snapshot>)
      requires Settled() && Planned(store.Now(), plan, tokens, ids) && Elems(ids) !! store.aux.used && Distinct(ids)
      requires |ids| <= |prompts| && SavedUnder(QuestionsOf(prompts, ids), ids) && (single ==> |prompts| == 1)
      requires plan.effective in store.records && plan.effective in store.aux.frozen
      requires store.aux.frozen[plan.effective] == tokens && reused == store.records[plan.effective].core.tokens
      requires Evolves(b0, store.Now(), Elems(ids)) && b0.recs.Keys <= b0.aux.used && Elems(ids) !! b0.aux.used
      modifies store, store.worker, store.worker.runtime
      ensures store.Valid() && Sized(store.worker.config.kernels) && 0 < defaultTtl && store.clock == old(store.clock)
      ensures Evolves(b0, store.Now(), Elems(ids)) && Left(store.Now(), store.worker.snapshots, store.clock, ids, r.Ok?)
      ensures r.Ok? ==> parent.Some? && parent.value.tokens == tokens
      ensures r.Err? ==> Outside(r.error)
      ensures r.Ok? ==> Told(parent.value, QuestionsOf(prompts, ids), r.value)
      ensures r.Ok? ==>
        Kids(b0, store.Now(), owner, plan, prompts, QuestionsOf(prompts, ids), ids, store.clock, defaultTtl)
    {
      hide Books, Agrees, Sound, Evolves, Residents, Cores, Elems, Sized, PendingSafe, Persisted, Lineage, Planned,
        Left, SavedUnder, Answered, BatchReported, Told, Brooding, Hatchlings, QuestionsOf, Recorded, SavedAll;
      ghost var held := store.worker.snapshots;
      ghost var resident := plan.effective in held && store.worker.runtime.HasResident(held[plan.effective]);
      var qs := QuestionsOf(prompts, ids);
      var asked, reports := AskWorker(plan.effective, qs, single, ids);
      if asked.Err? {
        return Err(asked.error), None;
      }
      parent := Some(held[plan.effective]);
      var usage := Accounting.Tally(reports, reused);
      TallyTold(parent.value, qs, resident, reports, Batch(asked.value, usage));
      ghost var hatched := store.worker.snapshots;
      LeftBrooding(store.Now(), hatched, hatched, store.clock, ids, 0);
      ghost var s := Saving(owner, plan, prompts, qs, ids, store.records[plan.effective].core.persistence, store.clock,
        defaultTtl);
      UsedGrows(b0, store.Now(), Elems(ids));
      NoneSaved(b0, store.Now(), s);
      if * {
        LeftWeakened(store.Now(), hatched, store.clock, ids, 0 == |ids|);
        return Err(Protocol), parent;  // provenance or an answer that cannot be mapped
      }
      for i := 0 to |ids|
        invariant store.Valid() && store.clock == old(store.clock)
        invariant Brooding(store.Now(), store.worker.snapshots, hatched, store.clock, ids, i)
        invariant Planned(store.Now(), plan, tokens, ids) && Evolves(b0, store.Now(), Elems(ids))
        invariant plan.effective in store.records && store.records[plan.effective].core.persistence == s.persistence
        invariant SavedAll(b0, store.Now(), s, i)
      {
        LeftBrooding(store.Now(), store.worker.snapshots, hatched, store.clock, ids, i);
        if * {
          LeftWeakened(store.Now(), store.worker.snapshots, store.clock, ids, i == |ids|);
          return Err(Protocol), parent;
        }
        HatchedNext(hatched, plan.effective, tokens, qs, ids, i);
        ghost var b := store.Now();
        var registered := RegisterChild(plan, owner, prompts[i], ids, i, tokens, qs[i], hatched, b0);
        if registered.Err? {
          return Err(Stored(registered.error)), parent;
        }
        SavedNext(b0, b, store.Now(), s, i);
      }
      LeftBrooding(store.Now(), store.worker.snapshots, hatched, store.clock, ids, |ids|);
      return Ok(Batch(asked.value, usage)), parent;
    }

    // with store.lease(plan.effective_parent)
    method EvaluateUnderLease(plan: Plan, owner: Owner, prompts: seq<Prompt>, single: bool, ids: seq<Id>,
        ghost tokens: seq<Token>)
      returns (r: Result<Batch, ServiceError>, ghost parent: Option<Snapshot>)
      requires Settled() && Fits(store.Now(), plan, tokens) && Elems(ids) !! store.aux.used && Distinct(ids)
      requires (ids == [] || |ids| == |prompts|) && (single ==> |prompts| == 1)
      modifies store, store.worker, store.worker.runtime
      ensures store.Valid() && Sized(store.worker.config.kernels) && 0 < defaultTtl && store.clock == old(store.clock)
      ensures Evolves(old(store.Now()), store.Now(), Elems(ids))
      ensures Left(store.Now(), store.worker.snapshots, store.clock, ids, r.Ok?)
      ensures r.Ok? ==> parent.Some? && parent.value.tokens == tokens
      ensures r.Err? ==> Outside(r.error)
      ensures r.Ok? ==> Told(parent.value, QuestionsOf(prompts, ids), r.value)
      ensures r.Ok? ==>
        Kids(old(store.Now()), store.Now(), owner, plan, prompts, QuestionsOf(prompts, ids), ids, store.clock,
          defaultTtl)
      ensures r.Ok? ==> Fits(store.Now(), plan, tokens)
    {
      hide Books, Agrees, Sound, Evolves, PendingSafe, Residents, Cores, Persisted, Lineage, Fits, Sized, PinnedBook,
        UnpinnedBook, Pins, Planned, Left, Elems, Told, QuestionsOf, Kids;
      ghost var b, held := store.Now(), store.worker.snapshots;
      SoundParts(b, held, {}, {});
      store.FrozenKeys();
      FitsIn(b, plan, tokens);
      var none: set<Id> := {};
      var leased, pins, base := store.Lease([plan.effective]);
      EvolvesUsed(b, base);
      if leased.Err? {
        SettledKept(b, base, held, store.hostBudget, store.worker.config.context);
        EvolvesUpTo(b, base, none, Elems(ids));
        LeftFresh(base, store.worker.config, held, store.clock, ids, store.hostBudget);
        LeftWeaker(base, held, store.clock, ids);
        return Err(Stored(leased.error)), None;
      }
      LeasedSettled(b, base, held, pins, store.hostBudget, store.worker.config.context);
      assert [plan.effective][0] in pins;
      PinnedPlan(b, base, pins, plan, tokens, ids, store.hostBudget, store.worker.config.context);
      r, parent := EvaluateLeased(plan, owner, prompts, single, ids, tokens);
      ghost var c := store.Now();
      LeaseDone(b, base, pins, c, Elems(ids));
      LeftUnpinned(c, store.worker.snapshots, store.clock, ids, r.Ok?);
      PinnedPlanDone(base, pins, c, Elems(ids), plan, tokens, ids);
      if r.Ok? {
        PinnedEvictions(base, pins);
        KidsSince(b, PinnedBook(base, pins), c, owner, plan, prompts, QuestionsOf(prompts, ids), ids, store.clock,
          defaultTtl);
        KidsUnpinned(b, c, owner, plan, prompts, QuestionsOf(prompts, ids), ids, store.clock, defaultTtl);
      }
      store.Release(pins);
    }

    // Every branch read from `parent`, and the sums are what that costs.
    ghost predicate Told(parent: Snapshot, qs: seq<Question>, batch: Batch) {
      && 0 < store.worker.config.batch && Answered(store.worker.config, parent, qs, batch.branches)
      && Accounting.Spent(store.worker.config.kernels, parent, qs, batch.usage)
    }

    lemma TallyTold(parent: Snapshot, qs: seq<Question>, resident: bool, reports: seq<BranchReport>, batch: Batch)
      requires 0 < store.worker.config.batch && Answered(store.worker.config, parent, qs, batch.branches)
      requires BatchReported(store.worker.config.kernels, parent, qs, resident, reports) && |reports| == |qs|
      requires batch.usage == Accounting.Totals(reports, |parent.tokens|)
      ensures Told(parent, qs, batch)
    {
      hide Answered, BatchReported, Accounting.Spent, Accounting.Totals;
      Accounting.BatchSpent(store.worker.config.kernels, parent, qs, resident, reports);
    }

    // What a decision or a state evaluation answers: every follow-up was compiled
    // for the planned parent and read from the snapshot that holds its tokens.
    ghost predicate Answers(d: Decided, parent: Option<Snapshot>, id: Id, asks: seq<Ask>, ids: seq<Id>)
      reads store
    {
      && parent.Some? && d.plan.requested == id && d.children == ids && |d.prompts| == |asks|
      && (forall i :: 0 <= i < |asks| ==> rendering.followup(d.plan.mode, d.plan.prompt, asks[i]) == Some(d.prompts[i]))
      && Fits(store.Now(), d.plan, parent.value.tokens)
      && Told(parent.value, QuestionsOf(d.prompts, ids), d.batch)
    }

    // The children it leaves: each is recorded as asked unless it was memory-only
    // and made room for a later one; and each takes the thread of `id` further.
    ghost predicate Saves(before: Book, id: Id, relationship: Relationship, owner: Owner, d: Decided, ids: seq<Id>)
      reads store
    {
      Leaves(before, store.Now(), id, relationship, owner, d.plan, d.prompts, QuestionsOf(d.prompts, ids), ids,
        store.clock, defaultTtl)
    }

    // With exact causal kernels, every answer is what the uninterrupted model says
    // to the whole rendered prompt.
    ghost predicate ReadsStock(d: Decided) {
      && |d.batch.branches| == |d.prompts|
      && forall model: LayerSplit.Model, split: nat | Causal(store.worker.config, model, split) ::
          forall i :: 0 <= i < |d.prompts| ==> StockAnswer(model, d.prompts[i], d.batch.branches[i].seen)
    }

    ghost predicate StockAnswer(model: LayerSplit.Model, prompt: Prompt, seen: Capture) {
      ReadsLast(model, rendering.tokens(prompt), seen)
    }

    lemma AnswersReadStock(d: Decided, parent: Option<Snapshot>, id: Id, asks: seq<Ask>, ids: seq<Id>)
      requires Answers(d, parent, id, asks, ids)
      ensures ReadsStock(d)
    {
      hide Causal, ReadsLast, Fits, Answered;
      var qs := QuestionsOf(d.prompts, ids);
      AsManyAnswers(parent.value, qs, d.batch.branches);
      forall model: LayerSplit.Model, split: nat, i | Causal(store.worker.config, model, split) && 0 <= i < |d.prompts|
        ensures StockAnswer(model, d.prompts[i], d.batch.branches[i].seen)
      {
        AnsweredIsStock(store.worker.config, model, split, parent.value, qs, d.batch.branches);
        assert qs[i].full == rendering.tokens(d.prompts[i]);
      }
    }

    lemma AsManyAnswers(parent: Snapshot, qs: seq<Question>, branches: seq<Branch>)
      requires 0 < store.worker.config.batch && Answered(store.worker.config, parent, qs, branches)
      ensures |branches| == |qs|
    {
      hide BranchOf, Faithful;
    }

    // decide: a batch of questions on one snapshot.
    method Decide(id: Id, relationship: Relationship, asks: seq<Ask>, owner: Owner, ids: seq<Id>, newId: Id)
      returns (r: Result<Decided, ServiceError>, ghost parent: Option<Snapshot>)
      requires Valid() && (ids == [] || |ids| == |asks|) && Distinct(ids)
      requires newId !in ids && newId !in store.aux.used && Elems(ids) !! store.aux.used
      modifies this`pendingIds, store, store.worker, store.worker.runtime
      ensures Valid() && store.clock == old(store.clock)
      ensures Evolves(old(store.Now()), store.Now(), {newId} + Elems(ids)) && Tidied(old(store.Now()), store.Now())
      ensures Onward(old(store.Now()), store.Now())
      ensures r.Ok? ==> Answers(r.value, parent, id, asks, ids) && ReadsStock(r.value)
      ensures r.Ok? ==> Saves(old(store.Now()), id, relationship, owner, r.value, ids)
      ensures Refuses(old(store.Now()), Found(old(store.Now()), id), id, relationship, asks, Failure(r))
      ensures r.Err? ==> forall child :: child in ids ==> child !in store.records && child !in store.worker.snapshots
    {
      hide Settled, Evolves, Elems, Answers, ReadsStock, Saves, Tidied, Onward, Refuses;
      r, parent := Answer(id, relationship, asks, false, owner, ids, newId);
      if r.Ok? {
        AnswersReadStock(r.value, parent, id, asks, ids);
      }
    }

    // state_eval: one prompt; its vectors and top logits are not modelled.
    method StateEval(id: Id, relationship: Relationship, ask: Ask, owner: Owner, ids: seq<Id>, newId: Id)
      returns (r: Result<Decided, ServiceError>, ghost parent: Option<Snapshot>)
      requires Valid() && |ids| <= 1
      requires newId !in ids && newId !in store.aux.used && Elems(ids) !! store.aux.used
      modifies this`pendingIds, store, store.worker, store.worker.runtime
      ensures Valid() && store.clock == old(store.clock)
      ensures Evolves(old(store.Now()), store.Now(), {newId} + Elems(ids)) && Tidied(old(store.Now()), store.Now())
      ensures Onward(old(store.Now()), store.Now())
      ensures r.Ok? ==> Answers(r.value, parent, id, [ask], ids) && ReadsStock(r.value)
      ensures r.Ok? ==> Saves(old(store.Now()), id, relationship, owner, r.value, ids)
      ensures Refuses(old(store.Now()), Found(old(store.Now()), id), id, relationship, [ask], Failure(r))
      ensures r.Err? ==> forall child :: child in ids ==> child !in store.records && child !in store.worker.snapshots
    {
      hide Settled, Evolves, Elems, Answers, ReadsStock, Saves, Tidied, Onward, Refuses;
      r, parent := Answer(id, relationship, [ask], true, owner, ids, newId);
      if r.Ok? {
        AnswersReadStock(r.value, parent, id, [ask], ids);
      }
    }

    // Some question of the request does not compile for what it goes on from.
    ghost predicate Unrendered(b: Book, id: Id, relationship: Relationship, asks: seq<Ask>) {
      exists mode, prompt, i ::
        Bases(b, id, relationship, mode, prompt) && 0 <= i < |asks| && rendering.followup(mode, prompt, asks[i]).None?
    }

    // When a request is refused for its own sake: as missing exactly when its record is
    // not found, as unsupported exactly for a replacement without an anchor, as
    // uncompilable only for a question that does not compile, and always for one unless
    // a promotion failed before. Any other refusal is a failure of the store, the worker
    // or the transport.
    ghost predicate Refuses(b: Book, found: bool, id: Id, relationship: Relationship, asks: seq<Ask>,
        error: Option<ServiceError>) {
      && (!found ==> error == Some(Stored(Missing)))
      && (error == Some(Unsupported) <==> found && Anchorless(b, id, relationship))
      && (error == Some(Uncompilable) ==> found && Unrendered(b, id, relationship, asks))
      && (found && Direct(b, id, relationship) && Unrendered(b, id, relationship, asks) ==> error == Some(Uncompilable))
    }

    lemma RefusesSince(b: Book, held0: map<Id, Snapshot>, after: Book, held: map<Id, Snapshot>, found: bool, id: Id,
        relationship: Relationship, asks: seq<Ask>, error: Option<ServiceError>)
      requires OnlyExpired(b, held0, after, held, {}, {}) && Lineage(after) && (found <==> id in after.recs)
      requires Refuses(after, found, id, relationship, asks, error)
      ensures Refuses(b, Found(b, id), id, relationship, asks, error)
    {
      hide Registry.Kept, Cores, Live, Bases, Anchorless, Direct, Lineage;
      if found {
        forall mode, prompt
          ensures Bases(b, id, relationship, mode, prompt) <==> Bases(after, id, relationship, mode, prompt)
          ensures Anchorless(b, id, relationship) <==> Anchorless(after, id, relationship)
          ensures Direct(b, id, relationship) <==> Direct(after, id, relationship)
        {
          BasesSince(b, held0, after, held, id, relationship, mode, prompt);
        }
        BasesSince(b, held0, after, held, id, relationship, Context, b.recs[id].core.prompt);
      }
    }

    // No plan was made.
    lemma RefusesPlan(b: Book, found: bool, id: Id, relationship: Relationship, asks: seq<Ask>, error: ServiceError)
      requires found ==> id in b.recs
      requires !found ==> error == Stored(Missing)
      requires error == Unsupported || Outside(error)
      requires error == Unsupported ==> found && Anchorless(b, id, relationship)
      requires found && Anchorless(b, id, relationship) ==> error == Unsupported
      requires found && Direct(b, id, relationship) ==> error == Unsupported
      ensures Refuses(b, found, id, relationship, asks, Some(error))
    {
    }

    // A plan was made, and a question did not compile, or all did.
    lemma RefusesPrompts(b: Book, id: Id, relationship: Relationship, asks: seq<Ask>, mode: Kind, prompt: Prompt,
        error: Option<ServiceError>)
      requires Bases(b, id, relationship, mode, prompt)
      requires error == Some(Uncompilable) <==>
        exists i :: 0 <= i < |asks| && rendering.followup(mode, prompt, asks[i]).None?
      requires error.Some? ==> error.value == Uncompilable || Outside(error.value)
      ensures Refuses(b, true, id, relationship, asks, error)
    {
    }

    // The serialised body both share: expire, answer, and on any failure take back
    // what the worker was asked to save.
    method Answer(id: Id, relationship: Relationship, asks: seq<Ask>, single: bool, owner: Owner, ids: seq<Id>,
        newId: Id)
      returns (r: Result<Decided, ServiceError>, ghost parent: Option<Snapshot>)
      requires Valid() && (ids == [] || |ids| == |asks|) && Distinct(ids) && (single ==> |asks| == 1)
      requires newId !in ids && newId !in store.aux.used && Elems(ids) !! store.aux.used
      modifies this`pendingIds, store, store.worker, store.worker.runtime
      ensures Valid() && store.clock == old(store.clock)
      ensures Evolves(old(store.Now()), store.Now(), {newId} + Elems(ids)) && Tidied(old(store.Now()), store.Now())
      ensures Onward(old(store.Now()), store.Now())
      ensures r.Ok? ==> Answers(r.value, parent, id, asks, ids)
      ensures r.Ok? ==> Saves(old(store.Now()), id, relationship, owner, r.value, ids)
      ensures Refuses(old(store.Now()), Found(old(store.Now()), id), id, relationship, asks, Failure(r))
      ensures r.Err? ==> forall child :: child in ids ==> child !in store.records && child !in store.worker.snapshots
    {
      hide Books, Agrees, Sound, Evolves, Elems, Answers, Sized, Left, Leaves, QuestionsOf, OnlyExpired, Tidied, Onward,
        Refuses, Lineage, Registry.Kept, Live, Cores;
      ghost var b0, held0 := store.Now(), store.worker.snapshots;
      store.FrozenKeys();
      Expire();
      ghost var b1, held1 := store.Now(), store.worker.snapshots;
      store.FrozenKeys();
      EvolvesUsed(b0, b1);
      SoundParts(b1, held1, {}, {});
      r, parent := AnswerExpired(id, relationship, asks, single, owner, ids, newId);
      RefusesSince(b0, held0, b1, held1, id in b1.recs, id, relationship, asks, Failure(r));
      ghost var b2 := store.Now();
      store.FrozenKeys();
      EvolvesScopes(b1, b2, {newId} + Elems(ids));
      if r.Err? {
        LeftUndoable(b2, store.worker.snapshots, store.clock, pendingIds, store.hostBudget,
          store.worker.config.context);
        Rollback(pendingIds);
        UnregisteredUnheld(store.Now(), store.worker.config, store.worker.snapshots, b2, ids, pendingIds);
        NoElems();
        EvolvesUpTo(b2, store.Now(), Elems(pendingIds), Elems(ids));
      } else {
        LeftSettled(b2, store.worker.snapshots, store.clock, pendingIds);
        EvolvesRefl(b2);
        ghost var none: set<Id> := {};
        EvolvesUpTo(b2, b2, none, Elems(ids));
        LeavesSince(b0, b1, b2, id, relationship, owner, r.value.plan, r.value.prompts,
          QuestionsOf(r.value.prompts, ids), ids, store.clock, defaultTtl);
      }
      pendingIds := [];
      UsedGrows(b1, b2, {newId} + Elems(ids));
      UsedGrows(b2, store.Now(), Elems(ids));
      TidiedSince(b0, held0, b1, held1, store.Now(), {newId} + Elems(ids));
      RequestEvolves(b0, b1, b2, store.Now(), newId, ids);
      store.FrozenKeys();
      RequestOnward(b0, store.Now(), {newId} + Elems(ids));
    }

    // The plan of a request and its compiled prompts, or its refusal.
    method PlanPrompts(id: Id, relationship: Relationship, asks: seq<Ask>, newId: Id)
      returns (r: Result<(Plan, seq<Prompt>), ServiceError>)
      requires Settled() && newId !in store.aux.used
      modifies store, store.worker, store.worker.runtime
      ensures Settled() && Evolves(old(store.Now()), store.Now(), {newId}) && store.clock == old(store.clock)
      ensures r.Ok? ==> r.value.0.effective in store.aux.frozen && |r.value.1| == |asks|
      ensures r.Ok? ==> Fits(store.Now(), r.value.0, store.aux.frozen[r.value.0.effective])
      ensures r.Ok? ==> id in old(store.records) && Derives(old(store.records)[id].core, relationship, r.value.0)
      ensures r.Ok? ==> r.value.0.requested == id && old(store.Visible(id))
      ensures r.Ok? ==> forall i :: 0 <= i < |asks| ==>
          rendering.followup(r.value.0.mode, r.value.0.prompt, asks[i]) == Some(r.value.1[i])
      ensures r.Err? ==> Refuses(old(store.Now()), old(store.Visible(id)), id, relationship, asks, Some(r.error))
      ensures r.Ok? ==> forall error: Option<ServiceError> {:trigger
          Refuses(old(store.Now()), true, id, relationship, asks, error)} ::
        (error.Some? ==> Outside(error.value)) ==> Refuses(old(store.Now()), true, id, relationship, asks, error)
    {
      hide Books, Agrees, Sound, Evolves, Sized, Fits, Derives, Refuses, Lineage, Bases;
      ghost var b0, found := store.Now(), store.Visible(id);
      SoundParts(b0, store.worker.snapshots, {}, {});
      var plan := MakePlan(id, relationship, newId);
      if plan.Err? {
        RefusesPlan(b0, found, id, relationship, asks, plan.error);
        return Err(plan.error);
      }
      PlanBased(b0, store.Now(), id, relationship, plan.value, store.aux.frozen[plan.value.effective], {newId});
      var prompts := CompileAll(plan.value, asks);
      if prompts.Err? {
        RefusesPrompts(b0, id, relationship, asks, plan.value.mode, plan.value.prompt, Some(prompts.error));
        return Err(prompts.error);
      }
      forall error: Option<ServiceError> | error.Some? ==> Outside(error.value)
        ensures Refuses(b0, true, id, relationship, asks, error)
      {
        RefusesPrompts(b0, id, relationship, asks, plan.value.mode, plan.value.prompt, error);
      }
      return Ok((plan.value, prompts.value));
    }

    method AnswerExpired(id: Id, relationship: Relationship, asks: seq<Ask>, single: bool, owner: Owner, ids: seq<Id>,
        newId: Id)
      returns (r: Result<Decided, ServiceError>, ghost parent: Option<Snapshot>)
      requires Settled() && pendingIds == [] && (ids == [] || |ids| == |asks|) && Distinct(ids)
      requires (single ==> |asks| == 1)
      requires newId !in ids && newId !in store.aux.used && Elems(ids) !! store.aux.used
      modifies this`pendingIds, store, store.worker, store.worker.runtime
      ensures store.Valid() && Sized(store.worker.config.kernels) && 0 < defaultTtl && store.clock == old(store.clock)
      ensures Evolves(old(store.Now()), store.Now(), {newId} + Elems(ids))
      ensures Left(store.Now(), store.worker.snapshots, store.clock, pendingIds, r.Ok?)
      ensures pendingIds ==
        ids || (pendingIds == [] && r.Err? && forall child :: child in ids ==> child !in store.records)
      ensures r.Ok? ==> Answers(r.value, parent, id, asks, ids)
      ensures r.Ok? ==> Saves(old(store.Now()), id, relationship, owner, r.value, ids)
      ensures Refuses(old(store.Now()), old(store.Visible(id)), id, relationship, asks, Failure(r))
    {
      hide Books, Agrees, Sound, Evolves, Elems, Sized, Left, Fits, Told, QuestionsOf, Kids, Derives, Leaves, Refuses;
      ghost var b0 := store.Now();
      store.FrozenKeys();
      var planned := PlanPrompts(id, relationship, asks, newId);
      ghost var b1 := store.Now();
      store.FrozenKeys();
      EvolvesScopes(b0, b1, {newId});
      NoElems();
      ElemsIn(ids);
      ElemsHas(ids);
      LeftFresh(b1, store.worker.config, store.worker.snapshots, store.clock, [], store.hostBudget);
      LeftWeaker(b1, store.worker.snapshots, store.clock, []);
      EvolvesUpTo(b0, b1, {newId}, {newId} + Elems(ids));
      if planned.Err? {
        return Err(planned.error), None;
      }
      var (plan, prompts) := planned.value;
      pendingIds := ids;
      var batch: Result<Batch, ServiceError>;
      batch, parent := EvaluateUnderLease(plan, owner, prompts, single, ids, store.aux.frozen[plan.effective]);
      TwoAdds(b0, b1, store.Now(), {newId}, Elems(ids));
      assert Refuses(b0, true, id, relationship, asks, Failure(batch));
      if batch.Err? {
        return Err(batch.error), parent;
      }
      UsedGrows(b0, b1, {newId});
      LeavesNow(b0, b1, store.Now(), id, relationship, owner, plan, prompts, QuestionsOf(prompts, ids), ids,
        store.clock, defaultTtl);
      return Ok(Decided(plan, prompts, batch.value, ids)), parent;
    }

    // -- riding -------------------------------------------------------------------------

    // ride: text from a snapshot, read on top of its own tokens.
    method Ride(id: Id, relationship: Relationship, ask: Ask, maxTokens: nat, trace: bool, newId: Id)
      returns (r: Result<Ridden, ServiceError>, ghost rode: Option<Rode>)
      requires Valid() && newId !in store.aux.used
      modifies store, store.worker, store.worker.runtime
      ensures Valid() && store.clock == old(store.clock) && Evolves(old(store.Now()), store.Now(), {newId})
      ensures Tidied(old(store.Now()), store.Now()) && Onward(old(store.Now()), store.Now())
      ensures r.Ok? ==> rode.Some? && RodeFrom(rode.value, id, ask, maxTokens, trace, r.value)
      ensures r.Ok? ==> id in old(store.records) && Derives(old(store.records)[id].core, relationship, rode.value.plan)
      ensures r.Ok? ==> Fits(store.Now(), rode.value.plan, rode.value.parent.tokens)
      ensures r.Ok? ==> RodeGreedily(rode.value.prompt, maxTokens, r.value.ride)
      ensures Refuses(old(store.Now()), Found(old(store.Now()), id), id, relationship, [ask], Failure(r))
    {
      hide Store.Valid, Books, Agrees, Sound, Evolves, Sized, RodeFrom, Fits, RodeGreedily, Derives, OnlyExpired,
        Tidied, Onward, Refuses, Lineage, Registry.Kept, Live, Cores;
      ghost var b0, held0 := store.Now(), store.worker.snapshots;
      FrozenKeysSettled();
      Expire();
      ghost var b1, held1 := store.Now(), store.worker.snapshots;
      FrozenKeysSettled();
      EvolvesUsed(b0, b1);
      SoundParts(b1, held1, {}, {});
      r, rode := RideExpired(id, relationship, ask, maxTokens, trace, newId);
      RefusesSince(b0, held0, b1, held1, id in b1.recs, id, relationship, [ask], Failure(r));
      if r.Ok? {
        ghost var none: set<Id> := {};
        SameFields(b0, b1, none, id);
        RidesGreedily(rode.value, id, ask, maxTokens, trace, r.value);
      }
      UsedGrows(b1, store.Now(), {newId});
      TidiedSince(b0, held0, b1, held1, store.Now(), {newId});
      ChainAdds(b0, b1, store.Now(), newId);
      EvolvesScopes(b0, store.Now(), {newId});
      FrozenKeysSettled();
      RequestOnward(b0, store.Now(), {newId});
    }

    lemma FrozenKeysSettled()
      requires Settled()
      ensures store.aux.frozen.Keys == store.records.Keys && store.records.Keys <= store.aux.used
    {
      hide Books, Agrees, Sound, Sized;
      store.FrozenKeys();
    }

    method RideExpired(id: Id, relationship: Relationship, ask: Ask, maxTokens: nat, trace: bool, newId: Id)
      returns (r: Result<Ridden, ServiceError>, ghost rode: Option<Rode>)
      requires Settled() && Renders() && newId !in store.aux.used
      modifies store, store.worker, store.worker.runtime
      ensures Settled() && store.clock == old(store.clock) && Evolves(old(store.Now()), store.Now(), {newId})
      ensures r.Ok? ==> rode.Some? && RodeFrom(rode.value, id, ask, maxTokens, trace, r.value)
      ensures r.Ok? ==> id in old(store.records) && Derives(old(store.records)[id].core, relationship, rode.value.plan)
      ensures r.Ok? ==> Fits(store.Now(), rode.value.plan, rode.value.parent.tokens)
      ensures Refuses(old(store.Now()), old(store.Visible(id)), id, relationship, [ask], Failure(r))
    {
      hide Store.Valid, Books, Agrees, Sound, Evolves, Sized, Fits, Derives, Refuses, Lineage, Bases;
      ghost var b0 := store.Now();
      ghost var found := store.Visible(id);
      SoundParts(b0, store.worker.snapshots, {}, {});
      FrozenKeysSettled();
      var plan := MakePlan(id, relationship, newId);
      if plan.Err? {
        RefusesPlan(b0, found, id, relationship, [ask], plan.error);
        return Err(plan.error), None;
      }
      PlanBased(b0, store.Now(), id, relationship, plan.value, store.aux.frozen[plan.value.effective], {newId});
      var prompt := rendering.followup(plan.value.mode, plan.value.prompt, ask);
      assert [ask][0] == ask;
      if prompt.None? {
        RefusesPrompts(b0, id, relationship, [ask], plan.value.mode, plan.value.prompt, Some(Uncompilable));
        return Err(Uncompilable), None;
      }
      ghost var b1 := store.Now();
      FrozenKeysSettled();
      ghost var parent: Option<Snapshot>;
      r, parent := RideUnderLease(plan.value, prompt.value, maxTokens, trace, store.aux.frozen[plan.value.effective]);
      AddsThenMoves(b0, b1, store.Now(), newId);
      RefusesPrompts(b0, id, relationship, [ask], plan.value.mode, plan.value.prompt, Failure(r));
      if r.Ok? {
        rode := Some(Rode.Rode(plan.value, prompt.value, parent.value));
      } else {
        rode := None;
      }
    }

    method RideUnderLease(plan: Plan, prompt: Prompt, maxTokens: nat, trace: bool, ghost tokens: seq<Token>)
      returns (r: Result<Ridden, ServiceError>, ghost parent: Option<Snapshot>)
      requires Settled() && Renders() && Fits(store.Now(), plan, tokens)
      modifies store, store.worker, store.worker.runtime
      ensures Settled() && store.clock == old(store.clock) && Evolves(old(store.Now()), store.Now(), {})
      ensures r.Ok? ==> parent.Some? && parent.value.tokens == tokens
      ensures r.Err? ==> Outside(r.error)
      ensures r.Ok? ==> RidFrom(parent.value, rendering.tokens(prompt), maxTokens, trace, r.value)
      ensures r.Ok? ==> Fits(store.Now(), plan, tokens)
    {
      hide Books, Agrees, Sound, Evolves, PendingSafe, Residents, Cores, Persisted, Lineage, Fits, Sized, PinnedBook,
        UnpinnedBook, Pins, Planned, RidFrom;
      ghost var b, held := store.Now(), store.worker.snapshots;
      SoundParts(b, held, {}, {});
      store.FrozenKeys();
      FitsIn(b, plan, tokens);
      NoElems();
      ghost var none: set<Id> := {};
      var leased, pins, base := store.Lease([plan.effective]);
      EvolvesUsed(b, base);
      if leased.Err? {
        SettledKept(b, base, held, store.hostBudget, store.worker.config.context);
        return Err(Stored(leased.error)), None;
      }
      LeasedSettled(b, base, held, pins, store.hostBudget, store.worker.config.context);
      assert [plan.effective][0] in pins;
      PinnedPlan(b, base, pins, plan, tokens, [], store.hostBudget, store.worker.config.context);
      r, parent := RideLeased(plan, prompt, maxTokens, trace, tokens);
      ghost var c := store.Now();
      LeaseDone(b, base, pins, c, none);
      UnpinnedSound(c, store.worker.snapshots, {}, {});
      PinnedPlanDone(base, pins, c, none, plan, tokens, []);
      store.Release(pins);
    }

    method RideLeased(plan: Plan, prompt: Prompt, maxTokens: nat, trace: bool, ghost tokens: seq<Token>)
      returns (r: Result<Ridden, ServiceError>, ghost parent: Option<Snapshot>)
      requires Settled() && Renders() && Planned(store.Now(), plan, tokens, [])
      modifies store, store.worker, store.worker.runtime
      ensures Settled() && store.clock == old(store.clock) && Evolves(old(store.Now()), store.Now(), {})
      ensures r.Ok? ==> parent.Some? && parent.value.tokens == tokens
      ensures r.Err? ==> Outside(r.error)
      ensures r.Ok? ==> RidFrom(parent.value, rendering.tokens(prompt), maxTokens, trace, r.value)
    {
      hide Books, Agrees, Sound, Evolves, Residents, Cores, Sized, PendingSafe, Persisted, Lineage, Planned, Pins,
        WorkerSpec.RideStep, RidSnapshot, AllFaithful, Accounting.RideSpent;
      ghost var b := store.Now();
      store.FrozenKeys();
      SoundNothing(b, store.worker.snapshots, Pins(store.records));
      PlannedIn(b, plan, tokens, []);
      var restored := store.Restore(plan.effective);
      store.FrozenKeys();
      ghost var b1 := store.Now();
      SettledKept(b, b1, store.worker.snapshots, store.hostBudget, store.worker.config.context);
      if restored.Err? {
        return Err(Stored(restored.error)), None;
      }
      PlannedKept(b, b1, {}, plan, tokens, []);
      PlannedTokens(b1, plan, tokens, []);
      ghost var held := store.worker.snapshots;
      ghost var resident := plan.effective in held && store.worker.runtime.HasResident(held[plan.effective]);
      var resp, back := store.worker.Ride(FromSnapshot(plan.effective), rendering.tokens(prompt), maxTokens, trace);
      if !resp.Rode? {
        return Err(if resp.Failed? then Worked(resp.error) else Protocol), None;
      }
      HeldFields(b1, store.worker.config, store.worker.snapshots, plan.effective);
      parent := Some(store.worker.snapshots[plan.effective]);
      ServedFaithful(b1, store.worker.config, store.worker.State(),
        Command.Ride(FromSnapshot(plan.effective), rendering.tokens(prompt), maxTokens, trace), resp,
        store.worker.State());
      RideReads(store.worker.config, store.worker.State(), plan.effective, rendering.tokens(prompt), maxTokens, trace,
        resp);
      Accounting.SnapshotRideSpent(store.worker.config, store.worker.State(), plan.effective,
        rendering.tokens(prompt), maxTokens, trace, resp, resident, back);
      var report := Accounting.RideAnswer(rendering.tokens(prompt), resp.ride, true,
        |store.worker.snapshots[plan.effective].tokens|, back);
      // The check that the snapshot's tokens were not read again never fires.
      TokensCounted(b1, store.worker.config, store.worker.snapshots, plan.effective);
      assert report.reused == restored.value.tokens;
      return Ok(Ridden(resp.ride, report)), parent;
    }

    // The ride read what riding `parent` reads, and cost what that costs.
    ghost predicate RidFrom(parent: Snapshot, full: seq<Token>, maxTokens: nat, trace: bool, ridden: Ridden) {
      && RidSnapshot(store.worker.config, parent, full, maxTokens, trace, ridden.ride)
      && Accounting.RideSpent(store.worker.config.kernels, parent, full, ridden.ride, ridden.report)
    }

    ghost predicate RodeFrom(rode: Rode, id: Id, ask: Ask, maxTokens: nat, trace: bool, ridden: Ridden) {
      && rode.plan.requested == id
      && rendering.followup(rode.plan.mode, rode.plan.prompt, ask) == Some(rode.prompt)
      && RidFrom(rode.parent, rendering.tokens(rode.prompt), maxTokens, trace, ridden)
    }

    // With exact causal kernels, the text is the uninterrupted model's greedy
    // continuation of the whole rendered prompt.
    ghost predicate RodeGreedily(prompt: Prompt, maxTokens: nat, ride: Rider) {
      forall model: LayerSplit.Model, split: nat :: Causal(store.worker.config, model, split) ==>
        GreedyRide(model, prompt, maxTokens, ride)
    }

    ghost predicate GreedyRide(model: LayerSplit.Model, prompt: Prompt, maxTokens: nat, ride: Rider) {
      && rendering.tokens(prompt) != [] && 0 < maxTokens && Traced(model, rendering.tokens(prompt), ride)
      && (ride.output, ride.eog) == Greedy(model, store.worker.config.kernels, rendering.tokens(prompt), [], maxTokens)
    }

    lemma RidesGreedily(rode: Rode, id: Id, ask: Ask, maxTokens: nat, trace: bool, ridden: Ridden)
      requires RodeFrom(rode, id, ask, maxTokens, trace, ridden)
      ensures RodeGreedily(rode.prompt, maxTokens, ridden.ride)
    {
      hide Causal, Greedy, RidSnapshot, Traced;
      forall model: LayerSplit.Model, split: nat | Causal(store.worker.config, model, split)
        ensures GreedyRide(model, rode.prompt, maxTokens, ridden.ride)
      {
        RidIsGreedy(store.worker.config, model, split, rode.parent, rendering.tokens(rode.prompt), maxTokens, trace,
          ridden.ride);
      }
    }

    // -- metadata, deletion, time ------------------------------------------------------

    // The stored record, or missing. Nothing else happens but the expiry.
    method Metadata(id: Id) returns (r: Result<Record, ServiceError>)
      requires Valid()
      modifies store, store.worker, store.worker.runtime
      ensures Valid() && store.clock == old(store.clock)
      ensures OnlyExpired(old(store.Now()), old(store.worker.snapshots), store.Now(), store.worker.snapshots, {id}, {})
      ensures Onward(old(store.Now()), store.Now())
      ensures r == if id in store.records then Ok(old(store.records)[id].core) else Err(Stored(Missing))
      ensures r.Ok? ==> Freshest(store.records, id)
    {
      hide Store.Valid, Books, Agrees, Sound, Evolves, Sized, Unmoved, OnlyExpired, Onward;
      ghost var b0, held0 := store.Now(), store.worker.snapshots;
      FrozenKeysSettled();
      Expire();
      ghost var b1, held1 := store.Now(), store.worker.snapshots;
      FrozenKeysSettled();
      EvolvesUsed(b0, b1);
      UntouchedOnly(b0, held0, b1, held1, id);
      if id in store.records {
        TouchedOnly(b0, held0, b1, held1, id);
        ghost var none: set<Id> := {};
        SameFields(b0, b1, none, id);
      }
      r := Look(id);
      UnmovedEvolves(b1, store.Now(), id);
      EvolvesUsed(b1, store.Now());
      ExpiryOnward(b0, held0, store.Now(), store.worker.snapshots, {id}, {});
    }

    // A record that some other names stays; another one leaves the store, the disk
    // and the worker. Nothing else happens but the expiry.
    method Delete(id: Id) returns (r: Result<nat, ServiceError>)
      requires Valid()
      modifies store, store.worker, store.worker.runtime
      ensures Valid() && store.clock == old(store.clock)
      ensures OnlyExpired(old(store.Now()), old(store.worker.snapshots), store.Now(), store.worker.snapshots, {id},
          if r.Ok? then {id} else {})
      ensures Onward(old(store.Now()), store.Now())
      ensures r.Ok? ==> id !in store.disk && id !in store.worker.snapshots
      ensures r.Ok? ==> r.value == HeldBytes(store.worker.config.kernels, old(store.worker.snapshots), id)
      ensures r.Err? ==> r.error == if id in store.records then Stored(InUse) else Stored(Missing)
      ensures r.Err? && id in store.records ==>
        exists child :: child in store.records && id in Refs(store.records[child].core)
      ensures r.Ok? ==> id in old(store.records)
      ensures r.Ok? ==> forall child :: child in store.records ==> id !in Refs(store.records[child].core)
    {
      hide Store.Valid, Books, Agrees, Sound, Evolves, Sized, OnlyExpired, Refs, Forgotten, Onward, RowBytes,
        Registry.Kept, Cores, Live;
      ghost var b0, held0 := store.Now(), store.worker.snapshots;
      FrozenKeysSettled();
      Expire();
      ghost var b1, held1 := store.Now(), store.worker.snapshots;
      FrozenKeysSettled();
      EvolvesUsed(b0, b1);
      UntouchedOnly(b0, held0, b1, held1, id);
      if id in store.records {
        TouchedOnly(b0, held0, b1, held1, id);
        ForgottenOnly(b0, held0, Touched(b1, id), held1, id);
      }
      if id in b1.recs {
        HeldSince(b0, held0, b1, held1, id);
      }
      r := DeleteExpired(id);
      ExpiryOnward(b0, held0, store.Now(), store.worker.snapshots, {id}, if r.Ok? then {id} else {});
    }

    // What the opening expiry leaves in the books, it leaves in the worker.
    lemma HeldSince(b0: Book, held0: map<Id, Snapshot>, b1: Book, held1: map<Id, Snapshot>, id: Id)
      requires OnlyExpired(b0, held0, b1, held1, {}, {}) && id in b1.recs
      ensures id in held1 <==> id in held0
      ensures id in held1 ==> held1[id] == held0[id]
    {
      hide Registry.Kept, Cores, Live;
    }

    method DeleteExpired(id: Id) returns (r: Result<nat, ServiceError>)
      requires Settled() && store.aux.scopes == [] && (id in store.records ==> store.Visible(id))
      modifies store, store.worker, store.worker.runtime
      ensures Settled() && store.clock == old(store.clock) && store.aux.scopes == []
      ensures r.Ok? <==> id in old(store.records) && forall child :: child in old(store.records) ==>
        id !in Refs(old(store.records)[child].core)
      ensures r.Ok? ==> store.Now() == Forgotten(Touched(old(store.Now()), id), id)
      ensures r.Ok? ==> store.worker.snapshots == old(store.worker.snapshots) - {id}
      ensures r.Ok? ==> r.value == HeldBytes(store.worker.config.kernels, old(store.worker.snapshots), id)
      ensures r.Ok? ==> id !in store.records && id !in store.disk
      ensures r.Ok? ==> forall child :: child in store.records ==> id !in Refs(store.records[child].core)
      ensures r.Err? ==>
        store.Now() == (if id in old(store.records) then Touched(old(store.Now()), id) else old(store.Now()))
      ensures r.Err? ==> store.worker.snapshots == old(store.worker.snapshots)
      ensures r.Err? ==> r.error == if id in store.records then Stored(InUse) else Stored(Missing)
      ensures r.Err? && id in store.records ==>
        exists child :: child in store.records && id in Refs(store.records[child].core)
    {
      hide Books, Agrees, Sound, Evolves, Sized, Unshared, PendingSafe, Residents, Cores, Persisted, ForgetRecs,
        SharedChild, Forgotten, Refs, RowBytes;
      ghost var b1, held := store.Now(), store.worker.snapshots;
      store.FrozenKeys();
      SoundNothing(b1, held, {});
      Unleased(b1, store.hostBudget, store.worker.config.context);
      if id in store.records {
        CountsChildren(b1, store.hostBudget, store.worker.config.context, id);
        if store.records[id].refcount == 0 {
          ghost var none: set<Id> := {};
          CanDrop(b1, store.worker.config, held, store.hostBudget, store.worker.config.context, none, id);
        }
      }
      var gone := store.Delete(id);
      store.FrozenKeys();
      DeletedPending(b1, store.Now(), held, store.worker.snapshots, id, gone.Ok?);
      DeletedSettled(b1, store.Now(), store.worker.snapshots, id, gone.Ok?, store.hostBudget,
        store.worker.config.context);
      r := if gone.Ok? then Ok(gone.value) else Err(Stored(gone.error));
    }

    // Between requests the clock may read anything.
    method Later(clock: int)
      requires Valid()
      modifies store`clock
      ensures Valid() && store.Now() == old(store.Now()).(clock := clock)
      ensures Onward(old(store.Now()), store.Now())
    {
      hide Books, Agrees, Sound, Sized, Onward;
      FrozenKeysSettled();
      ClockOnward(store.Now(), clock);
      ClockFree(store.Now(), clock, store.worker.config, store.worker.snapshots, store.hostBudget);
      store.clock := clock;
    }

    // -- recovery -----------------------------------------------------------------------

    // recover: the worker died and a new one of the same profile was started. The
    // store is rebuilt from the directories and expired; memory-only snapshots,
    // and no others, are lost.
    method Recover() returns (ghost rebuilt: Book)
      requires Valid()
      modifies store, store.worker, store.worker.runtime
      ensures Valid() && store.clock == old(store.clock)
      ensures Survives(old(store.Now()), rebuilt)
      ensures OnlyExpired(rebuilt, map[], store.Now(), store.worker.snapshots, {}, {})
      ensures Onward(old(store.Now()), store.Now())
    {
      hide Books, Agrees, Sound, Survives, Evolves, Recoverable, Sized, Newest, OnlyExpired, Onward;
      ghost var b := store.Now();
      store.FrozenKeys();
      SoundRecoverable(store.Now(), store.worker.config, store.worker.snapshots, store.hostBudget);
      store.worker.Restart();
      store.Rebuild();
      rebuilt := store.Now();
      RebuildOnward(b, rebuilt);
      Expire();
      EvolvesUsed(rebuilt, store.Now());
      OnwardTrans(b, rebuilt, store.Now());
    }
  }
}
