// The snapshot store (class SnapshotStore of unridden/api/snapshots/store.py).
// Its native side is the worker itself; writing, reading and saving files may
// fail, and the clock moves only between requests.
module SnapshotStore {
  import opened Common
  import opened Kernels
  import opened SnapshotRuntime
  import opened WorkerSpec
  import opened SnapshotWorker
  import opened Registry
  import opened Ledger
  import opened Descent
  import opened DiskIndex

  datatype StoreError = Missing | InUse | StoreFull | Corrupt | NativeFailed

  // A lookup does not find it.
  predicate Unseen(b: Book, clock: int, id: Id) {
    !(id in b.recs && (b.recs[id].core.expiresAt > clock || b.recs[id].refcount > 0))
  }

  // Why a registration may be refused: a reference is unknown or expired, the
  // promotion does not match its 18, a disk snapshot could not be published, or there
  // is no room with everything evicted that may be: what still could be now, the
  // record refers to or descends from.
  ghost predicate RefusedFor(b: Book, hostBudget: nat, clock: int, core: Record, bytes: nat, error: StoreError) {
    match error
    case Missing => exists ref :: ref in Refs(core) && Unseen(b, clock, ref)
    case Corrupt => core.promotionOf.Some? && (core.promotionOf != core.parent
      || core.promotionOf.value !in b.recs || !PromotionOf(core, core.promotionOf.value,
        b.recs[core.promotionOf.value].core))
    case StoreFull =>
      && b.residentBytes + bytes > hostBudget
      && (bytes <= hostBudget ==>
        forall id :: id in b.recs && b.recs[id].resident ==>
          Stuck(b.recs, id) || id in Registry.Kept(Cores(b.recs), Refs(core)))
    case NativeFailed => core.persistence == Disk
    case InUse => false
  }

  lemma RefusedUnpinned(b: Book, hostBudget: nat, clock: int, core: Record, bytes: nat, error: StoreError)
    requires RefusedFor(b, hostBudget, clock, core, bytes, error) && b.aux.scopes != []
    requires error == StoreFull && bytes <= hostBudget ==> Exhausted(b.recs)
    requires Last(b.aux.scopes) <= Registry.Kept(Cores(b.recs), Refs(core))
    ensures RefusedFor(UnpinnedBook(b), hostBudget, clock, core, bytes, error)
  {
    hide Refs, PromotionOf, Registry.Kept, Stuck;
    if error == Missing {
      var ref :| ref in Refs(core) && Unseen(b, clock, ref);
    }
    forall id | id in b.recs && UnpinnedBook(b).recs[id].resident
      ensures error == StoreFull && bytes <= hostBudget ==>
        Stuck(UnpinnedBook(b).recs, id) || id in Registry.Kept(Cores(UnpinnedBook(b).recs), Refs(core))
    {
      UnpinnedStuck(b, id);
    }
  }

  // The end of a lease frees nothing but what it pinned.
  lemma UnpinnedStuck(b: Book, id: Id)
    requires b.aux.scopes != [] && id in b.recs
    ensures Cores(UnpinnedBook(b).recs) == Cores(b.recs)
    ensures UnpinnedBook(b).recs[id].resident == b.recs[id].resident
    ensures Stuck(b.recs, id) ==> Stuck(UnpinnedBook(b).recs, id) || id in Last(b.aux.scopes)
  {
    assert Cores(UnpinnedBook(b).recs) == Cores(b.recs);
    if Stuck(b.recs, id) && id !in Last(b.aux.scopes) {
      assert UnpinnedBook(b).recs[id] == b.recs[id];
      if c :| SharesCache(b.recs, id, c) {
        assert SharesCache(UnpinnedBook(b).recs, id, c);
      }
    }
  }

  // The references of a record and their ancestors, pinned, are still that.
  lemma KinPinned(b: Book, after: Book, pins: set<Id>, core: Record, id: Id, hostBudget: nat, context: nat)
    requires Books(b, hostBudget, context) && b.aux.scopes != [] && Last(b.aux.scopes) == pins
    requires Evolves(b, after, {id}) && Refs(core) <= pins && pins <= Registry.Kept(Cores(b.recs), Refs(core))
    ensures pins <= Registry.Kept(Cores(after.recs), Refs(core))
  {
    hide Graph, Promotions, Recency, Durable, Total, Refs, Registry.Kept, Refcounts, Residents, Bytes, Uses, Memo,
      Durables, Spared, Closed;
    var top := |b.aux.scopes| - 1;
    assert Closed(Cores(b.recs), b.aux.scopes[top]);
    ClosedKeys(Cores(b.recs), pins);
    forall p | p in pins
      ensures p in after.recs && Cores(after.recs)[p] == Cores(b.recs)[p]
    {
      if Count(b.aux.scopes, p) == 0 {
        CountPositive(b.aux.scopes, p);
      }
      assert Leases(b.recs)[p] == b.recs[p].leases;
      assert SameRec(b, after, p);
    }
    KeptStays(Cores(b.recs), Cores(after.recs), pins, Refs(core));
  }

  lemma ClosedKeys(records: Records, ids: set<Id>)
    requires Closed(records, ids)
    ensures ids <= records.Keys
  {
  }

  lemma RefusedMissing(b: Book, hostBudget: nat, clock: int, r: Record, ttl: nat, bytes: nat, ref: Id)
    requires ref in Refs(r) && Unseen(b, clock, ref)
    ensures RefusedFor(b, hostBudget, clock, Entry(r, clock, ttl, bytes), bytes, Missing)
  {
    assert ref in Refs(Entry(r, clock, ttl, bytes));
  }

  lemma RefusedPromotion(b: Book, hostBudget: nat, clock: int, r: Record, ttl: nat, bytes: nat)
    requires r.promotionOf.Some? && r.promotionOf != r.parent
    ensures RefusedFor(b, hostBudget, clock, Entry(r, clock, ttl, bytes), bytes, Corrupt)
  {
    hide PromotionOf;
  }

  lemma RefusedUnknown(b: Book, hostBudget: nat, clock: int, r: Record, ttl: nat, bytes: nat)
    requires (r.parent.Some? && r.parent.value !in b.recs) || (r.contextParent.Some?
      && r.contextParent.value !in b.recs)
    ensures RefusedFor(b, hostBudget, clock, Entry(r, clock, ttl, bytes), bytes, Missing)
  {
    hide RefusedFor, Entry;
    var ref := if r.parent.Some? && r.parent.value !in b.recs then r.parent.value else r.contextParent.value;
    RefusedMissing(b, hostBudget, clock, r, ttl, bytes, ref);
  }

  ghost predicate AncestorOfOne(records: Records, id: Id, ids: seq<Id>) {
    exists i :: 0 <= i < |ids| && AncestorOf(records, id, ids[i])
  }

  // The first n ids of a lease are found, and `pins` are they and their ancestors;
  // nothing has changed but when they were used.
  ghost predicate Gathered(b0: Book, b: Book, pins: set<Id>, ids: seq<Id>, n: nat) {
    && n <= |ids| && Evolves(b0, b, {}) && b.aux == b0.aux && Cores(b.recs) == Cores(b0.recs)
    && Residents(b.recs) == Residents(b0.recs) && Pins(b.recs) == Pins(b0.recs)
    && (Persisted(b0.recs) ==> Persisted(b.recs)) && Closed(Cores(b.recs), pins)
    && Refreshed(b0.recs, b.recs, ids, n) && (forall id :: Unseen(b, b.clock, id) <==> Unseen(b0, b.clock, id))
    && (forall j :: 0 <= j < n ==> ids[j] in pins && !Unseen(b0, b.clock, ids[j]))
    && (forall p :: p in pins ==> AncestorOfOne(Cores(b.recs), p, ids))
  }

  lemma GatheredNone(b: Book, ids: seq<Id>)
    requires b.aux.frozen.Keys == b.recs.Keys
    ensures Gathered(b, b, {}, ids, 0)
  {
    hide Evolves, Cores, Residents, Pins, Persisted, AncestorOfOne, Closed, Refreshed, Unseen;
    EvolvesRefl(b);
    ClosedEmpty(Cores(b.recs));
    NoneRefreshed(b.recs, ids);
  }

  lemma GatheredSeen(b0: Book, b: Book, pins: set<Id>, ids: seq<Id>, n: nat)
    requires Gathered(b0, b, pins, ids, n)
    ensures Evolves(b0, b, {}) && b.aux == b0.aux && Cores(b.recs) == Cores(b0.recs)
    ensures Residents(b.recs) == Residents(b0.recs) && Pins(b.recs) == Pins(b0.recs)
    ensures (Persisted(b0.recs) ==> Persisted(b.recs)) && Closed(Cores(b.recs), pins)
    ensures Refreshed(b0.recs, b.recs, ids, n) && forall id :: Unseen(b, b.clock, id) <==> Unseen(b0, b.clock, id)
    ensures forall j :: 0 <= j < n ==> ids[j] in pins && !Unseen(b0, b.clock, ids[j])
    ensures forall p :: p in pins ==> AncestorOfOne(Cores(b.recs), p, ids)
  {
    hide Evolves, Cores, Residents, Pins, Persisted, AncestorOfOne, Closed, Refreshed, Unseen;
  }

  lemma GatheredLooked(b0: Book, b: Book, after: Book, pins: set<Id>, ids: seq<Id>, n: nat, found: bool)
    requires Gathered(b0, b, pins, ids, n) && n < |ids| && LookedUp(b.recs, after.recs, ids[n], found)
    requires b0.recs.Keys <= b0.aux.used && Evolves(b, after, {}) && after.aux == b.aux && after.clock == b.clock
    requires after == if found then Touched(b, ids[n]) else b
    requires found <==> !Unseen(b, b.clock, ids[n])
    requires Cores(after.recs) == Cores(b.recs) && Residents(after.recs) == Residents(b.recs)
    requires Pins(after.recs) == Pins(b.recs) && (Persisted(b.recs) ==> Persisted(after.recs))
    ensures !found ==> Gathered(b0, after, pins, ids, n)
    ensures found ==> Refreshed(b0.recs, after.recs, ids, n + 1) && !Unseen(b0, after.clock, ids[n])
    ensures found ==> Evolves(b0, after, {}) && forall id :: Unseen(after, b.clock, id) <==> Unseen(b0, b.clock, id)
  {
    hide Evolves, Cores, Residents, Pins, Persisted, AncestorOfOne, Closed, Refreshed, LookedUp;
    if found {
      EvolvesChain(b0, b, after);
      RefreshedNext(b0.recs, b.recs, after.recs, ids, n);
    }
  }

  lemma GatheredMore(b0: Book, b: Book, after: Book, pins: set<Id>, more: set<Id>, ids: seq<Id>, n: nat)
    requires Gathered(b0, b, pins, ids, n) && n < |ids|
    requires Refreshed(b0.recs, after.recs, ids, n + 1) && !Unseen(b0, after.clock, ids[n])
    requires Evolves(b0, after, {}) && forall id :: Unseen(after, b.clock, id) <==> Unseen(b0, b.clock, id)
    requires after.aux == b.aux && after.clock == b.clock && Cores(after.recs) == Cores(b.recs)
    requires Residents(after.recs) == Residents(b.recs) && Pins(after.recs) == Pins(b.recs)
    requires Persisted(b.recs) ==> Persisted(after.recs)
    requires Closed(Cores(after.recs), more) && ids[n] in more
    requires forall a :: a in more ==> AncestorOf(Cores(after.recs), a, ids[n])
    ensures Gathered(b0, after, pins + more, ids, n + 1)
  {
    hide Evolves, Cores, Residents, Pins, Persisted, AncestorOfOne, AncestorOf, Closed, Refreshed, Unseen;
    ClosedUnion(Cores(after.recs), pins, more);
    AncestorsOfOne(Cores(after.recs), more, ids, n);
  }

  lemma AncestorsOfOne(records: Records, more: set<Id>, ids: seq<Id>, i: nat)
    requires i < |ids| && forall p :: p in more ==> AncestorOf(records, p, ids[i])
    ensures forall p :: p in more ==> AncestorOfOne(records, p, ids)
  {
    hide AncestorOf;
  }

  // What the worker reports as freed by a drop, nothing for what it does not hold.
  function HeldBytes(k: Kernels, held: map<Id, Snapshot>, id: Id): nat {
    if id in held then RowBytes(k, held[id]) else 0
  }

  class Store {
    const worker: Worker
    const hostBudget: nat
    var clock: int
    var records: Recs
    var disk: map<Id, Published>  // the root directory
    var residentBytes: nat
    var tick: nat
    ghost var aux: Aux

    // A store over an empty root.
    constructor (worker: Worker, hostBudget: nat, clock: int)
      requires worker.Valid() && worker.snapshots == map[]
      ensures this.worker == worker && this.hostBudget == hostBudget && this.clock == clock
      ensures Valid() && Now() == Book(map[], map[], 0, 0, Aux(map[], 0, [], map[], {}, []), clock)
    {
      this.worker, this.hostBudget, this.clock := worker, hostBudget, clock;
      records, disk, residentBytes, tick := map[], map[], 0, 0;
      aux := Aux(map[], 0, [], map[], {}, []);
    }

    // A new store over the same root, beside a new worker: the index is read back
    // from the directories, all of which are accepted.
    method Rebuild()
      requires worker.Valid() && worker.snapshots == map[]
      requires Recoverable(Now(), hostBudget, worker.config.context) && FilesFaithful(worker.config, records)
      modifies this`records, this`residentBytes, this`tick, this`aux
      ensures Valid() && Sound(Now(), worker.snapshots, {}, {}) && aux.scopes == []
      ensures Survives(old(Now()), Now())
      ensures forall p :: p in records ==> Newest(disk, clock, disk.Keys, p, records[p].promotionChild)
    {
      hide Books, Agrees, Sound, Survives, Recoverable, Accepted, Indexed, Recency, Uses, Newest, FilesFaithful;
      ghost var b := Now();
      DiskComplete(b, hostBudget, worker.config.context);
      var index, ticks := LoadDiskIndex(disk, worker.config.context, clock);
      DiskSurvival(b, index.value, clock, ticks, hostBudget, worker.config);
      IndexedNewest(disk, clock, index.value);
      records, residentBytes, tick := index.value, 0, ticks;
      aux := RebuiltBook(b, index.value, ticks).aux;
    }

    ghost function Now(): Book
      reads this`records, this`disk, this`residentBytes, this`tick, this`aux, this`clock
    {
      Book(records, disk, residentBytes, tick, aux, clock)
    }

    ghost predicate Kept()
      reads this`records, this`disk, this`residentBytes, this`tick, this`aux, this`clock
    {
      Books(Now(), hostBudget, worker.config.context)
    }

    // The books are right, and the worker holds exactly what they say, plus
    // snapshots the store has no books for.
    ghost predicate Valid()
      reads this`records, this`disk, this`residentBytes, this`tick, this`aux, this`clock, worker, worker.runtime
    {
      worker.Valid() && Kept() && Agrees(Now(), worker.config, worker.snapshots)
    }

    ghost function Pending(): set<Id>
      reads this`records, worker
    {
      worker.snapshots.Keys - Residents(records)
    }

    // -- lookup ---------------------------------------------------------------------

    predicate Visible(id: Id)
      reads this`records, this`clock
    {
      id in records && (records[id].core.expiresAt > clock || records[id].refcount > 0)
    }

    method Get(id: Id) returns (r: Result<Record, StoreError>)
      requires Valid()
      modifies this`records, this`tick
      ensures Valid()
      ensures r == if old(Visible(id)) then Ok(old(records)[id].core) else Err(Missing)
      ensures r.Ok? ==> id in old(records)
      ensures r.Ok? ==> old(records)[id].core.expiresAt > clock || old(records)[id].refcount > 0
      ensures r.Err? && id in old(records) ==> old(records)[id].core.expiresAt <= clock
      ensures r.Err? && id in old(records) ==> old(records)[id].refcount == 0
      ensures LookedUp(old(records), records, id, r.Ok?)
      ensures r.Ok? && Victim(records, id) ==> forall other :: other != id ==> !Evictable(records, other)
      ensures Now() == if r.Ok? then Touched(old(Now()), id) else old(Now())
      ensures Cores(records) == old(Cores(records)) && Residents(records) == old(Residents(records))
      ensures Pins(records) == old(Pins(records))
      ensures old(Persisted(records)) ==> Persisted(records)
      ensures Evolves(old(Now()), Now(), {})
    {
      hide Books, Agrees, Cores, Residents, Pins, Persisted, Evolves, Freshest, Victim, Evictable;
      FrozenKeys();
      EvolvesRefl(Now());
      if id !in records || (records[id].core.expiresAt <= clock && records[id].refcount == 0) {
        return Err(Missing);
      }
      TouchedBooks(Now(), id, hostBudget, worker.config.context);
      TouchedAgrees(Now(), id, worker.config, worker.snapshots);
      TouchedMaps(Now(), id);
      TouchedEvolves(Now(), id);
      TouchedFreshest(Now(), id, hostBudget, worker.config.context);
      if Victim(Touched(Now(), id).recs, id) {
        VictimNotFreshest(Touched(Now(), id).recs, id);
      }
      tick := tick + 1;
      records := records[id := records[id].(lastUsed := tick)];
      return Ok(records[id].core);
    }

    // -- removal ----------------------------------------------------------------------

    // The worker's drop, a missing snapshot forgiven.
    method DropHeld(id: Id) returns (freed: nat)
      requires worker.Valid()
      modifies worker, worker.runtime
      ensures worker.Valid() && worker.snapshots == old(worker.snapshots) - {id}
      ensures freed == HeldBytes(worker.config.kernels, old(worker.snapshots), id)
    {
      hide RowBytes;
      var resp := worker.Drop(id);
      freed := if resp.Dropped? then resp.freed else 0;
      assert resp.Failed? ==> worker.snapshots - {id} == worker.snapshots;
    }

    // _forget, and the directory with it.
    method Forget(id: Id)
      requires id in records
      modifies this`records, this`disk, this`residentBytes, this`aux
      ensures Now() == Forgotten(old(Now()), id)
    {
      hide ReleaseOne;
      disk := disk - {id};
      if records[id].resident && records[id].hostBytes <= residentBytes {
        residentBytes := residentBytes - records[id].hostBytes;
      }
      var core := records[id].core;
      records := ReleaseOne(records, core.parent);
      if core.contextParent != core.parent {
        records := ReleaseOne(records, core.contextParent);
      }
      records := records - {id};
      aux := aux.(birth := aux.birth - {id}, frozen := aux.frozen - {id});
    }

    // Drops the worker's copy, removes the directory and forgets the record.
    method Reclaim(id: Id) returns (freed: nat)
      requires Valid() && id in records && records[id].refcount == 0 && records[id].leases == 0
      requires Unshared(worker.snapshots, id)
      modifies this`records, this`disk, this`residentBytes, this`aux, worker, worker.runtime
      ensures Valid()
      ensures Now() == Forgotten(old(Now()), id) && worker.snapshots == old(worker.snapshots) - {id}
      ensures freed == HeldBytes(worker.config.kernels, old(worker.snapshots), id)
    {
      hide Unshared, RowBytes, Books, Agrees;
      ForgottenBooks(Now(), id, hostBudget, worker.config.context);
      ForgottenAgrees(Now(), id, worker.config, worker.snapshots);
      freed := DropHeld(id);
      Forget(id);
    }

    lemma FrozenKeys()
      requires Valid()
      ensures aux.frozen.Keys == records.Keys && records.Keys <= aux.used
    {
      UsedAll(Now(), hostBudget, worker.config.context);
      hide Residents, Bytes, Durables, Books;
    }

    lemma HeldWhenResident(id: Id)
      requires Valid() && id in records
      ensures records[id].resident <==> id in worker.snapshots
      ensures aux.frozen.Keys == records.Keys
    {
      FieldsOf(records, id);
      hide Cores, Residents, Bytes, Durables;
    }

    // -- expiry -------------------------------------------------------------------------

    // Nothing the worker holds without books relies on a record outside `safe`.
    ghost predicate Safe(safe: set<Id>)
      reads this`records, worker
    {
      PendingSafe(Cores(records), Residents(records), worker.snapshots, safe)
    }

    method Expire()
      requires Valid() && Safe(Live(records, clock))
      modifies this`records, this`disk, this`residentBytes, this`aux, worker, worker.runtime
      ensures Valid()
      ensures records.Keys == Registry.Kept(Cores(old(records)), Live(old(records), clock))
      ensures forall id :: id in records ==> !DeadLeaf(records, clock, id)
      ensures Reclaimed(old(Now()), old(worker.snapshots), Now(), worker.snapshots, clock, Live(old(records), clock),
          old(Pending()))
    {
      hide Books, Agrees, PendingSafe, Reclaimed, Live, Registry.Kept, Forgotten, Residents, Cores;
      ghost var before, held, pending := Now(), worker.snapshots, Pending();
      ReclaimedStart(before, held, clock, Live(records, clock));
      while exists id :: id in records && DeadLeaf(records, clock, id)
        invariant Valid()
        invariant Reclaimed(before, held, Now(), worker.snapshots, clock, Live(before.recs, clock), pending)
        decreases |records|
      {
        var id :| id in records && DeadLeaf(records, clock, id);
        ReclaimedTurn(before, held, Now(), worker.snapshots, clock, pending, worker.config, hostBudget, id);
        var _ := Reclaim(id);
      }
      ReclaimedDone(before, held, Now(), worker.snapshots, clock, pending, worker.config, hostBudget);
    }

    // -- the byte budget ------------------------------------------------------------------

    // The candidate used longest ago.
    method LeastUsed() returns (best: Option<Id>)
      requires Kept()
      ensures best.None? ==> forall id :: id in records ==> !Evictable(records, id)
      ensures best.Some? ==> Victim(records, best.value)
    {
      hide Books, Evictable;
      best := None;
      var todo := records.Keys;
      while todo != {}
        invariant todo <= records.Keys
        invariant best.Some? ==> best.value in records && best.value !in todo && Evictable(records, best.value)
        invariant forall id :: id in records && id !in todo && Evictable(records, id) ==>
          best.Some? && (id == best.value || records[best.value].lastUsed < records[id].lastUsed)
        decreases |todo|
      {
        var id :| id in todo;
        todo := todo - {id};
        if Evictable(records, id) {
          if best.Some? {
            LastUsedDistinct(Now(), hostBudget, worker.config.context, best.value, id);
          }
          if best.None? || records[id].lastUsed < records[best.value].lastUsed {
            best := Some(id);
          }
        }
      }
      EvictableIn(records);
    }

    // _evict_one on its victim: a disk snapshot is durable already and leaves the
    // worker, a memory-only one goes for good.
    method Evict(id: Id, ghost room: int)
      requires Valid() && Victim(records, id) && Unshared(worker.snapshots, id)
      requires Books(Evicted(Now(), id, room), hostBudget, worker.config.context)
      requires Agrees(Evicted(Now(), id, room), worker.config, worker.snapshots - {id})
      modifies this`records, this`disk, this`residentBytes, this`aux, worker, worker.runtime
      ensures Valid()
      ensures Now() == Evicted(old(Now()), id, room) && worker.snapshots == old(worker.snapshots) - {id}
    {
      hide Books, Agrees, Evicted, Forgotten, Demoted, Unshared, Victim, Evictable, RowBytes;
      EvictableFacts(records, id);
      EvictedIs(Now(), id, room);
      ghost var e := Eviction(id, residentBytes, room);
      var _ := DropHeld(id);
      if records[id].core.persistence == Disk {
        Demote(id);
      } else {
        Forget(id);
      }
      aux := aux.(evictions := aux.evictions + [e]);
    }

    method Demote(id: Id)
      requires id in records
      modifies this`records, this`residentBytes
      ensures Now() == Demoted(old(Now()), id)
    {
      residentBytes := if records[id].hostBytes <= residentBytes then residentBytes - records[id].hostBytes else 0;
      records := records[id := records[id].(resident := false)];
    }

    method EnforceBudget(incoming: nat) returns (r: Result<(), StoreError>, ghost mid: Book, ghost victims: seq<Id>)
      requires Valid() && Safe(Pins(records)) && Persisted(records)
      modifies this`records, this`disk, this`residentBytes, this`aux, worker, worker.runtime
      ensures Valid() && Persisted(records) && Pending() == old(Pending())
      ensures SubMap(worker.snapshots, old(worker.snapshots))
      ensures Eroded(old(Now()), Now())
      ensures incoming <= hostBudget ==> MadeRoom(old(Now()), mid, victims, Now(), clock, hostBudget - incoming)
      ensures incoming > hostBudget ==> r.Err? && Now() == old(Now())
      ensures RoomOnly(old(aux.evictions), aux.evictions, hostBudget - incoming)
      ensures r.Ok? ==> residentBytes + incoming <= hostBudget
      ensures r.Err? ==> r.error == StoreFull
      ensures r.Err? && incoming <= hostBudget ==>
        && residentBytes + incoming > hostBudget && Exhausted(records)
        && forall id :: id in records ==> !Evictable(records, id)
    {
      hide Books, Agrees, PendingSafe, Reclaimed, Roomed, Registry.Kept, Residents, Cores, Live, Pins, Evicted, Victim,
        Unshared, Evictions, Eroded, Evictable, MadeRoom, Persisted, Exhausted;
      if incoming > hostBudget {
        ErodedRefl(Now());
        return Err(StoreFull), *, *;
      }
      ghost var before, held, pending := Now(), worker.snapshots, Pending();
      ghost var room := hostBudget - incoming;
      PinsLive(records, clock);
      PendingSafeWider(records, worker.snapshots, Pins(records), Live(records, clock));
      Expire();
      mid, victims := Now(), [];
      ghost var heldMid := worker.snapshots;
      ExpiredThenRoom(before, held, mid, heldMid, clock, pending, room);
      ReclaimedPersisted(before, held, mid, heldMid, clock, Live(before.recs, clock), pending);
      while residentBytes + incoming > hostBudget
        invariant Valid()
        invariant Roomed(mid, heldMid, victims, Now(), worker.snapshots, Pins(mid.recs), pending, room)
        decreases |Residents(records)|
      {
        var best := LeastUsed();
        if best.None? {
          MadeRoomFacts(before, held, mid, heldMid, victims, Now(), worker.snapshots, clock, pending, room);
          ErodedPersisted(before, Now());
          NothingEvictable(records);
          return Err(StoreFull), mid, victims;
        }
        VictimDurable(mid, heldMid, victims, Now(), worker.snapshots, Pins(mid.recs), pending, room, best.value);
        RoomedTurn(mid, heldMid, victims, Now(), worker.snapshots, pending, room, worker.config, hostBudget,
          best.value);
        victims := victims + [best.value];
        Evict(best.value, room);
      }
      MadeRoomFacts(before, held, mid, heldMid, victims, Now(), worker.snapshots, clock, pending, room);
      ErodedPersisted(before, Now());
      return Ok(()), mid, victims;
    }

    // -- leases ---------------------------------------------------------------------------------

    // _ancestors: depth first over parent and context_parent.
    method Ancestors(id: Id) returns (seen: set<Id>)
      requires Kept() && id in records
      ensures Closed(Cores(records), seen) && id in seen
      ensures forall a :: a in seen ==> AncestorOf(Cores(records), a, id)
    {
      hide Books, AncestorOf, Refs;
      AncestorSelf(Cores(records), id);
      seen := {};
      var frontier := [id];
      while frontier != []
        invariant seen <= records.Keys && (id in seen || id in frontier)
        invariant forall s, r :: s in seen && r in Refs(records[s].core) ==> r in seen || r in frontier
        invariant forall f :: f in frontier ==> f in records && AncestorOf(Cores(records), f, id)
        invariant forall s :: s in seen ==> AncestorOf(Cores(records), s, id)
        decreases |records.Keys - seen|, |frontier|
      {
        var current := frontier[|frontier| - 1];
        ghost var was := frontier;
        frontier := frontier[..|frontier| - 1];
        assert forall f :: f in was ==> f in frontier || f == current;
        if current !in seen {
          assert records.Keys - (seen + {current}) < records.Keys - seen;
          RefsIn(Now(), hostBudget, worker.config.context, current);
          forall r | r in Refs(records[current].core)
            ensures AncestorOf(Cores(records), r, id)
          {
            AncestorUp(Cores(records), r, current, id);
          }
          seen := seen + {current};
          frontier := PushRefs(frontier, records[current].core);
        }
      }
      forall s | s in seen
        ensures Refs(Cores(records)[s]) <= seen
      {
      }
    }

    // lease: pins the ids and all their ancestors, or raises before pinning any.
    method Lease(ids: seq<Id>) returns (r: Result<(), StoreError>, pins: set<Id>, ghost base: Book)
      requires Valid()
      modifies this`records, this`tick, this`aux
      ensures Valid()
      ensures Evolves(old(Now()), base, {})
      ensures Now() == if r.Ok? then PinnedBook(base, pins) else base
      ensures r.Ok? ==> (forall i :: 0 <= i < |ids| ==> ids[i] in pins) && pins <= records.Keys
      ensures r.Ok? ==> forall p :: p in pins ==> AncestorOfOne(Cores(records), p, ids)
      ensures r.Ok? ==> Pins(records) == old(Pins(records)) + pins
      ensures r.Err? ==> r.error == Missing && Pins(records) == old(Pins(records))
      ensures r.Err? <==> exists i :: 0 <= i < |ids| && !old(Visible(ids[i]))
      ensures r.Err? ==> exists i :: 0 <= i < |ids| && !Visible(ids[i])
      ensures r.Ok? ==> Refreshed(old(records), records, ids, |ids|)
      ensures Cores(records) == old(Cores(records)) && Residents(records) == old(Residents(records))
      ensures old(Persisted(records)) ==> Persisted(records)
      ensures base.aux.frozen.Keys == base.recs.Keys && base.aux == old(aux)
    {
      hide Books, Agrees, Evolves, Cores, Residents, Pins, Persisted, AncestorOfOne, Closed, Refreshed, Gathered;
      pins := {};
      FrozenKeys();
      ghost var b0 := Now();
      GatheredNone(b0, ids);
      for i := 0 to |ids|
        invariant Valid() && Gathered(b0, Now(), pins, ids, i)
      {
        GatheredSeen(b0, Now(), pins, ids, i);
        assert Unseen(Now(), clock, ids[i]) <==> Unseen(b0, clock, ids[i]);
        var ok, more := Gather(ids, i, pins, b0);
        if !ok {
          GatheredSeen(b0, Now(), pins, ids, i);
          assert Unseen(Now(), clock, ids[i]) <==> Unseen(b0, clock, ids[i]);
          FrozenKeys();
          return Err(Missing), pins, Now();
        }
        pins := pins + more;
      }
      base := Now();
      GatheredSeen(b0, base, pins, ids, |ids|);
      FrozenKeys();
      RefreshedPinned(b0.recs, records, ids, |ids|, pins);
      Pin(pins);
      return Ok(()), pins, base;
    }

    // One id of a lease: looked up, and its ancestors found.
    method Gather(ids: seq<Id>, i: nat, pins: set<Id>, ghost b0: Book) returns (ok: bool, more: set<Id>)
      requires Valid() && i < |ids| && Gathered(b0, Now(), pins, ids, i) && b0.recs.Keys <= b0.aux.used
      modifies this`records, this`tick
      ensures Valid()
      ensures (if ok then Gathered(b0, Now(), pins + more, ids, i + 1) else Gathered(b0, Now(), pins, ids, i))
      ensures ok <==> old(Visible(ids[i]))
    {
      hide Books, Agrees, Evolves, Cores, Residents, Pins, Persisted, AncestorOf, AncestorOfOne, Closed, Refreshed,
        LookedUp, Victim, Evictable, Gathered;
      ghost var b := Now();
      var got := Get(ids[i]);
      GatheredLooked(b0, b, Now(), pins, ids, i, got.Ok?);
      if got.Err? {
        return false, {};
      }
      more := Ancestors(ids[i]);
      GatheredMore(b0, b, Now(), pins, more, ids, i);
      ok := true;
    }

    method Pin(pins: set<Id>)
      requires Valid() && Closed(Cores(records), pins)
      modifies this`records, this`aux
      ensures Valid() && Now() == PinnedBook(old(Now()), pins)
      ensures Cores(records) == old(Cores(records)) && Residents(records) == old(Residents(records))
      ensures Pins(records) == old(Pins(records)) + pins && pins <= records.Keys
      ensures old(Persisted(records)) ==> Persisted(records)
    {
      hide Books, Agrees, Cores, Residents, Pins, Persisted, Closed, SameButLeases;
      ClosedIn(Cores(records), pins);
      PinnedBooks(Now(), pins, hostBudget, worker.config.context);
      PinnedMaps(Now(), pins);
      PinMaps(records, pins);
      LeasesAgree(Now(), PinnedBook(Now(), pins), worker.config, worker.snapshots);
      records := PinRecs(records, pins);
      aux := aux.(scopes := aux.scopes + [pins]);
    }

    // The lease's scope ends.
    method Release(pins: set<Id>)
      requires Valid() && aux.scopes != [] && Last(aux.scopes) == pins
      modifies this`records, this`aux
      ensures Valid() && Now() == UnpinnedBook(old(Now()))
      ensures Cores(records) == old(Cores(records)) && Residents(records) == old(Residents(records))
      ensures old(Persisted(records)) ==> Persisted(records)
    {
      hide Books, Agrees, Cores, Residents, Persisted, SameButLeases;
      UnpinnedBooks(Now(), hostBudget, worker.config.context);
      PinMaps(records, pins);
      PinnedMaps(Now(), pins);
      LeasesAgree(Now(), UnpinnedBook(Now()), worker.config, worker.snapshots);
      records := UnpinRecs(records, pins);
      aux := aux.(scopes := aux.scopes[..|aux.scopes| - 1]);
    }

    // -- publishing --------------------------------------------------------------------------

    // _persist: save, write the manifest, rename, reopen and validate; any of it
    // may fail and leaves nothing behind.
    method Persist(id: Id) returns (ok: bool)
      requires Valid() && id in records && records[id].resident && records[id].core.persistence == Disk
      modifies this`records, this`disk
      ensures Valid()
      ensures ok ==> id in worker.snapshots
      ensures ok ==>
        Now() == if old(records)[id].durable.Some? then old(Now()) else WithFiles(old(Now()), id,
          FilesOf(worker.snapshots[id]))
      ensures !ok ==> Now() == old(Now())
    {
      hide Books, Agrees, FilesOf, Holdings;
      HeldWhenResident(id);
      if records[id].durable.Some? {
        return true;
      }
      var resp := worker.Save(id);
      if resp.Failed? {
        return false;
      }
      if * {
        return false;
      }
      SavedLoadable(worker.snapshots[id], worker.config.context);
      WithFilesBooks(Now(), id, resp.files, hostBudget, worker.config.context);
      WithFilesAgrees(Now(), id, worker.config, worker.snapshots);
      disk := disk[id := Published(records[id].core, resp.files)];
      records := records[id := records[id].(durable := Some(resp.files))];
      return true;
    }

    // -- registration --------------------------------------------------------------------------

    // The new record beside its references, before it is persisted.
    method Add(id: Id, core: Record, bytes: nat, ghost tokens: seq<Token>)
      requires Valid() && id !in records && id !in aux.used && id in worker.snapshots
      requires Refs(core) <= records.Keys
      requires core.promotionOf.Some? ==>
        core.promotionOf.value in records && PromotionOf(core, core.promotionOf.value,
          records[core.promotionOf.value].core)
      requires residentBytes + bytes <= hostBudget
      requires Matches(worker.config, core, bytes, worker.snapshots[id], tokens) && core.tokens == |tokens|
      modifies this`records, this`residentBytes, this`tick, this`aux
      ensures Valid() && Now() == Added(old(Now()), id, core, bytes, tokens)
    {
      hide Books, Agrees, CountOne, Matches, PromotionOf, Refs;
      AddedBooks(Now(), id, core, bytes, tokens, hostBudget, worker.config.context);
      AddedAgrees(Now(), id, core, bytes, tokens, worker.config, worker.snapshots);
      tick := tick + 1;
      residentBytes := residentBytes + bytes;
      records := CountOne(records, core.parent);
      if core.contextParent != core.parent {
        records := CountOne(records, core.contextParent);
      }
      records := records[id := NewRec(core, bytes, tick)];
      aux := Aux(aux.birth[id := aux.births], aux.births + 1, aux.scopes, aux.frozen[id := tokens], aux.used + {id},
        aux.evictions);
    }

    // Add and persist; a failed persist takes the record back.
    method AddPersisted(id: Id, core: Record, bytes: nat, ghost tokens: seq<Token>) returns (ok: bool)
      requires Valid() && Persisted(records) && id !in records && id !in aux.used && id in worker.snapshots
      requires Refs(core) <= records.Keys
      requires core.promotionOf.Some? ==>
        core.promotionOf.value in records && PromotionOf(core, core.promotionOf.value,
          records[core.promotionOf.value].core)
      requires residentBytes + bytes <= hostBudget
      requires Matches(worker.config, core, bytes, worker.snapshots[id], tokens) && core.tokens == |tokens|
      requires core.persistedBytes == bytes
      modifies this`records, this`disk, this`residentBytes, this`tick, this`aux
      ensures Valid() && Registered(old(Now()), Now(), id, core, tokens, ok)
      ensures !ok ==> core.persistence == Disk
      ensures aux.evictions == old(aux.evictions)
    {
      hide Books, Agrees, Matches, PromotionOf, Refs, Added, WithFiles, FilesOf, Forgotten, Persisted, Evolves,
        Registered;
      FrozenKeys();
      ghost var before := Now();
      OnDisk(before, hostBudget, worker.config.context, id);
      Add(id, core, bytes, tokens);
      AddedAux(before, id, core, bytes, tokens);
      AddedDisk(before, id, core, bytes, tokens);
      if core.persistence == Disk {
        ok := PersistAdded(before, id, core, bytes, tokens);
      } else {
        RegistrationDone(before, id, core, bytes, tokens, None);
        ok := true;
      }
    }

    method PersistAdded(ghost before: Book, id: Id, core: Record, bytes: nat, ghost tokens: seq<Token>)
      returns (ok: bool)
      requires Valid() && Now() == Added(before, id, core, bytes, tokens)
      requires id in records && records[id] == NewRec(core, bytes, before.tick + 1) && core.persistence == Disk
      requires Persisted(before.recs) && id !in before.recs && id !in before.aux.used
      requires before.recs.Keys <= before.aux.used && before.aux.frozen.Keys == before.recs.Keys
      requires id !in before.disk && core.persistedBytes == bytes
      modifies this`records, this`disk, this`residentBytes, this`aux
      ensures Valid() && Registered(before, Now(), id, core, tokens, ok) && aux.evictions == old(aux.evictions)
    {
      hide Books, Agrees, Added, WithFiles, FilesOf, Forgotten, Persisted, Evolves, Registered, Residents;
      ok := Persist(id);
      if ok {
        WithFilesMaps(Added(before, id, core, bytes, tokens), id, FilesOf(worker.snapshots[id]));
        RegistrationDone(before, id, core, bytes, tokens, Some(FilesOf(worker.snapshots[id])));
      } else {
        ForgottenBooks(Now(), id, hostBudget, worker.config.context);
        ForgottenAgrees(Now(), id, worker.config, worker.snapshots);
        RegistrationFailed(before, id, core, bytes, tokens);
        ForgottenResidents(Now(), id);
        Forget(id);
      }
    }

    // register, under the lease of the references: make room, check the promotion,
    // enter the record.
    method RegisterLeased(id: Id, core: Record, bytes: nat, ghost tokens: seq<Token>)
      returns (r: Result<(), StoreError>)
      requires Valid() && Persisted(records) && Safe(Pins(records))
      requires id !in aux.used && id in worker.snapshots && Refs(core) <= Pins(records)
      requires Matches(worker.config, core, bytes, worker.snapshots[id], tokens) && core.tokens == |tokens|
      requires core.persistedBytes == bytes
      modifies this`records, this`disk, this`residentBytes, this`tick, this`aux, worker, worker.runtime
      ensures Valid() && Persisted(records)
      ensures Evolves(old(Now()), Now(), {id}) && Entered(Now(), id, core, tokens, r.Ok?)
      ensures Pending() == if r.Ok? then old(Pending()) - {id} else old(Pending())
      ensures SubMap(worker.snapshots, old(worker.snapshots))
      ensures RoomOnly(old(aux.evictions), aux.evictions, hostBudget - bytes)
      ensures r.Err? ==> RefusedFor(Now(), hostBudget, clock, core, bytes, r.error)
      ensures r.Err? && r.error == StoreFull && bytes <= hostBudget ==> Exhausted(records)
    {
      hide Books, Agrees, Matches, PromotionOf, Refs, Persisted, Evolves, Registered, Entered, Eroded, PendingSafe,
        Residents, Pins, MadeRoom, Evictable, Stuck, Registry.Kept;
      FrozenKeys();
      NotResident(id);
      ghost var before, pending := Now(), Pending();
      var room, mid, victims := EnforceBudget(bytes);
      ghost var roomed := Now();
      PendingHeld(id, pending);
      RefsPinned(before, roomed, core);
      FrozenKeys();
      ErodedUsed(before, roomed);
      if room.Err? {
        NotEntered(before, roomed, id, core, tokens);
        return Err(room.error);
      }
      ParentNamed(core);
      if core.promotionOf.Some?
        && (core.promotionOf != core.parent || !PromotionOf(core, core.promotionOf.value,
          records[core.promotionOf.value].core))
      {
        NotEntered(before, roomed, id, core, tokens);
        return Err(Corrupt);
      }
      var ok := AddPersisted(id, core, bytes, tokens);
      RoomThenRegistered(before, roomed, Now(), id, core, tokens, ok);
      RegisteredPending(roomed, Now(), worker.snapshots, id, core, tokens, ok);
      r := if ok then Ok(()) else Err(NativeFailed);
    }

    // A snapshot without books is pending.
    lemma NotResident(id: Id)
      requires Valid() && id !in aux.used && id in worker.snapshots
      ensures id in Pending() && id !in records
    {
      FrozenKeys();
      ResidentsIn(records);
    }

    lemma PendingHeld(id: Id, pending: set<Id>)
      requires id in pending && Pending() == pending
      ensures id in worker.snapshots
    {
    }

    // register: reclaim what expired, check the references, pin them, make room,
    // then enter the record. `r` is the record but for its times and sizes.
    method Register(id: Id, r: Record, bytes: nat, ttl: nat, ghost tokens: seq<Token>)
      returns (res: Result<(), StoreError>)
      requires Valid() && Persisted(records)
      requires id !in aux.used && id in worker.snapshots
      requires Safe(Live(records, clock)) && Safe(Pins(records) + Refs(r))
      requires Matches(worker.config, r, bytes, worker.snapshots[id], tokens) && r.tokens == |tokens|
      modifies this`records, this`disk, this`residentBytes, this`tick, this`aux, worker, worker.runtime
      ensures Valid() && Persisted(records)
      ensures Evolves(old(Now()), Now(), {id}) && Entered(Now(), id, Entry(r, clock, ttl, bytes), tokens, res.Ok?)
      ensures Pending() == if res.Ok? then old(Pending()) - {id} else old(Pending())
      ensures SubMap(worker.snapshots, old(worker.snapshots))
      ensures RoomOnly(old(aux.evictions), aux.evictions, hostBudget - bytes)
      ensures res.Err? ==> RefusedFor(Now(), hostBudget, clock, Entry(r, clock, ttl, bytes), bytes, res.error)
      ensures res.Ok? ==> Freshest(records, id)
    {
      hide Books, Agrees, Matches, PromotionOf, Refs, Persisted, Evolves, Eroded, PendingSafe, Residents, Freshest,
        Cores, Pins, Live, Reclaimed, Registry.Kept, Entry, SubMap;
      FrozenKeys();
      NotResident(id);
      ghost var b0, held0, pending := Now(), worker.snapshots, Pending();
      Expire();
      ghost var b1 := Now();
      SafeAcrossExpire(b0, held0, b1, worker.snapshots, clock, pending, Refs(r));
      ReclaimedPersisted(b0, held0, b1, worker.snapshots, clock, Live(b0.recs, clock), pending);
      PendingHeld(id, pending);
      ErodedUsed(b0, b1);
      SubMapHas(worker.snapshots, held0, id);
      ghost var held1 := worker.snapshots;
      res := RegisterReclaimed(id, r, bytes, ttl, tokens, b0);
      SubMapTrans(worker.snapshots, held1, held0);
      if res.Ok? {
        LatestIsFreshest(Now(), hostBudget, worker.config.context, id);
      }
    }

    // What follows the first expire.
    method RegisterReclaimed(id: Id, r: Record, bytes: nat, ttl: nat, ghost tokens: seq<Token>, ghost b0: Book)
      returns (res: Result<(), StoreError>)
      requires Valid() && Persisted(records) && Safe(Pins(records) + Refs(r))
      requires Eroded(b0, Now()) && b0.recs.Keys <= b0.aux.used && b0.aux.frozen.Keys == b0.recs.Keys
      requires id !in b0.aux.used && id !in aux.used && id in worker.snapshots
      requires Matches(worker.config, r, bytes, worker.snapshots[id], tokens) && r.tokens == |tokens|
      modifies this`records, this`disk, this`residentBytes, this`tick, this`aux, worker, worker.runtime
      ensures Valid() && Persisted(records)
      ensures Evolves(b0, Now(), {id}) && Entered(Now(), id, Entry(r, clock, ttl, bytes), tokens, res.Ok?)
      ensures Pending() == if res.Ok? then old(Pending()) - {id} else old(Pending())
      ensures SubMap(worker.snapshots, old(worker.snapshots))
      ensures RoomOnly(old(aux.evictions), aux.evictions, hostBudget - bytes)
      ensures res.Err? ==> RefusedFor(Now(), hostBudget, clock, Entry(r, clock, ttl, bytes), bytes, res.error)
    {
      hide Books, Agrees, Matches, PromotionOf, Refs, Persisted, Evolves, Entered, Eroded, PendingSafe, Residents,
        Cores, Pins, Entry, SubMap;
      FrozenKeys();
      NotResident(id);
      SubMapRefl(worker.snapshots);
      ghost var b1 := Now();
      EvolvesRefl(b1);
      RefusedEvolves(b0, b1, b1, id);
      NotEnteredYet(b1, id, Entry(r, clock, ttl, bytes), tokens);
      if (r.parent.Some? && r.parent.value !in records) || (r.contextParent.Some?
        && r.contextParent.value !in records) {
        RefusedUnknown(b1, hostBudget, clock, r, ttl, bytes);
        return Err(Missing);
      }
      if r.promotionOf.Some? && r.promotionOf != r.parent {
        RefusedPromotion(b1, hostBudget, clock, r, ttl, bytes);
        return Err(Corrupt);
      }
      res := RegisterUnderLease(id, r, bytes, ttl, tokens, b0);
    }

    method RegisterUnderLease(id: Id, r: Record, bytes: nat, ttl: nat, ghost tokens: seq<Token>, ghost b0: Book)
      returns (res: Result<(), StoreError>)
      requires Valid() && Persisted(records) && Safe(Pins(records) + Refs(r))
      requires Eroded(b0, Now()) && b0.recs.Keys <= b0.aux.used && b0.aux.frozen.Keys == b0.recs.Keys
      requires id !in b0.aux.used && id !in aux.used && id in worker.snapshots
      requires Matches(worker.config, r, bytes, worker.snapshots[id], tokens) && r.tokens == |tokens|
      modifies this`records, this`disk, this`residentBytes, this`tick, this`aux, worker, worker.runtime
      ensures Valid() && Persisted(records)
      ensures Evolves(b0, Now(), {id}) && Entered(Now(), id, Entry(r, clock, ttl, bytes), tokens, res.Ok?)
      ensures Pending() == if res.Ok? then old(Pending()) - {id} else old(Pending())
      ensures SubMap(worker.snapshots, old(worker.snapshots))
      ensures RoomOnly(old(aux.evictions), aux.evictions, hostBudget - bytes)
      ensures res.Err? ==> RefusedFor(Now(), hostBudget, clock, Entry(r, clock, ttl, bytes), bytes, res.error)
    {
      hide Books, Agrees, Matches, Refs, Persisted, Evolves, Entered, Eroded, PendingSafe, Residents, Cores, Pins,
        Entry, SubMap, Within;
      FrozenKeys();
      SubMapRefl(worker.snapshots);
      ghost var b1 := Now();
      var ok, pins, b2 := LeaseRefs(r);
      if !ok {
        RefusedEvolves(b0, b1, b2, id);
        NotEnteredYet(b2, id, Entry(r, clock, ttl, bytes), tokens);
        ghost var ref :| ref in Refs(r) && !Visible(ref);
        RefusedMissing(Now(), hostBudget, clock, r, ttl, bytes, ref);
        return Err(Missing);
      }
      EntryMatches(worker.config, r, bytes, worker.snapshots[id], tokens, clock, ttl);
      res := RegisterAndRelease(id, Entry(r, clock, ttl, bytes), bytes, tokens, pins);
      RegisterWhole(b0, b1, b2, pins, Now(), id);
    }

    lemma PinsAreKin(recs: Records, pins: set<Id>, r: Record)
      requires forall p :: p in pins ==> AncestorOfOne(recs, p, PushRefs([], r))
      requires pins <= recs.Keys
      ensures pins <= Registry.Kept(recs, Refs(r))
    {
      hide AncestorOf, PushRefs, Refs;
      forall p | p in pins
        ensures p in Registry.Kept(recs, Refs(r))
      {
        var i :| 0 <= i < |PushRefs([], r)| && AncestorOf(recs, p, PushRefs([], r)[i]);
        assert PushRefs([], r)[i] in PushRefs([], r);
      }
    }

    // Pins the references of a record about to be registered.
    method LeaseRefs(r: Record) returns (ok: bool, pins: set<Id>, ghost base: Book)
      requires Valid() && Persisted(records) && Safe(Pins(records) + Refs(r))
      modifies this`records, this`tick, this`aux
      ensures Valid() && Persisted(records)
      ensures ReferencesLeased(old(Now()), base, Now(), worker.snapshots, r, pins, ok)
      ensures ok ==> Refs(r) <= pins && pins <= Registry.Kept(Cores(records), Refs(r))
      ensures !ok ==> exists ref :: ref in Refs(r) && !Visible(ref)
    {
      hide Valid, Kept, Visible, PushRefs, Books, Agrees, Refs, Persisted, Evolves, PendingSafe, Residents, Cores, Pins,
        ReferencesLeased, PinnedBook, Registry.Kept, AncestorOfOne;
      FrozenKeys();
      ghost var b1 := Now();
      var leased, ids, was := Lease(PushRefs([], r));
      ok, pins, base := leased.Ok?, ids, was;
      if ok {
        RefsAmong(r, pins);
        PinsAreKin(Cores(records), pins, r);
        ReferencesPinned(b1, base, Now(), worker.snapshots, r, pins);
      } else {
        ReferencesRefused(b1, base, worker.snapshots, r, pins);
        var i :| 0 <= i < |PushRefs([], r)| && !Visible(PushRefs([], r)[i]);
        assert PushRefs([], r)[i] in PushRefs([], r);
      }
    }

    // Under the lease `pins`, and then out of it.
    method RegisterAndRelease(id: Id, core: Record, bytes: nat, ghost tokens: seq<Token>, pins: set<Id>)
      returns (res: Result<(), StoreError>)
      requires Valid() && Persisted(records) && Safe(Pins(records))
      requires id !in aux.used && id in worker.snapshots && Refs(core) <= Pins(records)
      requires aux.scopes != [] && Last(aux.scopes) == pins
      requires Refs(core) <= pins && pins <= Registry.Kept(Cores(records), Refs(core))
      requires Matches(worker.config, core, bytes, worker.snapshots[id], tokens) && core.tokens == |tokens|
      requires core.persistedBytes == bytes
      modifies this`records, this`disk, this`residentBytes, this`tick, this`aux, worker, worker.runtime
      ensures Valid() && Persisted(records)
      ensures Within(old(Now()), Now(), id) && Entered(Now(), id, core, tokens, res.Ok?)
      ensures Pending() == if res.Ok? then old(Pending()) - {id} else old(Pending())
      ensures SubMap(worker.snapshots, old(worker.snapshots))
      ensures RoomOnly(old(aux.evictions), aux.evictions, hostBudget - bytes)
      ensures res.Err? ==> RefusedFor(Now(), hostBudget, clock, core, bytes, res.error)
    {
      hide Books, Agrees, Matches, Refs, Persisted, Evolves, Entered, PendingSafe, Residents, Cores, Pins, SubMap,
        Registry.Kept, RefusedFor, Exhausted;
      ghost var b3 := Now();
      res := RegisterLeased(id, core, bytes, tokens);
      if res.Err? {
        ScopesKept(b3, Now(), id);
        KinPinned(b3, Now(), pins, core, id, hostBudget, worker.config.context);
        RefusedUnpinned(Now(), hostBudget, clock, core, bytes, res.error);
      }
      ScopesKept(b3, Now(), id);
      EnteredUnpinned(Now(), pins, Now(), id, core, tokens, res.Ok?);
      WithinNow(b3, Now(), id);
      Release(pins);
    }

    // -- deletion ------------------------------------------------------------------------------------

    method Delete(id: Id) returns (r: Result<nat, StoreError>)
      requires Valid() && Persisted(records)
      requires id in records && records[id].refcount == 0 ==> Unshared(worker.snapshots, id)
      modifies this`records, this`disk, this`residentBytes, this`tick, this`aux, worker, worker.runtime
      ensures Valid() && Persisted(records) && Evolves(old(Now()), Now(), {id})
      ensures r.Ok? <==> old(Visible(id)) && old(records)[id].leases == 0 && old(records)[id].refcount == 0
      ensures r.Ok? ==> Now() == Forgotten(Touched(old(Now()), id), id)
      ensures r.Ok? ==> worker.snapshots == old(worker.snapshots) - {id}
      ensures r.Ok? ==> r.value == HeldBytes(worker.config.kernels, old(worker.snapshots), id)
      ensures r.Err? ==> Now() == if old(Visible(id)) then Touched(old(Now()), id) else old(Now())
      ensures r.Err? ==> worker.snapshots == old(worker.snapshots)
      ensures r.Err? ==> r.error == if old(Visible(id)) then InUse else Missing
    {
      hide Books, Agrees, Persisted, Evolves, PendingSafe, Residents, Cores, Pins, Forgotten, Unshared, RowBytes;
      FrozenKeys();
      ghost var before := Now();
      var got := Get(id);
      ghost var none: set<Id> := {};
      EvolvesUpTo(before, Now(), none, {id});
      if got.Err? {
        return Err(Missing);
      }
      if records[id].leases > 0 {
        return Err(InUse);
      }
      if records[id].refcount > 0 {
        return Err(InUse);
      }
      DeletedEvolves(before, id);
      var freed := Reclaim(id);
      r := Ok(freed);
    }

    // -- the promotion memo --------------------------------------------------------------------------

    method MemoizePromotion(parentId: Id, childId: Id) returns (r: Result<(), StoreError>)
      requires Valid()
      modifies this`records, this`tick
      ensures Valid() && Unmoved(old(Now()), Now())
      ensures r.Ok? <==> old(Visible(parentId) && Visible(childId) && PromotionOf(records[childId].core, parentId,
          records[parentId].core))
      ensures r.Ok? ==> parentId in records && records[parentId].promotionChild == Some(childId)
    {
      hide Books, Agrees, PromotionOf, Unmoved, Evolves, Cores, Residents, Pins, Persisted;
      ghost var before := Now();
      FrozenKeys();
      UnmovedLookup(before, parentId);
      var parent := Get(parentId);
      if parent.Err? {
        return Err(Missing);
      }
      r := MemoizeChild(parentId, childId, before);
    }

    method MemoizeChild(parentId: Id, childId: Id, ghost before: Book) returns (r: Result<(), StoreError>)
      requires Valid() && parentId in records && Unmoved(before, Now()) && before.recs.Keys <= before.aux.used
      modifies this`records, this`tick
      ensures Valid() && Unmoved(before, Now())
      ensures r.Ok? <==> old(Visible(childId) && PromotionOf(records[childId].core, parentId, records[parentId].core))
      ensures r.Ok? ==> parentId in records && records[parentId].promotionChild == Some(childId)
    {
      hide Books, Agrees, PromotionOf, Unmoved, Evolves, Cores, Residents, Pins, Persisted;
      FrozenKeys();
      ghost var b1 := Now();
      UnmovedLookup(b1, childId);
      var child := Get(childId);
      UnmovedTrans(before, b1, Now());
      if child.Err? {
        return Err(Missing);
      }
      if !PromotionOf(child.value, parentId, records[parentId].core) {
        return Err(Corrupt);
      }
      SetMemo(parentId, Some(childId), before);
      r := Ok(());
    }

    method SetMemo(id: Id, child: Option<Id>, ghost before: Book)
      requires Valid() && id in records && Unmoved(before, Now()) && before.recs.Keys <= before.aux.used
      requires child.Some? ==> child.value in records && PromotionOf(records[child.value].core, id, records[id].core)
      modifies this`records
      ensures Valid() && Now() == WithMemo(old(Now()), id, child) && Unmoved(before, Now())
    {
      hide Books, Agrees, PromotionOf, Unmoved, Evolves, Cores, Residents, Pins, Persisted;
      FrozenKeys();
      WithMemoBooks(Now(), id, child, hostBudget, worker.config.context);
      WithMemoAgrees(Now(), id, child, worker.config, worker.snapshots);
      WithMemoUnmoved(Now(), id, child);
      UnmovedTrans(before, Now(), WithMemo(Now(), id, child));
      records := records[id := records[id].(promotionChild := child)];
    }

    // The record's memo names a promotion that is there and unexpired.
    predicate Remembers(id: Id)
      reads this`records, this`clock
    {
      && id in records && records[id].promotionChild.Some? && records[id].promotionChild.value in records
      && records[records[id].promotionChild.value].core.expiresAt > clock
    }

    // The memo answers with a promotion that is there and unexpired, or is cleared.
    method MemoizedPromotion(parentId: Id) returns (r: Result<Option<Id>, StoreError>)
      requires Valid()
      modifies this`records, this`tick
      ensures Valid() && Unmoved(old(Now()), Now())
      ensures r.Ok? <==> old(Visible(parentId))
      ensures r.Ok? && r.value.Some? ==>
        && parentId in records && r.value.value in records && records[r.value.value].core.expiresAt > clock
        && PromotionOf(records[r.value.value].core, parentId, records[parentId].core)
        && r.value == records[parentId].promotionChild
      ensures r == Ok(None) ==> parentId in records && records[parentId].promotionChild == None
      ensures r.Ok? ==> r.value == if old(Remembers(parentId)) then old(records)[parentId].promotionChild else None
    {
      hide Books, Agrees, PromotionOf, Unmoved, Evolves, Cores, Residents, Pins, Persisted;
      ghost var before := Now();
      FrozenKeys();
      UnmovedLookup(before, parentId);
      var parent := Get(parentId);
      if parent.Err? {
        return Err(Missing);
      }
      MemoMatches(Now(), hostBudget, worker.config.context, parentId);
      var child := records[parentId].promotionChild;
      if child.None? || child.value !in records || records[child.value].core.expiresAt <= clock {
        SetMemo(parentId, None, before);
        return Ok(None);
      }
      return Ok(child);
    }

    // -- restoring -------------------------------------------------------------------------------------

    // Even with everything evicted that may be, so many bytes do not fit.
    ghost predicate NoRoom(incoming: nat)
      reads this`records, this`residentBytes
    {
      residentBytes + incoming > hostBudget && (incoming <= hostBudget ==> Exhausted(records))
    }

    // Brings a leased snapshot back into the worker, reserving every saved byte.
    method Restore(id: Id) returns (r: Result<Record, StoreError>)
      requires Valid() && Persisted(records) && Safe(Pins(records))
      requires id in records && records[id].leases > 0
      modifies this`records, this`disk, this`residentBytes, this`tick, this`aux, worker, worker.runtime
      ensures Valid() && Persisted(records) && Evolves(old(Now()), Now(), {})
      ensures r.Ok? ==> id in records && records[id].resident && r.value == old(records)[id].core
      ensures r.Ok? ==> Freshest(records, id)
      ensures r.Ok? && old(records)[id].resident ==> LookedUp(old(records), records, id, true)
      ensures r.Ok? && old(records)[id].resident ==> Now() == Touched(old(Now()), id)
      ensures r.Ok? && old(records)[id].resident ==> worker.snapshots == old(worker.snapshots)
      ensures r.Ok? && !old(records)[id].resident ==>
        BroughtBack(worker.config, old(records)[id], Now(), worker.snapshots, id)
      ensures r.Err? && r.error == StoreFull ==> NoRoom(RestoreBytes(worker.config.kernels, old(records)[id]))
      ensures RoomOnly(old(aux.evictions), aux.evictions,
          hostBudget - RestoreBytes(worker.config.kernels, old(records)[id]))
      ensures Pending() == old(Pending())
      ensures Safe(old(Pins(records)))
      ensures r.Err? && r.error == Missing <==> !old(Visible(id))
      ensures r.Err? ==> !old(Visible(id)) || !old(records)[id].resident
    {
      hide Books, Agrees, Persisted, Evolves, PendingSafe, Residents, Cores, Pins, MadeRoom, Evictable, Eroded,
        FileBytes, Loadable, RestoreBytes, NoRoom, Victim;
      FrozenKeys();
      ghost var b0 := Now();
      var got := Get(id);
      if got.Err? {
        return Err(Missing);
      }
      if records[id].resident {
        return Ok(records[id].core);
      }
      SameCharge(worker.config.kernels, b0.recs[id], records[id]);
      r := RestoreLoad(id, b0);
      if r.Ok? {
        LatestIsFreshest(Now(), hostBudget, worker.config.context, id);
      }
    }

    method RestoreLoad(id: Id, ghost b0: Book) returns (r: Result<Record, StoreError>)
      requires Valid() && Persisted(records) && Safe(Pins(records))
      requires id in records && records[id].leases > 0 && !records[id].resident
      requires Evolves(b0, Now(), {}) && b0.recs.Keys <= b0.aux.used
      modifies this`records, this`disk, this`residentBytes, this`tick, this`aux, worker, worker.runtime
      ensures Valid() && Persisted(records) && Evolves(b0, Now(), {})
      requires id in b0.recs && records[id] == b0.recs[id].(lastUsed := records[id].lastUsed)
      ensures r.Ok? ==> id in records && records[id].resident && r.value == old(records)[id].core
      ensures r.Ok? ==> BroughtBack(worker.config, b0.recs[id], Now(), worker.snapshots, id)
      ensures r.Err? && r.error == StoreFull ==> NoRoom(RestoreBytes(worker.config.kernels, b0.recs[id]))
      ensures RoomOnly(old(aux.evictions), aux.evictions, hostBudget - RestoreBytes(worker.config.kernels, b0.recs[id]))
      ensures Pending() == old(Pending())
      ensures Safe(old(Pins(records)))
      ensures r.Err? ==> r.error != Missing
    {
      hide Books, Agrees, Persisted, Evolves, PendingSafe, Residents, Cores, Pins, MadeRoom, Evictable, Eroded,
        FileBytes, RestoreBytes, BroughtBack;
      FrozenKeys();
      // Not resident, so durable: the source's check for neither never fires.
      DiskIsDurable(Now(), hostBudget, worker.config.context, id);
      if * {
        return Err(Corrupt);  // the manifest cannot be read, or differs
      }
      var files := records[id].durable.value;
      var saved := FileBytes(worker.config.kernels, files);
      var loaded := if records[id].hostBytes < saved then saved else records[id].hostBytes;
      ChargeIs(worker.config.kernels, b0.recs[id], files, loaded);
      ghost var b1, held1, pending := Now(), worker.snapshots, Pending();
      var room, mid, victims := EnforceBudget(loaded);
      FrozenKeys();
      ErodedEvolves(b1, Now());
      ErodedKeepsLeased(b1, Now(), id);
      ErodedFields(b1, Now(), id);
      ErodedKeysOnly(b1, Now());
      EvolvesChain(b0, b1, Now());
      PendingSafeShrinks(b1.recs, held1, records, worker.snapshots, Pins(b1.recs));
      if room.Err? {
        return Err(room.error);
      }
      r := LoadFiles(id, files, loaded, b0, Pins(b1.recs));
    }

    method LoadFiles(id: Id, files: Saved, loaded: nat, ghost b0: Book, ghost safe: set<Id>)
      returns (r: Result<Record, StoreError>)
      requires Valid() && Persisted(records) && Safe(safe)
      requires id in records && !records[id].resident && records[id].durable == Some(files)
      requires files.lower.Some? && FileBytes(worker.config.kernels, files) <= loaded
      requires residentBytes + loaded <= hostBudget
      requires Evolves(b0, Now(), {}) && b0.recs.Keys <= b0.aux.used && id in b0.recs
      requires records[id] == b0.recs[id].(lastUsed := records[id].lastUsed, refcount := records[id].refcount)
      requires loaded == RestoreBytes(worker.config.kernels, b0.recs[id])
      modifies this`records, this`residentBytes, this`tick, worker, worker.runtime
      ensures Valid() && Persisted(records) && Evolves(b0, Now(), {})
      ensures r.Ok? ==> id in records && records[id].resident && r.value == old(records)[id].core
      ensures r.Ok? ==> BroughtBack(worker.config, b0.recs[id], Now(), worker.snapshots, id)
      ensures aux.evictions == old(aux.evictions)
      ensures Pending() == old(Pending())
      ensures Safe(safe)
      ensures r.Err? ==> r.error == NativeFailed
    {
      hide Books, Agrees, Persisted, Evolves, PendingSafe, Residents, Cores, FileBytes, FromFiles, Loadable, Restored,
        RestoreBytes, BroughtBack;
      FrozenKeys();
      HeldWhenResident(id);
      ghost var b2, held2, tag := Now(), worker.snapshots, worker.nextTag;
      var loadedOk := LoadNative(id, files);
      if !loadedOk {
        return Err(NativeFailed);
      }
      RestoredBooks(b2, id, loaded, hostBudget, worker.config.context);
      RestoredAgrees(b2, id, loaded, tag, worker.config, held2);
      MarkRestored(id, loaded);
      RestoredAll(b0, b2, id, loaded, held2, FromFiles(id, files, tag), safe);
      RestoredIs(b2, id, loaded);
      RestoredBroughtBack(worker.config, b0.recs[id], b2, id, files, held2, tag);
      return Ok(records[id].core);
    }

    // The worker reads the directory back, if it can.
    method LoadNative(id: Id, files: Saved) returns (ok: bool)
      requires worker.Valid() && files.lower.Some?
      modifies worker, worker.runtime
      ensures worker.Valid()
      ensures worker.snapshots ==
        if ok then old(worker.snapshots)[id := FromFiles(id, files, old(worker.nextTag))] else old(worker.snapshots)
    {
      hide FromFiles, Loadable;
      var readable: bool := *;
      var resp := worker.Load(id, if readable then Some(files) else None);
      ok := resp.Loaded?;
    }

    method MarkRestored(id: Id, loaded: nat)
      requires id in records
      modifies this`records, this`residentBytes, this`tick
      ensures Now() == Restored(old(Now()), id, loaded)
    {
      tick := tick + 1;
      residentBytes := residentBytes + loaded;
      records := records[id := records[id].(resident := true, hostBytes := loaded, lastUsed := tick)];
    }
  }

  lemma ParentNamed(r: Record)
    ensures r.parent.Some? ==> r.parent.value in Refs(r)
  {
  }

  lemma RefsAmong(r: Record, pins: set<Id>)
    requires forall i :: 0 <= i < |PushRefs([], r)| ==> PushRefs([], r)[i] in pins
    ensures Refs(r) <= pins
  {
    forall id | id in Refs(r)
      ensures id in pins
    {
      assert id in PushRefs([], r);
    }
  }

  lemma NotEnteredYet(b: Book, id: Id, core: Record, tokens: seq<Token>)
    requires id !in b.recs
    ensures Entered(b, id, core, tokens, false)
  {
  }

  function PushRefs(frontier: seq<Id>, core: Record): (r: seq<Id>)
    ensures forall id :: id in r <==> id in frontier || id in Refs(core)
  {
    frontier
    + (if core.parent.Some? then [core.parent.value] else [])
    + (if core.contextParent.Some? then [core.contextParent.value] else [])
  }
}
