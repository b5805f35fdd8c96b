// Rebuilding the index of snapshots from the published directories
// (_load_disk_index of unridden/api/snapshots/store.py).
module DiskIndex {
  import opened Common
  import opened Kernels
  import opened SnapshotRuntime
  import opened WorkerSpec
  import opened StockAnswers
  import opened Registry
  import opened Ledger
  import opened Descent

  datatype IndexError = Malformed | ParentMissing | PromotionMissing | PromotionDiffers

  // A manifest that can be read back: a disk snapshot with bytes and a token count
  // within the context.
  predicate Readable(m: Record, context: nat) {
    m.persistence == Disk && m.persistedBytes > 0 && 1 <= m.tokens <= context
  }

  // Everything a manifest names is published too, and a promotion matches its 18.
  ghost predicate Complete(disk: map<Id, Published>, id: Id)
    requires id in disk
  {
    var m := disk[id].manifest;
    && Refs(m) <= disk.Keys
    && (m.promotionOf.Some? ==>
      m.promotionOf.value in disk && PromotionOf(m, m.promotionOf.value, disk[m.promotionOf.value].manifest))
  }

  ghost predicate Accepted(disk: map<Id, Published>, context: nat) {
    && (forall id :: id in disk ==> Readable(disk[id].manifest, context))
    && (forall id :: id in disk ==> Complete(disk, id))
  }

  // An unexpired promotion of p among `ids`.
  ghost predicate Promotes(disk: map<Id, Published>, clock: int, ids: set<Id>, p: Id, c: Id) {
    c in ids && c in disk && disk[c].manifest.promotionOf == Some(p) && disk[c].manifest.expiresAt > clock
  }

  // The memo of p: its newest unexpired promotion among `ids`, if it has one.
  ghost predicate Newest(disk: map<Id, Published>, clock: int, ids: set<Id>, p: Id, memo: Option<Id>) {
    if memo.None? then forall c :: !Promotes(disk, clock, ids, p, c)
    else
      && Promotes(disk, clock, ids, p, memo.value)
      && forall c :: Promotes(disk, clock, ids, p, c) ==>
        disk[c].manifest.createdAt <= disk[memo.value].manifest.createdAt
  }

  // A record read back: its manifest and files, not resident, nothing else yet.
  function ReadBack(p: Published, tick: nat): Rec {
    Rec(p.manifest, 0, 0, false, p.manifest.persistedBytes, tick, None, Some(p.files))
  }

  // The index after the children in `ids` were counted.
  ghost predicate Indexed(disk: map<Id, Published>, clock: int, recs: Recs, ids: set<Id>) {
    && recs.Keys == disk.Keys
    && forall id :: id in disk ==> IndexedAt(disk, clock, recs, ids, id)
  }

  ghost predicate IndexedAt(disk: map<Id, Published>, clock: int, recs: Recs, ids: set<Id>, id: Id)
    requires id in disk && id in recs
  {
    && recs[id] ==
      ReadBack(disk[id], recs[id].lastUsed).(refcount := recs[id].refcount, promotionChild := recs[id].promotionChild)
    && recs[id].refcount == |ChildrenAmong(disk, ids, id)|
    && Newest(disk, clock, ids, id, recs[id].promotionChild)
  }

  ghost function ChildrenAmong(disk: map<Id, Published>, ids: set<Id>, id: Id): set<Id> {
    set c | c in ids && c in disk && id in Refs(disk[c].manifest)
  }

  function CountBoth(recs: Recs, m: Record): (r: Recs)
    ensures r.Keys == recs.Keys
  {
    var first := CountOne(recs, m.parent);
    if m.contextParent != m.parent then CountOne(first, m.contextParent) else first
  }

  // The memo of the 18 that `id` promotes, if `id` is unexpired and newer.
  function Memoized(clock: int, recs: Recs, id: Id, m: Record): (r: Recs)
    requires m.promotionOf.Some? ==> m.promotionOf.value in recs
    ensures r.Keys == recs.Keys
  {
    if m.promotionOf.None? || m.expiresAt <= clock then recs
    else
      var p := m.promotionOf.value;
      var previous := recs[p].promotionChild;
      if previous.None? || (previous.value in recs && recs[previous.value].core.createdAt < m.createdAt) then
        recs[p := recs[p].(promotionChild := Some(id))]
      else recs
  }

  lemma CountBothAt(recs: Recs, m: Record, x: Id)
    requires x in recs
    ensures CountBoth(recs, m)[x] == recs[x].(refcount := recs[x].refcount + if x in Refs(m) then 1 else 0)
  {
  }

  lemma MemoizedAt(clock: int, recs: Recs, id: Id, m: Record, x: Id)
    requires m.promotionOf.Some? ==> m.promotionOf.value in recs
    requires x in recs
    ensures Memoized(clock, recs, id, m)[x] ==
      recs[x].(promotionChild := Memoized(clock, recs, id, m)[x].promotionChild)
    ensures m.promotionOf != Some(x) || m.expiresAt <= clock ==> Memoized(clock, recs, id, m)[x] == recs[x]
    ensures m.promotionOf == Some(x) && m.expiresAt > clock ==>
      var previous := recs[x].promotionChild;
      Memoized(clock, recs, id, m)[x].promotionChild ==
        if previous.None? || (previous.value in recs
          && recs[previous.value].core.createdAt < m.createdAt) then Some(id) else previous
  {
  }

  lemma IndexedStart(disk: map<Id, Published>, clock: int, read: Recs)
    requires read.Keys == disk.Keys && forall id :: id in disk ==> read[id] == ReadBack(disk[id], read[id].lastUsed)
    ensures Indexed(disk, clock, read, disk.Keys - disk.Keys)
  {
    assert disk.Keys - disk.Keys == {};
    forall id | id in disk
      ensures IndexedAt(disk, clock, read, {}, id)
    {
      assert ChildrenAmong(disk, {}, id) == {};
    }
  }

  lemma CompleteIs(disk: map<Id, Published>, id: Id)
    requires id in disk
    ensures
      var m := disk[id].manifest;
      Complete(disk, id) <==>
        && (m.parent.Some? ==> m.parent.value in disk) && (m.contextParent.Some? ==> m.contextParent.value in disk)
        && (m.promotionOf.Some? ==>
          m.promotionOf.value in disk && PromotionOf(m, m.promotionOf.value, disk[m.promotionOf.value].manifest))
  {
    hide PromotionOf;
    var m := disk[id].manifest;
    assert m.parent.Some? ==> m.parent.value in Refs(m);
    assert m.contextParent.Some? ==> m.contextParent.value in Refs(m);
  }

  lemma IndexedCores(disk: map<Id, Published>, clock: int, recs: Recs, ids: set<Id>)
    requires Indexed(disk, clock, recs, ids)
    ensures recs.Keys == disk.Keys && forall id :: id in recs ==> recs[id].core == disk[id].manifest
  {
    hide Newest;
    forall id | id in recs
      ensures recs[id].core == disk[id].manifest
    {
      assert IndexedAt(disk, clock, recs, ids, id);
    }
  }

  lemma IndexedNext(disk: map<Id, Published>, clock: int, recs: Recs, done: set<Id>, id: Id)
    requires Indexed(disk, clock, recs, done) && id in disk && id !in done && done <= disk.Keys
    requires disk[id].manifest.promotionOf.Some? ==> disk[id].manifest.promotionOf.value in recs
    ensures
      var m := disk[id].manifest;
      var after := Memoized(clock, CountBoth(recs, m), id, m);
      Indexed(disk, clock, after, done + {id}) && forall x :: x in recs ==> after[x].lastUsed == recs[x].lastUsed
  {
    hide Newest, Refs, CountBoth, Memoized, ChildrenAmong;
    var m := disk[id].manifest;
    var both := CountBoth(recs, m);
    var after := Memoized(clock, both, id, m);
    IndexedCores(disk, clock, recs, done);
    forall x | x in disk
      ensures IndexedAt(disk, clock, after, done + {id}, x) && after[x].lastUsed == recs[x].lastUsed
    {
      assert IndexedAt(disk, clock, recs, done, x);
      CountBothAt(recs, m, x);
      MemoizedAt(clock, both, id, m, x);
      OneMoreChild(disk, done, id, x);
      var previous := recs[x].promotionChild;
      if previous.Some? {
        MemoIn(disk, clock, done, x, previous.value);
        CountBothAt(recs, m, previous.value);
      }
      NewestNext(disk, clock, done, id, x, previous);
    }
  }

  lemma MemoIn(disk: map<Id, Published>, clock: int, ids: set<Id>, p: Id, memo: Id)
    requires Newest(disk, clock, ids, p, Some(memo))
    ensures memo in disk && memo in ids
  {
  }

  lemma OneMoreChild(disk: map<Id, Published>, done: set<Id>, id: Id, x: Id)
    requires id in disk && id !in done
    ensures |ChildrenAmong(disk, done + {id}, x)| ==
      |ChildrenAmong(disk, done, x)| + if x in Refs(disk[id].manifest) then 1 else 0
  {
    hide Refs;
    var was := ChildrenAmong(disk, done, x);
    if x in Refs(disk[id].manifest) {
      assert ChildrenAmong(disk, done + {id}, x) == was + {id};
    } else {
      assert ChildrenAmong(disk, done + {id}, x) == was;
    }
  }

  lemma NewestNext(disk: map<Id, Published>, clock: int, done: set<Id>, id: Id, p: Id, previous: Option<Id>)
    requires Newest(disk, clock, done, p, previous) && id in disk && id !in done
    ensures
      var m := disk[id].manifest;
      if m.promotionOf != Some(p) || m.expiresAt <= clock then Newest(disk, clock, done + {id}, p, previous)
      else Newest(disk, clock, done + {id}, p,
        if previous.None? || (previous.value in disk
          && disk[previous.value].manifest.createdAt < m.createdAt) then Some(id) else previous)
  {
    forall c
      ensures Promotes(disk, clock, done + {id}, p, c) <==>
        Promotes(disk, clock, done, p,
          c) || (c == id && disk[id].manifest.promotionOf == Some(p) && disk[id].manifest.expiresAt > clock)
    {
    }
  }

  method LoadDiskIndex(disk: map<Id, Published>, context: nat, clock: int)
    returns (r: Result<Recs, IndexError>, tick: nat)
    ensures r.Ok? <==> Accepted(disk, context)
    ensures r.Ok? ==> Indexed(disk, clock, r.value, disk.Keys) && Recency(disk.Keys, Uses(r.value), tick)
  {
    hide Indexed, Recency, Complete, Readable, Uses, ReadBack;
    var read;
    read, tick := ReadManifests(disk, context);
    if read.Err? {
      return Err(read.error), tick;
    }
    r := CountChildren(disk, clock, read.value, context);
    if r.Ok? {
      IndexedKeys(disk, clock, r.value, disk.Keys);
      SameUses(read.value, r.value);
    }
  }

  lemma IndexedKeys(disk: map<Id, Published>, clock: int, recs: Recs, ids: set<Id>)
    requires Indexed(disk, clock, recs, ids)
    ensures recs.Keys == disk.Keys
  {
  }

  lemma SameUses(recs: Recs, other: Recs)
    requires recs.Keys == other.Keys && forall id :: id in recs ==> other[id].lastUsed == recs[id].lastUsed
    ensures Uses(other) == Uses(recs)
  {
  }

  ghost predicate AllRead(disk: map<Id, Published>, recs: Recs, context: nat) {
    forall id :: id in recs ==>
      id in disk && Readable(disk[id].manifest, context) && recs[id] == ReadBack(disk[id], recs[id].lastUsed)
  }

  lemma NothingRead(disk: map<Id, Published>, context: nat)
    ensures
      var recs: Recs := map[];
      AllRead(disk, recs, context) && Recency(recs.Keys, Uses(recs), 0)
  {
  }

  lemma ReadOne(disk: map<Id, Published>, recs: Recs, context: nat, id: Id, tick: nat)
    requires AllRead(disk, recs, context) && Recency(recs.Keys, Uses(recs), tick) && id in disk
    requires Readable(disk[id].manifest, context)
    ensures
      var more := recs[id := ReadBack(disk[id], tick + 1)];
      AllRead(disk, more, context) && Recency(more.Keys, Uses(more), tick + 1) && more.Keys == recs.Keys + {id}
  {
    hide Recency, Uses, Readable;
    UsesSet(recs, id, ReadBack(disk[id], tick + 1));
    RecencyTouch(recs.Keys, Uses(recs), tick, id);
    assert recs[id := ReadBack(disk[id], tick + 1)].Keys == recs.Keys + {id};
  }

  // The first pass: one record per directory.
  method ReadManifests(disk: map<Id, Published>, context: nat) returns (r: Result<Recs, IndexError>, tick: nat)
    ensures r.Ok? <==> forall id :: id in disk ==> Readable(disk[id].manifest, context)
    ensures r.Ok? ==> r.value.Keys == disk.Keys && Recency(disk.Keys, Uses(r.value), tick)
    ensures r.Ok? ==> forall id :: id in disk ==> r.value[id] == ReadBack(disk[id], r.value[id].lastUsed)
  {
    hide Recency, Uses, Readable, ReadBack;
    var recs: Recs := map[];
    tick := 0;
    var todo := disk.Keys;
    NothingRead(disk, context);
    while todo != {}
      invariant todo <= disk.Keys && recs.Keys == disk.Keys - todo
      invariant AllRead(disk, recs, context) && Recency(recs.Keys, Uses(recs), tick)
      decreases |todo|
    {
      var id :| id in todo;
      if !Readable(disk[id].manifest, context) {
        return Err(Malformed), tick;
      }
      todo := todo - {id};
      ReadOne(disk, recs, context, id, tick);
      tick := tick + 1;
      recs := recs[id := ReadBack(disk[id], tick)];
    }
    return Ok(recs), tick;
  }

  // The second pass: count every reference once per child, and remember the newest
  // unexpired promotion of each 18.
  method CountChildren(disk: map<Id, Published>, clock: int, read: Recs, context: nat)
    returns (r: Result<Recs, IndexError>)
    requires read.Keys == disk.Keys && forall id :: id in disk ==> read[id] == ReadBack(disk[id], read[id].lastUsed)
    ensures r.Ok? <==> forall id :: id in disk ==> Complete(disk, id)
    ensures r.Ok? ==> Indexed(disk, clock, r.value, disk.Keys)
    ensures r.Ok? ==> forall id :: id in disk ==> r.value[id].lastUsed == read[id].lastUsed
  {
    hide Complete, Indexed, PromotionOf;
    var recs := read;
    var todo := disk.Keys;
    IndexedStart(disk, clock, read);
    while todo != {}
      invariant todo <= disk.Keys && recs.Keys == disk.Keys
      invariant Indexed(disk, clock, recs, disk.Keys - todo)
      invariant forall id :: id in disk && id !in todo ==> Complete(disk, id)
      invariant forall id :: id in disk ==> recs[id].lastUsed == read[id].lastUsed
      decreases |todo|
    {
      var id :| id in todo;
      ghost var done := disk.Keys - todo;
      todo := todo - {id};
      var m := disk[id].manifest;
      CompleteIs(disk, id);
      IndexedCores(disk, clock, recs, done);
      if (m.parent.Some? && m.parent.value !in recs) || (m.contextParent.Some? && m.contextParent.value !in recs) {
        return Err(ParentMissing);
      }
      if m.promotionOf.Some? && m.promotionOf.value !in recs {
        return Err(PromotionMissing);
      }
      if m.promotionOf.Some? && !PromotionOf(m, m.promotionOf.value, recs[m.promotionOf.value].core) {
        return Err(PromotionDiffers);
      }
      IndexedNext(disk, clock, recs, done, id);
      assert disk.Keys - todo == done + {id};
      recs := Memoized(clock, CountBoth(recs, m), id, m);
    }
    assert disk.Keys - todo == disk.Keys;
    return Ok(recs);
  }

  // -- What a restart keeps ------------------------------------------------------------

  // The files of every durable record are those of its fixed part.
  ghost predicate FilesTold(b: Book) {
    && b.aux.frozen.Keys == b.recs.Keys
    && forall id :: id in b.recs && b.recs[id].durable.Some? ==> FilesToldAt(b, id)
  }

  ghost predicate FilesToldAt(b: Book, id: Id)
    requires id in b.recs && id in b.aux.frozen && b.recs[id].durable.Some?
  {
    |b.aux.frozen[id]| == b.recs[id].core.tokens && FilesMatch(b.recs[id].core, b.recs[id].durable.value,
      b.aux.frozen[id])
  }

  // The published files of every record are those of a faithful snapshot.
  ghost predicate FilesFaithful(c: Config, recs: Recs) {
    forall id :: id in recs && recs[id].durable.Some? ==> FaithfulFiles(c, recs[id].durable.value)
  }

  lemma AgreedFiles(b: Book, c: Config, held: map<Id, Snapshot>)
    requires Agrees(b, c, held)
    ensures FilesTold(b) && FilesFaithful(c, b.recs)
  {
    hide Residents, Bytes, FilesMatch, Matches, Sharing, Faithful, FaithfulFiles;
    forall id | id in b.recs && b.recs[id].durable.Some?
      ensures FilesToldAt(b, id) && FaithfulFiles(c, b.recs[id].durable.value)
    {
      assert Durables(b.recs)[id] == b.recs[id].durable.value && Cores(b.recs)[id] == b.recs[id].core;
    }
  }

  // Everything the manifests rely on is published: what is on disk can stand alone.
  ghost predicate Recoverable(b: Book, hostBudget: nat, context: nat) {
    Books(b, hostBudget, context) && Persisted(b.recs) && Lineage(b) && FilesTold(b)
  }

  lemma PublishedIffDisk(b: Book, hostBudget: nat, context: nat, id: Id)
    requires Recoverable(b, hostBudget, context)
    ensures id in b.disk <==> id in b.recs && b.recs[id].core.persistence == Disk
    ensures id in b.disk ==>
      && b.recs[id].durable.Some? && b.disk[id] == Published(b.recs[id].core, b.recs[id].durable.value)
      && Loadable(b.recs[id].durable.value, context)
  {
    hide Lineage, FilesTold, Loadable;
    if id in b.recs {
      hide Books;
      DiskIsDurable(b, hostBudget, context, id);
    } else {
      OnlyRecordsPublished(b, hostBudget, context);
    }
  }

  lemma OnlyRecordsPublished(b: Book, hostBudget: nat, context: nat)
    requires Books(b, hostBudget, context)
    ensures b.disk.Keys <= b.recs.Keys
  {
    hide Graph, Leased, Promotions, Recency, Total, Refcounts, Leases, Residents, Bytes, Uses, Memo, Cores, Loadable;
    forall id | id in b.disk
      ensures id in b.recs
    {
      assert id in Durables(b.recs);
    }
  }

  // The published directories are closed under their references, so a rebuild
  // accepts every one of them.
  lemma DiskComplete(b: Book, hostBudget: nat, context: nat)
    requires Recoverable(b, hostBudget, context)
    ensures Accepted(b.disk, context)
    ensures forall id :: id in b.disk ==> Refs(b.disk[id].manifest) <= b.disk.Keys
  {
    hide Recoverable, Refs, PromotionOf;
    forall id | id in b.disk
      ensures Readable(b.disk[id].manifest, context) && Complete(b.disk, id)
    {
      PublishedIffDisk(b, hostBudget, context, id);
      DiskReadable(b, hostBudget, context, id);
      DiskClosed(b, hostBudget, context, id);
    }
  }

  lemma DiskReadable(b: Book, hostBudget: nat, context: nat, id: Id)
    requires Recoverable(b, hostBudget, context) && id in b.recs && b.recs[id].core.persistence == Disk
    requires b.recs[id].durable.Some? && Loadable(b.recs[id].durable.value, context)
    ensures Readable(b.recs[id].core, context)
  {
    hide Books, Persisted, Lineage;
    LineageAt(b, id);
    assert FilesToldAt(b, id);
  }

  lemma DiskClosed(b: Book, hostBudget: nat, context: nat, id: Id)
    requires Recoverable(b, hostBudget, context) && id in b.disk && id in b.recs
    requires b.disk[id].manifest == b.recs[id].core
    requires b.recs[id].core.persistence == Disk
    ensures Complete(b.disk, id)
  {
    var core := b.recs[id].core;
    assert Lineage(b) && Books(b, hostBudget, context);
    hide Books, Persisted, Lineage, FilesTold, PromotionOf;
    LineageAt(b, id);
    forall ref | ref in Refs(core)
      ensures ref in b.disk && b.disk[ref].manifest == b.recs[ref].core
    {
      PublishedIffDisk(b, hostBudget, context, ref);
    }
    if core.promotionOf.Some? {
      PromotionParent(b, hostBudget, context, id);
      assert core.promotionOf.value in Refs(core);
    }
  }

  // The rebuilt index as the store's new books, with the history the invariant
  // speaks of.
  function RebuiltBook(b: Book, recs: Recs, tick: nat): Book {
    Book(recs, b.disk, 0, tick,
      Aux(map id | id in b.disk && id in b.aux.birth :: b.aux.birth[id], b.aux.births, [],
        map id | id in b.disk && id in b.aux.frozen :: b.aux.frozen[id], b.aux.used, b.aux.evictions), b.clock)
  }

  // Nothing but the memory-only records is lost: what is back has its fields, its
  // tokens and its reference count.
  ghost predicate Survives(b: Book, after: Book) {
    && after.disk == b.disk && after.recs.Keys == b.disk.Keys && after.aux.frozen.Keys == b.disk.Keys
    && after.aux.used == b.aux.used && after.aux.evictions == b.aux.evictions && after.clock == b.clock
    && (forall id :: id in b.recs ==> (id in after.recs <==> b.recs[id].core.persistence == Disk))
    && (forall id :: id in after.recs ==> SurvivesAt(b, after, id))
  }

  ghost predicate SurvivesAt(b: Book, after: Book, id: Id)
    requires id in after.recs
  {
    && id in b.recs && after.recs[id].core == b.recs[id].core && after.recs[id].refcount == b.recs[id].refcount
    && after.recs[id].durable == b.recs[id].durable && !after.recs[id].resident && after.recs[id].leases == 0
    && after.recs[id].hostBytes == b.recs[id].core.persistedBytes
    && id in b.aux.frozen && id in after.aux.frozen && after.aux.frozen[id] == b.aux.frozen[id]
  }

  // A record on disk is named by records on disk only, so its count is exact.
  lemma SameChildren(b: Book, hostBudget: nat, context: nat, id: Id)
    requires Recoverable(b, hostBudget, context) && id in b.disk && id in b.recs
    ensures |ChildrenAmong(b.disk, b.disk.Keys, id)| == b.recs[id].refcount
  {
    hide Recoverable, Books, Refs, Lineage, FilesTold, Persisted, Descends, Children, ChildrenAmong;
    RecoverableKeys(b, hostBudget, context);
    forall c | c in b.recs && id in Refs(b.recs[c].core)
      ensures c in b.disk
    {
      LineageAt(b, c);
      PublishedIffDisk(b, hostBudget, context, id);
      SamePersistence(b, c, id);
      PublishedIffDisk(b, hostBudget, context, c);
    }
    forall c | c in b.disk
      ensures c in b.recs && b.disk[c].manifest == b.recs[c].core
    {
      PublishedIffDisk(b, hostBudget, context, c);
    }
    ChildrenOnDisk(b.recs, b.disk, id);
    CountIs(b, hostBudget, context, id);
  }

  lemma SamePersistence(b: Book, child: Id, id: Id)
    requires child in b.recs && child in b.aux.frozen
    requires Descends(b.recs, b.aux.frozen, b.recs[child].core, b.aux.frozen[child])
    requires id in Refs(b.recs[child].core)
    ensures id in b.recs && b.recs[id].core.persistence == b.recs[child].core.persistence
  {
  }

  lemma ChildrenOnDisk(recs: Recs, disk: map<Id, Published>, id: Id)
    requires forall c :: c in disk ==> c in recs && disk[c].manifest == recs[c].core
    requires forall c :: c in recs && id in Refs(recs[c].core) ==> c in disk
    ensures ChildrenAmong(disk, disk.Keys, id) == Children(Cores(recs), id)
  {
    hide Refs;
  }

  lemma CountIs(b: Book, hostBudget: nat, context: nat, id: Id)
    requires Books(b, hostBudget, context) && id in b.recs
    ensures b.recs[id].refcount == |Children(Cores(b.recs), id)|
  {
    hide Leased, Promotions, Recency, Durable, Total, Children;
    assert Refcounts(b.recs)[id] == b.recs[id].refcount;
  }

  lemma IndexedOneAt(disk: map<Id, Published>, clock: int, recs: Recs, ids: set<Id>, id: Id)
    requires Indexed(disk, clock, recs, ids) && id in disk
    ensures id in recs && IndexedAt(disk, clock, recs, ids, id)
  {
  }

  lemma RebuiltSurvives(b: Book, recs: Recs, clock: int, tick: nat, hostBudget: nat, context: nat)
    requires Recoverable(b, hostBudget, context) && Indexed(b.disk, clock, recs, b.disk.Keys)
    ensures Survives(b, RebuiltBook(b, recs, tick))
  {
    hide Recoverable, Newest, Loadable, ChildrenAmong, Books, Lineage, FilesTold, Persisted, Indexed;
    RecoverableKeys(b, hostBudget, context);
    IndexedKeys(b.disk, clock, recs, b.disk.Keys);
    forall id | id in b.disk
      ensures id in b.recs && SurvivesAt(b, RebuiltBook(b, recs, tick), id)
    {
      PublishedIffDisk(b, hostBudget, context, id);
      SameChildren(b, hostBudget, context, id);
      IndexedOneAt(b.disk, clock, recs, b.disk.Keys, id);
    }
    forall id | id in b.recs
      ensures id in b.disk <==> b.recs[id].core.persistence == Disk
    {
      PublishedIffDisk(b, hostBudget, context, id);
    }
  }

  lemma RecoverableKeys(b: Book, hostBudget: nat, context: nat)
    requires Recoverable(b, hostBudget, context)
    ensures b.aux.frozen.Keys == b.recs.Keys && b.aux.birth.Keys == b.recs.Keys
    ensures Lineage(b) && Books(b, hostBudget, context) && FilesTold(b) && Persisted(b.recs)
  {
    hide Lineage, Leased, Promotions, Recency, Durable, Total, Persisted, Refcounts;
  }

  // -- The rebuilt books are right ---------------------------------------------------------

  lemma RebuiltGraph(b: Book, recs: Recs, clock: int, tick: nat, hostBudget: nat, context: nat)
    requires Recoverable(b, hostBudget, context) && Indexed(b.disk, clock, recs, b.disk.Keys)
    requires Accepted(b.disk, context)
    ensures
      var after := RebuiltBook(b, recs, tick);
      Graph(Cores(recs), Refcounts(recs), after.aux.birth, after.aux.births)
  {
    hide Recoverable, Newest, ChildrenAmong, Books, Lineage, FilesTold, Persisted, Indexed, Children, Refs, Accepted;
    var after := RebuiltBook(b, recs, tick);
    RecoverableKeys(b, hostBudget, context);
    IndexedKeys(b.disk, clock, recs, b.disk.Keys);
    IndexedCores(b.disk, clock, recs, b.disk.Keys);
    forall id | id in b.disk
      ensures id in b.recs && b.aux.birth[id] < b.aux.births && recs[id].core == b.recs[id].core
      ensures Refs(recs[id].core) <= b.disk.Keys
      ensures forall r :: r in Refs(recs[id].core) ==> r in b.recs && b.aux.birth[r] < b.aux.birth[id]
      ensures recs[id].refcount == |Children(Cores(recs), id)|
    {
      PublishedIffDisk(b, hostBudget, context, id);
      BirthOrder(b, hostBudget, context, id);
      AcceptedAt(b.disk, context, id);
      IndexedOneAt(b.disk, clock, recs, b.disk.Keys, id);
      ChildrenOnDisk(recs, b.disk, id);
    }
    assert after.aux.birth.Keys == recs.Keys;
    forall id | id in Cores(recs)
      ensures Resolves(Cores(recs), after.aux.birth, id)
    {
    }
  }

  lemma AcceptedAt(disk: map<Id, Published>, context: nat, id: Id)
    requires Accepted(disk, context) && id in disk
    ensures Complete(disk, id) && Refs(disk[id].manifest) <= disk.Keys && Readable(disk[id].manifest, context)
  {
    hide Refs, PromotionOf, Readable;
  }

  lemma BirthOrder(b: Book, hostBudget: nat, context: nat, id: Id)
    requires Books(b, hostBudget, context) && id in b.recs
    ensures b.aux.birth.Keys == b.recs.Keys && b.aux.birth[id] < b.aux.births
    ensures forall r :: r in Refs(b.recs[id].core) ==> r in b.recs && b.aux.birth[r] < b.aux.birth[id]
  {
    hide Leased, Promotions, Recency, Durable, Total, Refcounts, Refs;
    assert Resolves(Cores(b.recs), b.aux.birth, id);
  }

  lemma RebuiltPromotions(b: Book, recs: Recs, clock: int, hostBudget: nat, context: nat)
    requires Recoverable(b, hostBudget, context) && Indexed(b.disk, clock, recs, b.disk.Keys)
    requires Accepted(b.disk, context)
    ensures Promotions(Cores(recs), Memo(recs), b.aux.used)
  {
    hide Recoverable, ChildrenAmong, Books, Lineage, FilesTold, Persisted, Indexed, Refs, Accepted, PromotionOf;
    RecoverableKeys(b, hostBudget, context);
    UsedAll(b, hostBudget, context);
    IndexedKeys(b.disk, clock, recs, b.disk.Keys);
    IndexedCores(b.disk, clock, recs, b.disk.Keys);
    forall id | id in recs
      ensures id in b.aux.used
    {
      PublishedIffDisk(b, hostBudget, context, id);
    }
    forall id | id in recs && recs[id].core.promotionOf.Some?
      ensures recs[id].core.promotionOf.value in recs
      ensures PromotionOf(recs[id].core, recs[id].core.promotionOf.value, recs[recs[id].core.promotionOf.value].core)
    {
      AcceptedAt(b.disk, context, id);
    }
    forall p | p in Memo(recs)
      ensures Memo(recs)[p] in recs && PromotionOf(recs[Memo(recs)[p]].core, p, recs[p].core)
    {
      IndexedOneAt(b.disk, clock, recs, b.disk.Keys, p);
      assert Promotes(b.disk, clock, b.disk.Keys, p, recs[p].promotionChild.value);
    }
  }

  lemma RebuiltDurable(b: Book, recs: Recs, clock: int, hostBudget: nat, context: nat)
    requires Recoverable(b, hostBudget, context) && Indexed(b.disk, clock, recs, b.disk.Keys)
    ensures Residents(recs) == {} && Durable(Cores(recs), Residents(recs), Durables(recs), b.disk, context)
    ensures Persisted(recs)
  {
    hide Recoverable, ChildrenAmong, Books, Lineage, FilesTold, Indexed, Newest, Loadable;
    IndexedKeys(b.disk, clock, recs, b.disk.Keys);
    forall id | id in recs
      ensures recs[id].core == b.disk[id].manifest && !recs[id].resident && recs[id].durable == Some(b.disk[id].files)
      ensures b.disk[id].manifest.persistence == Disk && Loadable(b.disk[id].files, context)
    {
      PublishedIffDisk(b, hostBudget, context, id);
      IndexedOneAt(b.disk, clock, recs, b.disk.Keys, id);
    }
    assert Durables(recs).Keys == recs.Keys;
  }

  lemma RebuiltLeased(b: Book, recs: Recs, clock: int)
    requires Indexed(b.disk, clock, recs, b.disk.Keys)
    ensures Leased(Cores(recs), Leases(recs), [])
  {
    hide ChildrenAmong, Newest, Indexed;
    IndexedKeys(b.disk, clock, recs, b.disk.Keys);
    forall id | id in recs
      ensures recs[id].leases == 0
    {
      IndexedOneAt(b.disk, clock, recs, b.disk.Keys, id);
    }
  }

  lemma RebuiltHoldings(b: Book, recs: Recs, clock: int, tick: nat, hostBudget: nat, c: Config)
    requires Recoverable(b, hostBudget, c.context) && Indexed(b.disk, clock, recs, b.disk.Keys)
    requires FilesFaithful(c, b.recs)
    requires Residents(recs) == {} && RebuiltBook(b, recs, tick).aux.frozen.Keys == recs.Keys
    ensures Agrees(RebuiltBook(b, recs, tick), c, map[])
  {
    hide Recoverable, ChildrenAmong, Books, Lineage, FilesTold, Persisted, Indexed, Newest, Loadable, Residents,
      FilesMatch, Matches, FaithfulFiles;
    var after := RebuiltBook(b, recs, tick);
    RecoverableKeys(b, hostBudget, c.context);
    IndexedKeys(b.disk, clock, recs, b.disk.Keys);
    forall id | id in recs
      ensures |after.aux.frozen[id]| == recs[id].core.tokens && recs[id].durable.Some?
      ensures FilesMatch(recs[id].core, recs[id].durable.value, after.aux.frozen[id])
      ensures FaithfulFiles(c, recs[id].durable.value)
    {
      PublishedIffDisk(b, hostBudget, c.context, id);
      IndexedOneAt(b.disk, clock, recs, b.disk.Keys, id);
      ToldAt(b, id);
    }
  }

  lemma ToldAt(b: Book, id: Id)
    requires FilesTold(b) && id in b.recs && b.recs[id].durable.Some?
    ensures id in b.aux.frozen && FilesToldAt(b, id)
  {
    hide FilesToldAt;
  }

  lemma RebuiltLineage(b: Book, after: Book, hostBudget: nat, context: nat)
    requires Recoverable(b, hostBudget, context) && Survives(b, after) && Books(after, hostBudget, context)
    ensures Lineage(after)
  {
    hide Recoverable, Books, FilesTold, Persisted, Descends, Refs, Lineage;
    RecoverableKeys(b, hostBudget, context);
    forall id | id in after.recs
      ensures Descends(after.recs, after.aux.frozen, after.recs[id].core, after.aux.frozen[id])
    {
      assert SurvivesAt(b, after, id);
      LineageAt(b, id);
      RefsIn(after, hostBudget, context, id);
      if after.recs[id].core.promotionOf.Some? {
        PromotionParent(after, hostBudget, context, id);
      }
      SurvivorDescends(b, after, after.recs[id].core, after.aux.frozen[id]);
    }
    LineageFrom(after);
  }

  lemma LineageFrom(b: Book)
    requires b.aux.frozen.Keys == b.recs.Keys
    requires forall id :: id in b.recs ==> Descends(b.recs, b.aux.frozen, b.recs[id].core, b.aux.frozen[id])
    ensures Lineage(b)
  {
    hide Descends;
  }

  lemma SurvivorDescends(b: Book, after: Book, core: Record, tokens: seq<Token>)
    requires Survives(b, after) && Descends(b.recs, b.aux.frozen, core, tokens) && Refs(core) <= after.recs.Keys
    requires core.promotionOf.Some? ==> core.promotionOf == core.parent
    ensures Descends(after.recs, after.aux.frozen, core, tokens)
  {
    assert core.parent.Some? ==> core.parent.value in Refs(core);
    assert core.contextParent.Some? ==> core.contextParent.value in Refs(core);
    forall ref | ref in Refs(core)
      ensures SurvivesAt(b, after, ref)
    {
    }
  }

  // Disk survival: rebuilt from the directories alone, the books are right again
  // and hold exactly the disk snapshots, each as it was.
  lemma DiskSurvival(b: Book, recs: Recs, clock: int, tick: nat, hostBudget: nat, c: Config)
    requires Recoverable(b, hostBudget, c.context) && FilesFaithful(c, b.recs)
    requires Indexed(b.disk, clock, recs, b.disk.Keys) && Recency(b.disk.Keys, Uses(recs), tick)
    ensures
      var after := RebuiltBook(b, recs, tick);
      && Books(after, hostBudget, c.context) && Agrees(after, c, map[]) && Sound(after, map[], {}, {})
      && Survives(b, after)
  {
    hide Recoverable, Indexed, Recency, Graph, Leased, Promotions, Durable, Total, Survives, Lineage, Agrees, FilesTold,
      Cores, Refcounts, Leases, Residents, Bytes, Uses, Memo, Durables, PendingSafe, Persisted, Accepted, FilesFaithful;
    var after := RebuiltBook(b, recs, tick);
    DiskComplete(b, hostBudget, c.context);
    IndexedKeys(b.disk, clock, recs, b.disk.Keys);
    RebuiltGraph(b, recs, clock, tick, hostBudget, c.context);
    RebuiltLeased(b, recs, clock);
    RebuiltPromotions(b, recs, clock, hostBudget, c.context);
    RebuiltDurable(b, recs, clock, hostBudget, c.context);
    NoBytes(Bytes(recs));
    RebuiltSurvives(b, recs, clock, tick, hostBudget, c.context);
    SurvivesKeys(b, after);
    RebuiltLineage(b, after, hostBudget, c.context);
    RebuiltHoldings(b, recs, clock, tick, hostBudget, c);
    NothingPending(recs, map[], {});
  }

  lemma NoBytes(bytes: map<Id, nat>)
    ensures Total(bytes, {}) == 0
  {
  }

  lemma SurvivesKeys(b: Book, after: Book)
    requires Survives(b, after)
    ensures after.aux.frozen.Keys == after.recs.Keys
  {
  }

  lemma IndexedNewest(disk: map<Id, Published>, clock: int, recs: Recs)
    requires Indexed(disk, clock, recs, disk.Keys)
    ensures forall p :: p in recs ==> Newest(disk, clock, disk.Keys, p, recs[p].promotionChild)
  {
    hide Newest, ChildrenAmong;
    forall p | p in recs
      ensures Newest(disk, clock, disk.Keys, p, recs[p].promotionChild)
    {
      assert IndexedAt(disk, clock, recs, disk.Keys, p);
    }
  }

  lemma SoundRecoverable(b: Book, c: Config, held: map<Id, Snapshot>, hostBudget: nat)
    requires Books(b, hostBudget, c.context) && Agrees(b, c, held) && Sound(b, held, {}, {})
    ensures Recoverable(b, hostBudget, c.context) && FilesFaithful(c, b.recs)
  {
    hide FilesFaithful, Books, Agrees, Lineage, Persisted, PendingSafe, Residents, Cores, FilesTold;
    AgreedFiles(b, c, held);
  }
}
