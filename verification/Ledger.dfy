// The whole state of the snapshot store as one value, the elementary changes the
// store makes to it, and the invariant each of them keeps.
module Ledger {
  import opened Common
  import opened Kernels
  import opened SnapshotRuntime
  import opened WorkerSpec
  import opened Registry

  // A SnapshotRecord: its fixed part and the fields the store updates.
  datatype Rec = Rec(
    core: Record,
    refcount: nat,
    leases: nat,
    resident: bool,
    hostBytes: nat,
    lastUsed: nat,
    promotionChild: Option<Id>,
    durable: Option<Saved>)  // disk_dir and durable_files

  type Recs = map<Id, Rec>

  // One eviction: the victim, the resident bytes it was taken from, and the bytes
  // that were to be left.
  datatype Eviction = Eviction(id: Id, resident: nat, room: int)

  // History the invariant speaks of: the order of registration, the open leases,
  // the frozen tokens of each record, every id ever registered, and the evictions.
  datatype Aux = Aux(birth: map<Id, nat>, births: nat, scopes: seq<set<Id>>, frozen: map<Id, seq<Token>>, used: set<Id>,
    evictions: seq<Eviction>)

  datatype Book = Book(recs: Recs, disk: map<Id, Published>, residentBytes: nat, tick: nat, aux: Aux, clock: int)

  // -- One map per field -----------------------------------------------------------

  function Cores(recs: Recs): (m: Records)
    ensures m.Keys == recs.Keys
  {
    map id | id in recs :: recs[id].core
  }

  function Refcounts(recs: Recs): (m: map<Id, nat>)
    ensures m.Keys == recs.Keys
  {
    map id | id in recs :: recs[id].refcount
  }

  function Leases(recs: Recs): (m: map<Id, nat>)
    ensures m.Keys == recs.Keys
  {
    map id | id in recs :: recs[id].leases
  }

  function Residents(recs: Recs): (s: set<Id>)
    ensures s <= recs.Keys
  {
    set id | id in recs && recs[id].resident
  }

  function Bytes(recs: Recs): (m: map<Id, nat>)
    ensures m.Keys == recs.Keys
  {
    map id | id in recs :: recs[id].hostBytes
  }

  function Uses(recs: Recs): (m: map<Id, nat>)
    ensures m.Keys == recs.Keys
  {
    map id | id in recs :: recs[id].lastUsed
  }

  function Memo(recs: Recs): map<Id, Id> {
    map id | id in recs && recs[id].promotionChild.Some? :: recs[id].promotionChild.value
  }

  function Durables(recs: Recs): map<Id, Saved> {
    map id | id in recs && recs[id].durable.Some? :: recs[id].durable.value
  }

  // What an update of one record does to each map.
  lemma CoresSet(recs: Recs, id: Id, r: Rec)
    ensures Cores(recs[id := r]) == Cores(recs)[id := r.core]
    ensures id in recs && r.core == recs[id].core ==> Cores(recs[id := r]) == Cores(recs)
  {
  }

  lemma RefcountsSet(recs: Recs, id: Id, r: Rec)
    ensures Refcounts(recs[id := r]) == Refcounts(recs)[id := r.refcount]
    ensures id in recs && r.refcount == recs[id].refcount ==> Refcounts(recs[id := r]) == Refcounts(recs)
  {
  }

  lemma LeasesSet(recs: Recs, id: Id, r: Rec)
    ensures Leases(recs[id := r]) == Leases(recs)[id := r.leases]
    ensures id in recs && r.leases == recs[id].leases ==> Leases(recs[id := r]) == Leases(recs)
  {
  }

  lemma ResidentsSet(recs: Recs, id: Id, r: Rec)
    ensures Residents(recs[id := r]) == if r.resident then Residents(recs) + {id} else Residents(recs) - {id}
    ensures id in recs && r.resident == recs[id].resident ==> Residents(recs[id := r]) == Residents(recs)
  {
  }

  lemma BytesSet(recs: Recs, id: Id, r: Rec)
    ensures Bytes(recs[id := r]) == Bytes(recs)[id := r.hostBytes]
    ensures id in recs && r.hostBytes == recs[id].hostBytes ==> Bytes(recs[id := r]) == Bytes(recs)
  {
  }

  lemma UsesSet(recs: Recs, id: Id, r: Rec)
    ensures Uses(recs[id := r]) == Uses(recs)[id := r.lastUsed]
    ensures id in recs && r.lastUsed == recs[id].lastUsed ==> Uses(recs[id := r]) == Uses(recs)
  {
  }

  lemma MemoSet(recs: Recs, id: Id, r: Rec)
    ensures Memo(recs[id := r]) ==
      if r.promotionChild.Some? then Memo(recs)[id := r.promotionChild.value] else Memo(recs) - {id}
    ensures id in recs && r.promotionChild == recs[id].promotionChild ==> Memo(recs[id := r]) == Memo(recs)
  {
  }

  lemma DurablesSet(recs: Recs, id: Id, r: Rec)
    ensures Durables(recs[id := r]) ==
      if r.durable.Some? then Durables(recs)[id := r.durable.value] else Durables(recs) - {id}
    ensures id in recs && r.durable == recs[id].durable ==> Durables(recs[id := r]) == Durables(recs)
  {
  }

  // All of them at once.
  lemma Updated(recs: Recs, id: Id, r: Rec)
    requires id in recs
    ensures r.core == recs[id].core ==> Cores(recs[id := r]) == Cores(recs)
    ensures r.refcount == recs[id].refcount ==> Refcounts(recs[id := r]) == Refcounts(recs)
    ensures r.leases == recs[id].leases ==> Leases(recs[id := r]) == Leases(recs)
    ensures r.resident == recs[id].resident ==> Residents(recs[id := r]) == Residents(recs)
    ensures r.hostBytes == recs[id].hostBytes ==> Bytes(recs[id := r]) == Bytes(recs)
    ensures r.lastUsed == recs[id].lastUsed ==> Uses(recs[id := r]) == Uses(recs)
    ensures r.promotionChild == recs[id].promotionChild ==> Memo(recs[id := r]) == Memo(recs)
    ensures r.durable == recs[id].durable ==> Durables(recs[id := r]) == Durables(recs)
  {
    hide Cores, Refcounts, Leases, Residents, Bytes, Uses, Memo, Durables;
    CoresSet(recs, id, r);
    RefcountsSet(recs, id, r);
    LeasesSet(recs, id, r);
    ResidentsSet(recs, id, r);
    BytesSet(recs, id, r);
    UsesSet(recs, id, r);
    MemoSet(recs, id, r);
    DurablesSet(recs, id, r);
  }

  // -- The invariant -----------------------------------------------------------------

  ghost predicate Books(b: Book, hostBudget: nat, context: nat) {
    && Graph(Cores(b.recs), Refcounts(b.recs), b.aux.birth, b.aux.births)
    && Leased(Cores(b.recs), Leases(b.recs), b.aux.scopes)
    && Promotions(Cores(b.recs), Memo(b.recs), b.aux.used)
    && Recency(b.recs.Keys, Uses(b.recs), b.tick)
    && Durable(Cores(b.recs), Residents(b.recs), Durables(b.recs), b.disk, context)
    && b.residentBytes == Total(Bytes(b.recs), Residents(b.recs))
    && b.residentBytes <= hostBudget
  }

  // The worker's snapshots agree with the books.
  ghost predicate Agrees(b: Book, c: Config, held: map<Id, Snapshot>) {
    Holdings(c, Cores(b.recs), Residents(b.recs), Bytes(b.recs), Durables(b.recs), b.aux.frozen, held)
  }

  // -- Elementary changes ---------------------------------------------------------------

  function Touched(b: Book, id: Id): Book
    requires id in b.recs
  {
    b.(recs := b.recs[id := b.recs[id].(lastUsed := b.tick + 1)], tick := b.tick + 1)
  }

  lemma TouchedBooks(b: Book, id: Id, hostBudget: nat, context: nat)
    requires Books(b, hostBudget, context) && id in b.recs
    ensures Books(Touched(b, id), hostBudget, context)
  {
    hide Graph, Leased, Promotions, Recency, Durable, Total, Cores, Refcounts, Leases, Residents, Bytes, Uses, Memo,
      Durables;
    Updated(b.recs, id, Touched(b, id).recs[id]);
    UsesSet(b.recs, id, Touched(b, id).recs[id]);
    RecencyTouch(b.recs.Keys, Uses(b.recs), b.tick, id);
    assert b.recs.Keys + {id} == b.recs.Keys;
  }

  lemma TouchedAgrees(b: Book, id: Id, c: Config, held: map<Id, Snapshot>)
    requires Agrees(b, c, held) && id in b.recs
    ensures Agrees(Touched(b, id), c, held)
  {
    hide Holdings, Cores, Residents, Bytes, Durables;
    Updated(b.recs, id, Touched(b, id).recs[id]);
  }

  // -- Forgetting ------------------------------------------------------------------------

  function ReleaseOne(recs: Recs, reference: Option<Id>): (r: Recs)
    ensures r.Keys == recs.Keys
  {
    if reference.Some? && reference.value in recs && recs[reference.value].refcount > 0 then
      recs[reference.value := recs[reference.value].(refcount := recs[reference.value].refcount - 1)]
    else recs
  }

  lemma ReleaseOneMaps(recs: Recs, reference: Option<Id>)
    ensures var after := ReleaseOne(recs, reference);
      && Cores(after) == Cores(recs) && Leases(after) == Leases(recs) && Residents(after) == Residents(recs)
      && Bytes(after) == Bytes(recs) && Uses(after) == Uses(recs) && Memo(after) == Memo(recs)
      && Durables(after) == Durables(recs)
      && Refcounts(after) == ReleasedOne(Refcounts(recs), reference)
  {
    hide Cores, Leases, Residents, Bytes, Uses, Memo, Durables;
    var after := ReleaseOne(recs, reference);
    if after != recs {
      Updated(recs, reference.value, after[reference.value]);
      RefcountsSet(recs, reference.value, after[reference.value]);
    }
  }

  lemma Minus(recs: Recs, id: Id)
    ensures Cores(recs - {id}) == Cores(recs) - {id}
    ensures Refcounts(recs - {id}) == Refcounts(recs) - {id}
    ensures Leases(recs - {id}) == Leases(recs) - {id}
    ensures Residents(recs - {id}) == Residents(recs) - {id}
  {
  }

  lemma MinusMore(recs: Recs, id: Id)
    ensures Bytes(recs - {id}) == Bytes(recs) - {id}
    ensures Uses(recs - {id}) == Uses(recs) - {id}
    ensures Memo(recs - {id}) == Memo(recs) - {id}
    ensures Durables(recs - {id}) == Durables(recs) - {id}
  {
  }

  // _forget: release the parent, then a different context parent, then remove.
  function ForgetRecs(recs: Recs, id: Id): Recs
    requires id in recs
  {
    var core := recs[id].core;
    var first := ReleaseOne(recs, core.parent);
    (if core.contextParent != core.parent then ReleaseOne(first, core.contextParent) else first) - {id}
  }

  lemma ForgetMaps(recs: Recs, id: Id)
    requires id in recs
    ensures var after := ForgetRecs(recs, id);
      && Cores(after) == Cores(recs) - {id} && Leases(after) == Leases(recs) - {id}
      && Residents(after) == Residents(recs) - {id} && Bytes(after) == Bytes(recs) - {id}
      && Uses(after) == Uses(recs) - {id} && Memo(after) == Memo(recs) - {id}
      && Durables(after) == Durables(recs) - {id}
      && Refcounts(after) == Released(Refcounts(recs), Refs(recs[id].core)) - {id}
      && after.Keys == recs.Keys - {id}
  {
    hide Cores, Refcounts, Leases, Residents, Bytes, Uses, Memo, Durables, ReleaseOne, Released, ReleasedOne;
    var core := recs[id].core;
    var first := ReleaseOne(recs, core.parent);
    ReleaseOneMaps(recs, core.parent);
    ReleaseOneMaps(first, core.contextParent);
    ReleasedBoth(Refcounts(recs), core);
    var both := if core.contextParent != core.parent then ReleaseOne(first, core.contextParent) else first;
    Minus(both, id);
    MinusMore(both, id);
  }

  // A record and its directory gone.
  function Forgotten(b: Book, id: Id): Book
    requires id in b.recs
  {
    Book(ForgetRecs(b.recs, id), b.disk - {id},
      if b.recs[id].resident && b.recs[id].hostBytes <= b.residentBytes
      then b.residentBytes - b.recs[id].hostBytes else b.residentBytes,
      b.tick, b.aux.(birth := b.aux.birth - {id}, frozen := b.aux.frozen - {id}), b.clock)
  }

  lemma ResidentBytesBound(b: Book, hostBudget: nat, context: nat, id: Id)
    requires Books(b, hostBudget, context) && id in b.recs
    ensures b.recs[id].resident ==> b.recs[id].hostBytes <= b.residentBytes
    ensures Total(Bytes(b.recs), Residents(b.recs) - {id}) ==
      b.residentBytes - if b.recs[id].resident then b.recs[id].hostBytes else 0
    ensures Total(Bytes(b.recs) - {id}, Residents(b.recs) - {id}) ==
      b.residentBytes - if b.recs[id].resident then b.recs[id].hostBytes else 0
  {
    hide Graph, Leased, Promotions, Recency, Durable, Total;
    TotalDrop(Bytes(b.recs), Residents(b.recs), id);
  }

  lemma ForgottenBooks(b: Book, id: Id, hostBudget: nat, context: nat)
    requires Books(b, hostBudget, context) && id in b.recs
    requires b.recs[id].refcount == 0 && b.recs[id].leases == 0
    ensures Books(Forgotten(b, id), hostBudget, context)
  {
    hide Graph, Leased, Promotions, Recency, Durable, Total, Cores, Refcounts, Leases, Residents, Bytes, Uses, Memo,
      Durables, Refs, Released, ForgetRecs;
    FieldsOf(b.recs, id);
    ResidentBytesBound(b, hostBudget, context, id);
    ForgetMaps(b.recs, id);
    GraphWithout(Cores(b.recs), Refcounts(b.recs), b.aux.birth, b.aux.births, id);
    LeasedWithout(Cores(b.recs), Leases(b.recs), b.aux.scopes, id);
    PromotionsWithout(Cores(b.recs), Memo(b.recs), b.aux.used, Refcounts(b.recs), b.aux.birth, b.aux.births, id);
    RecencyWithout(b.recs.Keys, Uses(b.recs), b.tick, id);
    DurableWithout(Cores(b.recs), Residents(b.recs), Durables(b.recs), b.disk, context, id);
  }

  lemma ForgottenAgrees(b: Book, id: Id, c: Config, held: map<Id, Snapshot>)
    requires Agrees(b, c, held) && id in b.recs
    ensures Unshared(held, id) ==> Agrees(Forgotten(b, id), c, held - {id})
    ensures Agrees(Forgotten(b, id), c, held)
  {
    hide Holdings, Cores, Residents, Bytes, Durables, ForgetRecs, Unshared;
    ForgetMaps(b.recs, id);
    HoldingsUnregister(c, Cores(b.recs), Residents(b.recs), Bytes(b.recs), Durables(b.recs), b.aux.frozen, held, id);
    if Unshared(held, id) {
      HoldingsDrop(c, Cores(b.recs), Residents(b.recs), Bytes(b.recs), Durables(b.recs), b.aux.frozen, held, id);
    }
  }

  // -- Demotion to disk ---------------------------------------------------------------------

  function Demoted(b: Book, id: Id): Book
    requires id in b.recs
  {
    b.(recs := b.recs[id := b.recs[id].(resident := false)],
       residentBytes := if b.recs[id].hostBytes <= b.residentBytes then b.residentBytes - b.recs[id].hostBytes else 0)
  }

  lemma DurableDemoted(records: Records, residentIds: set<Id>, durable: map<Id, Saved>, disk: map<Id, Published>,
      context: nat, id: Id)
    requires Durable(records, residentIds, durable, disk, context) && id in durable
    ensures Durable(records, residentIds - {id}, durable, disk, context)
  {
  }

  lemma DemotedBooks(b: Book, id: Id, hostBudget: nat, context: nat)
    requires Books(b, hostBudget, context) && id in b.recs
    requires b.recs[id].resident && b.recs[id].durable.Some?
    ensures Books(Demoted(b, id), hostBudget, context)
  {
    hide Graph, Leased, Promotions, Recency, Durable, Total, Cores, Refcounts, Leases, Residents, Bytes, Uses, Memo,
      Durables;
    FieldsOf(b.recs, id);
    ResidentBytesBound(b, hostBudget, context, id);
    Updated(b.recs, id, Demoted(b, id).recs[id]);
    ResidentsSet(b.recs, id, Demoted(b, id).recs[id]);
    DurableDemoted(Cores(b.recs), Residents(b.recs), Durables(b.recs), b.disk, context, id);
    assert Demoted(b, id).recs.Keys == b.recs.Keys;
  }

  lemma DemotedAgrees(b: Book, id: Id, c: Config, held: map<Id, Snapshot>)
    requires Agrees(b, c, held) && id in b.recs && Unshared(held, id)
    ensures Agrees(Demoted(b, id), c, held - {id})
  {
    hide Holdings, Cores, Residents, Bytes, Durables, Unshared;
    Updated(b.recs, id, Demoted(b, id).recs[id]);
    ResidentsSet(b.recs, id, Demoted(b, id).recs[id]);
    HoldingsDrop(c, Cores(b.recs), Residents(b.recs), Bytes(b.recs), Durables(b.recs), b.aux.frozen, held, id);
  }

  // -- Registration --------------------------------------------------------------------------

  function CountOne(recs: Recs, reference: Option<Id>): (r: Recs)
    ensures r.Keys == recs.Keys
  {
    if reference.Some? && reference.value in recs then
      recs[reference.value := recs[reference.value].(refcount := recs[reference.value].refcount + 1)]
    else recs
  }

  lemma CountOneMaps(recs: Recs, reference: Option<Id>)
    ensures var after := CountOne(recs, reference);
      && Cores(after) == Cores(recs) && Leases(after) == Leases(recs) && Residents(after) == Residents(recs)
      && Bytes(after) == Bytes(recs) && Uses(after) == Uses(recs) && Memo(after) == Memo(recs)
      && Durables(after) == Durables(recs)
      && Refcounts(after) == CountedOne(Refcounts(recs), reference)
  {
    hide Cores, Leases, Residents, Bytes, Uses, Memo, Durables;
    var after := CountOne(recs, reference);
    if reference.Some? && reference.value in recs {
      Updated(recs, reference.value, after[reference.value]);
      RefcountsSet(recs, reference.value, after[reference.value]);
    }
  }

  function NewRec(core: Record, bytes: nat, tick: nat): Rec {
    Rec(core, 0, 0, true, bytes, tick, None, None)
  }

  function AddRecs(recs: Recs, id: Id, rec: Rec): Recs {
    var first := CountOne(recs, rec.core.parent);
    (if rec.core.contextParent != rec.core.parent then CountOne(first, rec.core.contextParent) else first)[id := rec]
  }

  lemma AddMaps(recs: Recs, id: Id, core: Record, bytes: nat, tick: nat)
    requires id !in recs
    ensures var after := AddRecs(recs, id, NewRec(core, bytes, tick));
      && Cores(after) == Cores(recs)[id := core] && Leases(after) == Leases(recs)[id := 0]
      && Residents(after) == Residents(recs) + {id} && Bytes(after) == Bytes(recs)[id := bytes]
      && Uses(after) == Uses(recs)[id := tick] && Memo(after) == Memo(recs) && Durables(after) == Durables(recs)
      && Refcounts(after) == Counted(Refcounts(recs), Refs(core))[id := 0]
      && after.Keys == recs.Keys + {id}
  {
    hide Cores, Refcounts, Leases, Residents, Bytes, Uses, Memo, Durables, CountOne, Counted, CountedOne;
    NoneYet(recs, id);
    var first := CountOne(recs, core.parent);
    CountOneMaps(recs, core.parent);
    CountOneMaps(first, core.contextParent);
    CountedBoth(Refcounts(recs), core);
    var both := if core.contextParent != core.parent then CountOne(first, core.contextParent) else first;
    var rec := NewRec(core, bytes, tick);
    CoresSet(both, id, rec);
    RefcountsSet(both, id, rec);
    LeasesSet(both, id, rec);
    ResidentsSet(both, id, rec);
    BytesSet(both, id, rec);
    UsesSet(both, id, rec);
    MemoSet(both, id, rec);
    DurablesSet(both, id, rec);
  }

  lemma NoneYet(recs: Recs, id: Id)
    requires id !in recs
    ensures Memo(recs) - {id} == Memo(recs) && Durables(recs) - {id} == Durables(recs)
  {
  }

  function Added(b: Book, id: Id, core: Record, bytes: nat, tokens: seq<Token>): Book {
    Book(AddRecs(b.recs, id, NewRec(core, bytes, b.tick + 1)), b.disk, b.residentBytes + bytes, b.tick + 1,
      Aux(b.aux.birth[id := b.aux.births], b.aux.births + 1, b.aux.scopes, b.aux.frozen[id := tokens],
        b.aux.used + {id},
        b.aux.evictions), b.clock)
  }

  lemma PromotionsWith(records: Records, memo: map<Id, Id>, used: set<Id>, id: Id, record: Record)
    requires Promotions(records, memo, used) && id !in used && id !in records
    requires record.promotionOf.Some? ==>
      record.promotionOf.value in records && PromotionOf(record, record.promotionOf.value,
        records[record.promotionOf.value])
    ensures Promotions(records[id := record], memo, used + {id})
  {
    hide PromotionOf;
  }

  lemma DurableWith(records: Records, residentIds: set<Id>, durable: map<Id, Saved>, disk: map<Id, Published>,
      context: nat, id: Id, record: Record)
    requires Durable(records, residentIds, durable, disk, context) && id !in records
    ensures Durable(records[id := record], residentIds + {id}, durable, disk, context)
  {
  }

  lemma AddedBooks(b: Book, id: Id, core: Record, bytes: nat, tokens: seq<Token>, hostBudget: nat, context: nat)
    requires Books(b, hostBudget, context) && id !in b.recs && id !in b.aux.used
    requires Refs(core) <= b.recs.Keys
    requires core.promotionOf.Some? ==>
      core.promotionOf.value in b.recs && PromotionOf(core, core.promotionOf.value, b.recs[core.promotionOf.value].core)
    requires b.residentBytes + bytes <= hostBudget
    ensures Books(Added(b, id, core, bytes, tokens), hostBudget, context)
  {
    hide Graph, Leased, Promotions, Recency, Durable, Total, Cores, Refcounts, Leases, Residents, Bytes, Uses, Memo,
      Durables, Refs, Counted, AddRecs, PromotionOf;
    if core.promotionOf.Some? {
      FieldsOf(b.recs, core.promotionOf.value);
    }
    AddMaps(b.recs, id, core, bytes, b.tick + 1);
    GraphWith(Cores(b.recs), Refcounts(b.recs), b.aux.birth, b.aux.births, id, core);
    LeasedWith(Cores(b.recs), Leases(b.recs), b.aux.scopes, id, core);
    PromotionsWith(Cores(b.recs), Memo(b.recs), b.aux.used, id, core);
    RecencyTouch(b.recs.Keys, Uses(b.recs), b.tick, id);
    DurableWith(Cores(b.recs), Residents(b.recs), Durables(b.recs), b.disk, context, id, core);
    TotalWith(Bytes(b.recs), Residents(b.recs), id, bytes);
  }

  lemma AddedAgrees(b: Book, id: Id, core: Record, bytes: nat, tokens: seq<Token>, c: Config, held: map<Id, Snapshot>)
    requires Agrees(b, c, held) && id !in b.recs && id in held
    requires Matches(c, core, bytes, held[id], tokens) && core.tokens == |tokens|
    ensures Agrees(Added(b, id, core, bytes, tokens), c, held)
  {
    hide Holdings, Cores, Refcounts, Residents, Bytes, Durables, AddRecs, Matches;
    AddMaps(b.recs, id, core, bytes, b.tick + 1);
    HoldingsRegister(c, Cores(b.recs), Residents(b.recs), Bytes(b.recs), Durables(b.recs), b.aux.frozen, held, id,
      core, bytes, tokens);
  }

  // -- Publishing ---------------------------------------------------------------------------

  function WithFiles(b: Book, id: Id, files: Saved): Book
    requires id in b.recs
  {
    b.(recs := b.recs[id := b.recs[id].(durable := Some(files))],
      disk := b.disk[id := Published(b.recs[id].core, files)])
  }

  lemma DurablePublish(records: Records, residentIds: set<Id>, durable: map<Id, Saved>, disk: map<Id, Published>,
      context: nat, id: Id, files: Saved)
    requires Durable(records, residentIds, durable, disk, context) && id in records
    requires records[id].persistence == Disk && Loadable(files, context)
    ensures Durable(records, residentIds, durable[id := files], disk[id := Published(records[id], files)], context)
  {
  }

  lemma WithFilesBooks(b: Book, id: Id, files: Saved, hostBudget: nat, context: nat)
    requires Books(b, hostBudget, context) && id in b.recs
    requires b.recs[id].core.persistence == Disk && Loadable(files, context)
    ensures Books(WithFiles(b, id, files), hostBudget, context)
  {
    hide Graph, Leased, Promotions, Recency, Durable, Total, Cores, Refcounts, Leases, Residents, Bytes, Uses, Memo,
      Durables, Loadable;
    FieldsOf(b.recs, id);
    Updated(b.recs, id, WithFiles(b, id, files).recs[id]);
    DurablesSet(b.recs, id, WithFiles(b, id, files).recs[id]);
    DurablePublish(Cores(b.recs), Residents(b.recs), Durables(b.recs), b.disk, context, id, files);
    assert WithFiles(b, id, files).recs.Keys == b.recs.Keys;
  }

  lemma WithFilesAgrees(b: Book, id: Id, c: Config, held: map<Id, Snapshot>)
    requires Agrees(b, c, held) && id in b.recs && b.recs[id].resident
    ensures id in held && Agrees(WithFiles(b, id, FilesOf(held[id])), c, held)
  {
    assert id in Residents(b.recs) && Residents(b.recs) <= held.Keys;
    var files := FilesOf(held[id]);
    hide Holdings, Cores, Residents, Bytes, Durables;
    Updated(b.recs, id, WithFiles(b, id, files).recs[id]);
    DurablesSet(b.recs, id, WithFiles(b, id, files).recs[id]);
    HoldingsPublish(c, Cores(b.recs), Residents(b.recs), Bytes(b.recs), Durables(b.recs), b.aux.frozen, held, id);
  }

  // -- Restoring -----------------------------------------------------------------------------

  function Restored(b: Book, id: Id, bytes: nat): Book
    requires id in b.recs
  {
    b.(recs := b.recs[id := b.recs[id].(resident := true, hostBytes := bytes, lastUsed := b.tick + 1)],
       residentBytes := b.residentBytes + bytes, tick := b.tick + 1)
  }

  lemma DurableRestored(records: Records, residentIds: set<Id>, durable: map<Id, Saved>, disk: map<Id, Published>,
      context: nat, id: Id)
    requires Durable(records, residentIds, durable, disk, context) && id in records
    ensures Durable(records, residentIds + {id}, durable, disk, context)
  {
  }

  lemma RestoredBooks(b: Book, id: Id, bytes: nat, hostBudget: nat, context: nat)
    requires Books(b, hostBudget, context) && id in b.recs && !b.recs[id].resident
    requires b.residentBytes + bytes <= hostBudget
    ensures Books(Restored(b, id, bytes), hostBudget, context)
  {
    hide Graph, Leased, Promotions, Recency, Durable, Total, Cores, Refcounts, Leases, Residents, Bytes, Uses, Memo,
      Durables;
    var rec := Restored(b, id, bytes).recs[id];
    assert id !in Residents(b.recs) by {
      FieldsOf(b.recs, id);
    }
    Updated(b.recs, id, rec);
    ResidentsSet(b.recs, id, rec);
    BytesSet(b.recs, id, rec);
    UsesSet(b.recs, id, rec);
    RecencyTouch(b.recs.Keys, Uses(b.recs), b.tick, id);
    assert b.recs.Keys + {id} == b.recs.Keys && Restored(b, id, bytes).recs.Keys == b.recs.Keys;
    DurableRestored(Cores(b.recs), Residents(b.recs), Durables(b.recs), b.disk, context, id);
    TotalWith(Bytes(b.recs), Residents(b.recs), id, bytes);
  }

  lemma FieldsOf(recs: Recs, id: Id)
    requires id in recs
    ensures id in Residents(recs) <==> recs[id].resident
    ensures id in Durables(recs) <==> recs[id].durable.Some?
    ensures recs[id].durable.Some? ==> Durables(recs)[id] == recs[id].durable.value
    ensures Cores(recs)[id] == recs[id].core && Refcounts(recs)[id] == recs[id].refcount
    ensures Leases(recs)[id] == recs[id].leases && Bytes(recs)[id] == recs[id].hostBytes
  {
  }

  lemma RestoredAgrees(b: Book, id: Id, bytes: nat, tag: nat, c: Config, held: map<Id, Snapshot>)
    requires Agrees(b, c, held) && id in b.recs && !b.recs[id].resident
    requires b.recs[id].durable.Some? && b.recs[id].durable.value.lower.Some?
    requires FileBytes(c.kernels, b.recs[id].durable.value) <= bytes
    ensures Agrees(Restored(b, id, bytes), c, held[id := FromFiles(id, b.recs[id].durable.value, tag)])
  {
    hide Holdings, Cores, Residents, Bytes, Durables, FileBytes, FromFiles;
    var rec := Restored(b, id, bytes).recs[id];
    FieldsOf(b.recs, id);
    Updated(b.recs, id, rec);
    ResidentsSet(b.recs, id, rec);
    BytesSet(b.recs, id, rec);
    HoldingsRestore(c, Cores(b.recs), Residents(b.recs), Bytes(b.recs), Durables(b.recs), b.aux.frozen, held, id, tag,
      bytes);
  }

  // -- Leases -----------------------------------------------------------------------------------

  function PinRecs(recs: Recs, ids: set<Id>): (r: Recs)
    ensures r.Keys == recs.Keys
  {
    map id | id in recs :: if id in ids then recs[id].(leases := recs[id].leases + 1) else recs[id]
  }

  function UnpinRecs(recs: Recs, ids: set<Id>): (r: Recs)
    ensures r.Keys == recs.Keys
  {
    map id | id in recs :: if id in ids && recs[id].leases > 0 then recs[id].(leases := recs[id].leases - 1)
      else recs[id]
  }

  // Two tables that differ in their lease counts only.
  ghost predicate SameButLeases(recs: Recs, other: Recs) {
    recs.Keys == other.Keys && forall id :: id in recs ==> other[id] == recs[id].(leases := other[id].leases)
  }

  lemma LeasesOnly(recs: Recs, other: Recs)
    requires SameButLeases(recs, other)
    ensures Cores(other) == Cores(recs) && Refcounts(other) == Refcounts(recs) && Residents(other) == Residents(recs)
    ensures Bytes(other) == Bytes(recs) && Uses(other) == Uses(recs) && Memo(other) == Memo(recs)
    ensures Durables(other) == Durables(recs)
  {
  }

  lemma PinMaps(recs: Recs, ids: set<Id>)
    ensures Leases(PinRecs(recs, ids)) == Pinned(Leases(recs), ids) && SameButLeases(recs, PinRecs(recs, ids))
    ensures Leases(UnpinRecs(recs, ids)) == Unpinned(Leases(recs), ids) && SameButLeases(recs, UnpinRecs(recs, ids))
  {
  }

  function PinnedBook(b: Book, ids: set<Id>): Book {
    b.(recs := PinRecs(b.recs, ids), aux := b.aux.(scopes := b.aux.scopes + [ids]))
  }

  function UnpinnedBook(b: Book): Book
    requires b.aux.scopes != []
  {
    b.(recs := UnpinRecs(b.recs, Last(b.aux.scopes)), aux := b.aux.(scopes := b.aux.scopes[..|b.aux.scopes| - 1]))
  }

  lemma PinnedBooks(b: Book, ids: set<Id>, hostBudget: nat, context: nat)
    requires Books(b, hostBudget, context) && Closed(Cores(b.recs), ids)
    ensures Books(PinnedBook(b, ids), hostBudget, context)
  {
    hide Graph, Leased, Promotions, Recency, Durable, Total, Cores, Refcounts, Leases, Residents, Bytes, Uses, Memo,
      Durables, SameButLeases, Pinned, Closed, PinRecs;
    PinMaps(b.recs, ids);
    LeasesOnly(b.recs, PinRecs(b.recs, ids));
    LeasedPin(Cores(b.recs), Leases(b.recs), b.aux.scopes, ids);
  }

  lemma UnpinnedBooks(b: Book, hostBudget: nat, context: nat)
    requires Books(b, hostBudget, context) && b.aux.scopes != []
    ensures Books(UnpinnedBook(b), hostBudget, context)
  {
    hide Graph, Leased, Promotions, Recency, Durable, Total, Cores, Refcounts, Leases, Residents, Bytes, Uses, Memo,
      Durables, SameButLeases, Unpinned, UnpinRecs;
    PinMaps(b.recs, Last(b.aux.scopes));
    LeasesOnly(b.recs, UnpinRecs(b.recs, Last(b.aux.scopes)));
    LeasedUnpin(Cores(b.recs), Leases(b.recs), b.aux.scopes);
  }

  lemma LeasesAgree(b: Book, after: Book, c: Config, held: map<Id, Snapshot>)
    requires Agrees(b, c, held) && SameButLeases(b.recs, after.recs) && after.aux.frozen == b.aux.frozen
    ensures Agrees(after, c, held)
  {
    hide Holdings, Cores, Residents, Bytes, Durables, SameButLeases;
    LeasesOnly(b.recs, after.recs);
  }

  // -- The promotion memo ---------------------------------------------------------------------

  function WithMemo(b: Book, id: Id, child: Option<Id>): Book
    requires id in b.recs
  {
    b.(recs := b.recs[id := b.recs[id].(promotionChild := child)])
  }

  lemma PromotionsMemo(records: Records, memo: map<Id, Id>, used: set<Id>, id: Id, child: Id)
    requires Promotions(records, memo, used) && id in records
    requires child in records && PromotionOf(records[child], id, records[id])
    ensures Promotions(records, memo[id := child], used)
  {
    hide PromotionOf;
  }

  lemma PromotionsNoMemo(records: Records, memo: map<Id, Id>, used: set<Id>, id: Id)
    requires Promotions(records, memo, used)
    ensures Promotions(records, memo - {id}, used)
  {
    hide PromotionOf;
  }

  lemma WithMemoBooks(b: Book, id: Id, child: Option<Id>, hostBudget: nat, context: nat)
    requires Books(b, hostBudget, context) && id in b.recs
    requires child.Some? ==> child.value in b.recs && PromotionOf(b.recs[child.value].core, id, b.recs[id].core)
    ensures Books(WithMemo(b, id, child), hostBudget, context)
  {
    hide Graph, Leased, Promotions, Recency, Durable, Total, Cores, Refcounts, Leases, Residents, Bytes, Uses, Memo,
      Durables, PromotionOf;
    FieldsOf(b.recs, id);
    if child.Some? {
      FieldsOf(b.recs, child.value);
    }
    var rec := WithMemo(b, id, child).recs[id];
    Updated(b.recs, id, rec);
    MemoSet(b.recs, id, rec);
    assert WithMemo(b, id, child).recs.Keys == b.recs.Keys;
    if child.Some? {
      PromotionsMemo(Cores(b.recs), Memo(b.recs), b.aux.used, id, child.value);
    } else {
      PromotionsNoMemo(Cores(b.recs), Memo(b.recs), b.aux.used, id);
    }
  }

  lemma WithMemoAgrees(b: Book, id: Id, child: Option<Id>, c: Config, held: map<Id, Snapshot>)
    requires Agrees(b, c, held) && id in b.recs
    ensures Agrees(WithMemo(b, id, child), c, held)
  {
    hide Holdings, Cores, Residents, Bytes, Durables;
    Updated(b.recs, id, WithMemo(b, id, child).recs[id]);
  }

  // -- Recency -------------------------------------------------------------------------------

  // It was used after every other one.
  ghost predicate Freshest(recs: Recs, id: Id) {
    id in recs && forall other :: other in recs && other != id ==> recs[other].lastUsed < recs[id].lastUsed
  }

  lemma LatestIsFreshest(b: Book, hostBudget: nat, context: nat, id: Id)
    requires Books(b, hostBudget, context) && id in b.recs && b.recs[id].lastUsed == b.tick
    ensures Freshest(b.recs, id)
  {
    hide Graph, Leased, Promotions, Durable, Total, Cores, Refcounts, Leases, Residents, Bytes, Memo, Durables;
    forall other | other in b.recs && other != id
      ensures b.recs[other].lastUsed < b.recs[id].lastUsed
    {
      assert Uses(b.recs)[other] == b.recs[other].lastUsed && Uses(b.recs)[id] == b.recs[id].lastUsed;
    }
  }

  lemma TouchedFreshest(b: Book, id: Id, hostBudget: nat, context: nat)
    requires Books(b, hostBudget, context) && id in b.recs
    ensures Freshest(Touched(b, id).recs, id)
    ensures Touched(b, id).recs.Keys == b.recs.Keys
    ensures forall other :: other in b.recs && other != id ==> Touched(b, id).recs[other] == b.recs[other]
  {
    hide Books;
    TouchedBooks(b, id, hostBudget, context);
    LatestIsFreshest(Touched(b, id), hostBudget, context, id);
  }

  // After a lookup that found it, it was used after every other one, and nothing else
  // about the others has changed; otherwise nothing has.
  ghost predicate LookedUp(recs: Recs, after: Recs, id: Id, found: bool) {
    && after.Keys == recs.Keys && (found ==> Freshest(after, id))
    && forall other :: other in recs && (!found || other != id) ==> after[other] == recs[other]
  }

  // Of two that may be evicted, the one just used is never the victim.
  lemma VictimNotFreshest(recs: Recs, id: Id)
    requires Freshest(recs, id) && Victim(recs, id)
    ensures forall other :: other != id ==> !Evictable(recs, other)
  {
    hide Evictable;
    EvictableIn(recs);
  }

  lemma NoneRefreshed(recs: Recs, ids: seq<Id>)
    ensures Refreshed(recs, recs, ids, 0)
  {
  }

  // The first n of these were used after every one that is not among them, and those
  // not when `recs` was.
  ghost predicate Refreshed(recs: Recs, after: Recs, ids: seq<Id>, n: nat) {
    && n <= |ids| && after.Keys == recs.Keys
    && (forall other :: other in recs && other !in ids ==> after[other].lastUsed == recs[other].lastUsed)
    && (forall i, other :: 0 <= i < n && other in recs && other !in ids ==>
      ids[i] in after && after[other].lastUsed < after[ids[i]].lastUsed)
  }

  lemma RefreshedNext(recs: Recs, before: Recs, after: Recs, ids: seq<Id>, n: nat)
    requires Refreshed(recs, before, ids, n) && n < |ids| && LookedUp(before, after, ids[n], true)
    ensures Refreshed(recs, after, ids, n + 1)
  {
    forall i, other | 0 <= i < n + 1 && other in recs && other !in ids
      ensures ids[i] in after && after[other].lastUsed < after[ids[i]].lastUsed
    {
      assert ids[i] == ids[n] || after[ids[i]] == before[ids[i]];
    }
  }

  lemma RefreshedPinned(recs: Recs, before: Recs, ids: seq<Id>, n: nat, pins: set<Id>)
    requires Refreshed(recs, before, ids, n)
    ensures Refreshed(recs, PinRecs(before, pins), ids, n)
  {
  }

  // -- What a sequence of changes may do -------------------------------------------------------

  // Reclaiming and eviction: expired records go, others go or leave the worker
  // for room, but a leased one neither; nothing else changes but reference counts.
  ghost predicate Eroded(b: Book, after: Book) {
    Thinned(b, after) && forall id :: id in b.recs ==> Spared(b, after, id)
  }

  // Records go or leave the worker, and not a leased one.
  ghost predicate Thinned(b: Book, after: Book) {
    && after.clock == b.clock && b.aux.evictions <= after.aux.evictions
    && after.aux.scopes == b.aux.scopes && after.aux.used == b.aux.used && after.aux.births == b.aux.births
    && after.tick == b.tick && after.residentBytes <= b.residentBytes
    && after.recs.Keys <= b.recs.Keys
    && after.disk == b.disk - (b.recs.Keys - after.recs.Keys)
    && after.aux.frozen == b.aux.frozen - (b.recs.Keys - after.recs.Keys)
    && (forall id :: id in after.recs ==> ErodedRec(b.recs[id], after.recs[id]))
    && (forall id :: id in b.recs && b.recs[id].leases > 0 ==>
      id in after.recs && after.recs[id].resident == b.recs[id].resident)
  }

  // What was evicted between the two was evicted to leave `room`.
  ghost predicate RoomOnly(evictions: seq<Eviction>, after: seq<Eviction>, room: int) {
    evictions <= after && forall i :: |evictions| <= i < |after| ==> after[i].room == room
  }

  // Between the two, the snapshot was evicted while there was no room.
  ghost predicate Squeezed(b: Book, after: Book, id: Id) {
    exists i :: |b.aux.evictions| <= i < |after.aux.evictions| && Squeezing(after.aux.evictions[i], id)
  }

  predicate Squeezing(e: Eviction, id: Id) {
    e.id == id && e.resident > e.room
  }

  // A record goes only when it is expired, or is memory-only and was evicted for
  // room; and it leaves the worker only for room.
  ghost predicate Spared(b: Book, after: Book, id: Id)
    requires id in b.recs
  {
    if id in after.recs then b.recs[id].resident && !after.recs[id].resident ==> Squeezed(b, after, id)
    else b.recs[id].core.expiresAt <= b.clock || (b.recs[id].core.persistence == Memory && Squeezed(b, after, id))
  }

  lemma SqueezedLater(a: Book, b: Book, c: Book, id: Id)
    requires a.aux.evictions <= b.aux.evictions <= c.aux.evictions
    ensures Squeezed(a, b, id) || Squeezed(b, c, id) ==> Squeezed(a, c, id)
  {
    hide Squeezing;
    if Squeezed(a, b, id) {
      var i :| |a.aux.evictions| <= i < |b.aux.evictions| && Squeezing(b.aux.evictions[i], id);
      assert c.aux.evictions[i] == b.aux.evictions[i];
    }
  }

  lemma SparedTrans(a: Book, b: Book, c: Book, id: Id)
    requires a.aux.evictions <= b.aux.evictions <= c.aux.evictions && a.clock == b.clock
    requires id in a.recs && Spared(a, b, id)
    requires id in b.recs ==> b.recs[id].core == a.recs[id].core && Spared(b, c, id)
    requires id !in b.recs ==> id !in c.recs
    ensures Spared(a, c, id)
  {
    hide Squeezed;
    SqueezedLater(a, b, c, id);
  }

  ghost predicate ErodedRec(r: Rec, after: Rec) {
    && after == r.(refcount := after.refcount, resident := after.resident)
    && (after.resident ==> r.resident)
  }

  lemma ErodedRefl(b: Book)
    ensures Eroded(b, b)
  {
  }

  lemma ErodedTrans(a: Book, b: Book, c: Book)
    requires Eroded(a, b) && Eroded(b, c)
    ensures Eroded(a, c)
  {
    assert a.recs.Keys - c.recs.Keys == (a.recs.Keys - b.recs.Keys) + (b.recs.Keys - c.recs.Keys);
    forall id | id in c.recs
      ensures ErodedRec(a.recs[id], c.recs[id])
    {
      assert ErodedRec(a.recs[id], b.recs[id]) && ErodedRec(b.recs[id], c.recs[id]);
    }
    forall id | id in a.recs && a.recs[id].leases > 0
      ensures id in c.recs && c.recs[id].resident == a.recs[id].resident
    {
      assert ErodedRec(a.recs[id], b.recs[id]);
    }
    hide ErodedRec, Spared;
    forall id | id in a.recs
      ensures Spared(a, c, id)
    {
      if id in b.recs {
        ErodedCore(a, b, id);
      }
      SparedTrans(a, b, c, id);
    }
  }

  lemma ErodedCore(b: Book, after: Book, id: Id)
    requires Thinned(b, after) && id in after.recs
    ensures id in b.recs && after.recs[id].core == b.recs[id].core
  {
    assert ErodedRec(b.recs[id], after.recs[id]);
  }

  lemma ForgetRecsEroded(recs: Recs, id: Id)
    requires id in recs
    ensures forall other :: other in ForgetRecs(recs, id) ==>
      other in recs && ErodedRec(recs[other], ForgetRecs(recs, id)[other])
    ensures forall other :: other in ForgetRecs(recs, id) ==>
      ForgetRecs(recs, id)[other].resident == recs[other].resident
    ensures ForgetRecs(recs, id).Keys == recs.Keys - {id}
  {
  }

  lemma ForgottenThinned(b: Book, id: Id)
    requires id in b.recs && b.recs[id].leases == 0
    ensures Thinned(b, Forgotten(b, id)) && Forgotten(b, id).recs.Keys == b.recs.Keys - {id}
    ensures forall other :: other in b.recs && other != id ==> Spared(b, Forgotten(b, id), other)
  {
    hide ForgetRecs;
    ForgetRecsEroded(b.recs, id);
    assert b.recs.Keys - (b.recs.Keys - {id}) == {id};
  }

  lemma ForgottenEroded(b: Book, id: Id)
    requires id in b.recs && b.recs[id].leases == 0 && b.recs[id].core.expiresAt <= b.clock
    ensures Eroded(b, Forgotten(b, id))
  {
    hide Thinned, Forgotten;
    ForgottenThinned(b, id);
  }

  lemma DemotedThinned(b: Book, id: Id)
    requires id in b.recs && b.recs[id].leases == 0 && b.recs[id].resident
    ensures Thinned(b, Demoted(b, id)) && Demoted(b, id).recs.Keys == b.recs.Keys
    ensures forall other :: other in b.recs && other != id ==> Spared(b, Demoted(b, id), other)
  {
    assert b.recs.Keys - Demoted(b, id).recs.Keys == {};
  }

  // Any operation of the store: what stays keeps its fixed part, its tokens, its
  // leases and its directory, what is leased stays and stays resident, and only
  // the operation's `own` ids are new. What was not its own goes only when it is
  // expired, or is memory-only and was evicted for room.
  ghost predicate Evolves(b: Book, after: Book, own: set<Id>) {
    && after.aux.scopes == b.aux.scopes && b.aux.used <= after.aux.used <= b.aux.used + own
    && after.recs.Keys <= b.recs.Keys + own
    && after.clock == b.clock && b.aux.evictions <= after.aux.evictions
    && (forall id :: id in b.recs && id !in own ==> Spared(b, after, id))
    && (forall id :: id in b.recs && id in after.recs ==> SameRec(b, after, id))
    && (forall id :: id in b.recs && b.recs[id].leases > 0 ==>
      id in after.recs && (b.recs[id].resident ==> after.recs[id].resident))
  }

  ghost predicate SameRec(b: Book, after: Book, id: Id)
    requires id in b.recs && id in after.recs
  {
    && after.recs[id].core == b.recs[id].core
    && after.recs[id].leases == b.recs[id].leases
    && id in b.aux.frozen && id in after.aux.frozen && after.aux.frozen[id] == b.aux.frozen[id]
    && (id in b.disk ==> id in after.disk && after.disk[id] == b.disk[id])
  }

  lemma EvolvesTrans(a: Book, b: Book, c: Book, own: set<Id>, more: set<Id>)
    requires Evolves(a, b, own) && Evolves(b, c, more)
    requires own + more !! a.aux.used && a.recs.Keys <= a.aux.used
    ensures Evolves(a, c, own + more)
  {
    EvolvesBack(a, b, c, own, more);
    EvolvesThrough(a, b, c, own, more);
  }

  // A record that is there before and after was there in between.
  lemma EvolvesBack(a: Book, b: Book, c: Book, own: set<Id>, more: set<Id>)
    requires Evolves(a, b, own) && Evolves(b, c, more)
    requires more !! a.aux.used && a.recs.Keys <= a.aux.used
    ensures forall id :: id in a.recs && id in c.recs ==> id in b.recs
  {
    hide SameRec, Spared;
  }

  lemma EvolvesThrough(a: Book, b: Book, c: Book, own: set<Id>, more: set<Id>)
    requires Evolves(a, b, own) && Evolves(b, c, more)
    requires forall id :: id in a.recs && id in c.recs ==> id in b.recs
    ensures Evolves(a, c, own + more)
  {
    hide Spared;
    forall id | id in a.recs && id in c.recs
      ensures SameRec(a, c, id)
    {
      assert SameRec(a, b, id) && SameRec(b, c, id);
    }
    forall id | id in a.recs && a.recs[id].leases > 0
      ensures id in c.recs && (a.recs[id].resident ==> c.recs[id].resident)
    {
      assert SameRec(a, b, id);
    }
    forall id | id in a.recs && id !in own + more
      ensures Spared(a, c, id)
    {
      assert id in b.recs ==> SameRec(a, b, id);
      SparedTrans(a, b, c, id);
    }
  }

  // Whatever a request does, another's unexpired disk snapshot stays, with its fields,
  // its tokens and its files.
  lemma DiskStays(b: Book, after: Book, own: set<Id>, id: Id)
    requires Evolves(b, after, own) && id in b.recs && id !in own
    requires b.recs[id].core.persistence == Disk && b.recs[id].core.expiresAt > b.clock
    ensures id in after.recs && after.recs[id].core == b.recs[id].core
    ensures id in b.aux.frozen && id in after.aux.frozen && after.aux.frozen[id] == b.aux.frozen[id]
    ensures id in b.disk ==> id in after.disk && after.disk[id] == b.disk[id]
  {
    assert Spared(b, after, id);
    assert SameRec(b, after, id);
  }

  // An unexpired memory-only one goes only for room.
  lemma MemoryGoesForRoom(b: Book, after: Book, own: set<Id>, id: Id)
    requires Evolves(b, after, own) && id in b.recs && id !in own && id !in after.recs
    requires b.recs[id].core.expiresAt > b.clock
    ensures b.recs[id].core.persistence == Memory && b.recs[id].leases == 0
    ensures exists i :: |b.aux.evictions| <= i < |after.aux.evictions| && Squeezing(after.aux.evictions[i], id)
  {
    assert Spared(b, after, id);
  }

  // Nothing comes in the second half.
  lemma EvolvesThenLess(a: Book, b: Book, c: Book, own: set<Id>, more: set<Id>)
    requires Evolves(a, b, own) && Evolves(b, c, more) && c.recs.Keys <= b.recs.Keys
    ensures Evolves(a, c, own + more)
  {
    hide Evolves;
    EvolvesThrough(a, b, c, own, more);
  }

  lemma ThinnedEvolves(b: Book, after: Book, own: set<Id>)
    requires Thinned(b, after) && b.aux.frozen.Keys == b.recs.Keys
    requires forall id :: id in b.recs && id !in own ==> Spared(b, after, id)
    ensures Evolves(b, after, own)
  {
    hide Spared;
    forall id | id in b.recs && id in after.recs
      ensures SameRec(b, after, id)
    {
      assert ErodedRec(b.recs[id], after.recs[id]);
    }
  }

  lemma ErodedEvolves(b: Book, after: Book)
    requires Eroded(b, after) && b.aux.frozen.Keys == b.recs.Keys
    ensures Evolves(b, after, {})
  {
    hide Thinned, Spared, Evolves;
    ThinnedEvolves(b, after, {});
  }

  lemma TouchedEvolves(b: Book, id: Id)
    requires id in b.recs && b.aux.frozen.Keys == b.recs.Keys
    ensures Evolves(b, Touched(b, id), {})
  {
  }

  lemma WithFilesEvolves(b: Book, id: Id, files: Saved)
    requires id in b.recs && b.aux.frozen.Keys == b.recs.Keys && id !in b.disk
    ensures Evolves(b, WithFiles(b, id, files), {})
  {
  }

  lemma WithMemoEvolves(b: Book, id: Id, child: Option<Id>)
    requires id in b.recs && b.aux.frozen.Keys == b.recs.Keys
    ensures Evolves(b, WithMemo(b, id, child), {})
  {
  }

  lemma RestoredEvolves(b: Book, id: Id, bytes: nat)
    requires id in b.recs && b.aux.frozen.Keys == b.recs.Keys
    ensures Evolves(b, Restored(b, id, bytes), {})
  {
  }

  lemma AddedEvolves(b: Book, id: Id, core: Record, bytes: nat, tokens: seq<Token>)
    requires id !in b.recs && b.aux.frozen.Keys == b.recs.Keys
    ensures Evolves(b, Added(b, id, core, bytes, tokens), {id})
    ensures Added(b, id, core, bytes, tokens).recs[id] == NewRec(core, bytes, b.tick + 1)
    ensures Added(b, id, core, bytes, tokens).recs.Keys == b.recs.Keys + {id}
  {
  }

  // Whatever happens under a lease, once it is released only that has happened.
  lemma LeaseEvolves(b: Book, ids: set<Id>, c: Book, added: set<Id>)
    requires Evolves(PinnedBook(b, ids), c, added)
    requires b.aux.frozen.Keys == b.recs.Keys
    ensures c.aux.scopes != [] && Evolves(b, UnpinnedBook(c), added)
  {
    var pinned := PinnedBook(b, ids);
    assert Last(pinned.aux.scopes) == ids && pinned.aux.scopes[..|pinned.aux.scopes| - 1] == b.aux.scopes;
    var after := UnpinnedBook(c);
    forall id | id in b.recs && id in after.recs
      ensures SameRec(b, after, id)
    {
      assert SameRec(pinned, c, id);
    }
    forall id | id in b.recs && b.recs[id].leases > 0
      ensures id in after.recs && (b.recs[id].resident ==> after.recs[id].resident)
    {
      assert id in pinned.recs && pinned.recs[id].leases > 0;
    }
    forall id | id in b.recs && id !in added
      ensures Spared(b, after, id)
    {
      assert Spared(pinned, c, id);
      LeaseSqueezes(b, pinned, c, after, id);
    }
  }

  lemma LeaseSqueezes(b: Book, pinned: Book, c: Book, after: Book, id: Id)
    requires pinned.aux.evictions == b.aux.evictions && after.aux.evictions == c.aux.evictions
    ensures Squeezed(pinned, c, id) <==> Squeezed(b, after, id)
  {
    hide Squeezing;
  }

  // -- Expiry and eviction ------------------------------------------------------------------------

  // Unexpired or leased.
  ghost function Live(recs: Recs, clock: int): set<Id> {
    set id | id in recs && (recs[id].core.expiresAt > clock || recs[id].leases > 0)
  }

  ghost function Pins(recs: Recs): set<Id> {
    set id | id in recs && recs[id].leases > 0
  }

  // An expired leaf nobody pins.
  predicate DeadLeaf(recs: Recs, clock: int, id: Id) {
    id in recs && recs[id].core.expiresAt <= clock && recs[id].leases == 0 && recs[id].refcount == 0
  }

  // The loop of expire: what was reclaimed so far was not needed.
  ghost predicate Expiring(before: Book, now: Book, clock: int) {
    && Eroded(before, now) && before.clock == clock && now.aux.evictions == before.aux.evictions
    && Registry.Kept(Cores(before.recs), Live(before.recs, clock)) <= now.recs.Keys
    && SameResidency(before.recs, now.recs)
  }

  ghost predicate SameResidency(recs: Recs, after: Recs) {
    forall id :: id in after ==> id in recs && after[id].resident == recs[id].resident
  }

  lemma SameResidencyForget(recs: Recs, now: Recs, id: Id)
    requires SameResidency(recs, now) && id in now
    ensures SameResidency(recs, ForgetRecs(now, id))
  {
  }

  lemma ErodedCores(b: Book, after: Book)
    requires Eroded(b, after)
    ensures Cores(after.recs).Keys <= Cores(b.recs).Keys
    ensures forall id :: id in Cores(after.recs) ==> Cores(after.recs)[id] == Cores(b.recs)[id]
  {
    forall id | id in after.recs
      ensures after.recs[id].core == b.recs[id].core
    {
      assert ErodedRec(b.recs[id], after.recs[id]);
    }
  }

  lemma ExpiringStart(before: Book, clock: int)
    requires before.clock == clock
    ensures Expiring(before, before, clock)
  {
    ErodedRefl(before);
  }

  lemma DeadLeafFacts(before: Book, now: Book, clock: int, id: Id)
    requires Eroded(before, now) && id in now.recs
    ensures DeadLeaf(now.recs, clock, id) <==> id !in Live(before.recs, clock) && now.recs[id].refcount == 0
    ensures now.recs[id].leases == before.recs[id].leases
  {
    assert ErodedRec(before.recs[id], now.recs[id]);
  }

  lemma NotKept(before: Book, now: Book, clock: int, hostBudget: nat, context: nat, victim: Id)
    requires Expiring(before, now, clock) && Books(now, hostBudget, context)
    requires victim in now.recs && DeadLeaf(now.recs, clock, victim)
    ensures victim !in Registry.Kept(Cores(before.recs), Live(before.recs, clock))
  {
    hide Cores, Refcounts, Leases, Residents, Bytes, Uses, Memo, Durables, Graph, Leased, Promotions, Recency, Durable,
      Registry.Kept, Eroded, Total, Live, DeadLeaf;
    FieldsOf(now.recs, victim);
    DeadLeafFacts(before, now, clock, victim);
    ErodedCores(before, now);
    VictimNotKept(Cores(before.recs), Live(before.recs, clock), Cores(now.recs), Refcounts(now.recs), now.aux.birth,
      now.aux.births, victim);
  }

  lemma ExpiringStep(before: Book, now: Book, clock: int, hostBudget: nat, context: nat, victim: Id)
    requires Expiring(before, now, clock) && Books(now, hostBudget, context)
    requires DeadLeaf(now.recs, clock, victim)
    ensures Expiring(before, Forgotten(now, victim), clock)
  {
    hide Cores, Books, ForgetRecs, ErodedRec, Registry.Kept, Eroded, Live, SameResidency;
    NotKept(before, now, clock, hostBudget, context, victim);
    ErodedClock(before, now);
    ForgottenEroded(now, victim);
    ErodedTrans(before, now, Forgotten(now, victim));
    ForgetRecsEroded(now.recs, victim);
    SameResidencyForget(before.recs, now.recs, victim);
  }

  lemma ErodedClock(b: Book, after: Book)
    requires Eroded(b, after)
    ensures after.clock == b.clock && b.aux.evictions <= after.aux.evictions
  {
  }

  lemma ExpiringDone(before: Book, now: Book, clock: int, hostBudget: nat, context: nat)
    requires Expiring(before, now, clock) && Books(now, hostBudget, context)
    requires forall id :: id in now.recs ==> !DeadLeaf(now.recs, clock, id)
    ensures now.recs.Keys == Registry.Kept(Cores(before.recs), Live(before.recs, clock))
  {
    hide Cores, Refcounts, Leases, Residents, Bytes, Uses, Memo, Durables, Graph, Leased, Promotions, Recency, Durable,
      Registry.Kept, Eroded, Total, Live, DeadLeaf;
    ErodedCores(before, now);
    forall id | id in now.recs && Refcounts(now.recs)[id] == 0
      ensures id in Live(before.recs, clock)
    {
      FieldsOf(now.recs, id);
      DeadLeafFacts(before, now, clock, id);
    }
    forall id | id in now.recs
      ensures id in Registry.Kept(Cores(before.recs), Live(before.recs, clock))
    {
      NoVictimAllKept(Cores(before.recs), Live(before.recs, clock), Cores(now.recs), Refcounts(now.recs),
        now.aux.birth, now.aux.births, id);
    }
  }

  // A pinned or unexpired snapshot's unregistered children do not hold up an
  // expired leaf; pinned ones do not hold up an eviction.
  lemma CanDrop(b: Book, c: Config, held: map<Id, Snapshot>, hostBudget: nat, context: nat, safe: set<Id>, id: Id)
    requires Books(b, hostBudget, context) && Agrees(b, c, held)
    requires PendingSafe(Cores(b.recs), Residents(b.recs), held, safe)
    requires id in b.recs && id !in safe
    requires b.recs[id].refcount == 0 || (b.recs[id].resident && !SharedChild(Cores(b.recs), Residents(b.recs), id))
    ensures Unshared(held, id)
  {
    hide Graph, Holdings, PendingSafe, Total, Leased, Durable, Promotions, Recency, SharedChild, Unshared, Cores,
      Residents, Bytes, Durables, Refcounts;
    FieldsOf(b.recs, id);
    DroppableUnshared(c, Cores(b.recs), Residents(b.recs), Bytes(b.recs), Durables(b.recs), b.aux.frozen, held,
      Refcounts(b.recs), b.aux.birth, b.aux.births, safe, id);
  }

  // Removing a snapshot that no pending one relies on keeps pending ones safe.
  lemma PendingAfter(recs: Recs, after: Recs, held: map<Id, Snapshot>, id: Id, safe: set<Id>)
    requires PendingSafe(Cores(recs), Residents(recs), held, safe)
    requires after.Keys <= recs.Keys
    requires Residents(after) == Residents(recs) - {id} && (id in recs) && (recs[id].resident <==> id in held)
    ensures PendingSafe(Cores(after), Residents(after), held - {id}, safe)
  {
    FieldsOf(recs, id);
  }

  // What _evict_one may take: resident, unpinned, and either unreferenced or on
  // disk without a resident child sharing its cache.
  predicate Evictable(recs: Recs, id: Id) {
    && id in recs && recs[id].resident && recs[id].leases == 0
    && (recs[id].refcount == 0 || (recs[id].core.persistence == Disk && !SharedChild(Cores(recs), Residents(recs), id)))
  }

  // Why a resident record may not be evicted: it is leased, or another names it and it
  // is memory-only or the 18 whose lower cache a resident 30 of the same tokens shares.
  ghost predicate Stuck(recs: Recs, id: Id)
    requires id in recs
  {
    || recs[id].leases > 0
    || (recs[id].refcount > 0 && recs[id].core.persistence == Memory)
    || (recs[id].refcount > 0 && recs[id].core.depth == D18 && exists c :: SharesCache(recs, id, c))
  }

  ghost predicate SharesCache(recs: Recs, id: Id, c: Id)
    requires id in recs
  {
    && c in recs && recs[c].resident && recs[c].core.depth == D30 && recs[c].core.parent == Some(id)
    && recs[c].core.tokens == recs[id].core.tokens
  }

  // Every resident record is stuck.
  ghost predicate Exhausted(recs: Recs) {
    forall id :: id in recs && recs[id].resident ==> Stuck(recs, id)
  }

  lemma EvictableUnlessStuck(recs: Recs, id: Id)
    requires id in recs && recs[id].resident
    ensures Evictable(recs, id) <==> !Stuck(recs, id)
  {
    FieldsOf(recs, id);
    if SharedChild(Cores(recs), Residents(recs), id) {
      var c :| c in Cores(recs) && c in Residents(recs) && Cores(recs)[c].depth == D30
        && Cores(recs)[c].parent == Some(id) && Cores(recs)[c].tokens == Cores(recs)[id].tokens;
      assert SharesCache(recs, id, c);
    }
  }

  lemma NothingEvictable(recs: Recs)
    requires forall id :: id in recs ==> !Evictable(recs, id)
    ensures Exhausted(recs)
  {
    hide Evictable, Stuck;
    forall id | id in recs && recs[id].resident
      ensures Stuck(recs, id)
    {
      EvictableUnlessStuck(recs, id);
    }
  }

  // The victim: the least recently used candidate, and the only one.
  ghost predicate Victim(recs: Recs, id: Id) {
    && Evictable(recs, id)
    && forall other :: other != id && Evictable(recs, other) ==> recs[id].lastUsed < recs[other].lastUsed
  }

  // A disk snapshot leaves the worker; a memory-only one is forgotten.
  function Evicted(b: Book, id: Id, room: int): Book
    requires id in b.recs
  {
    Noted(if b.recs[id].core.persistence == Disk then Demoted(b, id) else Forgotten(b, id),
      Eviction(id, b.residentBytes, room))
  }

  // One more eviction on record.
  function Noted(b: Book, e: Eviction): Book {
    b.(aux := b.aux.(evictions := b.aux.evictions + [e]))
  }

  lemma NotedBooks(b: Book, e: Eviction, hostBudget: nat, context: nat)
    requires Books(b, hostBudget, context)
    ensures Books(Noted(b, e), hostBudget, context)
  {
    hide Cores, Refcounts, Leases, Residents, Bytes, Uses, Memo, Durables, Graph, Leased, Promotions, Recency, Durable,
      Total;
  }

  lemma NotedAgrees(b: Book, e: Eviction, c: Config, held: map<Id, Snapshot>)
    requires Agrees(b, c, held)
    ensures Agrees(Noted(b, e), c, held)
  {
    hide Holdings, Cores, Residents, Bytes, Durables;
  }

  lemma NotedEroded(b: Book, thin: Book, id: Id, e: Eviction)
    requires Thinned(b, thin) && id in b.recs && thin.aux.evictions == b.aux.evictions && Squeezing(e, id)
    requires id in thin.recs || b.recs[id].core.persistence == Memory
    requires forall other :: other in b.recs && other != id ==> Spared(b, thin, other)
    ensures Eroded(b, Noted(thin, e))
  {
    hide ErodedRec;
    var after := Noted(thin, e);
    assert after.aux.evictions[|b.aux.evictions|] == e;
    assert Squeezed(b, after, id);
    SqueezedNot(b, thin);
  }

  lemma SqueezedNot(b: Book, after: Book)
    requires after.aux.evictions == b.aux.evictions
    ensures forall id :: !Squeezed(b, after, id)
  {
  }

  lemma LastUsedDistinct(b: Book, hostBudget: nat, context: nat, a: Id, z: Id)
    requires Books(b, hostBudget, context) && a in b.recs && z in b.recs && a != z
    ensures b.recs[a].lastUsed != b.recs[z].lastUsed
  {
    assert Uses(b.recs)[a] == b.recs[a].lastUsed && Uses(b.recs)[z] == b.recs[z].lastUsed;
    hide Graph, Leased, Promotions, Durable, Total;
  }

  lemma DiskIsDurable(b: Book, hostBudget: nat, context: nat, id: Id)
    requires Books(b, hostBudget, context) && id in b.recs
    ensures !b.recs[id].resident ==> b.recs[id].durable.Some?
    ensures b.recs[id].durable.Some? ==>
      && b.recs[id].core.persistence == Disk && Loadable(b.recs[id].durable.value, context)
      && id in b.disk && b.disk[id] == Published(b.recs[id].core, b.recs[id].durable.value)
    ensures id in b.disk <==> b.recs[id].durable.Some?
  {
    hide Cores, Refcounts, Leases, Residents, Bytes, Uses, Memo, Durables, Graph, Leased, Promotions, Recency, Total,
      Loadable;
    FieldsOf(b.recs, id);
  }

  lemma OnDisk(b: Book, hostBudget: nat, context: nat, id: Id)
    requires Books(b, hostBudget, context)
    ensures id in b.disk ==> id in b.recs
  {
    hide Cores, Refcounts, Leases, Residents, Bytes, Uses, Memo, Graph, Leased, Promotions, Recency, Total;
  }

  lemma EvictedBooks(b: Book, id: Id, room: int, hostBudget: nat, context: nat)
    requires Books(b, hostBudget, context) && Evictable(b.recs, id)
    requires b.recs[id].core.persistence == Disk ==> b.recs[id].durable.Some?
    requires b.residentBytes > room
    ensures Books(Evicted(b, id, room), hostBudget, context) && Eroded(b, Evicted(b, id, room))
    ensures Residents(Evicted(b, id, room).recs) == Residents(b.recs) - {id}
  {
    hide Books, Eroded, Thinned, Spared, Forgotten, Demoted, SharedChild, Residents;
    var e := Eviction(id, b.residentBytes, room);
    if b.recs[id].core.persistence == Disk {
      DemotedBooks(b, id, hostBudget, context);
      DemotedThinned(b, id);
      DemotedResidents(b, id);
      NotedBooks(Demoted(b, id), e, hostBudget, context);
      NotedEroded(b, Demoted(b, id), id, e);
    } else {
      ForgottenBooks(b, id, hostBudget, context);
      ForgottenThinned(b, id);
      ForgottenResidents(b, id);
      NotedBooks(Forgotten(b, id), e, hostBudget, context);
      NotedEroded(b, Forgotten(b, id), id, e);
    }
  }

  lemma EvictedNoted(b: Book, id: Id, room: int)
    requires id in b.recs
    ensures Evicted(b, id, room).aux.evictions == b.aux.evictions + [Eviction(id, b.residentBytes, room)]
  {
    DemotedResidents(b, id);
    ForgottenResidents(b, id);
  }

  lemma DemotedResidents(b: Book, id: Id)
    requires id in b.recs
    ensures Demoted(b, id).aux == b.aux
    ensures Residents(Demoted(b, id).recs) == Residents(b.recs) - {id}
  {
    ResidentsSet(b.recs, id, Demoted(b, id).recs[id]);
  }

  lemma ForgottenResidents(b: Book, id: Id)
    requires id in b.recs
    ensures Forgotten(b, id).aux.evictions == b.aux.evictions
    ensures Residents(Forgotten(b, id).recs) == Residents(b.recs) - {id}
  {
    hide ForgetRecs;
    ForgetMaps(b.recs, id);
  }

  lemma EvictedAgrees(b: Book, id: Id, room: int, c: Config, held: map<Id, Snapshot>)
    requires Agrees(b, c, held) && id in b.recs && Unshared(held, id)
    ensures Agrees(Evicted(b, id, room), c, held - {id})
  {
    hide Agrees, Forgotten, Demoted, Unshared, Noted;
    var e := Eviction(id, b.residentBytes, room);
    if b.recs[id].core.persistence == Disk {
      DemotedAgrees(b, id, c, held);
      NotedAgrees(Demoted(b, id), e, c, held - {id});
    } else {
      ForgottenAgrees(b, id, c, held);
      NotedAgrees(Forgotten(b, id), e, c, held - {id});
    }
  }

  // The evictions of one budget request, oldest first: each takes the one
  // candidate used longest ago, and only while there was no room.
  ghost predicate Evictions(b: Book, victims: seq<Id>, after: Book, room: int)
    decreases |victims|
  {
    if victims == [] then after == b
    else
      var id := victims[0];
      && Victim(b.recs, id)
      && b.residentBytes > room
      && Evictions(Evicted(b, id, room), victims[1..], after, room)
  }

  lemma {:induction false} EvictionsSnoc(b: Book, victims: seq<Id>, now: Book, room: int, id: Id)
    requires Evictions(b, victims, now, room)
    requires Victim(now.recs, id) && now.residentBytes > room
    ensures Evictions(b, victims + [id], Evicted(now, id, room), room)
    decreases |victims|
  {
    hide Evicted;
    if victims != [] {
      assert (victims + [id])[1..] == victims[1..] + [id];
      EvictionsSnoc(Evicted(b, victims[0], room), victims[1..], now, room, id);
    }
  }

  // The book before the k-th eviction.
  ghost function Before(b: Book, victims: seq<Id>, after: Book, room: int, k: nat): Book
    requires Evictions(b, victims, after, room) && k < |victims|
    decreases k
  {
    if k == 0 then b else Before(Evicted(b, victims[0], room), victims[1..], after, room, k - 1)
  }

  lemma EvictedKeepsUse(b: Book, id: Id, room: int)
    requires id in b.recs
    ensures Evicted(b, id, room).recs.Keys <= b.recs.Keys
    ensures forall other :: other in Evicted(b, id, room).recs ==>
      Evicted(b, id, room).recs[other].lastUsed == b.recs[other].lastUsed
  {
    hide ForgetRecs;
    if b.recs[id].core.persistence == Memory {
      ForgetRecsEroded(b.recs, id);
      forall other | other in ForgetRecs(b.recs, id)
        ensures ForgetRecs(b.recs, id)[other].lastUsed == b.recs[other].lastUsed
      {
        assert ErodedRec(b.recs[other], ForgetRecs(b.recs, id)[other]);
      }
    }
  }

  // What was used last is evicted last: only when nothing else may be.
  lemma {:induction false} FreshestGoesLast(b: Book, victims: seq<Id>, after: Book, room: int, k: nat, use: nat)
    requires Evictions(b, victims, after, room) && k < |victims|
    requires victims[k] in b.recs ==> b.recs[victims[k]].lastUsed == use
    requires forall other :: other in b.recs && other != victims[k] ==> b.recs[other].lastUsed < use
    ensures
      var now := Before(b, victims, after, room, k);
      Victim(now.recs, victims[k]) && forall other :: other != victims[k] ==> !Evictable(now.recs, other)
    decreases k
  {
    hide Evicted, Evictable;
    EvictableIn(b.recs);
    if k > 0 {
      EvictedKeepsUse(b, victims[0], room);
      FreshestGoesLast(Evicted(b, victims[0], room), victims[1..], after, room, k - 1, use);
    }
  }

  // -- What expire and the budget loop keep, worker included ----------------------------------------

  ghost predicate Pending(recs: Recs, held: map<Id, Snapshot>, pending: set<Id>) {
    held.Keys - Residents(recs) == pending
  }

  // The worker has lost just the records that went.
  ghost predicate Reclaimed(before: Book, held0: map<Id, Snapshot>, now: Book, held: map<Id, Snapshot>, clock: int,
      safe: set<Id>, pending: set<Id>) {
    && Expiring(before, now, clock)
    && held == held0 - (before.recs.Keys - now.recs.Keys)
    && PendingSafe(Cores(now.recs), Residents(now.recs), held, safe)
    && Pending(now.recs, held, pending)
  }

  lemma ReclaimedStart(b: Book, held: map<Id, Snapshot>, clock: int, safe: set<Id>)
    requires PendingSafe(Cores(b.recs), Residents(b.recs), held, safe) && b.clock == clock
    ensures Reclaimed(b, held, b, held, clock, safe, held.Keys - Residents(b.recs))
  {
    hide PendingSafe, Cores, Residents;
    ExpiringStart(b, clock);
    assert b.recs.Keys - b.recs.Keys == {};
    assert held - {} == held;
  }

  lemma HeldIff(b: Book, c: Config, held: map<Id, Snapshot>, id: Id)
    requires Agrees(b, c, held) && id in b.recs
    ensures b.recs[id].resident <==> id in held
    ensures b.aux.frozen.Keys == b.recs.Keys
  {
    hide Cores, Residents, Bytes, Durables;
    FieldsOf(b.recs, id);
  }

  lemma PendingWithout(held: map<Id, Snapshot>, residentIds: set<Id>, id: Id)
    requires id in residentIds || id !in held
    ensures (held - {id}).Keys - (residentIds - {id}) == held.Keys - residentIds
  {
  }

  lemma HeldShrinks(held0: map<Id, Snapshot>, held: map<Id, Snapshot>, keys0: set<Id>, keys: set<Id>, id: Id)
    requires held == held0 - (keys0 - keys) && id in keys && keys <= keys0
    ensures held - {id} == held0 - (keys0 - (keys - {id}))
  {
    assert keys0 - (keys - {id}) == (keys0 - keys) + {id};
  }

  lemma ReclaimedTurn(before: Book, held0: map<Id, Snapshot>, now: Book, held: map<Id, Snapshot>, clock: int,
      pending: set<Id>, c: Config, hostBudget: nat, id: Id)
    requires Books(now, hostBudget, c.context) && Agrees(now, c, held)
    requires Reclaimed(before, held0, now, held, clock, Live(before.recs, clock), pending)
    requires id in now.recs && DeadLeaf(now.recs, clock, id)
    ensures Unshared(held, id)
    ensures Reclaimed(before, held0, Forgotten(now, id), held - {id}, clock, Live(before.recs, clock), pending)
    ensures Forgotten(now, id).recs.Keys == now.recs.Keys - {id}
  {
    var safe := Live(before.recs, clock);
    hide Books, Agrees, PendingSafe, Unshared, Cores, Residents, ForgetRecs, Live, Eroded, Registry.Kept, SameResidency;
    HeldIff(now, c, held, id);
    DeadLeafFacts(before, now, clock, id);
    CanDrop(now, c, held, hostBudget, c.context, safe, id);
    ExpiringStep(before, now, clock, hostBudget, c.context, id);
    ForgottenResidents(now, id);
    ForgetRecsEroded(now.recs, id);
    PendingAfter(now.recs, Forgotten(now, id).recs, held, id, safe);
    hide Expiring;
    ResidentIff(now.recs, id);
    PendingWithout(held, Residents(now.recs), id);
    ErodedKeys(before, now, clock);
    HeldShrinks(held0, held, before.recs.Keys, now.recs.Keys, id);
  }

  lemma ResidentIff(recs: Recs, id: Id)
    requires id in recs
    ensures id in Residents(recs) <==> recs[id].resident
  {
  }

  lemma ErodedKeys(before: Book, now: Book, clock: int)
    requires Expiring(before, now, clock)
    ensures now.recs.Keys <= before.recs.Keys && Eroded(before, now) && SameResidency(before.recs, now.recs)
  {
  }

  lemma ReclaimedDone(before: Book, held0: map<Id, Snapshot>, now: Book, held: map<Id, Snapshot>, clock: int,
      pending: set<Id>, c: Config, hostBudget: nat)
    requires Books(now, hostBudget, c.context)
    requires Reclaimed(before, held0, now, held, clock, Live(before.recs, clock), pending)
    requires forall id :: id in now.recs ==> !DeadLeaf(now.recs, clock, id)
    ensures now.recs.Keys == Registry.Kept(Cores(before.recs), Live(before.recs, clock))
  {
    hide Books, Expiring, PendingSafe, Registry.Kept, Cores, Residents;
    ExpiringDone(before, now, clock, hostBudget, c.context);
  }

  ghost predicate SubMap<V>(m: map<Id, V>, whole: map<Id, V>) {
    forall id :: id in m ==> id in whole && m[id] == whole[id]
  }

  // Unregistered snapshots stay safe while records go and none of them becomes
  // unregistered.
  lemma PendingSafeShrinks(recs: Recs, held0: map<Id, Snapshot>, now: Recs, held: map<Id, Snapshot>, safe: set<Id>)
    requires PendingSafe(Cores(recs), Residents(recs), held0, safe)
    requires now.Keys <= recs.Keys && SubMap(held, held0)
    requires held.Keys - Residents(now) <= held0.Keys - Residents(recs)
    ensures PendingSafe(Cores(now), Residents(now), held, safe)
  {
    forall id | id in held && id !in Residents(now)
      ensures id in held0 && id !in Residents(recs) && held[id] == held0[id]
    {
      assert id in held.Keys - Residents(now);
    }
    hide Residents, Cores;
  }

  lemma PendingSafeWider(recs: Recs, held: map<Id, Snapshot>, safe: set<Id>, wider: set<Id>)
    requires PendingSafe(Cores(recs), Residents(recs), held, safe) && safe <= wider
    ensures PendingSafe(Cores(recs), Residents(recs), held, wider)
  {
    hide Residents, Cores;
  }

  // The eviction loop: what was taken, in order, and what it kept.
  ghost predicate Roomed(mid: Book, held0: map<Id, Snapshot>, victims: seq<Id>, now: Book, held: map<Id, Snapshot>,
      pins: set<Id>, pending: set<Id>, room: int) {
    && Evictions(mid, victims, now, room)
    && Eroded(mid, now) && RoomOnly(mid.aux.evictions, now.aux.evictions, room)
    && SubMap(held, held0)
    && PendingSafe(Cores(now.recs), Residents(now.recs), held, pins)
    && Pending(now.recs, held, pending)
  }

  lemma RoomedStart(b: Book, held: map<Id, Snapshot>, pins: set<Id>, room: int)
    requires PendingSafe(Cores(b.recs), Residents(b.recs), held, pins)
    ensures Roomed(b, held, [], b, held, pins, held.Keys - Residents(b.recs), room)
  {
    hide PendingSafe, Cores, Residents;
    ErodedRefl(b);
  }

  lemma PinsSame(mid: Book, now: Book, id: Id)
    requires Eroded(mid, now) && id in now.recs
    ensures id in Pins(mid.recs) <==> now.recs[id].leases > 0
  {
    assert ErodedRec(mid.recs[id], now.recs[id]);
  }

  lemma VictimUnshared(mid: Book, now: Book, held: map<Id, Snapshot>, c: Config, hostBudget: nat, id: Id)
    requires Books(now, hostBudget, c.context) && Agrees(now, c, held)
    requires Eroded(mid, now) && PendingSafe(Cores(now.recs), Residents(now.recs), held, Pins(mid.recs))
    requires Victim(now.recs, id)
    ensures Unshared(held, id)
  {
    hide Books, Agrees, PendingSafe, Unshared, Cores, Residents, Eroded, Victim, Pins, SharedChild;
    EvictableFacts(now.recs, id);
    PinsSame(mid, now, id);
    CanDrop(now, c, held, hostBudget, c.context, Pins(mid.recs), id);
  }

  lemma RoomedTurn(mid: Book, held0: map<Id, Snapshot>, victims: seq<Id>, now: Book, held: map<Id, Snapshot>,
      pending: set<Id>, room: int, c: Config, hostBudget: nat, id: Id)
    requires Books(now, hostBudget, c.context) && Agrees(now, c, held)
    requires Roomed(mid, held0, victims, now, held, Pins(mid.recs), pending, room)
    requires Victim(now.recs, id) && now.residentBytes > room
    requires now.recs[id].core.persistence == Disk ==> now.recs[id].durable.Some?
    ensures Unshared(held, id)
    ensures Books(Evicted(now, id, room), hostBudget, c.context) && Agrees(Evicted(now, id, room), c, held - {id})
    ensures Roomed(mid, held0, victims + [id], Evicted(now, id, room), held - {id}, Pins(mid.recs), pending, room)
    ensures |Residents(Evicted(now, id, room).recs)| < |Residents(now.recs)|
  {
    hide Books, Agrees, PendingSafe, Unshared, Cores, Residents, Eroded, Evicted, Victim, Pins, Evictions, SharedChild;
    VictimUnshared(mid, now, held, c, hostBudget, id);
    EvictableFacts(now.recs, id);
    EvictedBooks(now, id, room, hostBudget, c.context);
    EvictedAgrees(now, id, room, c, held);
    RoomedStep(mid, held0, victims, now, held, pending, room, c, id);
    ResidentIff(now.recs, id);
    assert |Residents(now.recs) - {id}| < |Residents(now.recs)|;
  }

  lemma RoomedStep(mid: Book, held0: map<Id, Snapshot>, victims: seq<Id>, now: Book, held: map<Id, Snapshot>,
      pending: set<Id>, room: int, c: Config, id: Id)
    requires Agrees(now, c, held)
    requires Roomed(mid, held0, victims, now, held, Pins(mid.recs), pending, room)
    requires Victim(now.recs, id) && now.residentBytes > room
    requires Eroded(now, Evicted(now, id, room)) && Residents(Evicted(now, id, room).recs) == Residents(now.recs) - {id}
    ensures Roomed(mid, held0, victims + [id], Evicted(now, id, room), held - {id}, Pins(mid.recs), pending, room)
  {
    hide Agrees, PendingSafe, Cores, Residents, Eroded, Evicted, Victim, Pins, Evictions, SharedChild;
    EvictableFacts(now.recs, id);
    HeldIff(now, c, held, id);
    EvictionsSnoc(mid, victims, now, room, id);
    EvictedNoted(now, id, room);
    ErodedTrans(mid, now, Evicted(now, id, room));
    ErodedKeysOnly(now, Evicted(now, id, room));
    PendingAfter(now.recs, Evicted(now, id, room).recs, held, id, Pins(mid.recs));
    ResidentIff(now.recs, id);
    PendingWithout(held, Residents(now.recs), id);
  }

  lemma EvictableFacts(recs: Recs, id: Id)
    requires Victim(recs, id)
    ensures Evictable(recs, id) && recs[id].resident && recs[id].leases == 0
    ensures recs[id].refcount == 0 || !SharedChild(Cores(recs), Residents(recs), id)
    ensures recs[id].core.persistence == Memory ==> recs[id].refcount == 0
  {
  }

  lemma ErodedKeysOnly(b: Book, after: Book)
    requires Eroded(b, after)
    ensures after.recs.Keys <= b.recs.Keys
  {
  }

  // What a budget request did: expired first, then evicted.
  ghost predicate MadeRoom(before: Book, mid: Book, victims: seq<Id>, after: Book, clock: int, room: int) {
    && Expiring(before, mid, clock)
    && mid.recs.Keys == Registry.Kept(Cores(before.recs), Live(before.recs, clock))
    && Evictions(mid, victims, after, room)
    && Eroded(before, after) && RoomOnly(before.aux.evictions, after.aux.evictions, room)
  }

  // From expiry to eviction.
  lemma ExpiredThenRoom(before: Book, held0: map<Id, Snapshot>, mid: Book, held: map<Id, Snapshot>, clock: int,
      pending: set<Id>, room: int)
    requires Reclaimed(before, held0, mid, held, clock, Live(before.recs, clock), pending)
    requires PendingSafe(Cores(before.recs), Residents(before.recs), held0, Pins(before.recs))
    requires pending == held0.Keys - Residents(before.recs)
    ensures Roomed(mid, held, [], mid, held, Pins(mid.recs), pending, room)
    ensures SubMap(held, held0)
  {
    hide Registry.Kept, Cores, Residents, PendingSafe, Evictions, Live;
    assert Pins(mid.recs) == Pins(before.recs) by {
      PinsKept(before, mid);
    }
    hide Pins, Eroded;
    PendingSafeShrinks(before.recs, held0, mid.recs, held, Pins(mid.recs));
    RoomedStart(mid, held, Pins(mid.recs), room);
  }

  lemma PinsKept(before: Book, mid: Book)
    requires Eroded(before, mid)
    ensures Pins(mid.recs) == Pins(before.recs)
  {
    forall id | id in mid.recs
      ensures mid.recs[id].leases == before.recs[id].leases
    {
      assert ErodedRec(before.recs[id], mid.recs[id]);
    }
  }

  lemma PinsLive(recs: Recs, clock: int)
    ensures Pins(recs) <= Live(recs, clock)
  {
  }

  lemma EvictableIn(recs: Recs)
    ensures forall id :: Evictable(recs, id) ==> id in recs
  {
  }

  // A disk record always has its durable copy once it is registered.
  ghost predicate Persisted(recs: Recs) {
    forall id :: id in recs && recs[id].core.persistence == Disk ==> recs[id].durable.Some?
  }

  lemma MadeRoomFacts(before: Book, held0: map<Id, Snapshot>, mid: Book, heldMid: map<Id, Snapshot>, victims: seq<Id>,
      now: Book, held: map<Id, Snapshot>, clock: int, pending: set<Id>, room: int)
    requires Reclaimed(before, held0, mid, heldMid, clock, Live(before.recs, clock), pending)
    requires mid.recs.Keys == Registry.Kept(Cores(before.recs), Live(before.recs, clock))
    requires Roomed(mid, heldMid, victims, now, held, Pins(mid.recs), pending, room)
    ensures MadeRoom(before, mid, victims, now, clock, room) && Eroded(before, now)
    ensures RoomOnly(before.aux.evictions, now.aux.evictions, room)
    ensures SubMap(held, held0) && held.Keys - Residents(now.recs) == pending
  {
    hide Registry.Kept, Cores, Residents, PendingSafe, Evictions, Live, Eroded, Pins;
    ErodedTrans(before, mid, now);
  }

  lemma ErodedPersisted(b: Book, after: Book)
    requires Eroded(b, after) && Persisted(b.recs)
    ensures Persisted(after.recs)
  {
    forall id | id in after.recs && after.recs[id].core.persistence == Disk
      ensures after.recs[id].durable.Some?
    {
      assert ErodedRec(b.recs[id], after.recs[id]);
    }
  }

  lemma ReclaimedPersisted(before: Book, held0: map<Id, Snapshot>, now: Book, held: map<Id, Snapshot>, clock: int,
      safe: set<Id>, pending: set<Id>)
    requires Reclaimed(before, held0, now, held, clock, safe, pending) && Persisted(before.recs)
    ensures Persisted(now.recs)
  {
    hide Persisted, Eroded;
    ErodedPersisted(before, now);
  }

  lemma VictimDurable(mid: Book, held0: map<Id, Snapshot>, victims: seq<Id>, now: Book, held: map<Id, Snapshot>,
      pins: set<Id>, pending: set<Id>, room: int, id: Id)
    requires Roomed(mid, held0, victims, now, held, pins, pending, room) && Persisted(mid.recs)
    requires Victim(now.recs, id)
    ensures now.recs[id].core.persistence == Disk ==> now.recs[id].durable.Some?
    ensures Persisted(now.recs)
  {
    hide Eroded, Victim, Evictable;
    EvictableFacts(now.recs, id);
    ErodedPersisted(mid, now);
  }

  lemma EvictedIs(b: Book, id: Id, room: int)
    requires id in b.recs
    ensures Evicted(b, id, room) ==
      Noted(if b.recs[id].core.persistence == Disk then Demoted(b, id) else Forgotten(b, id),
        Eviction(id, b.residentBytes, room))
  {
  }

  // -- Facts for the store's methods ---------------------------------------------------------------

  lemma TouchedMaps(b: Book, id: Id)
    requires id in b.recs
    ensures Cores(Touched(b, id).recs) == Cores(b.recs) && Residents(Touched(b, id).recs) == Residents(b.recs)
    ensures Pins(Touched(b, id).recs) == Pins(b.recs)
    ensures Persisted(b.recs) ==> Persisted(Touched(b, id).recs)
  {
    hide Cores, Residents;
    Updated(b.recs, id, Touched(b, id).recs[id]);
  }

  lemma WithFilesMaps(b: Book, id: Id, files: Saved)
    requires id in b.recs
    ensures Cores(WithFiles(b, id, files).recs) == Cores(b.recs)
    ensures Residents(WithFiles(b, id, files).recs) == Residents(b.recs)
    ensures WithFiles(b, id, files).aux == b.aux && WithFiles(b, id, files).tick == b.tick
  {
    hide Cores, Residents;
    Updated(b.recs, id, WithFiles(b, id, files).recs[id]);
  }

  lemma PinnedMaps(b: Book, ids: set<Id>)
    ensures Cores(PinRecs(b.recs, ids)) == Cores(b.recs) && Residents(PinRecs(b.recs, ids)) == Residents(b.recs)
    ensures Cores(UnpinRecs(b.recs, ids)) == Cores(b.recs) && Residents(UnpinRecs(b.recs, ids)) == Residents(b.recs)
    ensures Persisted(b.recs) ==> Persisted(PinRecs(b.recs, ids)) && Persisted(UnpinRecs(b.recs, ids))
    ensures ids <= b.recs.Keys ==> Pins(PinRecs(b.recs, ids)) == Pins(b.recs) + ids
  {
    assert SameButLeases(b.recs, PinRecs(b.recs, ids)) && SameButLeases(b.recs, UnpinRecs(b.recs, ids));
    hide Cores, Residents, SameButLeases;
    LeasesOnly(b.recs, PinRecs(b.recs, ids));
    LeasesOnly(b.recs, UnpinRecs(b.recs, ids));
  }

  lemma ClosedUnion(records: Records, a: set<Id>, z: set<Id>)
    requires Closed(records, a) && Closed(records, z)
    ensures Closed(records, a + z)
  {
  }

  lemma RefsIn(b: Book, hostBudget: nat, context: nat, id: Id)
    requires Books(b, hostBudget, context) && id in b.recs
    ensures Refs(b.recs[id].core) <= b.recs.Keys
  {
    hide Cores, Refcounts, Leases, Residents, Bytes, Uses, Memo, Durables, Leased, Promotions, Recency, Durable, Total,
      Refs;
    FieldsOf(b.recs, id);
    assert Resolves(Cores(b.recs), b.aux.birth, id);
  }

  lemma AncestorUp(records: Records, id: Id, child: Id, of: Id)
    requires child in records && id in records && id in Refs(records[child])
    requires AncestorOf(records, child, of)
    ensures AncestorOf(records, id, of)
  {
    var chain :| Chain(records, chain) && chain[0] == child && Last(chain) == of;
    var longer := [id] + chain;
    assert Chain(records, longer) && longer[0] == id && Last(longer) == of;
  }

  lemma AncestorSelf(records: Records, id: Id)
    requires id in records
    ensures AncestorOf(records, id, id)
  {
    assert Chain(records, [id]) && [id][0] == id && Last([id]) == id;
  }

  lemma ForgottenEvolves(b: Book, id: Id)
    requires id in b.recs && b.recs[id].leases == 0 && b.aux.frozen.Keys == b.recs.Keys
    ensures Evolves(b, Forgotten(b, id), {id})
  {
    hide Evolves, Thinned, Spared, Forgotten;
    ForgottenThinned(b, id);
    ThinnedEvolves(b, Forgotten(b, id), {id});
  }

  lemma ForgetAddedEvolves(b: Book, id: Id, core: Record, bytes: nat, tokens: seq<Token>)
    requires id !in b.recs && id !in b.aux.used && b.recs.Keys <= b.aux.used && b.aux.frozen.Keys == b.recs.Keys
    ensures Evolves(b, Forgotten(Added(b, id, core, bytes, tokens), id), {id})
    ensures Forgotten(Added(b, id, core, bytes, tokens), id).recs.Keys == b.recs.Keys
  {
    hide Evolves, Added, Forgotten, Eroded;
    AddedEvolves(b, id, core, bytes, tokens);
    var now := Added(b, id, core, bytes, tokens);
    assert now.aux.frozen.Keys == now.recs.Keys && now.recs.Keys <= now.aux.used by {
      AddedAux(b, id, core, bytes, tokens);
    }
    ForgottenEvolves(now, id);
    EvolvesTrans(b, now, Forgotten(now, id), {id}, {id});
    assert {id} + {id} == {id};
    ForgottenKeys(now, id);
  }

  lemma AddedAux(b: Book, id: Id, core: Record, bytes: nat, tokens: seq<Token>)
    requires b.recs.Keys <= b.aux.used && b.aux.frozen.Keys == b.recs.Keys
    ensures
      var now := Added(b, id, core, bytes, tokens);
      && now.recs.Keys == b.recs.Keys + {id} && now.aux.frozen.Keys == now.recs.Keys && now.recs.Keys <= now.aux.used
      && now.aux.frozen[id] == tokens && now.recs[id] == NewRec(core, bytes, b.tick + 1)
  {
  }

  lemma ForgottenKeys(b: Book, id: Id)
    requires id in b.recs
    ensures Forgotten(b, id).recs.Keys == b.recs.Keys - {id}
  {
    ForgetRecsEroded(b.recs, id);
  }

  lemma AddedPersisted(b: Book, id: Id, core: Record, bytes: nat, tokens: seq<Token>)
    requires Persisted(b.recs)
    ensures
      var recs := Added(b, id, core, bytes, tokens).recs;
      forall other :: other in recs && other != id && recs[other].core.persistence == Disk ==> recs[other].durable.Some?
  {
  }

  lemma UsedAll(b: Book, hostBudget: nat, context: nat)
    requires Books(b, hostBudget, context)
    ensures b.recs.Keys <= b.aux.used
  {
    hide Refcounts, Leases, Residents, Bytes, Uses, Memo, Durables, Graph, Leased, Recency, Durable, Total;
  }

  lemma EvolvesRefl(b: Book)
    requires b.aux.frozen.Keys == b.recs.Keys
    ensures Evolves(b, b, {})
  {
  }

  lemma EvolvesChain(a: Book, b: Book, c: Book)
    requires Evolves(a, b, {}) && Evolves(b, c, {})
    requires a.recs.Keys <= a.aux.used && b.recs.Keys <= b.aux.used
    ensures Evolves(a, c, {})
  {
    hide Evolves;
    var none: set<Id> := {};
    EvolvesTrans(a, b, c, none, none);
    assert none + none == none;
  }

  lemma ClosedEmpty(records: Records)
    ensures Closed(records, {})
  {
  }

  lemma ClosedIn(records: Records, ids: set<Id>)
    requires Closed(records, ids)
    ensures ids <= records.Keys
  {
  }

  // What register leaves behind: the new resident record, with its durable copy
  // if it is a disk one, or nothing.
  ghost predicate Registered(b: Book, after: Book, id: Id, core: Record, tokens: seq<Token>, ok: bool) {
    && Evolves(b, after, {id}) && Persisted(after.recs)
    && Residents(after.recs) == (if ok then Residents(b.recs) + {id} else Residents(b.recs))
    && (ok ==>
        && id in after.recs && after.recs[id].core == core && after.recs[id].resident
        && after.recs[id].leases == 0 && after.recs[id].refcount == 0 && after.recs[id].hostBytes == core.persistedBytes
        && after.recs[id].lastUsed == after.tick
        && id in after.aux.frozen && after.aux.frozen[id] == tokens)
    && (!ok ==> id !in after.recs)
  }

  lemma RegistrationFailed(b: Book, id: Id, core: Record, bytes: nat, tokens: seq<Token>)
    requires id !in b.recs && id !in b.aux.used && b.recs.Keys <= b.aux.used && b.aux.frozen.Keys == b.recs.Keys
    requires Persisted(b.recs)
    ensures Registered(b, Forgotten(Added(b, id, core, bytes, tokens), id), id, core, tokens, false)
  {
    var now := Added(b, id, core, bytes, tokens);
    hide Evolves, ForgetRecs, AddRecs, Residents;
    ForgetAddedEvolves(b, id, core, bytes, tokens);
    AddMaps(b.recs, id, core, bytes, b.tick + 1);
    ForgetMaps(now.recs, id);
    ForgottenResidents(now, id);
    ResidentsIn(b.recs);
    assert Residents(b.recs) + {id} - {id} == Residents(b.recs);
    ForgetPersisted(b, id, core, bytes, tokens);
  }

  lemma ResidentsIn(recs: Recs)
    ensures Residents(recs) <= recs.Keys
  {
  }

  lemma ForgetPersisted(b: Book, id: Id, core: Record, bytes: nat, tokens: seq<Token>)
    requires id !in b.recs && Persisted(b.recs)
    ensures Persisted(Forgotten(Added(b, id, core, bytes, tokens), id).recs)
  {
    var now := Added(b, id, core, bytes, tokens);
    AddedPersisted(b, id, core, bytes, tokens);
    hide Added;
    ForgetRecsEroded(now.recs, id);
    forall other | other in ForgetRecs(now.recs, id) && ForgetRecs(now.recs, id)[other].core.persistence == Disk
      ensures ForgetRecs(now.recs, id)[other].durable.Some?
    {
      assert ErodedRec(now.recs[other], ForgetRecs(now.recs, id)[other]);
    }
  }

  lemma AddedResidents(b: Book, id: Id, core: Record, bytes: nat, tokens: seq<Token>)
    requires id !in b.recs
    ensures Residents(Added(b, id, core, bytes, tokens).recs) == Residents(b.recs) + {id}
  {
    hide Residents, AddRecs;
    AddMaps(b.recs, id, core, bytes, b.tick + 1);
  }

  lemma AddedDisk(b: Book, id: Id, core: Record, bytes: nat, tokens: seq<Token>)
    ensures Added(b, id, core, bytes, tokens).disk == b.disk
    ensures Added(b, id, core, bytes, tokens).aux.evictions == b.aux.evictions
    ensures Added(b, id, core, bytes, tokens).tick == b.tick + 1
  {
  }

  lemma RegistrationDone(b: Book, id: Id, core: Record, bytes: nat, tokens: seq<Token>, files: Option<Saved>)
    requires id !in b.recs && id !in b.aux.used && b.recs.Keys <= b.aux.used && b.aux.frozen.Keys == b.recs.Keys
    requires Persisted(b.recs) && (core.persistence == Disk ==> files.Some?) && id !in b.disk
    requires core.persistedBytes == bytes
    ensures
      var now := Added(b, id, core, bytes, tokens);
      && id in now.recs
      && Registered(b, if files.Some? then WithFiles(now, id, files.value) else now, id, core, tokens, true)
  {
    hide Evolves, Added, Residents;
    var now := Added(b, id, core, bytes, tokens);
    AddedAux(b, id, core, bytes, tokens);
    AddedEvolves(b, id, core, bytes, tokens);
    AddedPersisted(b, id, core, bytes, tokens);
    AddedResidents(b, id, core, bytes, tokens);
    AddedDisk(b, id, core, bytes, tokens);
    if files.Some? {
      WithFilesEvolves(now, id, files.value);
      WithFilesMaps(now, id, files.value);
      var none: set<Id> := {};
      EvolvesTrans(b, now, WithFiles(now, id, files.value), {id}, none);
      assert {id} + none == {id};
    }
  }

  lemma SavedLoadable(item: Snapshot, context: nat)
    requires WellFormed(item, context)
    ensures Loadable(FilesOf(item), context)
  {
  }

  // The same seen from outside: what is new about `id`.
  ghost predicate Entered(after: Book, id: Id, core: Record, tokens: seq<Token>, ok: bool) {
    if ok then
      && id in after.recs && after.recs[id].core == core && after.recs[id].resident
      && after.recs[id].leases == 0 && after.recs[id].refcount == 0 && after.recs[id].hostBytes == core.persistedBytes
      && after.recs[id].lastUsed == after.tick
      && id in after.aux.frozen && after.aux.frozen[id] == tokens
    else id !in after.recs
  }

  // Room was made, then the record entered.
  lemma RoomThenRegistered(b: Book, mid: Book, after: Book, id: Id, core: Record, tokens: seq<Token>, ok: bool)
    requires Eroded(b, mid) && Registered(mid, after, id, core, tokens, ok)
    requires b.recs.Keys <= b.aux.used && b.aux.frozen.Keys == b.recs.Keys && mid.recs.Keys <= mid.aux.used
    requires id !in b.aux.used
    ensures Evolves(b, after, {id}) && Entered(after, id, core, tokens, ok) && Persisted(after.recs)
  {
    var used := mid.aux.used;
    hide Evolves, Eroded, Persisted;
    ErodedUsed(b, mid);
    ErodedEvolves(b, mid);
    var none: set<Id> := {};
    EvolvesTrans(b, mid, after, none, {id});
    assert none + {id} == {id};
  }

  lemma ErodedUsed(b: Book, after: Book)
    requires Eroded(b, after)
    ensures after.aux.used == b.aux.used && after.aux.scopes == b.aux.scopes
  {
  }

  // Leaving the lease under which it entered.
  lemma EnteredUnpinned(b: Book, ids: set<Id>, c: Book, id: Id, core: Record, tokens: seq<Token>, ok: bool)
    requires Entered(c, id, core, tokens, ok) && c.aux.scopes != []
    ensures Entered(UnpinnedBook(c), id, core, tokens, ok)
  {
  }

  // The whole of register: reclaim, lease, make room, enter, release.
  lemma RegisterEvolves(b0: Book, b1: Book, b2: Book, pins: set<Id>, b5: Book, id: Id)
    requires Eroded(b0, b1) && Evolves(b1, b2, {}) && Evolves(PinnedBook(b2, pins), b5, {id})
    requires b0.recs.Keys <= b0.aux.used && b0.aux.frozen.Keys == b0.recs.Keys
    requires b1.recs.Keys <= b1.aux.used && b1.aux.frozen.Keys == b1.recs.Keys
    requires b2.recs.Keys <= b2.aux.used && b2.aux.frozen.Keys == b2.recs.Keys
    requires id !in b0.aux.used
    ensures b5.aux.scopes != [] && Last(b5.aux.scopes) == pins && Evolves(b0, UnpinnedBook(b5), {id})
  {
    ErodedUsed(b0, b1);
    ErodedEvolves(b0, b1);
    EvolvesUsed(b1, b2);
    LeaseEvolves(b2, pins, b5, {id});
    ScopesPinned(b2, pins, b5, id);
    hide Evolves, Eroded;
    var none: set<Id> := {};
    EvolvesChain(b0, b1, b2);
    EvolvesTrans(b0, b2, UnpinnedBook(b5), none, {id});
    assert none + {id} == {id};
  }

  lemma UsedGrows(b: Book, after: Book, own: set<Id>)
    requires Evolves(b, after, own)
    ensures b.aux.used <= after.aux.used && after.aux.scopes == b.aux.scopes && after.clock == b.clock
    ensures b.aux.evictions <= after.aux.evictions && after.recs.Keys <= b.recs.Keys + own
  {
  }

  lemma EvolvesUsed(b: Book, after: Book)
    requires Evolves(b, after, {})
    ensures after.aux.used == b.aux.used && after.aux.scopes == b.aux.scopes && after.recs.Keys <= b.recs.Keys
  {
    var none: set<Id> := {};
    assert b.recs.Keys + none == b.recs.Keys && b.aux.used + none == b.aux.used;
  }

  lemma ScopesPinned(b: Book, pins: set<Id>, after: Book, id: Id)
    requires Evolves(PinnedBook(b, pins), after, {id})
    ensures after.aux.scopes != [] && Last(after.aux.scopes) == pins
  {
  }

  // When only the lease was refused.
  lemma RefusedEvolves(b0: Book, b1: Book, b2: Book, id: Id)
    requires Eroded(b0, b1) && Evolves(b1, b2, {})
    requires b0.recs.Keys <= b0.aux.used && b0.aux.frozen.Keys == b0.recs.Keys
    requires b1.recs.Keys <= b1.aux.used && id !in b0.aux.used
    ensures Evolves(b0, b2, {id}) && Evolves(b0, b2, {}) && id !in b2.recs
  {
    ErodedUsed(b0, b1);
    ErodedEvolves(b0, b1);
    EvolvesUsed(b1, b2);
    EvolvesChain(b0, b1, b2);
    EvolvesWider(b0, b2, {id});
    ErodedKeysOnly(b0, b1);
  }

  lemma EvolvesWider(b: Book, after: Book, more: set<Id>)
    requires Evolves(b, after, {})
    ensures Evolves(b, after, more)
  {
  }

  // The safe set across the first expire of register.
  lemma SafeAcrossExpire(before: Book, held0: map<Id, Snapshot>, mid: Book, held: map<Id, Snapshot>, clock: int,
      pending: set<Id>, extra: set<Id>)
    requires Reclaimed(before, held0, mid, held, clock, Live(before.recs, clock), pending)
    requires pending == held0.Keys - Residents(before.recs)
    requires PendingSafe(Cores(before.recs), Residents(before.recs), held0, Pins(before.recs) + extra)
    ensures PendingSafe(Cores(mid.recs), Residents(mid.recs), held, Pins(mid.recs) + extra)
    ensures SubMap(held, held0) && held.Keys - Residents(mid.recs) == pending && Eroded(before, mid)
    ensures mid.aux.evictions == before.aux.evictions
  {
    hide Registry.Kept, Cores, Residents, PendingSafe, Live;
    assert Pins(mid.recs) == Pins(before.recs) by {
      PinsKept(before, mid);
    }
    hide Pins, Eroded;
    PendingSafeShrinks(before.recs, held0, mid.recs, held, Pins(mid.recs) + extra);
  }

  lemma RefsPinned(b: Book, after: Book, core: Record)
    requires Eroded(b, after) && Refs(core) <= Pins(b.recs)
    ensures Refs(core) <= after.recs.Keys
  {
    hide Refs;
  }

  lemma NotEntered(b: Book, after: Book, id: Id, core: Record, tokens: seq<Token>)
    requires Eroded(b, after) && b.recs.Keys <= b.aux.used && b.aux.frozen.Keys == b.recs.Keys && id !in b.aux.used
    ensures Evolves(b, after, {id}) && Evolves(b, after, {}) && Entered(after, id, core, tokens, false)
  {
    ErodedKeysOnly(b, after);
    ErodedEvolves(b, after);
    EvolvesWider(b, after, {id});
  }

  lemma RegisteredPending(b: Book, after: Book, held: map<Id, Snapshot>, id: Id, core: Record, tokens: seq<Token>,
      ok: bool)
    requires Registered(b, after, id, core, tokens, ok)
    ensures held.Keys - Residents(after.recs) ==
      if ok then held.Keys - Residents(b.recs) - {id} else held.Keys - Residents(b.recs)
  {
    hide Residents, Evolves, Persisted;
  }

  // A deletion: the lookup, then the record gone.
  lemma DeletedEvolves(b: Book, id: Id)
    requires id in b.recs && b.recs[id].leases == 0 && b.aux.frozen.Keys == b.recs.Keys && b.recs.Keys <= b.aux.used
    ensures Evolves(b, Forgotten(Touched(b, id), id), {id})
    ensures Forgotten(Touched(b, id), id).recs.Keys == b.recs.Keys - {id}
    ensures Persisted(b.recs) ==> Persisted(Forgotten(Touched(b, id), id).recs)
  {
    var t := Touched(b, id);
    TouchedEvolves(b, id);
    TouchedMaps(b, id);
    assert t.recs[id].leases == 0 && t.recs.Keys == b.recs.Keys && t.aux == b.aux;
    hide Evolves, Touched, Forgotten, Eroded, Persisted;
    ForgottenEvolves(t, id);
    ForgottenKeys(t, id);
    var none: set<Id> := {};
    EvolvesThenLess(b, t, Forgotten(t, id), none, {id});
    assert none + {id} == {id};
    if Persisted(b.recs) {
      ForgottenPersisted(t, id);
    }
  }

  lemma ForgottenPersisted(b: Book, id: Id)
    requires id in b.recs && Persisted(b.recs)
    ensures Persisted(Forgotten(b, id).recs)
  {
    ForgetRecsEroded(b.recs, id);
    hide ForgetRecs;
    forall other | other in ForgetRecs(b.recs, id) && ForgetRecs(b.recs, id)[other].core.persistence == Disk
      ensures ForgetRecs(b.recs, id)[other].durable.Some?
    {
      assert ErodedRec(b.recs[other], ForgetRecs(b.recs, id)[other]);
    }
  }

  // Restoring keeps what is pending pending.
  lemma RestoredPending(b: Book, id: Id, bytes: nat, held: map<Id, Snapshot>, item: Snapshot)
    requires id in b.recs && !b.recs[id].resident && id !in held
    ensures held[id := item].Keys - Residents(Restored(b, id, bytes).recs) == held.Keys - Residents(b.recs)
    ensures Cores(Restored(b, id, bytes).recs) == Cores(b.recs)
    ensures Residents(Restored(b, id, bytes).recs) == Residents(b.recs) + {id}
    ensures Persisted(b.recs) ==> Persisted(Restored(b, id, bytes).recs)
  {
    var rec := Restored(b, id, bytes).recs[id];
    ResidentIff(b.recs, id);
    hide Cores, Residents;
    Updated(b.recs, id, rec);
    ResidentsSet(b.recs, id, rec);
    ResidentsIn(b.recs);
  }

  lemma ErodedKeepsLeased(b: Book, after: Book, id: Id)
    requires Eroded(b, after) && id in b.recs && b.recs[id].leases > 0
    ensures id in after.recs && after.recs[id].resident == b.recs[id].resident
    ensures after.recs[id].durable == b.recs[id].durable && after.recs[id].hostBytes == b.recs[id].hostBytes
    ensures after.recs[id].core == b.recs[id].core && after.recs[id].leases == b.recs[id].leases
  {
    assert ErodedRec(b.recs[id], after.recs[id]);
  }

  lemma SafeRestored(b: Book, id: Id, bytes: nat, held: map<Id, Snapshot>, item: Snapshot, safe: set<Id>)
    requires PendingSafe(Cores(b.recs), Residents(b.recs), held, safe)
    requires id in b.recs && !b.recs[id].resident && id !in held
    ensures PendingSafe(Cores(Restored(b, id, bytes).recs), Residents(Restored(b, id, bytes).recs), held[id := item],
        safe)
  {
    hide Cores, Residents, Restored;
    RestoredPending(b, id, bytes, held, item);
  }

  lemma SubMapTrans<V>(a: map<Id, V>, b: map<Id, V>, c: map<Id, V>)
    requires SubMap(a, b) && SubMap(b, c)
    ensures SubMap(a, c)
  {
  }

  lemma SubMapHas<V>(a: map<Id, V>, b: map<Id, V>, id: Id)
    requires SubMap(a, b) && id in a
    ensures id in b && a[id] == b[id]
  {
  }

  lemma SubMapRefl<V>(a: map<Id, V>)
    ensures SubMap(a, a)
  {
  }

  lemma RestoredAll(b0: Book, b2: Book, id: Id, loaded: nat, held: map<Id, Snapshot>, item: Snapshot, safe: set<Id>)
    requires Evolves(b0, b2, {}) && b0.recs.Keys <= b0.aux.used && b2.recs.Keys <= b2.aux.used
    requires b2.aux.frozen.Keys == b2.recs.Keys
    requires id in b2.recs && !b2.recs[id].resident && id !in held && Persisted(b2.recs)
    requires PendingSafe(Cores(b2.recs), Residents(b2.recs), held, safe)
    ensures var after := Restored(b2, id, loaded);
      && Evolves(b0, after, {}) && Persisted(after.recs)
      && held[id := item].Keys - Residents(after.recs) == held.Keys - Residents(b2.recs)
      && PendingSafe(Cores(after.recs), Residents(after.recs), held[id := item], safe)
  {
    hide Cores, Residents, Evolves, Persisted, PendingSafe, Restored;
    RestoredPending(b2, id, loaded, held, item);
    RestoredEvolves(b2, id, loaded);
    EvolvesChain(b0, b2, Restored(b2, id, loaded));
    SafeRestored(b2, id, loaded, held, item, safe);
  }

  // `after` is what is left when the last lease of some later state ends.
  ghost predicate Within(b: Book, after: Book, id: Id) {
    exists c: Book :: c.aux.scopes != [] && Evolves(b, c, {id}) && after == UnpinnedBook(c)
  }

  lemma WithinNow(b: Book, c: Book, id: Id)
    requires Evolves(b, c, {id}) && c.aux.scopes != []
    ensures Within(b, UnpinnedBook(c), id)
  {
  }

  lemma ScopesKept(b: Book, c: Book, id: Id)
    requires Evolves(b, c, {id})
    ensures c.aux.scopes == b.aux.scopes
  {
  }

  lemma RegisterWhole(b0: Book, b1: Book, b2: Book, pins: set<Id>, after: Book, id: Id)
    requires Eroded(b0, b1) && Evolves(b1, b2, {}) && Within(PinnedBook(b2, pins), after, id)
    requires b0.recs.Keys <= b0.aux.used && b0.aux.frozen.Keys == b0.recs.Keys
    requires b1.recs.Keys <= b1.aux.used && b1.aux.frozen.Keys == b1.recs.Keys
    requires b2.recs.Keys <= b2.aux.used && b2.aux.frozen.Keys == b2.recs.Keys
    requires id !in b0.aux.used
    ensures Evolves(b0, after, {id})
  {
    hide Evolves, Eroded, UnpinnedBook, PinnedBook;
    var c: Book :| c.aux.scopes != [] && Evolves(PinnedBook(b2, pins), c, {id}) && after == UnpinnedBook(c);
    RegisterEvolves(b0, b1, b2, pins, c, id);
  }

  // The lease around a registration: either every reference of the record is
  // pinned, or nothing is.
  ghost predicate ReferencesLeased(b: Book, base: Book, after: Book, held: map<Id, Snapshot>, r: Record, pins: set<Id>,
      ok: bool) {
    && Evolves(b, base, {}) && base.aux == b.aux
    && base.aux.frozen.Keys == base.recs.Keys && base.recs.Keys <= base.aux.used
    && after == (if ok then PinnedBook(base, pins) else base)
    && (ok ==> Refs(r) <= Pins(after.recs))
    && (ok ==> PendingSafe(Cores(after.recs), Residents(after.recs), held, Pins(after.recs)))
    && Residents(after.recs) == Residents(b.recs)
  }

  lemma ReferencesPinned(b: Book, base: Book, after: Book, held: map<Id, Snapshot>, r: Record, pins: set<Id>)
    requires Evolves(b, base, {}) && base.aux == b.aux && base.aux.frozen.Keys == base.recs.Keys
    requires b.recs.Keys <= b.aux.used
    requires after == PinnedBook(base, pins) && Cores(after.recs) == Cores(b.recs)
    requires Residents(after.recs) == Residents(b.recs)
    requires Pins(after.recs) == Pins(b.recs) + pins && Refs(r) <= pins
    requires PendingSafe(Cores(b.recs), Residents(b.recs), held, Pins(b.recs) + Refs(r))
    ensures ReferencesLeased(b, base, after, held, r, pins, true)
  {
    hide Evolves, Cores, Residents, Refs, Pins, PendingSafe, PinnedBook;
    EvolvesUsed(b, base);
    PendingSafeWider(after.recs, held, Pins(b.recs) + Refs(r), Pins(after.recs));
  }

  lemma ReferencesRefused(b: Book, base: Book, held: map<Id, Snapshot>, r: Record, pins: set<Id>)
    requires Evolves(b, base, {}) && base.aux == b.aux && base.aux.frozen.Keys == base.recs.Keys
    requires b.recs.Keys <= b.aux.used
    requires Residents(base.recs) == Residents(b.recs)
    ensures ReferencesLeased(b, base, base, held, r, pins, false)
  {
    hide Evolves, Cores, Residents, Refs, Pins, PendingSafe, PinnedBook;
    EvolvesUsed(b, base);
  }

  lemma RestoredIs(b: Book, id: Id, bytes: nat)
    requires id in b.recs
    ensures id in Restored(b, id, bytes).recs
    ensures Restored(b, id, bytes).recs[id] == b.recs[id].(resident := true, hostBytes := bytes, lastUsed := b.tick + 1)
  {
  }

  // What a restore charges: every saved byte, or what was charged before if more.
  function RestoreBytes(k: Kernels, rec: Rec): (r: nat)
    ensures rec.hostBytes <= r && (rec.durable.Some? ==> FileBytes(k, rec.durable.value) <= r)
    ensures r == rec.hostBytes || (rec.durable.Some? && r == FileBytes(k, rec.durable.value))
  {
    if rec.durable.Some? && rec.hostBytes < FileBytes(k, rec.durable.value) then FileBytes(k, rec.durable.value)
    else rec.hostBytes
  }

  lemma ChargeIs(k: Kernels, rec: Rec, files: Saved, loaded: nat)
    requires rec.durable == Some(files)
    requires loaded == if rec.hostBytes < FileBytes(k, files) then FileBytes(k, files) else rec.hostBytes
    ensures loaded == RestoreBytes(k, rec)
  {
  }

  lemma SameCharge(k: Kernels, rec: Rec, touched: Rec)
    requires touched == rec.(lastUsed := touched.lastUsed)
    ensures RestoreBytes(k, touched) == RestoreBytes(k, rec)
  {
  }

  lemma ErodedFields(b: Book, after: Book, id: Id)
    requires Eroded(b, after) && id in b.recs && b.recs[id].leases > 0
    ensures id in after.recs && after.recs[id] == b.recs[id].(refcount := after.recs[id].refcount)
  {
    assert ErodedRec(b.recs[id], after.recs[id]);
  }

  // The worker holds the published files again, as the owner of their blobs, and
  // they are charged.
  ghost predicate BroughtBack(c: Config, was: Rec, after: Book, held: map<Id, Snapshot>, id: Id) {
    && id in after.recs && id in held
    && was.durable == Some(FilesOf(held[id])) && held[id].lowerOwned
    && after.recs[id] == was.(resident := true, hostBytes := RestoreBytes(c.kernels, was), lastUsed := after.tick,
      refcount := after.recs[id].refcount)
  }

  lemma RestoredBroughtBack(c: Config, was: Rec, b: Book, id: Id, files: Saved, held: map<Id, Snapshot>, tag: nat)
    requires id in b.recs && files.lower.Some? && was.durable == Some(files)
    requires b.recs[id] == was.(lastUsed := b.recs[id].lastUsed, refcount := b.recs[id].refcount)
    ensures BroughtBack(c, was, Restored(b, id, RestoreBytes(c.kernels, was)), held[id := FromFiles(id, files, tag)],
        id)
  {
    hide FileBytes, RestoreBytes;
  }

  // A lookup or a memo: no record comes, goes, moves or is leased.
  ghost predicate Unmoved(b: Book, after: Book) {
    && Evolves(b, after, {}) && after.aux == b.aux && after.recs.Keys == b.recs.Keys
    && Cores(after.recs) == Cores(b.recs) && Residents(after.recs) == Residents(b.recs)
    && Pins(after.recs) == Pins(b.recs)
    && Refcounts(after.recs) == Refcounts(b.recs)
    && (Persisted(b.recs) ==> Persisted(after.recs))
  }

  // The lookup of a record: its own new state, or none.
  lemma UnmovedLookup(b: Book, id: Id)
    requires b.aux.frozen.Keys == b.recs.Keys
    ensures Unmoved(b, b) && (id in b.recs ==> Unmoved(b, Touched(b, id)))
  {
    hide Evolves, Cores, Residents, Pins, Persisted, Refcounts;
    EvolvesRefl(b);
    if id in b.recs {
      TouchedMaps(b, id);
      TouchedEvolves(b, id);
      Updated(b.recs, id, Touched(b, id).recs[id]);
      assert Touched(b, id).recs.Keys == b.recs.Keys;
    }
  }

  lemma UnmovedTrans(a: Book, b: Book, c: Book)
    requires Unmoved(a, b) && Unmoved(b, c)
    requires a.recs.Keys <= a.aux.used
    ensures Unmoved(a, c)
  {
    hide Evolves, Cores, Residents, Pins, Persisted, Refcounts;
    EvolvesChain(a, b, c);
  }

  lemma WithMemoUnmoved(b: Book, id: Id, child: Option<Id>)
    requires id in b.recs && b.aux.frozen.Keys == b.recs.Keys
    ensures Unmoved(b, WithMemo(b, id, child))
  {
    hide Evolves, Cores, Residents, Refcounts;
    WithMemoEvolves(b, id, child);
    Updated(b.recs, id, WithMemo(b, id, child).recs[id]);
    assert WithMemo(b, id, child).recs.Keys == b.recs.Keys;
  }

  lemma MemoMatches(b: Book, hostBudget: nat, context: nat, id: Id)
    requires Books(b, hostBudget, context) && id in b.recs
    ensures b.recs[id].promotionChild.Some? && b.recs[id].promotionChild.value in b.recs ==>
      PromotionOf(b.recs[b.recs[id].promotionChild.value].core, id, b.recs[id].core)
  {
    hide Refcounts, Leases, Residents, Bytes, Uses, Durables, Graph, Leased, Recency, Durable, Total, PromotionOf;
    var child := b.recs[id].promotionChild;
    if child.Some? && child.value in b.recs {
      assert Memo(b.recs)[id] == child.value;
    }
  }

  // The stored record of a registration.
  function Entry(r: Record, clock: int, ttl: nat, bytes: nat): Record {
    r.(createdAt := clock, expiresAt := clock + ttl, persistedBytes := bytes)
  }

  lemma EntryMatches(c: Config, r: Record, bytes: nat, s: Snapshot, tokens: seq<Token>, clock: int, ttl: nat)
    requires Matches(c, r, bytes, s, tokens)
    ensures Matches(c, Entry(r, clock, ttl, bytes), bytes, s, tokens)
    ensures Refs(Entry(r, clock, ttl, bytes)) == Refs(r) && Entry(r, clock, ttl, bytes).tokens == r.tokens
    ensures Entry(r, clock, ttl, bytes).persistedBytes == bytes
  {
  }
}
