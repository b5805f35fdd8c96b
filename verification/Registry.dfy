// The books of the snapshot store as values: the reference graph, the leases,
// the byte sums and the recency order, and what each elementary change of them
// keeps (unridden/api/snapshots/store.py).
module Registry {
  import opened Common
  import opened Kernels
  import opened SnapshotRuntime
  import opened WorkerSpec
  import opened StockAnswers

  type Owner(==, !new)
  type Prompt(==, !new)  // messages and answer prefix

  datatype Persistence = Memory | Disk

  // The fields of a SnapshotRecord that never change.
  datatype Record = Record(
    owner: Owner,
    depth: Depth,
    boundary: Kind,
    parent: Option<Id>,
    contextParent: Option<Id>,
    prompt: Prompt,
    tokens: nat,
    persistence: Persistence,
    digest: Digest,
    createdAt: int,
    expiresAt: int,
    promotionOf: Option<Id>,
    persistedBytes: nat)

  // A published directory: its manifest and its files.
  datatype Published = Published(manifest: Record, files: Saved)

  type Records = map<Id, Record>

  // -- The reference graph --------------------------------------------------------

  function Named(reference: Option<Id>): set<Id> {
    if reference.Some? then {reference.value} else {}
  }

  function Refs(r: Record): set<Id> {
    Named(r.parent) + Named(r.contextParent)
  }

  ghost function Children(records: Records, id: Id): set<Id> {
    set c | c in records && id in Refs(records[c])
  }

  // References resolve, point to older records, and are counted once per child.
  // `birth` is the order of registration.
  ghost predicate Graph(records: Records, refcount: map<Id, nat>, birth: map<Id, nat>, births: nat) {
    && refcount.Keys == birth.Keys == records.Keys
    && (forall id :: id in records ==> birth[id] < births)
    && (forall id :: id in records ==> Resolves(records, birth, id))
    && (forall id :: id in records ==> refcount[id] == |Children(records, id)|)
  }

  ghost predicate Resolves(records: Records, birth: map<Id, nat>, id: Id)
    requires birth.Keys == records.Keys && id in records
  {
    forall r :: r in Refs(records[id]) ==> r in records && birth[r] < birth[id]
  }

  function Counted(refcount: map<Id, nat>, refs: set<Id>): (r: map<Id, nat>)
    ensures r.Keys == refcount.Keys
  {
    map id | id in refcount :: if id in refs then refcount[id] + 1 else refcount[id]
  }

  // _release_ref never goes below zero.
  function Released(refcount: map<Id, nat>, refs: set<Id>): (r: map<Id, nat>)
    ensures r.Keys == refcount.Keys
  {
    map id | id in refcount :: if id in refs && refcount[id] > 0 then refcount[id] - 1 else refcount[id]
  }

  // One decrement per distinct reference: the parent, then a different context parent.
  function ReleasedOne(refcount: map<Id, nat>, reference: Option<Id>): map<Id, nat> {
    if reference.Some? && reference.value in refcount && refcount[reference.value] > 0 then
      refcount[reference.value := refcount[reference.value] - 1]
    else refcount
  }

  lemma ReleasedBoth(refcount: map<Id, nat>, r: Record)
    ensures Released(refcount, Refs(r)) ==
      var first := ReleasedOne(refcount, r.parent);
      if r.contextParent != r.parent then ReleasedOne(first, r.contextParent) else first
  {
  }

  function CountedOne(refcount: map<Id, nat>, reference: Option<Id>): map<Id, nat> {
    if reference.Some? && reference.value in refcount then
      refcount[reference.value := refcount[reference.value] + 1]
    else refcount
  }

  lemma CountedBoth(refcount: map<Id, nat>, r: Record)
    ensures Counted(refcount, Refs(r)) ==
      var first := CountedOne(refcount, r.parent);
      if r.contextParent != r.parent then CountedOne(first, r.contextParent) else first
  {
  }

  lemma ChildrenCounted(records: Records, refcount: map<Id, nat>, birth: map<Id, nat>, births: nat, child: Id, id: Id)
    requires Graph(records, refcount, birth, births)
    requires child in records && id in Refs(records[child])
    ensures id in records && refcount[id] > 0
  {
    assert Resolves(records, birth, child);
    assert child in Children(records, id);
  }

  lemma ChildrenWithout(records: Records, id: Id, other: Id)
    requires id in records
    ensures |Children(records - {id}, other)| ==
      |Children(records, other)| - if other in Refs(records[id]) then 1 else 0
  {
    hide Refs;
    var was := Children(records, other);
    if other in Refs(records[id]) {
      assert id in was;
      assert Children(records - {id}, other) == was - {id};
    } else {
      assert Children(records - {id}, other) == was;
    }
  }

  lemma ChildrenWith(records: Records, id: Id, record: Record, other: Id)
    requires id !in records
    ensures |Children(records[id := record], other)| ==
      |Children(records, other)| + if other in Refs(record) then 1 else 0
  {
    hide Refs;
    var was := Children(records, other);
    if other in Refs(record) {
      assert Children(records[id := record], other) == was + {id};
    } else {
      assert Children(records[id := record], other) == was;
    }
  }

  // A record nobody references can go.
  lemma GraphWithout(records: Records, refcount: map<Id, nat>, birth: map<Id, nat>, births: nat, id: Id)
    requires Graph(records, refcount, birth, births)
    requires id in records && refcount[id] == 0
    ensures Graph(records - {id}, Released(refcount, Refs(records[id])) - {id}, birth - {id}, births)
  {
    hide Refs, Children;
    var after := records - {id};
    forall other | other in after
      ensures Resolves(after, birth - {id}, other)
    {
      assert Resolves(records, birth, other);
      if id in Refs(records[other]) {
        ChildrenCounted(records, refcount, birth, births, other, id);
      }
    }
    forall other | other in after
      ensures (Released(refcount, Refs(records[id])) - {id})[other] == |Children(after, other)|
    {
      ChildrenWithout(records, id, other);
    }
  }

  // A new record whose references resolve can come.
  lemma GraphWith(records: Records, refcount: map<Id, nat>, birth: map<Id, nat>, births: nat, id: Id, record: Record)
    requires Graph(records, refcount, birth, births)
    requires id !in records && Refs(record) <= records.Keys
    ensures Graph(records[id := record], Counted(refcount, Refs(record))[id := 0], birth[id := births], births + 1)
  {
    hide Refs, Children;
    var after := records[id := record];
    forall other | other in after
      ensures Resolves(after, birth[id := births], other)
    {
      if other != id {
        assert Resolves(records, birth, other);
      }
    }
    forall other | other in after
      ensures Counted(refcount, Refs(record))[id := 0][other] == |Children(after, other)|
    {
      ChildrenWith(records, id, record, other);
      if other == id {
        NoChildrenYet(records, refcount, birth, births, id);
      }
    }
  }

  lemma NoChildrenYet(records: Records, refcount: map<Id, nat>, birth: map<Id, nat>, births: nat, id: Id)
    requires Graph(records, refcount, birth, births) && id !in records
    ensures Children(records, id) == {}
  {
    hide Refs;
    forall c | c in records
      ensures id !in Refs(records[c])
    {
      assert Resolves(records, birth, c);
    }
  }

  // -- Ancestors ----------------------------------------------------------------------

  // Closed under parent and context_parent.
  ghost predicate Closed(records: Records, ids: set<Id>) {
    && ids <= records.Keys
    && forall id :: id in ids ==> Refs(records[id]) <= ids
  }

  // `chain` leads from an ancestor (its first id) down to its last id.
  ghost predicate Chain(records: Records, chain: seq<Id>) {
    && chain != []
    && (forall i :: 0 <= i < |chain| ==> chain[i] in records)
    && (forall i :: 0 <= i < |chain| - 1 ==> chain[i] in Refs(records[chain[i + 1]]))
  }

  ghost predicate AncestorOf(records: Records, id: Id, of: Id) {
    exists chain :: Chain(records, chain) && chain[0] == id && Last(chain) == of
  }

  lemma {:induction false} ChainInClosed(records: Records, ids: set<Id>, chain: seq<Id>)
    requires Closed(records, ids) && Chain(records, chain) && Last(chain) in ids
    ensures chain[0] in ids
    decreases |chain|
  {
    if |chain| > 1 {
      ChainInClosed(records, ids, chain[1..]);
      assert chain[0] in Refs(records[chain[1]]);
    }
  }

  // -- Expiry ---------------------------------------------------------------------------

  // What expire must keep: the live records and their ancestors.
  ghost function Kept(records: Records, live: set<Id>): set<Id> {
    set id | id in records && exists of :: of in live && AncestorOf(records, id, of)
  }

  lemma LiveKept(records: Records, live: set<Id>, id: Id)
    requires id in records && id in live
    ensures id in Kept(records, live)
  {
    assert Chain(records, [id]) && [id][0] == id && Last([id]) == id;
    assert AncestorOf(records, id, id);
  }

  lemma RefsKept(records: Records, live: set<Id>, id: Id, child: Id)
    requires id in records && child in Kept(records, live) && id in Refs(records[child])
    ensures id in Kept(records, live)
  {
    var of :| of in live && AncestorOf(records, child, of);
    var chain :| Chain(records, chain) && chain[0] == child && Last(chain) == of;
    var longer := [id] + chain;
    assert Chain(records, longer) && longer[0] == id && Last(longer) == of;
    assert AncestorOf(records, id, of);
  }

  // A kept record is live, or some kept record names it.
  lemma KeptHasReason(records: Records, live: set<Id>, id: Id)
    requires id in Kept(records, live) && id !in live
    ensures exists child :: child in Kept(records, live) && id in Refs(records[child])
  {
    var of :| of in live && AncestorOf(records, id, of);
    var chain :| Chain(records, chain) && chain[0] == id && Last(chain) == of;
    var rest := chain[1..];
    assert Chain(records, rest) && rest[0] == chain[1] && Last(rest) == of;
    assert AncestorOf(records, chain[1], of);
    assert chain[1] in Kept(records, live) && id in Refs(records[chain[1]]);
  }

  // A chain to a member of a closed set lies in it.
  lemma ChainWithin(records: Records, ids: set<Id>, chain: seq<Id>, i: nat)
    requires Closed(records, ids) && Chain(records, chain) && Last(chain) in ids && i < |chain|
    ensures chain[i] in ids
  {
    hide Closed, Refs;
    var rest := chain[i..];
    assert forall j :: 0 <= j < |rest| ==> rest[j] == chain[i + j];
    ChainInClosed(records, ids, rest);
  }

  lemma ChainStays(records: Records, after: Records, ids: set<Id>, chain: seq<Id>)
    requires Closed(records, ids) && Chain(records, chain) && Last(chain) in ids && ids <= after.Keys
    requires forall id :: id in ids ==> id in records && after[id] == records[id]
    ensures Chain(after, chain)
  {
    hide Closed, Refs;
    forall i | 0 <= i < |chain|
      ensures chain[i] in ids
    {
      ChainWithin(records, ids, chain, i);
    }
  }

  lemma AncestorStays(records: Records, after: Records, ids: set<Id>, id: Id, of: Id)
    requires Closed(records, ids) && AncestorOf(records, id, of) && of in ids && ids <= after.Keys
    requires forall other :: other in ids ==> other in records && after[other] == records[other]
    ensures AncestorOf(after, id, of)
  {
    hide Closed;
    var chain :| Chain(records, chain) && chain[0] == id && Last(chain) == of;
    ChainStays(records, after, ids, chain);
  }

  // What ids descend from does not change while a closed set around them stays.
  lemma KeptStays(records: Records, after: Records, ids: set<Id>, refs: set<Id>)
    requires Closed(records, ids) && refs <= ids && ids <= Kept(records, refs) && ids <= after.Keys
    requires forall id :: id in ids ==> id in records && after[id] == records[id]
    ensures ids <= Kept(after, refs)
  {
    hide Closed, AncestorOf;
    forall id | id in ids
      ensures id in Kept(after, refs)
    {
      var of :| of in refs && AncestorOf(records, id, of);
      AncestorStays(records, after, ids, id, of);
    }
  }

  // Reclaiming a dead leaf of what is left never takes a kept record.
  lemma VictimNotKept(before: Records, live: set<Id>, records: Records, refcount: map<Id, nat>, birth: map<Id, nat>,
      births: nat, victim: Id)
    requires Graph(records, refcount, birth, births)
    requires records.Keys <= before.Keys && (forall id :: id in records ==> records[id] == before[id])
    requires Kept(before, live) <= records.Keys
    requires victim in records && victim !in live && refcount[victim] == 0
    ensures victim !in Kept(before, live)
  {
    if victim in Kept(before, live) {
      KeptHasReason(before, live, victim);
      var child :| child in Kept(before, live) && victim in Refs(before[child]);
      ChildrenCounted(records, refcount, birth, births, child, victim);
    }
  }

  // When no dead leaf is left, everything left is kept.
  lemma {:induction false} NoVictimAllKept(before: Records, live: set<Id>, records: Records, refcount: map<Id, nat>,
      birth: map<Id, nat>, births: nat, id: Id)
    requires Graph(records, refcount, birth, births)
    requires records.Keys <= before.Keys && (forall other :: other in records ==> records[other] == before[other])
    requires forall other :: other in records && refcount[other] == 0 ==> other in live
    requires id in records
    ensures id in Kept(before, live)
    decreases births - birth[id]
  {
    if id in live {
      LiveKept(before, live, id);
    } else {
      assert Children(records, id) != {};
      var child :| child in Children(records, id);
      assert Resolves(records, birth, child);
      NoVictimAllKept(before, live, records, refcount, birth, births, child);
      RefsKept(before, live, id, child);
    }
  }

  // -- Leases -----------------------------------------------------------------------------

  ghost function Count(scopes: seq<set<Id>>, id: Id): nat {
    if scopes == [] then 0 else (if id in scopes[|scopes| - 1] then 1 else 0) + Count(scopes[..|scopes| - 1], id)
  }

  // Each open scope pins an ancestor-closed set; a record's leases count the
  // scopes that pin it.
  ghost predicate Leased(records: Records, leases: map<Id, nat>, scopes: seq<set<Id>>) {
    && leases.Keys == records.Keys
    && (forall i :: 0 <= i < |scopes| ==> Closed(records, scopes[i]))
    && (forall id :: id in records ==> leases[id] == Count(scopes, id))
  }

  function Pinned(leases: map<Id, nat>, ids: set<Id>): map<Id, nat> {
    map id | id in leases :: if id in ids then leases[id] + 1 else leases[id]
  }

  function Unpinned(leases: map<Id, nat>, ids: set<Id>): map<Id, nat> {
    map id | id in leases :: if id in ids && leases[id] > 0 then leases[id] - 1 else leases[id]
  }

  lemma LeasedPin(records: Records, leases: map<Id, nat>, scopes: seq<set<Id>>, ids: set<Id>)
    requires Leased(records, leases, scopes) && Closed(records, ids)
    ensures Leased(records, Pinned(leases, ids), scopes + [ids])
  {
    var more := scopes + [ids];
    assert more[..|more| - 1] == scopes;
  }

  lemma LeasedUnpin(records: Records, leases: map<Id, nat>, scopes: seq<set<Id>>)
    requires Leased(records, leases, scopes) && scopes != []
    ensures Leased(records, Unpinned(leases, Last(scopes)), scopes[..|scopes| - 1])
    ensures forall id :: id in Last(scopes) ==> id in records && leases[id] > 0
  {
    var ids, rest := Last(scopes), scopes[..|scopes| - 1];
    assert Closed(records, ids);
    forall i | 0 <= i < |rest|
      ensures Closed(records, rest[i])
    {
      assert rest[i] == scopes[i];
    }
  }

  lemma {:induction false} CountZero(scopes: seq<set<Id>>, id: Id)
    requires forall i :: 0 <= i < |scopes| ==> id !in scopes[i]
    ensures Count(scopes, id) == 0
  {
    if scopes != [] {
      CountZero(scopes[..|scopes| - 1], id);
    }
  }

  lemma {:induction false} CountPositive(scopes: seq<set<Id>>, id: Id)
    requires Count(scopes, id) == 0
    ensures forall i :: 0 <= i < |scopes| ==> id !in scopes[i]
  {
    if scopes != [] {
      CountPositive(scopes[..|scopes| - 1], id);
    }
  }

  lemma LeasedWith(records: Records, leases: map<Id, nat>, scopes: seq<set<Id>>, id: Id, record: Record)
    requires Leased(records, leases, scopes) && id !in records
    ensures Leased(records[id := record], leases[id := 0], scopes)
  {
    forall i | 0 <= i < |scopes|
      ensures id !in scopes[i] && Closed(records[id := record], scopes[i])
    {
      assert Closed(records, scopes[i]);
    }
    CountZero(scopes, id);
  }

  lemma LeasedWithout(records: Records, leases: map<Id, nat>, scopes: seq<set<Id>>, id: Id)
    requires Leased(records, leases, scopes) && id in records && leases[id] == 0
    ensures Leased(records - {id}, leases - {id}, scopes)
  {
    CountPositive(scopes, id);
    forall i | 0 <= i < |scopes|
      ensures Closed(records - {id}, scopes[i])
    {
      assert Closed(records, scopes[i]);
    }
  }

  // A leased record's references are leased too.
  lemma LeasedUpward(records: Records, leases: map<Id, nat>, scopes: seq<set<Id>>, id: Id, ref: Id)
    requires Leased(records, leases, scopes) && id in records && leases[id] > 0 && ref in Refs(records[id])
    ensures ref in records && leases[ref] > 0
  {
    if forall i :: 0 <= i < |scopes| ==> id !in scopes[i] {
      CountZero(scopes, id);
    }
    var i :| 0 <= i < |scopes| && id in scopes[i];
    assert Closed(records, scopes[i]);
    if Count(scopes, ref) == 0 {
      CountPositive(scopes, ref);
    }
  }

  // -- Bytes --------------------------------------------------------------------------------

  ghost function Total(bytes: map<Id, nat>, ids: set<Id>): nat
    requires ids <= bytes.Keys
  {
    if ids == {} then 0
    else
      var id :| id in ids;
      bytes[id] + Total(bytes, ids - {id})
  }

  lemma {:induction false} TotalWithout(bytes: map<Id, nat>, ids: set<Id>, id: Id)
    requires ids <= bytes.Keys && id in ids
    ensures Total(bytes, ids) == bytes[id] + Total(bytes, ids - {id})
    decreases |ids|
  {
    var first :| first in ids && Total(bytes, ids) == bytes[first] + Total(bytes, ids - {first});
    if first != id {
      TotalWithout(bytes, ids - {first}, id);
      TotalWithout(bytes, ids - {id}, first);
      assert ids - {first} - {id} == ids - {id} - {first};
    }
  }

  lemma {:induction false} TotalSame(bytes: map<Id, nat>, other: map<Id, nat>, ids: set<Id>)
    requires ids <= bytes.Keys && ids <= other.Keys
    requires forall id :: id in ids ==> bytes[id] == other[id]
    ensures Total(bytes, ids) == Total(other, ids)
    decreases |ids|
  {
    if ids != {} {
      var id :| id in ids;
      TotalWithout(bytes, ids, id);
      TotalWithout(other, ids, id);
      TotalSame(bytes, other, ids - {id});
    }
  }

  lemma {:induction false} TotalAtMost(bytes: map<Id, nat>, other: map<Id, nat>, ids: set<Id>)
    requires ids <= bytes.Keys && ids <= other.Keys
    requires forall id :: id in ids ==> bytes[id] <= other[id]
    ensures Total(bytes, ids) <= Total(other, ids)
    decreases |ids|
  {
    if ids != {} {
      var id :| id in ids;
      TotalWithout(bytes, ids, id);
      TotalWithout(other, ids, id);
      TotalAtMost(bytes, other, ids - {id});
    }
  }

  lemma TotalWith(bytes: map<Id, nat>, ids: set<Id>, id: Id, size: nat)
    requires ids <= bytes.Keys && id !in ids
    ensures Total(bytes[id := size], ids + {id}) == Total(bytes, ids) + size
  {
    TotalWithout(bytes[id := size], ids + {id}, id);
    assert ids + {id} - {id} == ids;
    TotalSame(bytes, bytes[id := size], ids);
  }

  // -- Recency ----------------------------------------------------------------------------------

  // Every use takes a new tick.
  ghost predicate Recency(ids: set<Id>, lastUsed: map<Id, nat>, tick: nat) {
    && lastUsed.Keys == ids
    && (forall id :: id in ids ==> lastUsed[id] <= tick)
    && (forall a, b :: a in ids && b in ids && a != b ==> lastUsed[a] != lastUsed[b])
  }

  // -- Promotions ---------------------------------------------------------------------------------

  // _validate_promotion
  predicate PromotionOf(child: Record, parentId: Id, parent: Record) {
    && child.promotionOf == Some(parentId)
    && child.parent == Some(parentId)
    && parent.depth == D18
    && child.depth == D30
    && child.owner == parent.owner
    && child.boundary == parent.boundary
    && child.prompt == parent.prompt
    && child.tokens == parent.tokens
    && child.digest == parent.digest
    && child.contextParent == if parent.boundary == Readout then parent.contextParent else None
  }

  // Every promoted record matches its 18, and so does every memo that still
  // names a record. Ids are never reused.
  ghost predicate Promotions(records: Records, memo: map<Id, Id>, used: set<Id>) {
    && records.Keys <= used
    && memo.Keys <= records.Keys
    && (forall id :: id in records && records[id].promotionOf.Some? ==>
        records[id].promotionOf.value in records && PromotionOf(records[id], records[id].promotionOf.value,
          records[records[id].promotionOf.value]))
    && (forall p :: p in memo ==>
      memo[p] in used && (memo[p] in records ==> PromotionOf(records[memo[p]], p, records[p])))
  }

  lemma PromotionsWithout(records: Records, memo: map<Id, Id>, used: set<Id>, refcount: map<Id, nat>, birth: map<Id,
      nat>, births: nat, id: Id)
    requires Promotions(records, memo, used)
    requires Graph(records, refcount, birth, births) && id in records && refcount[id] == 0
    ensures Promotions(records - {id}, memo - {id}, used)
  {
    hide Graph, Children, Resolves;
    forall other | other in records && records[other].promotionOf == Some(id)
      ensures false
    {
      ChildrenCounted(records, refcount, birth, births, other, id);
    }
  }

  // -- Disk -----------------------------------------------------------------------------------------

  // A record that is not resident has a durable copy; every published directory
  // is that of a disk record, and holds its fields and its files.
  ghost predicate Durable(records: Records, residentIds: set<Id>, durable: map<Id, Saved>, disk: map<Id, Published>,
      context: nat) {
    && residentIds <= records.Keys
    && durable.Keys == disk.Keys
    && (forall id :: id in records && id !in residentIds ==> id in durable)
    && (forall id :: id in durable ==>
        && id in records && records[id].persistence == Disk
        && disk[id] == Published(records[id], durable[id])
        && Loadable(durable[id], context))
  }

  // -- What the worker holds ---------------------------------------------------------------------------

  // A record and the worker's snapshot of the same id.
  ghost predicate Matches(c: Config, r: Record, bytes: nat, s: Snapshot, tokens: seq<Token>) {
    && RowBytes(c.kernels, s) <= bytes
    && s.parent == r.parent && s.depth == r.depth && s.kind == r.boundary && s.digest == r.digest
    && s.tokens == tokens
  }

  ghost predicate FilesMatch(r: Record, files: Saved, tokens: seq<Token>) {
    && files.parent == r.parent && files.depth == r.depth && files.kind == r.boundary && files.digest == r.digest
    && files.tokens == tokens
  }

  // A snapshot that does not own its lower blob shares that of its 18 parent.
  ghost predicate Sharing(held: map<Id, Snapshot>) {
    forall id :: id in held && !held[id].lowerOwned ==>
      && held[id].parent.Some? && held[id].parent.value in held
      && SharedWith(held[id], held[held[id].parent.value])
  }

  ghost predicate SharedWith(child: Snapshot, parent: Snapshot) {
    && parent.lowerOwned && child.lowerKv == parent.lowerKv
    && child.depth == D30 && parent.depth == D18 && child.tokens == parent.tokens
  }

  // The worker's snapshots: one per resident record, matching it, and possibly
  // others the store does not know (yet). `frozen` are the tokens of each record.
  // With exact causal kernels the worker and the files hold what the uninterrupted
  // model does.
  ghost predicate Holdings(c: Config, records: Records, residentIds: set<Id>, hostBytes: map<Id, nat>, durable: map<Id,
      Saved>, frozen: map<Id, seq<Token>>, held: map<Id, Snapshot>) {
    && residentIds <= records.Keys && residentIds <= held.Keys
    && hostBytes.Keys == records.Keys && frozen.Keys == records.Keys
    && durable.Keys <= records.Keys
    && (held.Keys - residentIds) !! records.Keys
    && (forall id :: id in records ==> |frozen[id]| == records[id].tokens)
    && (forall id :: id in residentIds ==> Matches(c, records[id], hostBytes[id], held[id], frozen[id]))
    && (forall id :: id in durable ==> FilesMatch(records[id], durable[id], frozen[id]))
    && (forall id :: id in durable && id in residentIds ==> durable[id] == FilesOf(held[id]))
    && Sharing(held)
    && AllFaithful(c, held) && (forall id :: id in durable ==> FaithfulFiles(c, durable[id]))
  }

  // No other snapshot the worker holds shares this one's lower blob.
  ghost predicate Unshared(held: map<Id, Snapshot>, id: Id) {
    forall c :: c in held && !held[c].lowerOwned ==> held[c].parent != Some(id)
  }

  // _has_resident_shared_child
  predicate SharedChild(records: Records, residentIds: set<Id>, id: Id)
    requires id in records
  {
    records[id].depth == D18 &&
    exists c :: c in records && records[c].parent == Some(id) && records[c].depth == D30
      && records[c].tokens == records[id].tokens && c in residentIds
  }

  // Held but unregistered snapshots share only with records in `safe` or with
  // other unregistered ones.
  ghost predicate PendingSafe(records: Records, residentIds: set<Id>, held: map<Id, Snapshot>, safe: set<Id>) {
    forall id :: id in held && id !in residentIds && !held[id].lowerOwned ==>
      held[id].parent.Some? && (held[id].parent.value in records ==> held[id].parent.value in safe)
  }

  lemma DurableWithout(records: Records, residentIds: set<Id>, durable: map<Id, Saved>, disk: map<Id, Published>,
      context: nat, id: Id)
    requires Durable(records, residentIds, durable, disk, context) && id in records
    ensures Durable(records - {id}, residentIds - {id}, durable - {id}, disk - {id}, context)
  {
  }

  lemma TotalDrop(bytes: map<Id, nat>, ids: set<Id>, id: Id)
    requires ids <= bytes.Keys
    ensures Total(bytes - {id}, ids - {id}) == Total(bytes, ids) - if id in ids then bytes[id] else 0
    ensures Total(bytes, ids - {id}) == Total(bytes, ids) - if id in ids then bytes[id] else 0
  {
    if id in ids {
      TotalWithout(bytes, ids, id);
    } else {
      assert ids - {id} == ids;
    }
    TotalSame(bytes, bytes - {id}, ids - {id});
  }

  lemma HoldingsDrop(c: Config, records: Records, residentIds: set<Id>, hostBytes: map<Id, nat>, durable: map<Id,
      Saved>, frozen: map<Id, seq<Token>>, held: map<Id, Snapshot>, id: Id)
    requires Holdings(c, records, residentIds, hostBytes, durable, frozen, held)
    requires id in records && Unshared(held, id)
    ensures Holdings(c, records, residentIds - {id}, hostBytes, durable, frozen, held - {id})
    ensures Holdings(c, records - {id}, residentIds - {id}, hostBytes - {id}, durable - {id}, frozen - {id},
        held - {id})
  {
    hide Matches, FilesMatch, SharedWith, Faithful, FaithfulFiles;
  }

  // A resident record without references, or without a resident shared child, can
  // be dropped from the worker unless an unregistered snapshot relies on it.
  lemma DroppableUnshared(c: Config, records: Records, residentIds: set<Id>, hostBytes: map<Id, nat>, durable: map<Id,
      Saved>, frozen: map<Id, seq<Token>>, held: map<Id, Snapshot>,
      refcount: map<Id, nat>, birth: map<Id, nat>, births: nat, safe: set<Id>, id: Id)
    requires Holdings(c, records, residentIds, hostBytes, durable, frozen, held)
    requires Graph(records, refcount, birth, births)
    requires PendingSafe(records, residentIds, held, safe)
    requires id in records && id !in safe
    requires refcount[id] == 0 || (id in residentIds && !SharedChild(records, residentIds, id))
    ensures Unshared(held, id)
  {
    hide Graph, Faithful, FaithfulFiles;
    forall c' | c' in held && !held[c'].lowerOwned && held[c'].parent == Some(id)
      ensures false
    {
      if c' in residentIds {
        assert SharedWith(held[c'], held[id]);
        assert records[c'].parent == Some(id);
        ChildrenCounted(records, refcount, birth, births, c', id);
      }
    }
  }

  lemma RecencyTouch(ids: set<Id>, lastUsed: map<Id, nat>, tick: nat, id: Id)
    requires Recency(ids, lastUsed, tick)
    ensures Recency(ids + {id}, lastUsed[id := tick + 1], tick + 1)
  {
  }

  lemma RecencyWithout(ids: set<Id>, lastUsed: map<Id, nat>, tick: nat, id: Id)
    requires Recency(ids, lastUsed, tick)
    ensures Recency(ids - {id}, lastUsed - {id}, tick)
  {
  }

  // Dropping the books of a snapshot the worker keeps makes it unregistered.
  lemma HoldingsUnregister(c: Config, records: Records, residentIds: set<Id>, hostBytes: map<Id, nat>, durable: map<Id,
      Saved>, frozen: map<Id, seq<Token>>, held: map<Id, Snapshot>, id: Id)
    requires Holdings(c, records, residentIds, hostBytes, durable, frozen, held)
    requires id in records
    ensures Holdings(c, records - {id}, residentIds - {id}, hostBytes - {id}, durable - {id}, frozen - {id}, held)
  {
    hide Matches, FilesMatch, Sharing, Faithful, FaithfulFiles;
  }

  // Books for a snapshot the worker holds already.
  lemma HoldingsRegister(c: Config, records: Records, residentIds: set<Id>, hostBytes: map<Id, nat>, durable: map<Id,
      Saved>, frozen: map<Id, seq<Token>>, held: map<Id, Snapshot>,
      id: Id, record: Record, bytes: nat, tokens: seq<Token>)
    requires Holdings(c, records, residentIds, hostBytes, durable, frozen, held)
    requires id !in records && id in held
    requires Matches(c, record, bytes, held[id], tokens) && record.tokens == |tokens|
    ensures Holdings(c, records[id := record], residentIds + {id}, hostBytes[id := bytes], durable,
        frozen[id := tokens], held)
  {
    hide Matches, FilesMatch, Sharing, Faithful, FaithfulFiles;
  }

  // A durable copy of a resident snapshot.
  lemma HoldingsPublish(c: Config, records: Records, residentIds: set<Id>, hostBytes: map<Id, nat>, durable: map<Id,
      Saved>, frozen: map<Id, seq<Token>>, held: map<Id, Snapshot>, id: Id)
    requires Holdings(c, records, residentIds, hostBytes, durable, frozen, held)
    requires id in residentIds
    ensures Holdings(c, records, residentIds, hostBytes, durable[id := FilesOf(held[id])], frozen, held)
  {
    hide Sharing, Faithful, FaithfulFiles;
    SavedFaithful(c, held[id]);
    assert Matches(c, records[id], hostBytes[id], held[id], frozen[id]);
  }

  // sum(entry.bytes) over the saved files but native.json
  function FileBytes(k: Kernels, files: Saved): nat {
    (if files.lower.Some? then k.stateBytes(files.lower.value) else 0)
    + (if files.upper.Some? then k.stateBytes(files.upper.value) else 0)
    + Rows(files.h18) * k.rowBytes
    + Rows(files.h30) * k.rowBytes
    + (if files.lastNormalized.Some? then k.rowBytes else 0)
  }

  // Loading a durable copy reserves every saved byte, the new lower blob included.
  lemma HoldingsRestore(c: Config, records: Records, residentIds: set<Id>, hostBytes: map<Id, nat>, durable: map<Id,
      Saved>, frozen: map<Id, seq<Token>>, held: map<Id, Snapshot>,
      id: Id, tag: nat, bytes: nat)
    requires Holdings(c, records, residentIds, hostBytes, durable, frozen, held)
    requires id in durable && id !in residentIds && durable[id].lower.Some?
    requires FileBytes(c.kernels, durable[id]) <= bytes
    ensures Holdings(c, records, residentIds + {id}, hostBytes[id := bytes], durable, frozen,
        held[id := FromFiles(id, durable[id], tag)])
  {
    hide Faithful, FaithfulFiles;
    var files := durable[id];
    LoadedFaithful(c, id, files, tag);
    assert FilesMatch(records[id], files, frozen[id]);
    assert FilesOf(FromFiles(id, files, tag)) == files;
    var after := held[id := FromFiles(id, files, tag)];
    assert id !in held;
    forall c' | c' in after && !after[c'].lowerOwned
      ensures after[c'].parent.Some? && after[c'].parent.value in after
      ensures SharedWith(after[c'], after[after[c'].parent.value])
    {
      assert c' in held && after[c'] == held[c'];
      assert held[c'].parent.value in held;
    }
    hide SharedWith;
  }
}
