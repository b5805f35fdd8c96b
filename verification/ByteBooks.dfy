// The bytes the worker really holds, every shared blob counted once, against the
// store's byte books (unridden/api/snapshots/store.py and the snapshot worker).
module ByteBooks {
  import opened Kernels
  import opened SnapshotRuntime
  import opened WorkerSpec
  import opened StockAnswers
  import opened Registry
  import opened Ledger
  import opened Descent
  import opened Broods

  // The lower blobs in memory: a paired or promoted 30 points at its 18's.
  function LowerBlobs(held: map<Id, Snapshot>): set<Blob> {
    set id | id in held :: held[id].lowerKv
  }

  ghost function BlobBytes(k: Kernels, blobs: set<Blob>): nat {
    if blobs == {} then 0
    else
      var blob :| blob in blobs;
      k.stateBytes(blob.cells) + BlobBytes(k, blobs - {blob})
  }

  lemma {:induction false} BlobBytesWithout(k: Kernels, blobs: set<Blob>, blob: Blob)
    requires blob in blobs
    ensures BlobBytes(k, blobs) == k.stateBytes(blob.cells) + BlobBytes(k, blobs - {blob})
    decreases |blobs|
  {
    var first :| first in blobs && BlobBytes(k, blobs) == k.stateBytes(first.cells) + BlobBytes(k, blobs - {first});
    if first != blob {
      BlobBytesWithout(k, blobs - {first}, blob);
      BlobBytesWithout(k, blobs - {blob}, first);
      assert blobs - {first} - {blob} == blobs - {blob} - {first};
    }
  }

  // What a snapshot holds for itself alone: its upper cache and its matrices.
  function OwnBytes(k: Kernels, s: Snapshot): nat {
    (if s.upperKv.Some? then k.stateBytes(s.upperKv.value.cells)
      else 0) + Rows(s.h18) * k.rowBytes + Rows(s.h30) * k.rowBytes
  }

  function OwnAll(k: Kernels, held: map<Id, Snapshot>): (m: map<Id, nat>)
    ensures m.Keys == held.Keys
  {
    map id | id in held :: OwnBytes(k, held[id])
  }

  function LowerOwned(k: Kernels, held: map<Id, Snapshot>): (m: map<Id, nat>)
    ensures m.Keys == held.Keys
  {
    map id | id in held :: if held[id].lowerOwned then k.stateBytes(held[id].lowerKv.cells) else 0
  }

  function RowAll(k: Kernels, held: map<Id, Snapshot>): (m: map<Id, nat>)
    ensures m.Keys == held.Keys
  {
    map id | id in held :: RowBytes(k, held[id])
  }

  // All the worker's memory for snapshots.
  ghost function WorkerBytes(k: Kernels, held: map<Id, Snapshot>): nat {
    BlobBytes(k, LowerBlobs(held)) + Total(OwnAll(k, held), held.Keys)
  }

  // Every blob of `blobs` is owned by a row of `ids`.
  ghost predicate Owners(held: map<Id, Snapshot>, blobs: set<Blob>, ids: set<Id>)
    requires ids <= held.Keys
  {
    forall blob :: blob in blobs ==> exists id :: id in ids && Owns(held, id, blob)
  }

  ghost predicate Owns(held: map<Id, Snapshot>, id: Id, blob: Blob)
    requires id in held
  {
    held[id].lowerOwned && held[id].lowerKv == blob
  }

  // A blob several rows use is counted in one row: its owner's.
  lemma {:induction false} BlobsAtMostOwners(k: Kernels, held: map<Id, Snapshot>, blobs: set<Blob>, ids: set<Id>)
    requires ids <= held.Keys && Owners(held, blobs, ids)
    ensures BlobBytes(k, blobs) <= Total(LowerOwned(k, held), ids)
    decreases |blobs|
  {
    if blobs != {} {
      var blob :| blob in blobs;
      var id :| id in ids && Owns(held, id, blob);
      forall other | other in blobs - {blob}
        ensures exists o :: o in ids - {id} && Owns(held, o, other)
      {
        var o :| o in ids && Owns(held, o, other);
        assert o in ids - {id};
      }
      BlobsAtMostOwners(k, held, blobs - {blob}, ids - {id});
      BlobBytesWithout(k, blobs, blob);
      TotalWithout(LowerOwned(k, held), ids, id);
    }
  }

  lemma SharedHaveOwners(held: map<Id, Snapshot>)
    requires Sharing(held)
    ensures Owners(held, LowerBlobs(held), held.Keys)
  {
    forall blob | blob in LowerBlobs(held)
      ensures exists id :: id in held.Keys && Owns(held, id, blob)
    {
      var id :| id in held && held[id].lowerKv == blob;
      if held[id].lowerOwned {
        assert Owns(held, id, blob);
      } else {
        assert Owns(held, held[id].parent.value, blob);
      }
    }
  }

  lemma {:induction false} RowsSplit(k: Kernels, held: map<Id, Snapshot>, ids: set<Id>)
    requires ids <= held.Keys
    ensures Total(RowAll(k, held), ids) == Total(LowerOwned(k, held), ids) + Total(OwnAll(k, held), ids)
    decreases |ids|
  {
    if ids != {} {
      var id :| id in ids;
      RowsSplit(k, held, ids - {id});
      TotalWithout(RowAll(k, held), ids, id);
      TotalWithout(LowerOwned(k, held), ids, id);
      TotalWithout(OwnAll(k, held), ids, id);
    }
  }

  lemma RowsAtMostBooks(b: Book, c: Config, held: map<Id, Snapshot>)
    requires Agrees(b, c, held) && held.Keys == Residents(b.recs)
    ensures Residents(b.recs) <= Bytes(b.recs).Keys
    ensures Total(RowAll(c.kernels, held), held.Keys) <= Total(Bytes(b.recs), Residents(b.recs))
  {
    hide Residents, Cores, Bytes, Durables, FilesMatch, Sharing, RowBytes, Faithful, FaithfulFiles;
    forall id | id in held
      ensures RowAll(c.kernels, held)[id] <= Bytes(b.recs)[id]
    {
      assert Matches(c, Cores(b.recs)[id], Bytes(b.recs)[id], held[id], b.aux.frozen[id]);
    }
    TotalAtMost(RowAll(c.kernels, held), Bytes(b.recs), held.Keys);
  }

  // The byte books are sound: with nothing in the worker but what the store has
  // books for, all its blobs together fit in resident_bytes, and that in the budget.
  lemma BooksCoverWorker(b: Book, c: Config, held: map<Id, Snapshot>, hostBudget: nat)
    requires Books(b, hostBudget, c.context) && Agrees(b, c, held) && held.Keys - Residents(b.recs) == {}
    ensures WorkerBytes(c.kernels, held) <= b.residentBytes <= hostBudget
  {
    hide Agrees, Residents, Sharing, LowerBlobs, OwnAll, RowAll, LowerOwned, Owners, Graph, Leased, Promotions, Recency,
      Durable, Bytes;
    HeldAreResident(b, c, held);
    AgreesSharing(b, c, held);
    SharedHaveOwners(held);
    BlobsAtMostOwners(c.kernels, held, LowerBlobs(held), held.Keys);
    RowsSplit(c.kernels, held, held.Keys);
    RowsAtMostBooks(b, c, held);
  }
}
