// Chains of follow-ups and replacements, each asked of the child the one before
// it saved, over any history of requests (unridden/api/snapshots/service.py).
module Threads {
  import opened Common
  import opened SnapshotRuntime
  import opened WorkerSpec
  import opened Registry
  import opened Ledger
  import opened Descent
  import opened Broods
  import opened DiskIndex
  import opened Plans
  import opened Offspring

  // -- What any request does to the records --------------------------------------------

  // Records may come and go, but none changes and none comes back.
  ghost predicate Onward(b: Book, after: Book) {
    && b.aux.used <= after.aux.used && after.recs.Keys <= after.aux.used
    && forall id :: id in after.recs && id in b.aux.used ==>
        id in b.recs && after.recs[id].core == b.recs[id].core
  }

  lemma RequestOnward(b: Book, after: Book, own: set<Id>)
    requires Evolves(b, after, own) && own !! b.aux.used && after.recs.Keys <= after.aux.used
    ensures Onward(b, after)
  {
    hide Spared;
    forall id | id in after.recs && id in b.aux.used
      ensures id in b.recs && after.recs[id].core == b.recs[id].core
    {
      assert SameRec(b, after, id);
    }
  }

  lemma ExpiryOnward(b: Book, held0: map<Id, Snapshot>, after: Book, held: map<Id, Snapshot>, touched: set<Id>,
      gone: set<Id>)
    requires OnlyExpired(b, held0, after, held, touched, gone)
    requires b.recs.Keys <= b.aux.used
    ensures Onward(b, after)
  {
    hide Registry.Kept, Cores, Live;
    forall id | id in after.recs
      ensures id in b.recs && after.recs[id].core == b.recs[id].core
    {
      assert SameButCounts(b.recs[id], after.recs[id], id in touched);
    }
  }

  lemma RebuildOnward(b: Book, after: Book)
    requires Survives(b, after) && b.recs.Keys <= b.aux.used
    ensures Onward(b, after)
  {
    forall id | id in after.recs
      ensures id in b.recs && after.recs[id].core == b.recs[id].core
    {
      assert SurvivesAt(b, after, id);
    }
  }

  lemma ClockOnward(b: Book, clock: int)
    requires b.recs.Keys <= b.aux.used
    ensures Onward(b, b.(clock := clock))
  {
  }

  lemma OnwardTrans(a: Book, b: Book, c: Book)
    requires Onward(a, b) && Onward(b, c)
    ensures Onward(a, c)
  {
  }

  // -- Threads ----------------------------------------------------------------------------

  // A question, in any way related, asked of `id`; `child` is its saved answer.
  datatype Turn = Turn(id: Id, relationship: Relationship, plan: Plan, child: Id)

  // The child recorded the parent and the anchor of the plan.
  predicate HandedDown(core: Record, plan: Plan) {
    core.parent == Some(plan.effective) && core.contextParent == plan.childContext && core.boundary == Readout
  }

  // What a request that was answered says of one of its children.
  ghost predicate Asked(b: Book, after: Book, t: Turn) {
    && t.id in b.recs && Derives(b.recs[t.id].core, t.relationship, t.plan)
    && t.child !in b.aux.used && t.child in after.aux.used
    && (t.child in after.recs ==> HandedDown(after.recs[t.child].core, t.plan))
  }

  lemma KidsAsked(b: Book, before: Book, after: Book, id: Id, relationship: Relationship, owner: Owner, plan: Plan,
      prompts: seq<Prompt>,
      qs: seq<Question>, ids: seq<Id>, clock: int, ttl: nat, j: nat)
    requires Kids(before, after, owner, plan, prompts, qs, ids, clock, ttl) && j < |ids|
    requires id in b.recs && Derives(b.recs[id].core, relationship, plan)
    requires ids[j] !in b.aux.used
    ensures Asked(b, after, Turn(id, relationship, plan, ids[j]))
  {
    hide Squeezed, Derives;
    var s := Saving(owner, plan, prompts, qs, ids, after.recs[plan.effective].core.persistence, clock, ttl);
    assert SavedAt(before, after, s, j);
  }

  // What an answered request leaves: the plan is the one its record leads to, and
  // every child is recorded as asked, unless it
  // was memory-only and made room for a later one, and takes the thread of `id`
  // further.
  ghost predicate Leaves(before: Book, after: Book, id: Id, relationship: Relationship, owner: Owner, plan: Plan,
      prompts: seq<Prompt>,
      qs: seq<Question>, ids: seq<Id>, clock: int, ttl: nat)
  {
    && id in before.recs && Derives(before.recs[id].core, relationship, plan)
    && Kids(before, after, owner, plan, prompts, qs, ids, clock, ttl)
    && forall j :: 0 <= j < |ids| ==> Asked(before, after, Turn(id, relationship, plan, ids[j]))
  }

  lemma LeavesNow(b: Book, planned: Book, after: Book, id: Id, relationship: Relationship, owner: Owner, plan: Plan,
      prompts: seq<Prompt>,
      qs: seq<Question>, ids: seq<Id>, clock: int, ttl: nat)
    requires Kids(planned, after, owner, plan, prompts, qs, ids, clock, ttl) && b.aux.evictions <= planned.aux.evictions
    requires id in b.recs && Derives(b.recs[id].core, relationship, plan) && Elems(ids) !! b.aux.used
    ensures Leaves(b, after, id, relationship, owner, plan, prompts, qs, ids, clock, ttl)
  {
    hide Kids, Derives, Asked, Elems;
    ElemsIn(ids);
    KidsSince(b, planned, after, owner, plan, prompts, qs, ids, clock, ttl);
    forall j | 0 <= j < |ids|
      ensures Asked(b, after, Turn(id, relationship, plan, ids[j]))
    {
      KidsAsked(b, b, after, id, relationship, owner, plan, prompts, qs, ids, clock, ttl, j);
    }
  }

  // The expiry a request starts with comes before.
  lemma LeavesSince(b0: Book, b1: Book, after: Book, id: Id, relationship: Relationship, owner: Owner, plan: Plan,
      prompts: seq<Prompt>,
      qs: seq<Question>, ids: seq<Id>, clock: int, ttl: nat)
    requires Leaves(b1, after, id, relationship, owner, plan, prompts, qs, ids, clock, ttl)
    requires Evolves(b0, b1, {}) && b1.aux.used == b0.aux.used && b1.recs.Keys <= b0.recs.Keys
    ensures Leaves(b0, after, id, relationship, owner, plan, prompts, qs, ids, clock, ttl)
  {
    hide Kids, Derives, HandedDown, Evolves;
    ghost var none: set<Id> := {};
    UsedGrows(b0, b1, none);
    KidsSince(b0, b1, after, owner, plan, prompts, qs, ids, clock, ttl);
    SameFields(b0, b1, none, id);
    forall j | 0 <= j < |ids|
      ensures Asked(b0, after, Turn(id, relationship, plan, ids[j]))
    {
      assert Asked(b1, after, Turn(id, relationship, plan, ids[j]));
    }
  }

  // A history of books, one request to the next, and the places in it where a
  // thread was taken further, each time from the child it had left.
  ghost predicate History(states: seq<Book>) {
    forall i :: 0 <= i < |states| - 1 ==> Onward(states[i], states[i + 1])
  }

  ghost predicate Thread(states: seq<Book>, turns: seq<Turn>, at: seq<nat>) {
    && |at| == |turns|
    && (forall k :: 0 <= k < |turns| ==> at[k] + 1 < |states| && Asked(states[at[k]], states[at[k] + 1], turns[k]))
    && (forall k :: 0 < k < |turns| ==> at[k - 1] < at[k] && turns[k].id == turns[k - 1].child)
  }

  lemma {:induction false} HistoryOnward(states: seq<Book>, i: nat, j: nat)
    requires History(states) && i < j < |states|
    ensures Onward(states[i], states[j])
    decreases j
  {
    hide Onward;
    if i + 1 < j {
      HistoryOnward(states, i, j - 1);
      OnwardTrans(states[i], states[j - 1], states[j]);
    }
  }

  // What a child recorded when it was saved is what it says for as long as it lives.
  lemma ChildSays(states: seq<Book>, turns: seq<Turn>, at: seq<nat>, k: nat, i: nat)
    requires History(states) && Thread(states, turns, at) && k < |turns| && at[k] < i < |states|
    requires turns[k].child in states[i].recs
    ensures HandedDown(states[i].recs[turns[k].child].core, turns[k].plan)
  {
    hide Derives, HandedDown;
    assert Asked(states[at[k]], states[at[k] + 1], turns[k]);
    if at[k] + 1 < i {
      HistoryOnward(states, at[k] + 1, i);
    }
  }

  // The anchor of a thread is handed down from turn to turn: every later child
  // records it, and every replacement goes back to it without a promotion.
  lemma {:induction false} AnchorAlongThread(states: seq<Book>, turns: seq<Turn>, at: seq<nat>, anchor: Id, k: nat)
    requires History(states) && Thread(states, turns, at) && k < |turns|
    requires turns[0].plan.childContext == Some(anchor)
    ensures turns[k].plan.childContext == Some(anchor)
    ensures 0 < k && turns[k].relationship == ReplaceQuestion ==> turns[k].plan.effective == anchor
    ensures 0 < k && turns[k].relationship == ReplaceQuestion ==> turns[k].plan.promotion == NotPromoted
    ensures forall i :: at[k] < i < |states| && turns[k].child in states[i].recs ==>
      states[i].recs[turns[k].child].core.contextParent == Some(anchor)
    decreases k
  {
    hide Onward;
    if 0 < k {
      AnchorAlongThread(states, turns, at, anchor, k - 1);
      assert Asked(states[at[k]], states[at[k] + 1], turns[k]);
      ChildSays(states, turns, at, k - 1, at[k]);
    }
    forall i | at[k] < i < |states| && turns[k].child in states[i].recs
      ensures states[i].recs[turns[k].child].core.contextParent == Some(anchor)
    {
      ChildSays(states, turns, at, k, i);
    }
  }

  // And it is there: a 30 with boundary context that begins the child's tokens.
  lemma AnchorStays(states: seq<Book>, turns: seq<Turn>, at: seq<nat>, anchor: Id, k: nat, i: nat)
    requires History(states) && Thread(states, turns, at) && k < |turns| && at[k] < i < |states|
    requires turns[0].plan.childContext == Some(anchor)
    requires turns[k].child in states[i].recs && Lineage(states[i])
    ensures Anchors(states[i].recs, states[i].aux.frozen, anchor, states[i].aux.frozen[turns[k].child])
  {
    hide History, Thread, Anchors;
    AnchorAlongThread(states, turns, at, anchor, k);
    LineageAt(states[i], turns[k].child);
  }
}
