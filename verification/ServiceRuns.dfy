// Runs of the service: requests one after the other, as its lock serialises them,
// with lookups, deletions, restarts and the passing of time in between
// (unridden/api/snapshots/service.py).
module ServiceRuns {
  import opened Common
  import opened Kernels
  import opened SnapshotRuntime
  import opened StockAnswers
  import opened Registry
  import opened Ledger
  import opened Descent
  import opened Broods
  import opened DiskIndex
  import opened Plans
  import opened Threads
  import opened SnapshotService

  // -- Calls and replies -----------------------------------------------------------------

  // Query is decide, or state_eval when it is `single`; Later sets the clock.
  datatype Call =
    | Create(freeze: Freeze, id18: Option<Id>, id30: Option<Id>)
    | Query(id: Id, relationship: Relationship, asks: seq<Ask>, single: bool, owner: Owner, ids: seq<Id>, newId: Id)
    | Ride(id: Id, relationship: Relationship, ask: Ask, maxTokens: nat, trace: bool, newId: Id)
    | Metadata(id: Id)
    | Delete(id: Id)
    | Recover
    | Later(clock: int)

  datatype Reply =
    | Frozen(readout: Option<Logits>)
    | Answered(decided: Decided)
    | Told(ridden: Ridden)
    | Found(record: Record)
    | Freed(bytes: nat)
    | Done
    | Refused(error: ServiceError)

  // The fresh ids a call brings.
  function Own(call: Call): set<Id> {
    match call
    case Create(_, id18, id30) => Elems(Checkpoints(id18, id30))
    case Query(_, _, _, _, _, ids, newId) => {newId} + Elems(ids)
    case Ride(_, _, _, _, _, newId) => {newId}
    case _ => {}
  }

  // As the routes make it: a lifetime, one child a question or none, no id twice.
  ghost predicate Formed(call: Call) {
    match call
    case Create(freeze, _, _) => 0 < freeze.ttl
    case Query(_, _, asks, single, _, ids, newId) =>
      (ids == [] || |ids| == |asks|) && Distinct(ids) && newId !in ids && (single ==> |asks| == 1)
    case _ => true
  }

  // No id is ever made twice.
  ghost predicate FreshCalls(calls: seq<Call>, used: set<Id>) {
    && (forall i :: 0 <= i < |calls| ==> Formed(calls[i]) && Own(calls[i]) !! used)
    && (forall i, j :: 0 <= i < j < |calls| ==> Own(calls[i]) !! Own(calls[j]))
  }

  // -- One call -----------------------------------------------------------------------------

  // What an answer says: its plan is the one the record leads to and names a 30 that
  // is there, every prompt is the compiled follow-up, every child takes the thread
  // further, and with exact causal kernels every branch read what the uninterrupted
  // model says.
  ghost predicate AnswerStep(s: Service, b: Book, after: Book, call: Call, d: Decided)
    requires call.Query?
  {
    && d.plan.requested == call.id && d.children == call.ids && |d.prompts| == |call.asks|
    && (forall i :: 0 <= i < |call.asks| ==>
      s.rendering.followup(d.plan.mode, d.plan.prompt, call.asks[i]) == Some(d.prompts[i]))
    && (exists tokens :: Fits(after, d.plan, tokens)) && s.ReadsStock(d)
    && call.id in b.recs && Derives(b.recs[call.id].core, call.relationship, d.plan)
    && forall j :: 0 <= j < |call.ids| ==> Asked(b, after, Turn(call.id, call.relationship, d.plan, call.ids[j]))
  }

  // The same for a ride: `rode` is its plan, prompt and parent.
  ghost predicate TextStep(s: Service, b: Book, after: Book, call: Call, rode: Rode, ridden: Ridden)
    requires call.Ride?
  {
    && s.RodeFrom(rode, call.id, call.ask, call.maxTokens, call.trace, ridden)
    && Fits(after, rode.plan, rode.parent.tokens) && s.RodeGreedily(rode.prompt, call.maxTokens, ridden.ride)
    && call.id in b.recs && Derives(b.recs[call.id].core, call.relationship, rode.plan)
  }

  // A snapshot on disk with its directory, and the same later.
  ghost predicate Shelved(b: Book, id: Id) {
    id in b.recs && b.recs[id].core.persistence == Disk && id in b.disk
  }

  ghost predicate StaysOn(b: Book, after: Book, id: Id) {
    && id in b.recs && id in after.recs && after.recs[id].core == b.recs[id].core
    && id in b.disk && id in after.disk && after.disk[id] == b.disk[id]
  }

  // What is on disk and not expired stays there, unless it is `gone`.
  ghost predicate ShelfStays(b: Book, after: Book, gone: set<Id>) {
    forall id :: Shelved(b, id) && b.recs[id].core.expiresAt > b.clock && id !in gone ==> StaysOn(b, after, id)
  }

  function RefusalOf(reply: Reply): Option<ServiceError> {
    if reply.Refused? then Some(reply.error) else None
  }

  // A question or a ride is refused for its own sake only for its reasons.
  ghost predicate RefusedRightly(s: Service, b: Book, call: Call, reply: Reply) {
    match call
    case Query(id, relationship, asks, _, _, _, _) =>
      && (reply.Answered? || reply.Refused?)
      && s.Refuses(b, SnapshotService.Found(b, id), id, relationship, asks, RefusalOf(reply))
    case Ride(id, relationship, ask, _, _, _) =>
      && (reply.Told? || reply.Refused?)
      && s.Refuses(b, SnapshotService.Found(b, id), id, relationship, [ask], RefusalOf(reply))
    case _ => true
  }

  // Any call: records go onward, every record descends from those it names, only the
  // call's own ids are new, only a deletion that was done takes an unexpired snapshot
  // from disk, and a lookup finds exactly what is there.
  ghost predicate CallStep(s: Service, b: Book, after: Book, call: Call, reply: Reply) {
    && Onward(b, after) && Lineage(after) && after.aux.used <= b.aux.used + Own(call)
    && after.clock == (if call.Later? then call.clock else b.clock)
    && ShelfStays(b, after, if call.Delete? && reply.Freed? then {call.id} else {})
    && (call.Metadata? && reply.Found? ==> call.id in b.recs && reply.record == b.recs[call.id].core)
    && (call.Metadata? && !reply.Found? ==> call.id !in after.recs)
    && RefusedRightly(s, b, call, reply)
    && (reply.Answered? ==> call.Query? && AnswerStep(s, b, after, call, reply.decided))
    && (reply.Told? ==> call.Ride? && exists rode :: TextStep(s, b, after, call, rode, reply.ridden))
  }

  lemma RequestKeeps(b: Book, after: Book, own: set<Id>)
    requires Evolves(b, after, own) && own !! b.aux.used && b.recs.Keys <= b.aux.used
    ensures after.aux.used <= b.aux.used + own && ShelfStays(b, after, {})
  {
    forall id | Shelved(b, id) && b.recs[id].core.expiresAt > b.clock
      ensures StaysOn(b, after, id)
    {
      DiskStays(b, after, own, id);
    }
  }

  lemma ExpiryKeeps(b: Book, held0: map<Id, Snapshot>, after: Book, held: map<Id, Snapshot>, touched: set<Id>,
      gone: set<Id>)
    requires OnlyExpired(b, held0, after, held, touched, gone)
    ensures after.aux.used == b.aux.used && after.recs.Keys <= b.recs.Keys && ShelfStays(b, after, gone)
  {
    hide Registry.Kept;
    forall id | Shelved(b, id) && b.recs[id].core.expiresAt > b.clock && id !in gone
      ensures StaysOn(b, after, id)
    {
      Registry.LiveKept(Cores(b.recs), Live(b.recs, b.clock), id);
      assert SameButCounts(b.recs[id], after.recs[id], id in touched);
    }
  }

  lemma RecoveryKeeps(b: Book, rebuilt: Book, after: Book, held: map<Id, Snapshot>)
    requires Survives(b, rebuilt) && OnlyExpired(rebuilt, map[], after, held, {}, {})
    ensures after.aux.used == b.aux.used && ShelfStays(b, after, {})
  {
    hide OnlyExpired;
    ExpiryKeeps(rebuilt, map[], after, held, {}, {});
    forall id | Shelved(b, id) && b.recs[id].core.expiresAt > b.clock
      ensures StaysOn(b, after, id)
    {
      assert SurvivesAt(b, rebuilt, id);
      assert StaysOn(rebuilt, after, id);
    }
  }

  lemma UsedRecords(s: Service)
    requires s.Valid()
    ensures s.store.records.Keys <= s.store.aux.used
  {
    hide Books, Agrees, Lineage;
    s.FrozenKeysSettled();
  }

  lemma Descended(s: Service)
    requires s.Valid()
    ensures Lineage(s.store.Now())
  {
    hide Books, Agrees, Lineage;
  }

  method ServeQuery(s: Service, call: Call) returns (reply: Reply)
    requires s.Valid() && call.Query? && Formed(call) && Own(call) !! s.store.aux.used
    modifies s`pendingIds, s.store, s.store.worker, s.store.worker.runtime
    ensures s.Valid() && CallStep(s, old(s.store.Now()), s.store.Now(), call, reply)
  {
    hide Service.Settled, Evolves, Tidied, Onward, Lineage, Elems, Service.ReadsStock, Service.Answers, Service.Saves,
      Service.Refuses;
    ghost var b := s.store.Now();
    UsedRecords(s);
    ElemsIn(call.ids);
    var r: Result<Decided, ServiceError>;
    ghost var parent: Option<Snapshot>;
    if call.single {
      r, parent := s.StateEval(call.id, call.relationship, call.asks[0], call.owner, call.ids, call.newId);
      assert call.asks == [call.asks[0]];
    } else {
      r, parent := s.Decide(call.id, call.relationship, call.asks, call.owner, call.ids, call.newId);
    }
    RequestKeeps(b, s.store.Now(), {call.newId} + Elems(call.ids));
    Descended(s);
    if r.Err? {
      return Refused(r.error);
    }
    AnswerSteps(s, b, call, r.value, parent);
    return Answered(r.value);
  }

  lemma AnswerSteps(s: Service, b: Book, call: Call, d: Decided, parent: Option<Snapshot>)
    requires call.Query? && s.Answers(d, parent, call.id, call.asks, call.ids)
    requires s.Saves(b, call.id, call.relationship, call.owner, d, call.ids) && s.ReadsStock(d)
    ensures AnswerStep(s, b, s.store.Now(), call, d)
  {
    hide Fits, Asked, Derives, Service.Told, Service.ReadsStock;
  }

  method ServeOther(s: Service, call: Call) returns (reply: Reply)
    requires s.Valid() && !call.Query? && Formed(call) && Own(call) !! s.store.aux.used
    modifies s`pendingIds, s.store, s.store.worker, s.store.worker.runtime
    ensures s.Valid() && CallStep(s, old(s.store.Now()), s.store.Now(), call, reply)
  {
    hide Service.Settled, Evolves, Tidied, Onward, Lineage, Elems, Service.RodeFrom, Service.RodeGreedily, Derives,
      Fits, OnlyExpired, Survives, Checkpoints, Froze, Service.ReadoutIsStock, Service.Refuses, Refs;
    ghost var b, held := s.store.Now(), s.store.worker.snapshots;
    UsedRecords(s);
    match call {
      case Create(freeze, id18, id30) =>
        var r := s.Create(freeze, id18, id30);
        RequestKeeps(b, s.store.Now(), Own(call));
        reply := if r.Ok? then Frozen(r.value) else Refused(r.error);
      case Ride(id, relationship, ask, maxTokens, trace, newId) =>
        var r, rode := s.Ride(id, relationship, ask, maxTokens, trace, newId);
        RequestKeeps(b, s.store.Now(), {newId});
        assert r.Ok? ==> TextStep(s, b, s.store.Now(), call, rode.value, r.value);
        reply := if r.Ok? then Reply.Told(r.value) else Refused(r.error);
      case Metadata(id) =>
        var r := s.Metadata(id);
        ExpiryKeeps(b, held, s.store.Now(), s.store.worker.snapshots, {id}, {});
        reply := if r.Ok? then Found(r.value) else Refused(r.error);
      case Delete(id) =>
        var r := s.Delete(id);
        ExpiryKeeps(b, held, s.store.Now(), s.store.worker.snapshots, {id}, if r.Ok? then {id} else {});
        reply := if r.Ok? then Freed(r.value) else Refused(r.error);
      case Recover =>
        ghost var rebuilt := s.Recover();
        RecoveryKeeps(b, rebuilt, s.store.Now(), s.store.worker.snapshots);
        reply := Done;
      case Later(clock) =>
        s.Later(clock);
        reply := Done;
    }
    Descended(s);
  }

  method ServeCall(s: Service, call: Call) returns (reply: Reply)
    requires s.Valid() && Formed(call) && Own(call) !! s.store.aux.used
    modifies s`pendingIds, s.store, s.store.worker, s.store.worker.runtime
    ensures s.Valid() && CallStep(s, old(s.store.Now()), s.store.Now(), call, reply)
  {
    hide Service.Settled, CallStep, Formed, Own;
    if call.Query? {
      reply := ServeQuery(s, call);
    } else {
      reply := ServeOther(s, call);
    }
  }

  // -- Runs ---------------------------------------------------------------------------------

  ghost predicate Ran(s: Service, states: seq<Book>, calls: seq<Call>, replies: seq<Reply>) {
    && |replies| == |calls| && |states| == |calls| + 1
    && forall i :: 0 <= i < |calls| ==> CallStep(s, states[i], states[i + 1], calls[i], replies[i])
  }

  // Any list of calls, one after the other.
  method Serve(s: Service, calls: seq<Call>) returns (replies: seq<Reply>, ghost states: seq<Book>)
    requires s.Valid() && FreshCalls(calls, s.store.aux.used)
    modifies s`pendingIds, s.store, s.store.worker, s.store.worker.runtime
    ensures s.Valid() && Ran(s, states, calls, replies)
    ensures states[0] == old(s.store.Now()) && states[|calls|] == s.store.Now()
  {
    hide Service.Settled, CallStep, Formed, Own;
    replies, states := [], [s.store.Now()];
    for i := 0 to |calls|
      invariant s.Valid() && Ran(s, states, calls[..i], replies)
      invariant states[0] == old(s.store.Now()) && states[i] == s.store.Now()
      invariant forall j :: i <= j < |calls| ==> Own(calls[j]) !! s.store.aux.used
    {
      ghost var b := s.store.Now();
      var reply := ServeCall(s, calls[i]);
      OnlyOwn(s, b, s.store.Now(), calls[i], reply);
      replies, states := replies + [reply], states + [s.store.Now()];
    }
    assert calls[..|calls|] == calls;
  }

  lemma OnlyOwn(s: Service, b: Book, after: Book, call: Call, reply: Reply)
    requires CallStep(s, b, after, call, reply)
    ensures after.aux.used <= b.aux.used + Own(call)
  {
  }

  lemma RunIsHistory(s: Service, states: seq<Book>, calls: seq<Call>, replies: seq<Reply>)
    requires Ran(s, states, calls, replies)
    ensures History(states)
  {
    hide Onward, AnswerStep, TextStep;
    forall i | 0 <= i < |states| - 1
      ensures Onward(states[i], states[i + 1])
    {
      assert CallStep(s, states[i], states[i + 1], calls[i], replies[i]);
    }
  }

  // Some of the answered questions of a run, each asked of a child the one before it
  // saved: the one picked of those that the call at[k] named.
  ghost predicate Follows(calls: seq<Call>, replies: seq<Reply>, at: seq<nat>, picks: seq<nat>) {
    && |at| == |picks| && |replies| == |calls|
    && (forall k :: 0 <= k < |at| ==>
      && at[k] < |calls| && replies[at[k]].Answered? && calls[at[k]].Query? && picks[k] < |calls[at[k]].ids|)
    && (forall k :: 0 < k < |at| ==> at[k - 1] < at[k] && calls[at[k]].id == calls[at[k - 1]].ids[picks[k - 1]])
  }

  function TurnsOf(calls: seq<Call>, replies: seq<Reply>, at: seq<nat>, picks: seq<nat>): (turns: seq<Turn>)
    requires Follows(calls, replies, at, picks)
    ensures |turns| == |at|
  {
    seq(|at|, k requires 0 <= k < |at| =>
      Turn(calls[at[k]].id, calls[at[k]].relationship, replies[at[k]].decided.plan, calls[at[k]].ids[picks[k]]))
  }

  lemma RunHasThread(s: Service, states: seq<Book>, calls: seq<Call>, replies: seq<Reply>, at: seq<nat>,
      picks: seq<nat>)
    requires Ran(s, states, calls, replies) && Follows(calls, replies, at, picks)
    ensures Thread(states, TurnsOf(calls, replies, at, picks), at)
  {
    hide Onward, Asked, Derives, Fits, Lineage, TextStep;
    var turns := TurnsOf(calls, replies, at, picks);
    forall k | 0 <= k < |turns|
      ensures at[k] + 1 < |states| && Asked(states[at[k]], states[at[k] + 1], turns[k])
    {
      assert CallStep(s, states[at[k]], states[at[k] + 1], calls[at[k]], replies[at[k]]);
    }
  }

  // -- What holds over every run --------------------------------------------------------------

  // In any run, along any thread of follow-ups and replacements, whatever was asked,
  // evicted, deleted or restarted in between: every plan hands down the anchor of the
  // first; a replacement goes back to it without a promotion; and every child that is
  // still there names it, and it is there, a context 30 whose tokens begin the child's.
  lemma AnchorThroughRun(s: Service, states: seq<Book>, calls: seq<Call>, replies: seq<Reply>, at: seq<nat>,
      picks: seq<nat>, anchor: Id, k: nat)
    requires Ran(s, states, calls, replies) && Follows(calls, replies, at, picks) && k < |at|
    requires replies[at[0]].decided.plan.childContext == Some(anchor)
    ensures
      var plan, child := replies[at[k]].decided.plan, calls[at[k]].ids[picks[k]];
      && plan.childContext == Some(anchor)
      && (0 < k && calls[at[k]].relationship == ReplaceQuestion ==>
        plan.effective == anchor && plan.promotion == NotPromoted)
      && forall i :: at[k] < i < |states| && child in states[i].recs ==>
        && states[i].recs[child].core.contextParent == Some(anchor)
        && child in states[i].aux.frozen
        && Anchors(states[i].recs, states[i].aux.frozen, anchor, states[i].aux.frozen[child])
  {
    hide Ran, History, Thread, Anchors, Follows, CallStep;
    var turns := TurnsOf(calls, replies, at, picks);
    RunIsHistory(s, states, calls, replies);
    RunHasThread(s, states, calls, replies, at, picks);
    AnchorAlongThread(states, turns, at, anchor, k);
    forall i | at[k] < i < |states| && turns[k].child in states[i].recs
      ensures turns[k].child in states[i].aux.frozen
      ensures Anchors(states[i].recs, states[i].aux.frozen, anchor, states[i].aux.frozen[turns[k].child])
    {
      Descending(s, states, calls, replies, i);
      AnchorStays(states, turns, at, anchor, k, i);
    }
  }

  lemma Descending(s: Service, states: seq<Book>, calls: seq<Call>, replies: seq<Reply>, i: nat)
    requires Ran(s, states, calls, replies) && 0 < i < |states|
    ensures Lineage(states[i]) && states[i].aux.frozen.Keys == states[i].recs.Keys
  {
    hide Onward, AnswerStep, TextStep;
    assert CallStep(s, states[i - 1], states[i], calls[i - 1], replies[i - 1]);
  }

  // A ride that replaces the question of a thread's child is read from its anchor.
  lemma RideThroughRun(s: Service, states: seq<Book>, calls: seq<Call>, replies: seq<Reply>, at: seq<nat>,
      picks: seq<nat>, anchor: Id, k: nat, i: nat)
    requires Ran(s, states, calls, replies) && Follows(calls, replies, at, picks) && k < |at|
    requires replies[at[0]].decided.plan.childContext == Some(anchor)
    requires at[k] < i < |calls| && replies[i].Told? && calls[i].Ride?
    requires calls[i].id == calls[at[k]].ids[picks[k]] && calls[i].relationship == ReplaceQuestion
    ensures exists rode ::
        && TextStep(s, states[i], states[i + 1], calls[i], rode, replies[i].ridden)
        && rode.plan.effective == anchor && rode.plan.promotion == NotPromoted && rode.plan.mode == Context
  {
    hide Onward, Anchors, AnswerStep;
    AnchorThroughRun(s, states, calls, replies, at, picks, anchor, k);
    assert CallStep(s, states[i], states[i + 1], calls[i], replies[i]);
    var rode :| TextStep(s, states[i], states[i + 1], calls[i], rode, replies[i].ridden);
    assert rode.plan.effective == anchor;
  }

  // Two contexts branched from on one thread are one, with the prompt it was made of.
  lemma OneContext(s: Service, states: seq<Book>, calls: seq<Call>, replies: seq<Reply>, at: seq<nat>,
      picks: seq<nat>, k: nat, l: nat)
    requires Ran(s, states, calls, replies) && Follows(calls, replies, at, picks) && k <= l < |at|
    requires replies[at[k]].decided.plan.mode == Context == replies[at[l]].decided.plan.mode
    ensures
      var d, e := replies[at[k]].decided.plan, replies[at[l]].decided.plan;
      d.effective == e.effective && d.prompt == e.prompt
  {
    hide Anchors, CallStep, Onward;
    var d, e := replies[at[k]].decided.plan, replies[at[l]].decided.plan;
    RunIsHistory(s, states, calls, replies);
    FollowsRest(calls, replies, at, picks, k);
    if k < l {
      AtGrows(calls, replies, at, picks, k, l);
    }
    FitsAt(s, states, calls, replies, at, picks, k);
    FitsAt(s, states, calls, replies, at, picks, l);
    AnchorThroughRun(s, states, calls, replies, at[k..], picks[k..], d.effective, l - k);
    if k < l {
      HistoryOnward(states, at[k] + 1, at[l] + 1);
      assert Onward(states[at[k] + 1], states[at[l] + 1]);
      SameContext(states[at[k] + 1], states[at[l] + 1], d.effective);
    }
  }

  lemma SameContext(b: Book, after: Book, id: Id)
    requires Onward(b, after) && id in b.aux.used && id in after.recs
    ensures id in b.recs && after.recs[id].core == b.recs[id].core
  {
  }

  lemma FollowsRest(calls: seq<Call>, replies: seq<Reply>, at: seq<nat>, picks: seq<nat>, k: nat)
    requires Follows(calls, replies, at, picks) && k < |at|
    ensures Follows(calls, replies, at[k..], picks[k..])
  {
  }

  lemma {:induction false} AtGrows(calls: seq<Call>, replies: seq<Reply>, at: seq<nat>, picks: seq<nat>, k: nat, l: nat)
    requires Follows(calls, replies, at, picks) && k < l < |at|
    ensures at[k] < at[l]
    decreases l
  {
    if k + 1 < l {
      AtGrows(calls, replies, at, picks, k, l - 1);
    }
  }

  // The snapshot an answer branched from is there, with the plan's prompt.
  lemma FitsAt(s: Service, states: seq<Book>, calls: seq<Call>, replies: seq<Reply>, at: seq<nat>, picks: seq<nat>,
      k: nat)
    requires Ran(s, states, calls, replies) && Follows(calls, replies, at, picks) && k < |at|
    ensures
      var plan, after := replies[at[k]].decided.plan, states[at[k] + 1];
      && plan.effective in after.recs && plan.effective in after.aux.used
      && after.recs[plan.effective].core.prompt == plan.prompt
      && (plan.mode == Context ==> plan.childContext == Some(plan.effective))
  {
    hide Lineage, TextStep, Asked, Derives;
    assert CallStep(s, states[at[k]], states[at[k] + 1], calls[at[k]], replies[at[k]]);
  }

  lemma AnsweredAt(s: Service, states: seq<Book>, calls: seq<Call>, replies: seq<Reply>, at: seq<nat>, picks: seq<nat>,
      k: nat)
    requires Ran(s, states, calls, replies) && Follows(calls, replies, at, picks) && k < |at|
    ensures AnswerStep(s, states[at[k]], states[at[k] + 1], calls[at[k]], replies[at[k]].decided)
  {
    hide Lineage, TextStep, Asked, Derives, Onward, AnswerStep;
    assert CallStep(s, states[at[k]], states[at[k] + 1], calls[at[k]], replies[at[k]]);
  }

  lemma SamePrompt(s: Service, states: seq<Book>, calls: seq<Call>, replies: seq<Reply>, p: nat, q: nat, i: nat, j: nat)
    requires p < |calls| && q < |calls| && |replies| == |calls| && |states| == |calls| + 1
    requires calls[p].Query? && calls[q].Query? && replies[p].Answered? && replies[q].Answered?
    requires AnswerStep(s, states[p], states[p + 1], calls[p], replies[p].decided)
    requires AnswerStep(s, states[q], states[q + 1], calls[q], replies[q].decided)
    requires i < |calls[p].asks| && j < |calls[q].asks| && calls[p].asks[i] == calls[q].asks[j]
    requires replies[p].decided.plan.mode == replies[q].decided.plan.mode
    requires replies[p].decided.plan.prompt == replies[q].decided.plan.prompt
    ensures
      var d, e := replies[p].decided, replies[q].decided;
      && s.ReadsStock(d) && s.ReadsStock(e)
      && i < |d.prompts| && j < |e.prompts| && d.prompts[i] == e.prompts[j]
  {
    hide Fits, Derives, Asked, Service.ReadsStock;
  }

  // The same question asked of the context twice on one thread, first directly or by
  // a replacement and later by one, compiles to the same prompt, and with exact causal
  // kernels reads the same logits.
  lemma SameQuestionOnThread(s: Service, states: seq<Book>, calls: seq<Call>, replies: seq<Reply>, at: seq<nat>,
      picks: seq<nat>, k: nat, l: nat, i: nat, j: nat)
    requires Ran(s, states, calls, replies) && Follows(calls, replies, at, picks) && k <= l < |at|
    requires replies[at[k]].decided.plan.mode == Context == replies[at[l]].decided.plan.mode
    requires i < |calls[at[k]].asks| && j < |calls[at[l]].asks| && calls[at[k]].asks[i] == calls[at[l]].asks[j]
    ensures
      var d, e := replies[at[k]].decided, replies[at[l]].decided;
      && d.plan.effective == e.plan.effective && i < |d.prompts| && j < |e.prompts| && d.prompts[i] == e.prompts[j]
      && forall model, split | Causal(s.store.worker.config, model, split) ::
        && i < |d.batch.branches| && j < |e.batch.branches|
        && d.batch.branches[i].seen.logits == e.batch.branches[j].seen.logits
  {
    hide CallStep, Anchors, Causal, StockLogits, AnswerStep;
    var d, e := replies[at[k]].decided, replies[at[l]].decided;
    OneContext(s, states, calls, replies, at, picks, k, l);
    AnsweredAt(s, states, calls, replies, at, picks, k);
    AnsweredAt(s, states, calls, replies, at, picks, l);
    SamePrompt(s, states, calls, replies, at[k], at[l], i, j);
    forall model, split | Causal(s.store.worker.config, model, split)
      ensures i < |d.batch.branches| && j < |e.batch.branches|
      ensures d.batch.branches[i].seen.logits == e.batch.branches[j].seen.logits
    {
      assert s.StockAnswer(model, d.prompts[i], d.batch.branches[i].seen);
      assert s.StockAnswer(model, e.prompts[j], e.batch.branches[j].seen);
    }
  }

  // In every run, a question that goes on from a snapshot which is there, or replaces
  // one with an anchor, and that compiles, is answered, or else the store, the worker
  // or the transport failed.
  lemma QuestionServed(s: Service, states: seq<Book>, calls: seq<Call>, replies: seq<Reply>, i: nat)
    requires Ran(s, states, calls, replies) && i < |calls| && calls[i].Query?
    requires SnapshotService.Found(states[i], calls[i].id)
    requires !Anchorless(states[i], calls[i].id, calls[i].relationship)
    requires forall mode, prompt, j ::
        Bases(states[i], calls[i].id, calls[i].relationship, mode, prompt) && 0 <= j < |calls[i].asks| ==>
          s.rendering.followup(mode, prompt, calls[i].asks[j]).Some?
    ensures replies[i].Answered? || (replies[i].Refused? && Outside(replies[i].error))
  {
    hide Onward, Lineage, AnswerStep, TextStep, ShelfStays, Bases, Anchorless, Registry.Kept;
    assert CallStep(s, states[i], states[i + 1], calls[i], replies[i]);
  }

  // A published snapshot outlives every run, restarts included, with its fields and
  // its files, until a deletion of it is done or its time is over; a lookup finds it.
  lemma {:induction false} DiskThroughRun(s: Service, states: seq<Book>, calls: seq<Call>, replies: seq<Reply>,
      i: nat, j: nat, id: Id)
    requires Ran(s, states, calls, replies) && i <= j < |states| && Shelved(states[i], id)
    requires forall k :: i <= k < j ==>
      !(calls[k] == Delete(id) && replies[k].Freed?) && states[i].recs[id].core.expiresAt > states[k].clock
    ensures StaysOn(states[i], states[j], id)
    ensures i < j && calls[j - 1] == Metadata(id) ==> replies[j - 1] == Found(states[i].recs[id].core)
    decreases j
  {
    hide Onward, Lineage, AnswerStep, TextStep;
    if i < j {
      DiskThroughRun(s, states, calls, replies, i, j - 1, id);
      assert CallStep(s, states[j - 1], states[j], calls[j - 1], replies[j - 1]);
      assert Shelved(states[j - 1], id);
    }
  }
}
