// The worker transport as a protocol of steps: requests under the io lock, one
// starter, and a child process that answers one line for every request line, in
// order (unridden/api/snapshots/backend.py). Between two awaits nothing else runs,
// so each step below is one such stretch; any step may come next.
module Transport {
  import opened Common

  type Task(==, !new)

  // What a line of the child is, to the one who reads it.
  datatype Kind = Good | TypedError | Malformed

  // A line on the child's stdout. `of` is the request it answers, which nobody
  // but this model sees; `id` is the correlation id it carries.
  datatype Line = Hello | Answer(of: nat, id: nat, kind: Kind)

  // A child's pipes: requests written and not yet answered, lines not yet read.
  datatype Pipe = Pipe(requests: seq<nat>, lines: seq<Line>)

  // Where a request is. `serial` is also its correlation id; `process` is the
  // child it reads from.
  datatype Phase =
    | Idle
    | Queued                              // ready was seen, waiting for the lock
    | Sent(serial: nat)                   // written, draining
    | Reading(serial: nat, process: nat)  // waiting for a line of that child
    | Closing                             // invalidated, still in the lock
    | Validating                          // outside the lock, with a line in hand

  // A line a request took for its answer: the request reading, the request it
  // answers, and the id it carried.
  datatype Accepted = Accepted(reader: nat, of: nat, id: nat)

  datatype State = State(
    ready: bool,
    process: Option<nat>,
    lock: Option<Task>,
    phases: map<Task, Phase>,
    pipes: map<nat, Pipe>,
    starter: Option<nat>,  // the child whose hello is awaited
    nextProcess: nat,
    nextSerial: nat,
    accepted: seq<Accepted>)

  datatype Event =
    | Begin(task: Task)
    | Acquire(task: Task)
    | Refuse(task: Task)
    | Drained(task: Task)
    | Receive(task: Task)
    | Fail(task: Task)
    | Release(task: Task)
    | Validate(task: Task, ok: bool)
    | Abandon(task: Task)
    | Spawn
    | Started
    | StartFails
    | Close
    | ChildAnswers(process: nat, id: nat, kind: Kind)

  function PhaseOf(st: State, t: Task): Phase {
    if t in st.phases then st.phases[t] else Idle
  }

  function At(st: State, t: Task, phase: Phase): State {
    st.(phases := st.phases[t := phase])
  }

  // _invalidate, up to its first await.
  function Invalidated(st: State): State {
    st.(ready := false, process := None)
  }

  predicate Enabled(st: State, ev: Event) {
    match ev
    case Begin(t) => PhaseOf(st, t) == Idle && st.ready && st.process.Some?
    case Acquire(t) => PhaseOf(st, t) == Queued && st.lock.None? && st.process.Some? && st.process.value in st.pipes
    // The encoded request is too long, the child is gone, or its stdin is.
    case Refuse(t) => PhaseOf(st, t) == Queued && st.lock.None?
    case Drained(t) => PhaseOf(st, t).Sent? && st.process.Some?
    case Receive(t) =>
      var phase := PhaseOf(st, t);
      phase.Reading? && phase.process in st.pipes && st.pipes[phase.process].lines != []
    // A timeout, a cancellation, a closed or oversized stdout, a broken pipe.
    case Fail(t) => PhaseOf(st, t).Sent? || PhaseOf(st, t).Reading?
    case Release(t) => PhaseOf(st, t) == Closing
    case Validate(t, ok) => PhaseOf(st, t) == Validating
    case Abandon(t) => PhaseOf(st, t) == Queued
    case Spawn => !st.ready && st.starter.None?
    case Started => st.starter.Some? && st.starter.value in st.pipes && st.pipes[st.starter.value].lines != []
    case StartFails => st.starter.Some?
    case Close => true
    case ChildAnswers(p, id, kind) => p in st.pipes && st.pipes[p].requests != []
  }

  function Next(st: State, ev: Event): State
    requires Enabled(st, ev)
  {
    match ev
    case Begin(t) => At(st, t, Queued)
    case Acquire(t) =>
      var p := st.process.value;
      var pipe := st.pipes[p];
      At(st, t, Sent(st.nextSerial)).(
        lock := Some(t), nextSerial := st.nextSerial + 1,
        pipes := st.pipes[p := pipe.(requests := pipe.requests + [st.nextSerial])])
    case Refuse(t) => At(st, t, Idle)
    case Drained(t) => At(st, t, Reading(PhaseOf(st, t).serial, st.process.value))
    case Receive(t) => Received(st, t)
    case Fail(t) => At(Invalidated(st), t, Closing)
    case Release(t) => At(st, t, Idle).(lock := None)
    case Validate(t, ok) => if ok then At(st, t, Idle) else At(Invalidated(st), t, Idle)
    case Abandon(t) => At(st, t, Idle)
    case Spawn =>
      st.(process := Some(st.nextProcess), starter := Some(st.nextProcess), nextProcess := st.nextProcess + 1,
          pipes := st.pipes[st.nextProcess := Pipe([], [Hello])])
    case Started =>
      var p := st.starter.value;
      var popped := Popped(st, p).(starter := None);
      if st.pipes[p].lines[0].Hello? then popped.(ready := true) else Invalidated(popped)
    case StartFails => Invalidated(st).(starter := None)
    case Close => Invalidated(st)
    case ChildAnswers(p, id, kind) =>
      var pipe := st.pipes[p];
      st.(pipes := st.pipes[p := Pipe(pipe.requests[1..], pipe.lines + [Answer(pipe.requests[0], id, kind)])])
  }

  function Popped(st: State, p: nat): State
    requires p in st.pipes && st.pipes[p].lines != []
  {
    st.(pipes := st.pipes[p := st.pipes[p].(lines := st.pipes[p].lines[1..])])
  }

  // What _request makes of a line: another id or a malformed one invalidates, a
  // typed error ends the request, the rest goes on to be validated.
  function Received(st: State, t: Task): State
    requires Enabled(st, Receive(t))
  {
    var phase := PhaseOf(st, t);
    var line := st.pipes[phase.process].lines[0];
    var popped := Popped(st, phase.process);
    if line.Hello? || line.id != phase.serial || line.kind == Malformed then At(Invalidated(popped), t, Closing)
    else
      At(popped, t, if line.kind == Good then Validating else Idle).(
        lock := None, accepted := st.accepted + [Accepted(phase.serial, line.of, line.id)])
  }

  // -- What a step does -----------------------------------------------------------------------

  // What a request makes of the line it reads: its own id with a good answer goes on
  // to be validated and with a typed error ends it, the backend still ready either way
  // and the lock free; a hello, another id or a malformed line is not accepted and
  // invalidates. The line is gone from the pipe in every case.
  lemma ReceiveOutcome(st: State, t: Task)
    requires Enabled(st, Receive(t))
    ensures
      var serial, p := PhaseOf(st, t).serial, PhaseOf(st, t).process;
      var line, next := st.pipes[p].lines[0], Next(st, Receive(t));
      && (line.Answer? && line.id == serial && line.kind == Good ==>
        && PhaseOf(next, t) == Validating && next.lock.None? && next.ready == st.ready && next.process == st.process
        && next.accepted == st.accepted + [Accepted(serial, line.of, serial)])
      && (line.Answer? && line.id == serial && line.kind == TypedError ==>
        && PhaseOf(next, t) == Idle && next.lock.None? && next.ready == st.ready && next.process == st.process
        && next.accepted == st.accepted + [Accepted(serial, line.of, serial)])
      && (line.Hello? || line.id != serial || line.kind == Malformed ==>
        && PhaseOf(next, t) == Closing && next.lock == st.lock && !next.ready && next.process.None?
        && next.accepted == st.accepted)
      && next.pipes == st.pipes[p := Pipe(st.pipes[p].requests, st.pipes[p].lines[1..])]
      && next.starter == st.starter && next.nextProcess == st.nextProcess && next.nextSerial == st.nextSerial
      && forall other :: other != t ==> PhaseOf(next, other) == PhaseOf(st, other)
  {
  }

  // The backend becomes ready only with the first line of its own child, a hello, and
  // stops being ready only when something went wrong or it is closed.
  ghost predicate GoesWrong(st: State, ev: Event) {
    match ev
    case Receive(t) =>
      Enabled(st, ev) && (
        var line := st.pipes[PhaseOf(st, t).process].lines[0];
        line.Hello? || line.id != PhaseOf(st, t).serial || line.kind == Malformed)
    case Fail(_) => true
    case Validate(_, ok) => !ok
    case Started => Enabled(st, ev) && !st.pipes[st.starter.value].lines[0].Hello?
    case StartFails => true
    case Close => true
    case _ => false
  }

  lemma ReadyChanges(st: State, ev: Event)
    requires Enabled(st, ev)
    ensures Next(st, ev).ready <==>
      if ev == Started then st.pipes[st.starter.value].lines[0].Hello? else st.ready && !GoesWrong(st, ev)
    ensures GoesWrong(st, ev) ==> !Next(st, ev).ready && Next(st, ev).process.None?
    ensures !GoesWrong(st, ev) && ev != Spawn ==> Next(st, ev).process == st.process
  {
  }

  // -- What is still under way with a child -----------------------------------------------

  // The requests answered by lines nobody has read yet.
  function Ofs(lines: seq<Line>): seq<nat> {
    if lines == [] then []
    else (if lines[0].Answer? then [lines[0].of] else []) + Ofs(lines[1..])
  }

  // Written and not read back, oldest first.
  function Outstanding(pipe: Pipe): seq<nat> {
    Ofs(pipe.lines) + pipe.requests
  }

  lemma {:induction false} OfsAppend(lines: seq<Line>, line: Line)
    ensures Ofs(lines + [line]) == Ofs(lines) + if line.Answer? then [line.of] else []
  {
    if lines == [] {
      assert lines + [line] == [line] && [line][1..] == [];
    } else {
      OfsAppend(lines[1..], line);
      assert (lines + [line])[1..] == lines[1..] + [line] && (lines + [line])[0] == lines[0];
    }
  }

  // An answer changes nothing about what is under way, and comes in order.
  lemma AnswerKeepsOutstanding(pipe: Pipe, id: nat, kind: Kind)
    requires pipe.requests != []
    ensures Outstanding(Pipe(pipe.requests[1..], pipe.lines + [Answer(pipe.requests[0], id, kind)])) ==
      Outstanding(pipe)
  {
    OfsAppend(pipe.lines, Answer(pipe.requests[0], id, kind));
    assert pipe.requests == [pipe.requests[0]] + pipe.requests[1..];
  }

  lemma PopOutstanding(pipe: Pipe)
    requires pipe.lines != []
    ensures Outstanding(pipe) ==
      (if pipe.lines[0].Answer? then [pipe.lines[0].of] else []) + Outstanding(pipe.(lines := pipe.lines[1..]))
  {
  }

  lemma {:induction false} OfsLength(lines: seq<Line>)
    requires forall j :: 0 <= j < |lines| ==> lines[j].Answer?
    ensures |Ofs(lines)| == |lines|
  {
    if lines != [] {
      OfsLength(lines[1..]);
    }
  }

  lemma NothingOutstanding(pipe: Pipe)
    requires Outstanding(pipe) == [] && forall j :: 0 <= j < |pipe.lines| ==> pipe.lines[j].Answer?
    ensures pipe.requests == [] && pipe.lines == []
  {
    OfsLength(pipe.lines);
    assert |Outstanding(pipe)| == |Ofs(pipe.lines)| + |pipe.requests|;
  }

  // With only request n under way, the line at hand is a hello or n's answer.
  lemma PopOnly(pipe: Pipe, n: nat)
    requires pipe.lines != [] && Only(pipe, n)
    ensures pipe.lines[0].Answer? ==> pipe.lines[0].of == n && Outstanding(pipe.(lines := pipe.lines[1..])) == []
    ensures pipe.lines[0].Hello? ==> Outstanding(pipe.(lines := pipe.lines[1..])) == Outstanding(pipe)
  {
    PopOutstanding(pipe);
    hide Outstanding;
    if pipe.lines[0].Answer? {
      var rest := Outstanding(pipe.(lines := pipe.lines[1..]));
      assert |Outstanding(pipe)| == 1 + |rest|;
      assert Outstanding(pipe)[0] == pipe.lines[0].of;
    }
  }

  // -- The invariant -------------------------------------------------------------------

  predicate Inside(phase: Phase) {
    phase.Sent? || phase.Reading? || phase.Closing?
  }

  // The hello comes first and once.
  ghost predicate HelloFirst(pipe: Pipe) {
    forall i :: 1 <= i < |pipe.lines| ==> pipe.lines[i].Answer?
  }

  ghost predicate Inv(st: State) {
    && (forall p :: p in st.pipes ==> p < st.nextProcess && HelloFirst(st.pipes[p]))
    && (st.process.Some? ==> st.process.value in st.pipes)
    && (st.starter.Some? ==> st.starter.value in st.pipes && (st.process.Some? ==> st.process == st.starter))
    && (forall t :: Inside(PhaseOf(st, t)) <==> st.lock == Some(t))
    && (if st.lock.Some? then Holds(st, PhaseOf(st, st.lock.value)) else CurrentClean(st))
    && (st.ready && st.process.Some? ==> Greeted(st.pipes[st.process.value]) && st.starter.None?)
    && (forall a :: a in st.accepted ==> a.reader == a.of == a.id)
  }

  // No hello left to read.
  ghost predicate Greeted(pipe: Pipe) {
    pipe.lines != [] ==> pipe.lines[0].Answer?
  }

  ghost predicate CurrentClean(st: State)
    requires st.process.Some? ==> st.process.value in st.pipes
  {
    st.process.Some? ==> Outstanding(st.pipes[st.process.value]) == []
  }

  // What the holder of the lock may find in the current child and in the one it
  // reads: nothing but the answer to its own request.
  ghost predicate Holds(st: State, phase: Phase)
    requires st.process.Some? ==> st.process.value in st.pipes
  {
    match phase
    case Sent(n) => st.process.Some? ==> Only(st.pipes[st.process.value], n)
    case Reading(n, p) => p in st.pipes && Only(st.pipes[p], n) && (st.process != Some(p) ==> CurrentClean(st))
    case Closing => CurrentClean(st)
    case _ => false
  }

  ghost predicate Only(pipe: Pipe, n: nat) {
    Outstanding(pipe) == [] || Outstanding(pipe) == [n]
  }

  const START: State := State(false, None, None, map[], map[], None, 0, 0, [])

  lemma InvStart()
    ensures Inv(START)
  {
  }

  // -- Every step keeps it ----------------------------------------------------------------

  lemma PhaseAt(st: State, t: Task, phase: Phase)
    ensures forall other :: PhaseOf(At(st, t, phase), other) == if other == t then phase else PhaseOf(st, other)
  {
  }

  lemma AcquireKeeps(st: State, t: Task)
    requires Inv(st) && Enabled(st, Acquire(t))
    ensures Inv(Next(st, Acquire(t)))
  {
    hide Outstanding;
    PhaseAt(st, t, Sent(st.nextSerial));
    Written(st.pipes[st.process.value], st.nextSerial);
  }

  lemma Written(pipe: Pipe, n: nat)
    ensures Outstanding(pipe.(requests := pipe.requests + [n])) == Outstanding(pipe) + [n]
  {
  }

  lemma ReceiveKeeps(st: State, t: Task)
    requires Inv(st) && Enabled(st, Receive(t))
    ensures Inv(Next(st, Receive(t)))
  {
    hide Outstanding;
    var phase := PhaseOf(st, t);
    var line := st.pipes[phase.process].lines[0];
    PopOnly(st.pipes[phase.process], phase.serial);
    if line.Hello? || line.id != phase.serial || line.kind == Malformed {
      PhaseAt(Invalidated(Popped(st, phase.process)), t, Closing);
    } else {
      PhaseAt(Popped(st, phase.process), t, if line.kind == Good then Validating else Idle);
    }
  }

  lemma FailKeeps(st: State, t: Task)
    requires Inv(st) && Enabled(st, Fail(t))
    ensures Inv(Next(st, Fail(t)))
  {
    hide Outstanding;
    PhaseAt(Invalidated(st), t, Closing);
  }

  lemma QuietKeeps(st: State, ev: Event)
    requires Inv(st) && Enabled(st, ev)
    requires ev.Begin? || ev.Refuse? || ev.Drained? || ev.Abandon? || ev.Release? || ev.Validate?
    ensures Inv(Next(st, ev))
  {
    hide Outstanding;
    match ev
    case Begin(t) => PhaseAt(st, t, Queued);
    case Refuse(t) => PhaseAt(st, t, Idle);
    case Drained(t) => PhaseAt(st, t, Reading(PhaseOf(st, t).serial, st.process.value));
    case Abandon(t) => PhaseAt(st, t, Idle);
    case Release(t) => PhaseAt(st, t, Idle);
    case Validate(t, ok) => PhaseAt(if ok then st else Invalidated(st), t, Idle);
    case _ =>
  }

  lemma SpawnKeeps(st: State)
    requires Inv(st) && Enabled(st, Spawn)
    ensures Inv(Next(st, Spawn))
  {
    var next := Next(st, Spawn);
    HelloOnly();
    hide Outstanding;
    assert forall t :: PhaseOf(next, t) == PhaseOf(st, t);
  }

  lemma HelloOnly()
    ensures Outstanding(Pipe([], [Hello])) == []
  {
  }

  lemma StartedKeeps(st: State)
    requires Inv(st) && Enabled(st, Started)
    ensures Inv(Next(st, Started))
  {
    hide Outstanding;
    var pipe := st.pipes[st.starter.value];
    assert forall t :: PhaseOf(Next(st, Started), t) == PhaseOf(st, t);
    PopOutstanding(pipe);
    if pipe.lines[0].Hello? {
      assert Outstanding(pipe.(lines := pipe.lines[1..])) == Outstanding(pipe);
    } else {
      PopShrinks(pipe);
    }
  }

  // A line less leaves at most the one request under way.
  lemma PopShrinks(pipe: Pipe)
    requires pipe.lines != []
    ensures forall n :: Only(pipe, n) ==> Only(pipe.(lines := pipe.lines[1..]), n)
  {
    hide Outstanding;
    forall n | Only(pipe, n)
      ensures Only(pipe.(lines := pipe.lines[1..]), n)
    {
      PopOnly(pipe, n);
    }
  }

  lemma EndKeeps(st: State, ev: Event)
    requires Inv(st) && (ev == Close || (ev == StartFails && Enabled(st, ev)))
    ensures Inv(Next(st, ev))
  {
    hide Outstanding;
    assert forall t :: PhaseOf(Next(st, ev), t) == PhaseOf(st, t);
  }

  lemma ChildKeeps(st: State, p: nat, id: nat, kind: Kind)
    requires Inv(st) && Enabled(st, ChildAnswers(p, id, kind))
    ensures Inv(Next(st, ChildAnswers(p, id, kind)))
  {
    hide Outstanding;
    var next := Next(st, ChildAnswers(p, id, kind));
    assert forall t :: PhaseOf(next, t) == PhaseOf(st, t);
    AnswerKeepsOutstanding(st.pipes[p], id, kind);
  }

  lemma StepKeeps(st: State, ev: Event)
    requires Inv(st) && Enabled(st, ev)
    ensures Inv(Next(st, ev))
  {
    hide Inv, Enabled, Next;
    match ev
    case Acquire(t) => AcquireKeeps(st, t);
    case Receive(t) => ReceiveKeeps(st, t);
    case Fail(t) => FailKeeps(st, t);
    case Spawn => SpawnKeeps(st);
    case Started => StartedKeeps(st);
    case StartFails => EndKeeps(st, ev);
    case Close => EndKeeps(st, ev);
    case ChildAnswers(p, id, kind) => ChildKeeps(st, p, id, kind);
    case _ => QuietKeeps(st, ev);
  }

  // -- Over every run --------------------------------------------------------------------------

  // A run: the states, and the step between each two of them.
  ghost predicate Run(states: seq<State>, events: seq<Event>) {
    && |states| == |events| + 1 && states[0] == START
    && forall i :: 0 <= i < |events| ==> Enabled(states[i], events[i]) && states[i + 1] == Next(states[i], events[i])
  }

  lemma {:induction false} RunInv(states: seq<State>, events: seq<Event>, i: nat)
    requires Run(states, events) && i < |states|
    ensures Inv(states[i])
    decreases i
  {
    hide Inv, Enabled, Next;
    if i == 0 {
      InvStart();
    } else {
      RunInv(states, events, i - 1);
      StepKeeps(states[i - 1], events[i - 1]);
    }
  }

  // Whenever the backend is ready and its lock is free, the current child has
  // nothing left to answer and nothing left to read.
  lemma ReadyMeansDrained(states: seq<State>, events: seq<Event>, i: nat)
    requires Run(states, events) && i < |states|
    requires states[i].ready && states[i].lock.None? && states[i].process.Some?
    ensures states[i].process.value in states[i].pipes && states[i].pipes[states[i].process.value] == Pipe([], [])
  {
    RunInv(states, events, i);
    hide Run, Outstanding;
    var pipe := states[i].pipes[states[i].process.value];
    AllAnswers(pipe);
    NothingOutstanding(pipe);
  }

  lemma AllAnswers(pipe: Pipe)
    requires HelloFirst(pipe) && Greeted(pipe)
    ensures forall j :: 0 <= j < |pipe.lines| ==> pipe.lines[j].Answer?
  {
  }

  // Every line a request accepts is the child's answer to that very request,
  // whatever correlation ids the child puts on its lines, and carries its id.
  lemma AcceptedAnswersItsRequest(states: seq<State>, events: seq<Event>, i: nat, k: nat)
    requires Run(states, events) && i < |states| && k < |states[i].accepted|
    ensures states[i].accepted[k].reader == states[i].accepted[k].of == states[i].accepted[k].id
  {
    RunInv(states, events, i);
    hide Run;
    assert states[i].accepted[k] in states[i].accepted;
  }

  // -- With a child that echoes ids -----------------------------------------------------------

  ghost predicate Echoes(states: seq<State>, events: seq<Event>)
    requires Run(states, events)
  {
    forall i :: 0 <= i < |events| && events[i].ChildAnswers? ==>
      events[i].id == states[i].pipes[events[i].process].requests[0]
  }

  ghost predicate Echoed(st: State) {
    forall p, j :: p in st.pipes && 0 <= j < |st.pipes[p].lines| ==> EchoedLine(st.pipes[p].lines[j])
  }

  predicate EchoedLine(line: Line) {
    line.Answer? ==> line.id == line.of
  }

  lemma StepEchoed(st: State, ev: Event)
    requires Enabled(st, ev) && Echoed(st)
    requires ev.ChildAnswers? ==> ev.id == st.pipes[ev.process].requests[0]
    ensures Echoed(Next(st, ev))
  {
  }

  lemma {:induction false} RunEchoed(states: seq<State>, events: seq<Event>, i: nat)
    requires Run(states, events) && Echoes(states, events) && i < |states|
    ensures Echoed(states[i])
  {
    hide Enabled, Next, Echoed;
    if i == 0 {
      NothingEchoed();
    } else {
      RunEchoed(states, events, i - 1);
      StepEchoed(states[i - 1], events[i - 1]);
    }
  }

  lemma NothingEchoed()
    ensures Echoed(START)
  {
  }

  // In every run with a child that echoes ids, a reply that is no hello and not
  // malformed is accepted by its own request, and never costs the backend.
  lemma EchoedIsAccepted(states: seq<State>, events: seq<Event>, i: nat, t: Task)
    requires Run(states, events) && Echoes(states, events) && i < |events| && events[i] == Receive(t)
    ensures Enabled(states[i], Receive(t))
    ensures
      var st, next, phase := states[i], states[i + 1], PhaseOf(states[i], t);
      var line := st.pipes[phase.process].lines[0];
      line.Answer? && line.kind != Malformed ==>
        && next.accepted == st.accepted + [Accepted(phase.serial, phase.serial, phase.serial)]
        && next.ready == st.ready && next.process == st.process && next.lock.None?
        && PhaseOf(next, t) == if line.kind == Good then Validating else Idle
  {
    assert Enabled(states[i], events[i]);
    ReadsItsOwnAnswer(states, events, i, t);
    RunEchoed(states, events, i);
    ReceiveOutcome(states[i], t);
    hide Next;
    var phase := PhaseOf(states[i], t);
    assert EchoedLine(states[i].pipes[phase.process].lines[0]);
  }

  // A start and a request that nothing disturbs: the backend is ready after the hello,
  // and the request is answered, leaving it ready with nothing under way.
  lemma StartupReadies(st: State)
    requires Inv(st) && Enabled(st, Spawn)
    ensures
      var spawned := Next(st, Spawn);
      && Enabled(spawned, Started)
      && var started := Next(spawned, Started);
        && started.ready && started.process == Some(st.nextProcess) && started.starter.None?
        && started.pipes[st.nextProcess] == Pipe([], [])
        && started.lock == st.lock && started.phases == st.phases && started.accepted == st.accepted
  {
  }

  lemma RequestReads(st: State, t: Task)
    requires st.ready && st.process.Some? && st.process.value in st.pipes && st.lock.None?
    requires st.pipes[st.process.value] == Pipe([], []) && PhaseOf(st, t) == Idle
    ensures Enabled(st, Begin(t))
    ensures
      var p, n, sent := st.process.value, st.nextSerial, Next(st, Begin(t));
      && Enabled(sent, Acquire(t))
      && var acquired := Next(sent, Acquire(t));
        && Enabled(acquired, Drained(t))
        && Next(acquired, Drained(t)) == At(st, t, Reading(n, p)).(
          lock := Some(t), nextSerial := n + 1, pipes := st.pipes[p := Pipe([n], [])])
  {
    var p, n, sent := st.process.value, st.nextSerial, Next(st, Begin(t));
    assert PhaseOf(sent, t) == Queued;
    var acquired := Next(sent, Acquire(t));
    assert acquired.pipes[p] == Pipe([n], []) && PhaseOf(acquired, t) == Sent(n);
    assert Next(acquired, Drained(t)).phases == st.phases[t := Reading(n, p)];
  }

  lemma RequestCompletes(st: State, t: Task, kind: Kind)
    requires st.ready && PhaseOf(st, t).Reading? && st.process == Some(PhaseOf(st, t).process) && kind != Malformed
    requires st.process.value in st.pipes && st.pipes[st.process.value] == Pipe([PhaseOf(st, t).serial], [])
    ensures
      var p, n := PhaseOf(st, t).process, PhaseOf(st, t).serial;
      && Enabled(st, ChildAnswers(p, n, kind))
      && var answered := Next(st, ChildAnswers(p, n, kind));
        && Enabled(answered, Receive(t))
        && var received := Next(answered, Receive(t));
          && received.ready && received.process == st.process && received.lock.None?
          && received.accepted == st.accepted + [Accepted(n, n, n)]
          && received.pipes == st.pipes[p := Pipe([], [])]
          && PhaseOf(received, t) == (if kind == Good then Validating else Idle)
          && (kind == Good ==>
            && Enabled(received, Validate(t, true))
            && Next(received, Validate(t, true)) == At(received, t, Idle))
  {
    var p, n := PhaseOf(st, t).process, PhaseOf(st, t).serial;
    var answered := Next(st, ChildAnswers(p, n, kind));
    assert answered.pipes[p] == Pipe([], [Answer(n, n, kind)]) && PhaseOf(answered, t) == Reading(n, p);
    ReceiveOutcome(answered, t);
    assert [Answer(n, n, kind)][1..] == [];
  }

  // A line that a request reads is a hello or its own answer, so with a child that
  // echoes ids the correlation check can only fire on a hello.
  lemma ReadsItsOwnAnswer(states: seq<State>, events: seq<Event>, i: nat, t: Task)
    requires Run(states, events) && i < |events| && events[i] == Receive(t)
    ensures
      var phase := PhaseOf(states[i], t);
      phase.Reading? && phase.process in states[i].pipes && states[i].pipes[phase.process].lines != [] &&
      var line := states[i].pipes[phase.process].lines[0];
      line.Hello? || line.of == phase.serial
  {
    RunInv(states, events, i);
    assert Enabled(states[i], events[i]);
    hide Run, Outstanding;
    var phase := PhaseOf(states[i], t);
    PopOnly(states[i].pipes[phase.process], phase.serial);
  }
}
