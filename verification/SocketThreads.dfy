/** The master and the workers at the socket ring, one statement at a time, in any interleaving. */
module SocketThreads {
  import opened Common
  import opened SocketQueue

  datatype Thread = Master | Worker(id: nat)

  /** Where the master is in `produce_socket`. */
  datatype MasterAt = Accepting | WantsMutex | Testing | Sleeping | Stored | Advanced

  /** Where a worker is in its loop and in `consume_socket`. */
  datatype WorkerAt = Free | Wanting | Looking | Dozing | Copied | Wrapping | Busy | Gone

  datatype WorkerState = WorkerState(at: WorkerAt, socket: Sock)

  datatype Handover = Handover(worker: nat, socket: Sock)

  /** `produced`: every socket queued, in order; `taken`: every socket taken out, by whom. */
  datatype State = State(
    queue: seq<Sock>, head: int, tail: int, stop: bool, owner: Option<Thread>,
    master: MasterAt, item: Sock, workers: seq<WorkerState>,
    produced: seq<Sock>, taken: seq<Handover>)

  datatype Event =
    | Accept(socket: Sock)
    | Begin(id: nat)
    | Lock(thread: Thread)
    | Wake(thread: Thread)
    | Test(thread: Thread)
    | Advance(thread: Thread)
    | Wrap(id: nat)
    | Unlock(thread: Thread)
    | SetStop

  function MasterStep(s: State, event: Event): State {
    match event
    case Accept(x) => if s.master.Accepting? then s.(master := WantsMutex, item := x) else s
    case Lock(_) => if s.master.WantsMutex? && s.owner.None? then s.(master := Testing, owner := Some(Master)) else s
    // A signal, or a spurious wake-up: the mutex has to be taken again and the test repeated.
    case Wake(_) => if s.master.Sleeping? then s.(master := WantsMutex) else s
    case Test(_) =>
      if !s.master.Testing? || |s.queue| != SIZE then s
      else if s.head - s.tail >= SIZE then s.(master := Sleeping, owner := None)
      else s.(master := Stored, queue := s.queue[Slot(s.head) := s.item])
    case Advance(_) =>
      if s.master.Stored? then s.(master := Advanced, head := s.head + 1, produced := s.produced + [s.item]) else s
    case Unlock(_) => if s.master.Advanced? then s.(master := Accepting, owner := None) else s
    case SetStop => s.(stop := true)
    case _ => s
  }

  function At(s: State, id: nat, w: WorkerState): State
    requires id < |s.workers|
  {
    s.(workers := s.workers[id := w])
  }

  function WorkerStep(s: State, id: nat, event: Event): State
    requires id < |s.workers|
  {
    var w := s.workers[id];
    match event
    case Begin(_) =>
      if w.at.Free? || w.at.Busy? then At(s, id, w.(at := if s.stop then Gone else Wanting)) else s
    case Lock(_) =>
      if w.at.Wanting? && s.owner.None? then At(s, id, w.(at := Looking)).(owner := Some(Worker(id))) else s
    case Wake(_) => if w.at.Dozing? then At(s, id, w.(at := Wanting)) else s
    case Test(_) =>
      if !w.at.Looking? || |s.queue| != SIZE then s
      else if s.head == s.tail && !s.stop then At(s, id, w.(at := Dozing)).(owner := None)
      else if s.stop then At(s, id, w.(at := Gone)).(owner := None)
      else At(s, id, WorkerState(Copied, s.queue[Slot(s.tail)]))
    case Advance(_) =>
      if w.at.Copied? then
        At(s, id, w.(at := Wrapping)).(tail := s.tail + 1, taken := s.taken + [Handover(id, w.socket)])
      else s
    case Wrap(_) =>
      if w.at.Wrapping? && s.tail > SIZE then s.(tail := s.tail - SIZE, head := s.head - SIZE) else s
    case Unlock(_) =>
      if w.at.Wrapping? && s.tail <= SIZE then At(s, id, w.(at := Busy)).(owner := None) else s
    case _ => s
  }

  function Step(s: State, event: Event): State {
    match event
    case Lock(Worker(id)) => if id < |s.workers| then WorkerStep(s, id, event) else s
    case Wake(Worker(id)) => if id < |s.workers| then WorkerStep(s, id, event) else s
    case Test(Worker(id)) => if id < |s.workers| then WorkerStep(s, id, event) else s
    case Advance(Worker(id)) => if id < |s.workers| then WorkerStep(s, id, event) else s
    case Unlock(Worker(id)) => if id < |s.workers| then WorkerStep(s, id, event) else s
    case Begin(id) => if id < |s.workers| then WorkerStep(s, id, event) else s
    case Wrap(id) => if id < |s.workers| then WorkerStep(s, id, event) else s
    case _ => MasterStep(s, event)
  }

  function Run(s: State, events: seq<Event>): State
    decreases |events|
  {
    if events == [] then s else Run(Step(s, events[0]), events[1..])
  }

  predicate MasterInside(s: State) {
    s.master.Testing? || s.master.Stored? || s.master.Advanced?
  }

  predicate WorkerInside(w: WorkerState) {
    w.at.Looking? || w.at.Copied? || w.at.Wrapping?
  }

  /** The threads inside a critical section are those that own the mutex: at most one. */
  ghost predicate Exclusive(s: State) {
    && (s.owner == Some(Master) <==> MasterInside(s))
    && (forall id | 0 <= id < |s.workers| :: s.owner == Some(Worker(id)) <==> WorkerInside(s.workers[id]))
  }

  ghost predicate InRange(s: State) {
    && |s.queue| == SIZE
    && 0 <= s.tail <= s.head <= s.tail + SIZE
    && s.head <= 2 * SIZE
    && s.tail <= SIZE + 1
    && (s.tail == SIZE + 1 ==>
          s.owner.Some? && s.owner.value.Worker? && s.owner.value.id < |s.workers|
          && s.workers[s.owner.value.id].at.Wrapping?)
  }

  /** What a thread has read or written inside its critical section is still so. */
  ghost predicate Pending(s: State)
    requires InRange(s)
  {
    && (s.master.Stored? ==> s.head - s.tail < SIZE && s.queue[Slot(s.head)] == s.item)
    && (forall id | 0 <= id < |s.workers| && s.workers[id].at.Copied? ::
          s.tail < s.head && s.workers[id].socket == s.queue[Slot(s.tail)])
    && (forall id | 0 <= id < |s.workers| && (s.workers[id].at.Busy? || s.workers[id].at.Wrapping?) ::
          Handover(id, s.workers[id].socket) in s.taken)
  }

  function Sockets(hs: seq<Handover>): (xs: seq<Sock>)
    ensures |xs| == |hs|
    ensures forall i | 0 <= i < |hs| :: xs[i] == hs[i].socket
  {
    seq(|hs|, i requires 0 <= i < |hs| => hs[i].socket)
  }

  /** What has been taken out, followed by what is in the ring, is what has been put in. */
  ghost predicate Fifo(s: State)
    requires InRange(s)
  {
    Sockets(s.taken) + Contents(s.queue, s.head, s.tail) == s.produced
  }

  ghost predicate Inv(s: State) {
    Exclusive(s) && InRange(s) && Pending(s) && Fifo(s)
  }

  lemma MasterKeeps(s: State, event: Event)
    requires Inv(s)
    ensures Inv(MasterStep(s, event))
  {
    hide Contents;
    var t := MasterStep(s, event);
    if event.Test? && s.master.Testing? && s.head - s.tail < SIZE {
      StoringOverwritesNothing(s.queue, s.head, s.tail, s.item);
    }
    if event.Advance? && s.master.Stored? {
      AdvancingAppends(s.queue, s.head, s.tail);
      Regroup(Sockets(s.taken), Contents(s.queue, s.head, s.tail), [s.item]);
    }
  }

  lemma AdvanceKeeps(s: State, id: nat)
    requires Inv(s) && id < |s.workers| && s.workers[id].at.Copied?
    ensures Inv(WorkerStep(s, id, Advance(Worker(id))))
  {
    hide Contents;
    var w := s.workers[id];
    TakingRemovesTheOldest(s.queue, s.head, s.tail);
    var h := Handover(id, w.socket);
    assert Sockets(s.taken + [h]) == Sockets(s.taken) + [w.socket];
    Regroup(Sockets(s.taken), [w.socket], Contents(s.queue, s.head, s.tail + 1));
  }

  lemma WrapKeeps(s: State, id: nat)
    requires Inv(s) && id < |s.workers| && s.workers[id].at.Wrapping? && s.tail > SIZE
    ensures Inv(WorkerStep(s, id, Wrap(id)))
  {
    hide Contents;
    WrappingKeeps(s.queue, s.head, s.tail);
    assert forall other | 0 <= other < |s.workers| && WorkerInside(s.workers[other]) :: other == id;
  }

  lemma LockKeeps(s: State, id: nat, event: Event)
    requires Inv(s) && id < |s.workers|
    requires event.Lock? || event.Unlock? || event.Begin? || event.Wake?
    ensures Inv(WorkerStep(s, id, event))
  {
    hide Contents, Slot;
  }

  lemma TestKeeps(s: State, id: nat)
    requires Inv(s) && id < |s.workers|
    ensures Inv(WorkerStep(s, id, Test(Worker(id))))
  {
    hide Contents, Slot;
  }

  lemma WorkerKeeps(s: State, id: nat, event: Event)
    requires Inv(s) && id < |s.workers|
    requires event.Lock? || event.Unlock? || event.Begin? || event.Wake? || event.Test? || event.Advance? || event.Wrap?
    ensures Inv(WorkerStep(s, id, event))
  {
    hide Inv;
    if event.Advance? && s.workers[id].at.Copied? {
      AdvanceKeeps(s, id);
    } else if event.Wrap? && s.workers[id].at.Wrapping? && s.tail > SIZE {
      WrapKeeps(s, id);
    } else if event.Test? {
      TestKeeps(s, id);
    } else if !event.Advance? && !event.Wrap? {
      LockKeeps(s, id, event);
    }
  }

  lemma {:induction false} RunKeeps(s: State, events: seq<Event>)
    requires Inv(s)
    ensures Inv(Run(s, events))
    decreases |events|
  {
    if events != [] {
      StepKeeps(s, events[0]);
      hide Inv, Step;
      RunKeeps(Step(s, events[0]), events[1..]);
    }
  }

  lemma StepKeeps(s: State, event: Event)
    requires Inv(s)
    ensures Inv(Step(s, event))
  {
    hide Inv, MasterStep, WorkerStep;
    match event
    case Lock(Worker(id)) => if id < |s.workers| { WorkerKeeps(s, id, event); }
    case Wake(Worker(id)) => if id < |s.workers| { WorkerKeeps(s, id, event); }
    case Test(Worker(id)) => if id < |s.workers| { WorkerKeeps(s, id, event); }
    case Advance(Worker(id)) => if id < |s.workers| { WorkerKeeps(s, id, event); }
    case Unlock(Worker(id)) => if id < |s.workers| { WorkerKeeps(s, id, event); }
    case Begin(id) => if id < |s.workers| { WorkerKeeps(s, id, event); }
    case Wrap(id) => if id < |s.workers| { WorkerKeeps(s, id, event); }
    case _ => MasterKeeps(s, event);
  }

  /** The server as it starts, with `n` workers and whatever the ring's memory holds. */
  ghost predicate Starts(s: State) {
    && |s.queue| == SIZE && s.head == 0 && s.tail == 0
    && s.owner.None? && s.master.Accepting? && s.produced == [] && s.taken == []
    && forall w | w in s.workers :: w.at.Free?
  }

  /**
   * Under every interleaving the ring is a FIFO queue: the sockets handed out are, in order and each to one worker
   * only, the first of those produced, and the ring holds the others; and the counters stay within two rings.
   */
  lemma RingIsAQueue(s: State, events: seq<Event>)
    requires Starts(s)
    ensures
      var t := Run(s, events);
      && InRange(t)
      && Sockets(t.taken) <= t.produced
      && Contents(t.queue, t.head, t.tail) == t.produced[|t.taken|..]
  {
    StartsWell(s);
    RunKeeps(s, events);
  }

  lemma StartsWell(s: State)
    requires Starts(s)
    ensures Inv(s)
  {
  }

  /** What a worker is serving was handed to it, and nobody else is inside a critical section with it. */
  lemma WorkersServeTheirOwn(s: State, events: seq<Event>, id: nat)
    requires Starts(s) && id < |Run(s, events).workers|
    ensures
      var t := Run(s, events);
      && (t.workers[id].at.Busy? ==> Handover(id, t.workers[id].socket) in t.taken)
      && (WorkerInside(t.workers[id]) ==>
            !MasterInside(t) && forall other | 0 <= other < |t.workers| && other != id ::
             !WorkerInside(t.workers[other]))
  {
    StartsWell(s);
    RunKeeps(s, events);
  }

  /** The two assertions of the source: past its test, the master finds room and a worker finds a socket. */
  lemma TestsAreSound(s: State, events: seq<Event>)
    requires Starts(s)
    ensures
      var t := Run(s, events);
      && (t.master.Stored? ==> t.head - t.tail < SIZE)
      && forall id | 0 <= id < |t.workers| && t.workers[id].at.Copied? :: t.head > t.tail
  {
    StartsWell(s);
    RunKeeps(s, events);
  }

  // What the tests decide

  /**
   * In every run: at its test the master waits exactly when 20 sockets are queued; a worker waits exactly when none
   * is and the server is not stopping, goes when it is (between two sockets as well), and otherwise holds the oldest
   * socket.
   */
  lemma TestsDecideExactlyWhen(s: State, events: seq<Event>, id: nat)
    requires Starts(s) && id < |Run(s, events).workers|
    ensures InRange(Run(s, events))
    ensures
      var t := Run(s, events);
      var (queued, m, w) := (Contents(t.queue, t.head, t.tail), Step(t, Test(Master)), Step(t, Test(Worker(id))));
      && (t.master.Testing? ==>
            && (m.master.Sleeping? <==> |queued| == 20)
            && (m.master.Sleeping? || m.master.Stored?)
            && (m.owner.None? <==> m.master.Sleeping?))
      && (t.workers[id].at.Free? || t.workers[id].at.Busy? ==>
            var w := t.workers[id].(at := if t.stop then Gone else Wanting);
            Step(t, Begin(id)) == t.(workers := t.workers[id := w]))
      && (t.workers[id].at.Looking? && |w.workers| == |t.workers| ==>
            && (w.workers[id].at.Dozing? <==> queued == [] && !t.stop)
            && (w.workers[id].at.Gone? <==> t.stop)
            && (w.workers[id].at.Copied? <==> queued != [] && !t.stop)
            && (w.owner.None? <==> !w.workers[id].at.Copied?)
            && (w.workers[id].at.Copied? ==> w.workers[id].socket == queued[0]))
  {
    StartsWell(s);
    RunKeeps(s, events);
  }

  /** Once the server stops, no worker begins to take out a socket: only the one that had copied it takes it out. */
  predicate OnlyFinishes(s: State, t: State) {
    && t.stop && |t.workers| == |s.workers|
    && (t.taken == s.taken ||
        exists id | 0 <= id < |s.workers| ::
          s.workers[id].at.Copied? && t.taken == s.taken + [Handover(id, s.workers[id].socket)])
  }

  ghost predicate Finishing(s: State, t: State) {
    && OnlyFinishes(s, t)
    && forall id | 0 <= id < |t.workers| && t.workers[id].at.Copied? ::
         t.taken == s.taken && s.workers[id] == t.workers[id]
  }

  lemma FinishingStep(s: State, t: State, event: Event)
    requires Finishing(s, t) && Exclusive(t)
    ensures Finishing(s, Step(t, event))
  {
    hide Slot;
  }

  lemma {:induction false} FinishingRun(s: State, t: State, events: seq<Event>)
    requires Finishing(s, t) && Inv(t)
    ensures Finishing(s, Run(t, events))
    decreases |events|
  {
    if events != [] {
      FinishingStep(s, t, events[0]);
      StepKeeps(t, events[0]);
      hide Finishing, Inv, Step;
      FinishingRun(s, Step(t, events[0]), events[1..]);
    }
  }

  /** Stopping is obeyed: whatever happens after it, at most the one socket that was being taken out is handed out. */
  lemma StopIsObeyed(s: State, before: seq<Event>, after: seq<Event>)
    requires Starts(s) && Run(s, before).stop
    ensures OnlyFinishes(Run(s, before), Run(Run(s, before), after))
  {
    StartsWell(s);
    RunKeeps(s, before);
    FinishingRun(Run(s, before), Run(s, before), after);
  }
}
