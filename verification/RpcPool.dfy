/** The pool of worker threads that serves the requests of every connection, as a step system:
    any number of workers over one shared queue, any number of connections that start, receive,
    lose their websocket and stop, each atomic action of each thread being one step. */
module RpcPool {
  import opened Basics

  /** A request in the shared queue. Its owner is what the weak handle refers to, if anything. */
  datatype Message = Message(serial: nat, conn: nat, owner: Option<nat>)

  /** The threads other than workers that take an owner's lock: a call of `stop`, and the
      websocket thread inside `processDisconnected`. */
  datatype Agent = StopCall(conn: nat) | SocketEvent(conn: nat)

  datatype Holder = Nobody | ByWorker(w: nat) | ByAgent(a: Agent)

  /** What a connection shares with the workers during one start/stop session. */
  datatype Owner = Owner(conn: nat, operational: bool, lock: Holder)

  datatype AgentPc =
    | Away
    | Waiting(o: nat)   // blocked on the owner's lock
    | Inside(o: nat)    // lock taken
    | Leaving(o: nat)   // flag cleared, lock still held
    | Passed(o: nat)    // `stop` only: lock released, owner not yet given up

  datatype Connection = Connection(owner: Option<nat>, stop: AgentPc, socket: AgentPc)

  datatype WorkerPc =
    | Popping
    | Holding(m: Message)              // popped
    | Owning(m: Message, o: nat)       // the weak handle gave an owner
    | Locked(m: Message, o: nat)       // the owner's lock is taken
    | Processing(m: Message, o: nat)   // inside processIncomingRequest
    | Releasing(o: nat)                // done with the message, lock still held
    | Exited

  datatype PoolPc = Stopped | Running | Stopping

  datatype State = State(
    pool: PoolPc,
    enabled: bool,
    queue: seq<Message>,
    workers: seq<WorkerPc>,
    owners: seq<Owner>,
    conns: seq<Connection>,
    crashed: bool,
    // history
    arrivals: seq<Message>,
    processed: seq<Message>,
    dropped: seq<Message>,
    flushed: seq<Message>)

  datatype WorkerMove = Pop | PopFails | Promote | Acquire | Check | Finish | Unlock

  datatype AgentMove = Begin | Lock | Disable | Unlock | Release

  datatype Step =
    | StartPool(n: nat) | StopPool | PoolStopped
    | WorkerStep(w: nat, does: WorkerMove)
    | StartConnection(c: nat) | Receive(c: nat)
    | AgentStep(a: Agent, act: AgentMove)

  /** `count` connections, none of them started; the queue of a new pool is enabled. */
  function Init(count: nat): State {
    State(Stopped, true, [], [], [], seq(count, i => Connection(None, Away, Away)), false, [], [], [], [])
  }

  // ---------------------------------------------------------------------------------------
  // Steps
  // ---------------------------------------------------------------------------------------

  predicate Holds(pc: WorkerPc, o: nat) {
    (pc.Owning? || pc.Locked? || pc.Processing? || pc.Releasing?) && pc.o == o
  }

  predicate InCriticalSection(pc: WorkerPc) {
    pc.Locked? || pc.Processing? || pc.Releasing?
  }

  /** Somebody has a strong handle on the owner: its connection, or a worker. */
  predicate Alive(s: State, o: nat) {
    && o < |s.owners|
    && ((s.owners[o].conn < |s.conns| && s.conns[s.owners[o].conn].owner == Some(o))
        || exists w :: 0 <= w < |s.workers| && Holds(s.workers[w], o))
  }

  function AgentAt(s: State, a: Agent): AgentPc {
    if a.conn >= |s.conns| then Away
    else if a.StopCall? then s.conns[a.conn].stop else s.conns[a.conn].socket
  }

  function MoveAgent(s: State, a: Agent, pc: AgentPc): State {
    if a.conn >= |s.conns| then s
    else
      var c := s.conns[a.conn];
      s.(conns := s.conns[a.conn := if a.StopCall? then c.(stop := pc) else c.(socket := pc)])
  }

  function SetLock(s: State, o: nat, h: Holder): State
    requires o < |s.owners|
  {
    s.(owners := s.owners[o := s.owners[o].(lock := h)])
  }

  function MoveWorker(s: State, w: nat, pc: WorkerPc): State
    requires w < |s.workers|
  {
    s.(workers := s.workers[w := pc])
  }

  predicate WorkerCan(s: State, w: nat, does: WorkerMove) {
    && w < |s.workers|
    && var pc := s.workers[w];
       match does
       case Pop => pc == Popping && s.enabled && s.queue != []
       case PopFails => pc == Popping && (!s.enabled || s.queue == [])
       case Promote => pc.Holding?
       case Acquire => pc.Owning? && pc.o < |s.owners| && s.owners[pc.o].lock == Nobody
       case Check => pc.Locked? && pc.o < |s.owners|
       case Finish => pc.Processing?
       case Unlock => pc.Releasing? && pc.o < |s.owners|
  }

  function WorkerDoes(s: State, w: nat, does: WorkerMove): State
    requires WorkerCan(s, w, does)
  {
    var pc := s.workers[w];
    match does
    case Pop => MoveWorker(s, w, Holding(s.queue[0])).(queue := s.queue[1..])
    case PopFails => MoveWorker(s, w, Exited)
    case Promote =>
      if pc.m.owner.Some? && Alive(s, pc.m.owner.value) then MoveWorker(s, w, Owning(pc.m, pc.m.owner.value))
      else MoveWorker(s, w, Popping).(dropped := s.dropped + [pc.m])
    case Acquire => SetLock(MoveWorker(s, w, Locked(pc.m, pc.o)), pc.o, ByWorker(w))
    case Check =>
      if s.owners[pc.o].operational then MoveWorker(s, w, Processing(pc.m, pc.o))
      else MoveWorker(s, w, Releasing(pc.o)).(dropped := s.dropped + [pc.m])
    case Finish => MoveWorker(s, w, Releasing(pc.o)).(processed := s.processed + [pc.m])
    case Unlock => SetLock(MoveWorker(s, w, Popping), pc.o, Nobody)
  }

  predicate AgentCan(s: State, a: Agent, act: AgentMove) {
    && a.conn < |s.conns|
    && var pc, owner := AgentAt(s, a), s.conns[a.conn].owner;
       match act
       case Begin => pc == Away && (a.StopCall? ==> owner.Some?)
       case Lock => pc.Waiting? && pc.o < |s.owners| && s.owners[pc.o].lock == Nobody
       case Disable => pc.Inside? && (owner.Some? ==> owner.value < |s.owners|)
       case Unlock => pc.Leaving? && (owner.Some? ==> owner.value < |s.owners|)
       case Release => pc.Passed?
  }

  /** Each statement reads the connection's handle on its owner again; without one, the program
      crashes. Only the mutex that is being waited for was chosen before. */
  function AgentDoes(s: State, a: Agent, act: AgentMove): State
    requires AgentCan(s, a, act)
  {
    var pc, owner := AgentAt(s, a), s.conns[a.conn].owner;
    match act
    case Begin => if owner.Some? then MoveAgent(s, a, Waiting(owner.value)) else s.(crashed := true)
    case Lock => SetLock(MoveAgent(s, a, Inside(pc.o)), pc.o, ByAgent(a))
    case Disable =>
      if owner.None? then s.(crashed := true)
      else
        var o := owner.value;
        MoveAgent(s, a, Leaving(pc.o)).(owners := s.owners[o := s.owners[o].(operational := false)])
    case Unlock =>
      if owner.None? then s.(crashed := true)
      else SetLock(MoveAgent(s, a, if a.StopCall? then Passed(pc.o) else Away), owner.value, Nobody)
    case Release => s.(conns := s.conns[a.conn := s.conns[a.conn].(owner := None, stop := Away)])
  }

  /** The steps that the code does not exclude but cannot bear: `stop` gives up the owner while the
      websocket thread is inside `processDisconnected`, or that is called without a session. */
  predicate CarelessAgent(s: State, a: Agent, act: AgentMove) {
    a.conn < |s.conns|
    && ((act.Release? && s.conns[a.conn].socket != Away)
        || (act.Begin? && a.SocketEvent? && s.conns[a.conn].owner == None))
  }

  predicate Careless(s: State, l: Step) {
    l.AgentStep? && CarelessAgent(s, l.a, l.act)
  }

  predicate Enabled(s: State, l: Step) {
    !s.crashed && match l
    case StartPool(n) => s.pool == Stopped && n > 0
    case StopPool => s.pool == Running
    case PoolStopped => s.pool == Stopping && forall w :: 0 <= w < |s.workers| ==> s.workers[w] == Exited
    case WorkerStep(w, does) => WorkerCan(s, w, does)
    case StartConnection(c) => c < |s.conns| && s.conns[c].owner == None && s.conns[c].stop == Away
    case Receive(c) => c < |s.conns| && s.conns[c].socket == Away
    case AgentStep(a, act) => AgentCan(s, a, act)
  }

  function Apply(s: State, l: Step): State
    requires Enabled(s, l)
  {
    match l
    case StartPool(n) => s.(pool := Running, enabled := true, workers := seq(n, i => Popping))
    case StopPool => s.(pool := Stopping, enabled := false)
    case PoolStopped => s.(pool := Stopped, workers := [], flushed := s.flushed + s.queue, queue := [])
    case WorkerStep(w, does) => WorkerDoes(s, w, does)
    case StartConnection(c) =>
      s.(owners := s.owners + [Owner(c, true, Nobody)],
         conns := s.conns[c := s.conns[c].(owner := Some(|s.owners|))])
    case Receive(c) =>
      var m := Message(|s.arrivals|, c, s.conns[c].owner);
      s.(queue := s.queue + [m], arrivals := s.arrivals + [m])
    case AgentStep(a, act) => AgentDoes(s, a, act)
  }

  ghost predicate Legal(s: State, ls: seq<Step>)
    decreases |ls|
  {
    ls == [] || (Enabled(s, ls[0]) && Legal(Apply(s, ls[0]), ls[1..]))
  }

  /** Where a run leads. */
  ghost function After(s: State, ls: seq<Step>): State
    requires Legal(s, ls)
    decreases |ls|
  {
    if ls == [] then s else After(Apply(s, ls[0]), ls[1..])
  }

  /** No step of the run is careless. */
  ghost predicate Orderly(s: State, ls: seq<Step>)
    requires Legal(s, ls)
    decreases |ls|
  {
    ls == [] || (!Careless(s, ls[0]) && Orderly(Apply(s, ls[0]), ls[1..]))
  }

  lemma Longer(s: State, l: Step, ls: seq<Step>)
    requires Enabled(s, l) && Legal(Apply(s, l), ls)
    ensures Legal(s, [l] + ls) && After(s, [l] + ls) == After(Apply(s, l), ls)
  {
    assert ([l] + ls)[1..] == ls;
  }

  // ---------------------------------------------------------------------------------------
  // The invariant
  // ---------------------------------------------------------------------------------------

  ghost predicate AgentHolds(pc: AgentPc, o: nat) {
    (pc.Inside? || pc.Leaving?) && pc.o == o
  }

  /** A worker's program counter agrees with the owner's lock, and with its flag while the
      request is being processed. */
  ghost predicate WorkerOk(s: State, w: nat)
    requires w < |s.workers|
  {
    var pc := s.workers[w];
    && (pc.Owning? || InCriticalSection(pc) ==> pc.o < |s.owners|)
    && (pc.Owning? || pc.Locked? || pc.Processing? ==> pc.m.owner == Some(pc.o))
    && (InCriticalSection(pc) ==> s.owners[pc.o].lock == ByWorker(w))
    && (pc.Processing? ==> s.owners[pc.o].operational)
  }

  ghost predicate AgentOk(s: State, a: Agent) {
    var pc := AgentAt(s, a);
    && (pc != Away ==> pc.o < |s.owners| && s.owners[pc.o].conn == a.conn)
    && (pc.Inside? || pc.Leaving? ==> s.owners[pc.o].lock == ByAgent(a))
    && (pc.Leaving? || pc.Passed? ==> !s.owners[pc.o].operational)
    && (pc.Passed? ==> a.StopCall?)
    && (pc != Away ==> s.conns[a.conn].owner == Some(pc.o))
  }

  /** An operational owner is the current one of its connection. */
  ghost predicate SessionOk(s: State, o: nat)
    requires o < |s.owners|
  {
    s.owners[o].conn < |s.conns| && (s.owners[o].operational ==> s.conns[s.owners[o].conn].owner == Some(o))
  }

  /** The holder of a lock is inside the matching critical section. */
  ghost predicate LockOk(s: State, o: nat)
    requires o < |s.owners|
  {
    match s.owners[o].lock
    case Nobody => true
    case ByWorker(w) => w < |s.workers| && InCriticalSection(s.workers[w]) && s.workers[w].o == o
    case ByAgent(a) => a.conn < |s.conns| && AgentHolds(AgentAt(s, a), o)
  }

  ghost predicate OwnerOk(s: State, o: nat)
    requires o < |s.owners|
  {
    SessionOk(s, o) && LockOk(s, o)
  }

  ghost predicate ConnectionOk(s: State, c: nat)
    requires c < |s.conns|
  {
    var k := s.conns[c];
    k.owner.Some? ==> k.owner.value < |s.owners| && s.owners[k.owner.value].conn == c
  }

  ghost predicate MessageOk(s: State, m: Message) {
    && m.serial < |s.arrivals| && s.arrivals[m.serial] == m
    && (m.owner.Some? ==> m.owner.value < |s.owners| && s.owners[m.owner.value].conn == m.conn)
  }

  ghost predicate PoolOk(s: State) {
    && (s.pool == Stopped ==> s.workers == [])
    && (s.pool == Running ==> s.enabled)
    && (s.pool == Stopping ==> !s.enabled)
  }

  ghost predicate Inv(s: State) {
    && !s.crashed && PoolOk(s)
    && (forall w :: 0 <= w < |s.workers| ==> WorkerOk(s, w))
    && (forall a :: AgentOk(s, a))
    && (forall o :: 0 <= o < |s.owners| ==> OwnerOk(s, o))
    && (forall c :: 0 <= c < |s.conns| ==> ConnectionOk(s, c))
    && (forall i :: 0 <= i < |s.arrivals| ==> s.arrivals[i].serial == i && MessageOk(s, s.arrivals[i]))
    && (forall w :: 0 <= w < |s.workers| && Carries(s.workers[w]) ==> MessageOk(s, s.workers[w].m))
    && (forall i :: 0 <= i < |s.queue| ==> MessageOk(s, s.queue[i]))
  }

  /** The worker is responsible for a message whose fate is not decided yet. */
  predicate Carries(pc: WorkerPc) {
    pc.Holding? || pc.Owning? || pc.Locked? || pc.Processing?
  }

  lemma InitKeepsInv(count: nat)
    ensures Inv(Init(count))
  {
  }

  // One component of the invariant, one kind of step at a time.

  lemma WorkerAfterWorkerStep(s: State, v: nat, does: WorkerMove, w: nat)
    requires WorkerCan(s, v, does) && WorkerOk(s, v) && w < |s.workers| && WorkerOk(s, w)
    ensures |WorkerDoes(s, v, does).workers| == |s.workers| && WorkerOk(WorkerDoes(s, v, does), w)
  {
  }

  lemma AgentAfterWorkerStep(s: State, v: nat, does: WorkerMove, a: Agent)
    requires WorkerCan(s, v, does) && WorkerOk(s, v) && AgentOk(s, a)
    ensures AgentOk(WorkerDoes(s, v, does), a)
  {
    hide Alive;
  }

  lemma LockAfterWorkerStep(s: State, v: nat, does: WorkerMove, o: nat)
    requires WorkerCan(s, v, does) && WorkerOk(s, v) && o < |s.owners| && LockOk(s, o)
    ensures |WorkerDoes(s, v, does).owners| == |s.owners| && LockOk(WorkerDoes(s, v, does), o)
  {
    hide Alive;
  }

  lemma OwnerAfterWorkerStep(s: State, v: nat, does: WorkerMove, o: nat)
    requires WorkerCan(s, v, does) && WorkerOk(s, v) && o < |s.owners| && OwnerOk(s, o)
    ensures |WorkerDoes(s, v, does).owners| == |s.owners| && OwnerOk(WorkerDoes(s, v, does), o)
  {
    hide Alive, LockOk;
    LockAfterWorkerStep(s, v, does, o);
  }

  lemma MessageAfterWorkerStep(s: State, v: nat, does: WorkerMove, m: Message)
    requires WorkerCan(s, v, does) && MessageOk(s, m)
    ensures MessageOk(WorkerDoes(s, v, does), m)
  {
    hide Alive;
  }

  lemma WorkerAfterAgentStep(s: State, b: Agent, act: AgentMove, w: nat)
    requires AgentCan(s, b, act) && AgentOk(s, b) && w < |s.workers| && WorkerOk(s, w)
    ensures AgentDoes(s, b, act).workers == s.workers && WorkerOk(AgentDoes(s, b, act), w)
  {
  }

  lemma AgentAfterOwnStep(s: State, b: Agent, act: AgentMove)
    requires AgentCan(s, b, act) && AgentOk(s, b) && ConnectionOk(s, b.conn) && !CarelessAgent(s, b, act)
    ensures AgentOk(AgentDoes(s, b, act), b)
  {
  }

  lemma AgentAfterOthersStep(s: State, b: Agent, act: AgentMove, a: Agent)
    requires AgentCan(s, b, act) && AgentOk(s, b) && AgentOk(s, a) && a != b && !CarelessAgent(s, b, act)
    ensures AgentOk(AgentDoes(s, b, act), a)
  {
  }

  lemma AgentAfterAgentStep(s: State, b: Agent, act: AgentMove, a: Agent)
    requires AgentCan(s, b, act) && AgentOk(s, b) && ConnectionOk(s, b.conn) && AgentOk(s, a)
    requires !CarelessAgent(s, b, act)
    ensures AgentOk(AgentDoes(s, b, act), a)
  {
    hide AgentDoes, AgentOk, AgentCan;
    if a == b {
      AgentAfterOwnStep(s, b, act);
    } else {
      AgentAfterOthersStep(s, b, act, a);
    }
  }

  lemma LockAfterAgentStep(s: State, b: Agent, act: AgentMove, o: nat)
    requires AgentCan(s, b, act) && AgentOk(s, b) && o < |s.owners| && LockOk(s, o)
    ensures |AgentDoes(s, b, act).owners| == |s.owners| && LockOk(AgentDoes(s, b, act), o)
  {
  }

  lemma OwnerAfterAgentStep(s: State, b: Agent, act: AgentMove, o: nat)
    requires AgentCan(s, b, act) && AgentOk(s, b) && o < |s.owners| && OwnerOk(s, o)
    ensures |AgentDoes(s, b, act).owners| == |s.owners| && OwnerOk(AgentDoes(s, b, act), o)
  {
    hide LockOk;
    LockAfterAgentStep(s, b, act, o);
  }

  /** What an agent's step leaves alone. */
  lemma AgentStepFrame(s: State, a: Agent, act: AgentMove)
    requires AgentCan(s, a, act)
    ensures var s' := AgentDoes(s, a, act);
            && s'.workers == s.workers && s'.queue == s.queue && s'.arrivals == s.arrivals
            && s'.pool == s.pool && s'.enabled == s.enabled
            && |s'.owners| == |s.owners| && |s'.conns| == |s.conns|
            && (forall o :: 0 <= o < |s.owners| ==> s'.owners[o].conn == s.owners[o].conn)
            && (forall o :: 0 <= o < |s.owners| && s'.owners[o].operational ==> s.owners[o].operational)
            && (forall c :: 0 <= c < |s.conns| && c != a.conn ==> s'.conns[c] == s.conns[c])
            && (forall c :: 0 <= c < |s.conns| ==> s'.conns[c].owner == s.conns[c].owner || s'.conns[c].owner == None)
  {
  }

  lemma NoCrash(s: State, b: Agent, act: AgentMove)
    requires AgentCan(s, b, act) && AgentOk(s, b) && !CarelessAgent(s, b, act)
    ensures AgentDoes(s, b, act).crashed == s.crashed
  {
  }

  lemma RestAfterAgentStep(s: State, b: Agent, act: AgentMove, c: nat, m: Message)
    requires AgentCan(s, b, act)
    ensures var s' := AgentDoes(s, b, act);
            && (MessageOk(s, m) ==> MessageOk(s', m))
            && |s'.conns| == |s.conns| && (c < |s.conns| && ConnectionOk(s, c) ==> ConnectionOk(s', c))
  {
    AgentStepFrame(s, b, act);
    hide AgentDoes, AgentCan;
  }

  lemma WorkerStepKeepsInv(s: State, v: nat, does: WorkerMove)
    requires Inv(s) && WorkerCan(s, v, does)
    ensures Inv(WorkerDoes(s, v, does))
  {
    var s' := WorkerDoes(s, v, does);
    assert WorkerOk(s, v);
    QueueAfterWorkerStep(s, v, does);
    hide WorkerDoes, WorkerOk, AgentOk, OwnerOk, MessageOk;
    forall w | 0 <= w < |s'.workers|
      ensures WorkerOk(s', w) && (Carries(s'.workers[w]) ==> MessageOk(s', s'.workers[w].m))
    {
      WorkerAfterWorkerStep(s, v, does, w);
      if Carries(s'.workers[w]) {
        MessageAfterWorkerStep(s, v, does, s'.workers[w].m);
      }
    }
    forall a ensures AgentOk(s', a) {
      AgentAfterWorkerStep(s, v, does, a);
    }
    forall o | 0 <= o < |s'.owners| ensures OwnerOk(s', o) {
      OwnerAfterWorkerStep(s, v, does, o);
    }
    forall c | 0 <= c < |s'.conns| ensures ConnectionOk(s', c) {
      assert ConnectionOk(s, c);
    }
    forall i | 0 <= i < |s'.arrivals| ensures s'.arrivals[i].serial == i && MessageOk(s', s'.arrivals[i]) {
      MessageAfterWorkerStep(s, v, does, s'.arrivals[i]);
    }
    forall i | 0 <= i < |s'.queue| ensures MessageOk(s', s'.queue[i]) {
      MessageAfterWorkerStep(s, v, does, s'.queue[i]);
    }
  }

  lemma QueueAfterWorkerStep(s: State, v: nat, does: WorkerMove)
    requires WorkerCan(s, v, does)
    ensures var s' := WorkerDoes(s, v, does);
            && s'.pool == s.pool && s'.enabled == s.enabled && s'.conns == s.conns && s'.arrivals == s.arrivals
            && s'.crashed == s.crashed
            && |s'.workers| == |s.workers| && |s'.owners| == |s.owners|
            && (forall o :: 0 <= o < |s.owners| ==> s'.owners[o].conn == s.owners[o].conn)
            && (s'.queue == s.queue || (s.queue != [] && s'.queue == s.queue[1..]))
            && (forall w :: 0 <= w < |s.workers| && Carries(s'.workers[w]) ==>
                 || (Carries(s.workers[w]) && s'.workers[w].m == s.workers[w].m)
                 || (s.queue != [] && s'.workers[w].m == s.queue[0]))
  {
    hide Alive;
  }

  lemma AgentStepKeepsInv(s: State, b: Agent, act: AgentMove)
    requires Inv(s) && AgentCan(s, b, act) && !CarelessAgent(s, b, act)
    ensures Inv(AgentDoes(s, b, act))
  {
    var s' := AgentDoes(s, b, act);
    assert AgentOk(s, b) && ConnectionOk(s, b.conn);
    forall m ensures MessageOk(s, m) ==> MessageOk(s', m) {
      RestAfterAgentStep(s, b, act, 0, m);
    }
    forall c | 0 <= c < |s.conns| ensures ConnectionOk(s, c) ==> ConnectionOk(s', c) {
      RestAfterAgentStep(s, b, act, c, Message(0, 0, None));
    }
    AgentStepFrame(s, b, act);
    NoCrash(s, b, act);
    hide AgentDoes, WorkerOk, AgentOk, OwnerOk, MessageOk, ConnectionOk;
    forall w | 0 <= w < |s'.workers|
      ensures WorkerOk(s', w) && (Carries(s'.workers[w]) ==> MessageOk(s', s'.workers[w].m))
    {
      WorkerAfterAgentStep(s, b, act, w);
    }
    forall c | 0 <= c < |s'.conns| ensures ConnectionOk(s', c) {
      assert ConnectionOk(s, c);
    }
    forall i | 0 <= i < |s'.arrivals| ensures s'.arrivals[i].serial == i && MessageOk(s', s'.arrivals[i]) {
      assert MessageOk(s, s.arrivals[i]);
    }
    forall i | 0 <= i < |s'.queue| ensures MessageOk(s', s'.queue[i]) {
      assert MessageOk(s, s.queue[i]);
    }
    forall a ensures AgentOk(s', a) {
      AgentAfterAgentStep(s, b, act, a);
    }
    forall o | 0 <= o < |s'.owners| ensures OwnerOk(s', o) {
      OwnerAfterAgentStep(s, b, act, o);
    }
  }

  lemma StepKeepsInv(s: State, l: Step)
    requires Inv(s) && Enabled(s, l) && !Careless(s, l)
    ensures Inv(Apply(s, l))
  {
    match l
    case WorkerStep(w, does) => WorkerStepKeepsInv(s, w, does);
    case AgentStep(a, act) => AgentStepKeepsInv(s, a, act);
    case StartConnection(c) => StartingKeepsInv(s, c);
    case Receive(c) => ReceivingKeepsInv(s, c);
    case _ => PoolStepKeepsInv(s, l);
  }

  lemma PoolStepKeepsInv(s: State, l: Step)
    requires Inv(s) && Enabled(s, l) && (l.StartPool? || l.StopPool? || l.PoolStopped?)
    ensures Inv(Apply(s, l))
  {
    var s' := Apply(s, l);
    forall m ensures MessageOk(s', m) == MessageOk(s, m) {}
    forall c | 0 <= c < |s.conns| ensures ConnectionOk(s', c) {
      assert ConnectionOk(s, c);
    }
    forall a ensures AgentOk(s', a) {
      assert AgentOk(s, a);
    }
    forall o | 0 <= o < |s.owners| ensures OwnerOk(s', o) {
      assert OwnerOk(s, o);
    }
    if l.StopPool? {
      forall w | 0 <= w < |s.workers| ensures WorkerOk(s', w) {
        assert WorkerOk(s, w);
      }
    }
  }

  lemma StartingKeepsInv(s: State, c: nat)
    requires Inv(s) && Enabled(s, StartConnection(c))
    ensures Inv(Apply(s, StartConnection(c)))
  {
    var s' := Apply(s, StartConnection(c));
    forall m ensures MessageOk(s, m) ==> MessageOk(s', m) {}
    forall k | 0 <= k < |s.conns| ensures ConnectionOk(s', k) {
      assert ConnectionOk(s, k);
    }
    forall a ensures AgentOk(s', a) {
      assert AgentOk(s, a);
    }
    forall o | 0 <= o < |s'.owners| ensures OwnerOk(s', o) {
      assert o < |s.owners| ==> OwnerOk(s, o);
    }
    forall w | 0 <= w < |s.workers| ensures WorkerOk(s', w) {
      assert WorkerOk(s, w);
    }
  }

  lemma ReceivingKeepsInv(s: State, c: nat)
    requires Inv(s) && Enabled(s, Receive(c))
    ensures Inv(Apply(s, Receive(c)))
  {
    var s' := Apply(s, Receive(c));
    assert ConnectionOk(s, c);
    forall m ensures MessageOk(s, m) ==> MessageOk(s', m) {}
    assert MessageOk(s', s'.arrivals[|s.arrivals|]);
    forall k | 0 <= k < |s.conns| ensures ConnectionOk(s', k) {
      assert ConnectionOk(s, k);
    }
    forall a ensures AgentOk(s', a) {
      assert AgentOk(s, a);
    }
    forall o | 0 <= o < |s.owners| ensures OwnerOk(s', o) {
      assert OwnerOk(s, o);
    }
    forall w | 0 <= w < |s.workers| ensures WorkerOk(s', w) {
      assert WorkerOk(s, w);
    }
  }

  /** Whatever the interleaving. */
  lemma {:induction false} RunKeepsInv(s: State, ls: seq<Step>)
    requires Inv(s) && Legal(s, ls) && Orderly(s, ls)
    ensures Inv(After(s, ls))
    decreases |ls|
  {
    if ls != [] {
      StepKeepsInv(s, ls[0]);
      RunKeepsInv(Apply(s, ls[0]), ls[1..]);
    }
  }

  // ---------------------------------------------------------------------------------------
  // Safety
  // ---------------------------------------------------------------------------------------

  /** Worker `w` processes a request under the lock of the request's own session, which is the
      current session of its connection and still operational. */
  ghost predicate Guarded(s: State, w: nat)
    requires w < |s.workers| && s.workers[w].Processing?
  {
    var m, o := s.workers[w].m, s.workers[w].o;
    && m.owner == Some(o) && o < |s.owners| && s.owners[o] == Owner(m.conn, true, ByWorker(w))
    && m.conn < |s.conns| && s.conns[m.conn].owner == Some(o)
  }

  /** The program has not crashed, and whatever is processed is processed so. */
  ghost predicate Safe(s: State) {
    && !s.crashed
    && forall w :: 0 <= w < |s.workers| && s.workers[w].Processing? ==> Guarded(s, w)
  }

  lemma InvMeansSafe(s: State)
    requires Inv(s)
    ensures Safe(s)
  {
    forall w | 0 <= w < |s.workers| && s.workers[w].Processing? ensures Guarded(s, w) {
      assert WorkerOk(s, w) && OwnerOk(s, s.workers[w].o) && MessageOk(s, s.workers[w].m);
    }
  }

  /** So does everybody in every orderly run, and no two workers process requests of one connection. */
  lemma ProcessingIsGuarded(count: nat, ls: seq<Step>, w: nat)
    requires Legal(Init(count), ls) && Orderly(Init(count), ls)
    requires var s := After(Init(count), ls); w < |s.workers| && s.workers[w].Processing?
    ensures var s := After(Init(count), ls);
            var m := s.workers[w].m;
            && Guarded(s, w) && m.conn < count == |s.conns|
            && forall v :: 0 <= v < |s.workers| && s.workers[v].Processing? && s.workers[v].m.conn == m.conn ==> v == w
  {
    InitKeepsInv(count);
    RunKeepsInv(Init(count), ls);
    ConnectionsStay(Init(count), ls);
    var s := After(Init(count), ls);
    InvMeansSafe(s);
    assert Guarded(s, w);
    forall v | 0 <= v < |s.workers| && s.workers[v].Processing? && s.workers[v].m.conn == s.workers[w].m.conn
      ensures v == w
    {
      assert Guarded(s, v);
    }
  }

  lemma {:induction false} ConnectionsStay(s: State, ls: seq<Step>)
    requires Legal(s, ls)
    ensures |After(s, ls).conns| == |s.conns|
    decreases |ls|
  {
    if ls != [] {
      ConnectionsStay(Apply(s, ls[0]), ls[1..]);
    }
  }

  /** No session of connection `c` is operational. */
  ghost predicate Dead(s: State, c: nat) {
    forall o :: 0 <= o < |s.owners| && s.owners[o].conn == c ==> !s.owners[o].operational
  }

  ghost predicate NeverStarts(ls: seq<Step>, c: nat) {
    forall i :: 0 <= i < |ls| ==> ls[i] != StartConnection(c)
  }

  lemma {:induction false} DeadStaysDead(s: State, ls: seq<Step>, c: nat)
    requires Legal(s, ls) && Dead(s, c) && NeverStarts(ls, c)
    ensures Dead(After(s, ls), c)
    decreases |ls|
  {
    if ls != [] {
      assert ls[0] != StartConnection(c);
      RestNeverStarts(ls, c);
      DeadStaysDead(Apply(s, ls[0]), ls[1..], c);
    }
  }

  lemma RestNeverStarts(ls: seq<Step>, c: nat)
    requires ls != [] && NeverStarts(ls, c)
    ensures NeverStarts(ls[1..], c)
  {
    assert forall i :: 0 <= i < |ls[1..]| ==> ls[1..][i] == ls[i + 1];
  }

  lemma {:induction false} DisabledForever(s: State, ls: seq<Step>, o: nat)
    requires Legal(s, ls) && o < |s.owners| && !s.owners[o].operational
    ensures o < |After(s, ls).owners| && !After(s, ls).owners[o].operational
    decreases |ls|
  {
    if ls != [] {
      DisabledForever(Apply(s, ls[0]), ls[1..], o);
    }
  }

  // What follows holds in every run, orderly or not.

  /** While `stop` is at work the owner is the one it found, which it disables in passing. */
  ghost predicate StopOk(s: State, c: nat)
    requires c < |s.conns|
  {
    var k := s.conns[c];
    && ConnectionOk(s, c)
    && (k.stop != Away ==> k.owner == Some(k.stop.o))
    && (k.stop.Leaving? || k.stop.Passed? ==> !s.owners[k.stop.o].operational)
    && !k.socket.Passed?
  }

  ghost predicate Addressed(s: State, m: Message) {
    m.owner.Some? ==> m.owner.value < |s.owners| && s.owners[m.owner.value].conn == m.conn
  }

  ghost predicate CarrierOk(s: State, pc: WorkerPc) {
    Carries(pc) ==> Addressed(s, pc.m) && (pc.Holding? || pc.m.owner == Some(pc.o))
  }

  ghost predicate Sessions(s: State) {
    && (forall o :: 0 <= o < |s.owners| ==> SessionOk(s, o))
    && (forall c :: 0 <= c < |s.conns| ==> StopOk(s, c))
    && (forall w :: 0 <= w < |s.workers| ==> CarrierOk(s, s.workers[w]))
    && (forall i :: 0 <= i < |s.queue| ==> Addressed(s, s.queue[i]))
  }

  lemma WorkerKeepsSessions(s: State, v: nat, does: WorkerMove)
    requires Sessions(s) && WorkerCan(s, v, does)
    ensures Sessions(WorkerDoes(s, v, does))
  {
    var s' := WorkerDoes(s, v, does);
    WorkerKeepsAddress(s, v, does);
    hide Alive;
    forall o | 0 <= o < |s'.owners| ensures SessionOk(s', o) {
      assert SessionOk(s, o);
    }
    forall c | 0 <= c < |s'.conns| ensures StopOk(s', c) {
      assert StopOk(s, c);
    }
    hide WorkerDoes, CarrierOk, Addressed;
    forall w | 0 <= w < |s'.workers| ensures CarrierOk(s', s'.workers[w]) {
      assert CarrierOk(s, s.workers[w]);
    }
  }

  /** The workers' and the queue's part of it. */
  lemma WorkerKeepsAddress(s: State, v: nat, does: WorkerMove)
    requires Sessions(s) && WorkerCan(s, v, does)
    ensures var s' := WorkerDoes(s, v, does);
            && |s'.workers| == |s.workers| && |s'.owners| == |s.owners| && s'.conns == s.conns
            && (forall m :: Addressed(s', m) == Addressed(s, m))
            && CarrierOk(s', s'.workers[v])
            && (forall w :: 0 <= w < |s.workers| && w != v ==> s'.workers[w] == s.workers[w])
            && (forall pc :: CarrierOk(s', pc) == CarrierOk(s, pc))
            && (s'.queue == s.queue || (s.queue != [] && s'.queue == s.queue[1..]))
  {
    hide Alive;
    assert CarrierOk(s, s.workers[v]);
    var s' := WorkerDoes(s, v, does);
    assert forall o :: 0 <= o < |s.owners| ==> s'.owners[o].conn == s.owners[o].conn;
    hide WorkerDoes;
    forall m ensures Addressed(s', m) == Addressed(s, m) {}
  }

  lemma SessionAfterAgentStep(s: State, a: Agent, act: AgentMove, o: nat)
    requires AgentCan(s, a, act) && StopOk(s, a.conn) && o < |s.owners| && SessionOk(s, o)
    ensures |AgentDoes(s, a, act).owners| == |s.owners| && SessionOk(AgentDoes(s, a, act), o)
  {
  }

  lemma StopAfterOwnStep(s: State, a: Agent, act: AgentMove)
    requires AgentCan(s, a, act) && StopOk(s, a.conn)
    ensures |AgentDoes(s, a, act).conns| == |s.conns| && StopOk(AgentDoes(s, a, act), a.conn)
  {
    AgentStepFrame(s, a, act);
    if a.SocketEvent? {
      assert AgentDoes(s, a, act).conns[a.conn].stop == s.conns[a.conn].stop;
      hide AgentDoes;
    }
  }

  lemma StopAfterAgentStep(s: State, a: Agent, act: AgentMove, c: nat)
    requires AgentCan(s, a, act) && StopOk(s, a.conn) && c < |s.conns| && StopOk(s, c)
    ensures |AgentDoes(s, a, act).conns| == |s.conns| && StopOk(AgentDoes(s, a, act), c)
  {
    hide AgentDoes, AgentCan;
    if c == a.conn {
      StopAfterOwnStep(s, a, act);
    } else {
      AgentStepFrame(s, a, act);
    }
  }

  lemma AgentKeepsSessions(s: State, a: Agent, act: AgentMove)
    requires Sessions(s) && AgentCan(s, a, act)
    ensures Sessions(AgentDoes(s, a, act))
  {
    var s' := AgentDoes(s, a, act);
    AgentStepFrame(s, a, act);
    hide AgentDoes, AgentCan, SessionOk, StopOk;
    forall m ensures Addressed(s, m) ==> Addressed(s', m) {}
    hide Addressed;
    forall o | 0 <= o < |s'.owners| ensures SessionOk(s', o) {
      SessionAfterAgentStep(s, a, act, o);
    }
    forall c | 0 <= c < |s'.conns| ensures StopOk(s', c) {
      StopAfterAgentStep(s, a, act, c);
    }
    forall w | 0 <= w < |s'.workers| ensures CarrierOk(s', s'.workers[w]) {
      assert CarrierOk(s, s.workers[w]);
    }
  }

  lemma ReceivingKeepsSessions(s: State, c: nat)
    requires Sessions(s) && Enabled(s, Receive(c))
    ensures Sessions(Apply(s, Receive(c)))
  {
    var s' := Apply(s, Receive(c));
    assert StopOk(s, c);
    forall m ensures Addressed(s, m) == Addressed(s', m) {}
    forall o | 0 <= o < |s.owners| ensures SessionOk(s', o) {
      assert SessionOk(s, o);
    }
    forall k | 0 <= k < |s.conns| ensures StopOk(s', k) {
      assert StopOk(s, k);
    }
    forall w | 0 <= w < |s.workers| ensures CarrierOk(s', s.workers[w]) {
      assert CarrierOk(s, s.workers[w]);
    }
  }

  lemma QuietStepKeepsSessions(s: State, l: Step)
    requires Sessions(s) && Enabled(s, l) && !l.WorkerStep? && !l.AgentStep? && !l.Receive?
    ensures Sessions(Apply(s, l))
  {
    var s' := Apply(s, l);
    forall o | 0 <= o < |s'.owners| ensures SessionOk(s', o) {
      assert o < |s.owners| ==> SessionOk(s, o);
    }
    forall c | 0 <= c < |s'.conns| ensures StopOk(s', c) {
      assert StopOk(s, c);
    }
    forall m ensures Addressed(s, m) ==> Addressed(s', m) {}
    forall pc ensures CarrierOk(s, pc) ==> CarrierOk(s', pc) {}
  }

  lemma StepKeepsSessions(s: State, l: Step)
    requires Sessions(s) && Enabled(s, l)
    ensures Sessions(Apply(s, l))
  {
    match l
    case WorkerStep(w, does) => WorkerKeepsSessions(s, w, does);
    case AgentStep(a, act) => AgentKeepsSessions(s, a, act);
    case Receive(c) => ReceivingKeepsSessions(s, c);
    case _ => QuietStepKeepsSessions(s, l);
  }

  lemma {:induction false} RunKeepsSessions(s: State, ls: seq<Step>)
    requires Sessions(s) && Legal(s, ls)
    ensures Sessions(After(s, ls))
    decreases |ls|
  {
    if ls != [] {
      StepKeepsSessions(s, ls[0]);
      RunKeepsSessions(Apply(s, ls[0]), ls[1..]);
    }
  }

  /** No worker processes a request of session `o`, and none ever will. */
  ghost predicate SessionLeft(s: State, o: nat) {
    && o < |s.owners| && !s.owners[o].operational
    && forall w :: 0 <= w < |s.workers| && s.workers[w].Processing? ==> s.workers[w].o != o
  }

  lemma WorkerKeepsSessionLeft(s: State, w: nat, does: WorkerMove, o: nat)
    requires WorkerCan(s, w, does) && SessionLeft(s, o)
    ensures SessionLeft(WorkerDoes(s, w, does), o)
  {
    hide Alive;
  }

  lemma StepKeepsSessionLeft(s: State, l: Step, o: nat)
    requires Enabled(s, l) && SessionLeft(s, o)
    ensures SessionLeft(Apply(s, l), o)
  {
    hide WorkerDoes, WorkerCan;
    if l.WorkerStep? {
      WorkerKeepsSessionLeft(s, l.w, l.does, o);
    }
  }

  lemma {:induction false} SessionStaysLeft(s: State, ls: seq<Step>, o: nat)
    requires Legal(s, ls) && SessionLeft(s, o)
    ensures SessionLeft(After(s, ls), o)
    decreases |ls|
  {
    if ls != [] {
      StepKeepsSessionLeft(s, ls[0], o);
      SessionStaysLeft(Apply(s, ls[0]), ls[1..], o);
    }
  }

  /** No worker processes a request of connection `c`, nor will before it is started again. */
  ghost predicate ConnectionLeft(s: State, c: nat) {
    Dead(s, c) && forall w :: 0 <= w < |s.workers| && s.workers[w].Processing? ==> s.workers[w].m.conn != c
  }

  lemma WorkerKeepsConnectionLeft(s: State, w: nat, does: WorkerMove, c: nat)
    requires Sessions(s) && WorkerCan(s, w, does) && ConnectionLeft(s, c)
    ensures ConnectionLeft(WorkerDoes(s, w, does), c)
  {
    assert CarrierOk(s, s.workers[w]);
    hide Alive, Sessions;
  }

  lemma StepKeepsConnectionLeft(s: State, l: Step, c: nat)
    requires Sessions(s) && Enabled(s, l) && ConnectionLeft(s, c) && l != StartConnection(c)
    ensures ConnectionLeft(Apply(s, l), c)
  {
    hide Alive, Sessions, WorkerDoes;
    if l.WorkerStep? {
      WorkerKeepsConnectionLeft(s, l.w, l.does, c);
    }
  }

  lemma {:induction false} ConnectionStaysLeft(s: State, ls: seq<Step>, c: nat)
    requires Sessions(s) && Legal(s, ls) && ConnectionLeft(s, c) && NeverStarts(ls, c)
    ensures ConnectionLeft(After(s, ls), c)
    decreases |ls|
  {
    if ls != [] {
      assert ls[0] != StartConnection(c);
      RestNeverStarts(ls, c);
      StepKeepsSessions(s, ls[0]);
      StepKeepsConnectionLeft(s, ls[0], c);
      ConnectionStaysLeft(Apply(s, ls[0]), ls[1..], c);
    }
  }

  lemma InvMeansSessions(s: State)
    requires Inv(s)
    ensures Sessions(s)
  {
    forall o | 0 <= o < |s.owners| ensures SessionOk(s, o) {
      assert OwnerOk(s, o);
    }
    forall c | 0 <= c < |s.conns| ensures StopOk(s, c) {
      assert ConnectionOk(s, c) && AgentOk(s, StopCall(c)) && AgentOk(s, SocketEvent(c));
    }
    forall w | 0 <= w < |s.workers| ensures CarrierOk(s, s.workers[w]) {
      assert WorkerOk(s, w);
    }
    forall i | 0 <= i < |s.queue| ensures Addressed(s, s.queue[i]) {
      assert MessageOk(s, s.queue[i]);
    }
  }

  /** A connection without an operational session is left alone. */
  lemma DeadMeansLeft(s: State, c: nat)
    requires Inv(s) && Dead(s, c)
    ensures ConnectionLeft(s, c)
  {
    forall w | 0 <= w < |s.workers| && s.workers[w].Processing? ensures s.workers[w].m.conn != c {
      assert WorkerOk(s, w) && MessageOk(s, s.workers[w].m);
    }
  }

  /** Once `stop` has passed its lock section in an orderly run, no worker processes a request of
      that session again, and none of that connection at all until it is started again: whatever
      happens later. */
  lemma StoppedConnectionIsLeftAlone(count: nat, before: seq<Step>, c: nat, after: seq<Step>, w: nat)
    requires Legal(Init(count), before) && Orderly(Init(count), before)
    requires var s := After(Init(count), before);
             && c < |s.conns| && s.conns[c].stop.Passed?
             && Legal(s, after) && w < |After(s, after).workers| && After(s, after).workers[w].Processing?
    ensures var s := After(Init(count), before);
            var pc := After(s, after).workers[w];
            && pc.o != s.conns[c].stop.o
            && (NeverStarts(after, c) ==> pc.m.conn != c)
  {
    InitKeepsInv(count);
    RunKeepsInv(Init(count), before);
    var s := After(Init(count), before);
    assert AgentOk(s, StopCall(c));
    var o := s.conns[c].stop.o;
    forall v | 0 <= v < |s.workers| && s.workers[v].Processing? ensures s.workers[v].o != o {
      assert WorkerOk(s, v);
    }
    SessionStaysLeft(s, after, o);
    forall p | 0 <= p < |s.owners| && s.owners[p].conn == c ensures !s.owners[p].operational {
      assert OwnerOk(s, p);
    }
    DeadMeansLeft(s, c);
    InvMeansSessions(s);
    if NeverStarts(after, c) {
      ConnectionStaysLeft(s, after, c);
    }
  }

  /** After an orderly run, no worker processes a request of a connection that has no session, until
      one is started, whatever happens meanwhile: the object behind it may be destroyed. */
  lemma ConnectionWithoutSessionIsLeftAlone(count: nat, before: seq<Step>, c: nat, after: seq<Step>, w: nat)
    requires Legal(Init(count), before) && Orderly(Init(count), before)
    requires var s := After(Init(count), before);
             && c < |s.conns| && s.conns[c].owner == None && NeverStarts(after, c)
             && Legal(s, after) && w < |After(s, after).workers| && After(s, after).workers[w].Processing?
    ensures After(After(Init(count), before), after).workers[w].m.conn != c
  {
    InitKeepsInv(count);
    RunKeepsInv(Init(count), before);
    var s := After(Init(count), before);
    forall p | 0 <= p < |s.owners| && s.owners[p].conn == c ensures !s.owners[p].operational {
      assert OwnerOk(s, p);
    }
    DeadMeansLeft(s, c);
    InvMeansSessions(s);
    ConnectionStaysLeft(s, after, c);
  }

  // ---------------------------------------------------------------------------------------
  // Careless steps
  // ---------------------------------------------------------------------------------------

  /** The websocket thread of `c` is inside `processDisconnected`, the owner is given up, and what
      keeps the thread from going on is at most a worker about to release the lock. */
  ghost predicate Doomed(s: State, c: nat) {
    && !s.crashed && c < |s.conns| && s.conns[c].owner == None
    && match s.conns[c].socket
       case Inside(_) => true
       case Leaving(_) => true
       case Waiting(o) =>
         && o < |s.owners| && !s.owners[o].operational
         && (match s.owners[o].lock
             case Nobody => true
             case ByWorker(w) =>
               w < |s.workers| && (s.workers[w].Locked? || s.workers[w].Releasing?) && s.workers[w].o == o
             case ByAgent(_) => false)
       case _ => false
  }

  /** The next step on the way to the crash. */
  ghost function Fatal(s: State, c: nat): Step
    requires Doomed(s, c)
  {
    match s.conns[c].socket
    case Inside(_) => AgentStep(SocketEvent(c), Disable)
    case Leaving(_) => AgentStep(SocketEvent(c), AgentMove.Unlock)
    case Waiting(o) =>
      var x := s.owners[o].lock;
      if x.Nobody? then AgentStep(SocketEvent(c), Lock)
      else WorkerStep(x.w, if s.workers[x.w].Locked? then Check else WorkerMove.Unlock)
  }

  ghost function Distance(s: State, c: nat): nat
    requires Doomed(s, c)
  {
    var pc := s.conns[c].socket;
    if !pc.Waiting? then 0
    else if s.owners[pc.o].lock.Nobody? then 1
    else if s.workers[s.owners[pc.o].lock.w].Releasing? then 2
    else 3
  }

  lemma FatalStep(s: State, c: nat)
    requires Doomed(s, c)
    ensures Enabled(s, Fatal(s, c)) && !Careless(s, Fatal(s, c))
    ensures var s' := Apply(s, Fatal(s, c)); s'.crashed || (Doomed(s', c) && Distance(s', c) < Distance(s, c))
  {
  }

  lemma {:induction false} DoomedCrashes(s: State, c: nat) returns (more: seq<Step>)
    requires Doomed(s, c)
    ensures Legal(s, more) && Orderly(s, more) && After(s, more).crashed
    decreases Distance(s, c)
  {
    var l := Fatal(s, c);
    FatalStep(s, c);
    var s' := Apply(s, l);
    var rest: seq<Step> := [];
    if !s'.crashed {
      rest := DoomedCrashes(s', c);
    }
    Longer(s, l, rest);
    more := [l] + rest;
    assert more[1..] == rest;
  }

  lemma CarelessReleaseDooms(s: State, c: nat)
    requires Inv(s) && AgentCan(s, StopCall(c), Release) && s.conns[c].socket != Away
    ensures Doomed(AgentDoes(s, StopCall(c), Release), c)
  {
    assert AgentOk(s, SocketEvent(c)) && AgentOk(s, StopCall(c));
    var o := s.conns[c].socket.o;
    assert OwnerOk(s, o);
    match s.owners[o].lock
    case Nobody =>
    case ByWorker(w) => assert WorkerOk(s, w);
    case ByAgent(a) => assert AgentOk(s, a);
  }

  /** It stays safe as long as no further step is careless. */
  ghost predicate StaysSafe(s: State) {
    forall more :: Legal(s, more) && Orderly(s, more) ==> Safe(After(s, more))
  }

  /** Nothing but a careless step puts an end to safety, and each of them does: `stop` must not give
      up the owner while the websocket thread is inside `processDisconnected`, and that must not be
      called without a session. */
  lemma SafeIffCareful(count: nat, ls: seq<Step>, l: Step)
    requires Legal(Init(count), ls) && Orderly(Init(count), ls) && Enabled(After(Init(count), ls), l)
    ensures StaysSafe(Apply(After(Init(count), ls), l)) <==> !Careless(After(Init(count), ls), l)
  {
    InitKeepsInv(count);
    RunKeepsInv(Init(count), ls);
    var s := After(Init(count), ls);
    var s' := Apply(s, l);
    if !Careless(s, l) {
      StepKeepsInv(s, l);
      forall more | Legal(s', more) && Orderly(s', more) ensures Safe(After(s', more)) {
        RunKeepsInv(s', more);
        InvMeansSafe(After(s', more));
      }
    } else if l.act.Begin? {
      assert Legal(s', []) && Orderly(s', []) && After(s', []).crashed;
    } else {
      assert AgentOk(s, l.a);
      CarelessReleaseDooms(s, l.a.conn);
      var more := DoomedCrashes(s', l.a.conn);
    }
  }

  // ---------------------------------------------------------------------------------------
  // Conservation of requests
  // ---------------------------------------------------------------------------------------

  /** How often `m` occurs. */
  function Copies(ms: seq<Message>, m: Message): nat {
    if ms == [] then 0 else Copies(ms[..|ms| - 1], m) + (if ms[|ms| - 1] == m then 1 else 0)
  }

  lemma {:induction false} CopiesAppend(a: seq<Message>, b: seq<Message>, m: Message)
    ensures Copies(a + b, m) == Copies(a, m) + Copies(b, m)
    decreases |b|
  {
    if b == [] {
      assert a + b == a;
    } else {
      var n := |b| - 1;
      assert (a + b)[..|a| + n] == a + b[..n];
      CopiesAppend(a, b[..n], m);
    }
  }

  lemma CopiesPush(ms: seq<Message>, x: Message, m: Message)
    ensures Copies(ms + [x], m) == Copies(ms, m) + (if x == m then 1 else 0)
  {
    assert (ms + [x])[..|ms|] == ms;
  }

  lemma CopiesFirst(ms: seq<Message>, m: Message)
    requires ms != []
    ensures Copies(ms, m) == Copies(ms[1..], m) + (if ms[0] == m then 1 else 0)
  {
    assert ms == [ms[0]] + ms[1..] && [ms[0]][..0] == [];
    CopiesAppend([ms[0]], ms[1..], m);
    assert Copies([ms[0]], m) == Copies([], m) + (if ms[0] == m then 1 else 0);
  }

  function CarriesCopy(pc: WorkerPc, m: Message): nat {
    if Carries(pc) && pc.m == m then 1 else 0
  }

  /** How many of the workers carry `m`. */
  function CarriedCopies(ws: seq<WorkerPc>, m: Message): nat {
    if ws == [] then 0 else CarriedCopies(ws[..|ws| - 1], m) + CarriesCopy(ws[|ws| - 1], m)
  }

  lemma {:induction false} CarriedUpdate(ws: seq<WorkerPc>, w: nat, pc: WorkerPc, m: Message)
    requires w < |ws|
    ensures CarriedCopies(ws[w := pc], m) == CarriedCopies(ws, m) - CarriesCopy(ws[w], m) + CarriesCopy(pc, m)
    decreases |ws|
  {
    var n := |ws| - 1;
    if w == n {
      assert ws[w := pc][..n] == ws[..n];
    } else {
      assert ws[w := pc][..n] == ws[..n][w := pc];
      CarriedUpdate(ws[..n], w, pc, m);
    }
  }

  lemma {:induction false} NothingCarried(ws: seq<WorkerPc>, m: Message)
    requires forall w :: 0 <= w < |ws| ==> !Carries(ws[w])
    ensures CarriedCopies(ws, m) == 0
    decreases |ws|
  {
    if ws != [] {
      NothingCarried(ws[..|ws| - 1], m);
    }
  }

  /** All copies of a request, wherever they are. */
  function Everywhere(s: State, m: Message): nat {
    Copies(s.queue, m) + CarriedCopies(s.workers, m) + Copies(s.processed, m) + Copies(s.dropped, m)
      + Copies(s.flushed, m)
  }

  /** What a worker's step means for the request it deals with. */
  datatype Fate = Taken | Kept | Done | Dropped

  /** Worker `w` went to `pc`; the request at stake moved as `fate` says. */
  ghost predicate Moved(s: State, s': State, w: nat, pc: WorkerPc, fate: Fate) {
    && w < |s.workers| && s'.workers == s.workers[w := pc] && s'.flushed == s.flushed && s'.arrivals == s.arrivals
    && s'.queue == (if fate.Taken? && s.queue != [] then s.queue[1..] else s.queue)
    && s'.processed == (if fate.Done? && Carries(s.workers[w]) then s.processed + [s.workers[w].m] else s.processed)
    && s'.dropped == (if fate.Dropped? && Carries(s.workers[w]) then s.dropped + [s.workers[w].m] else s.dropped)
    && match fate
       case Taken => !Carries(s.workers[w]) && s.queue != [] && Carries(pc) && pc.m == s.queue[0]
       case Kept => if Carries(pc) then Carries(s.workers[w]) && s.workers[w].m == pc.m else !Carries(s.workers[w])
       case _ => Carries(s.workers[w]) && !Carries(pc)
  }

  lemma WorkerStepMoves(s: State, w: nat, does: WorkerMove) returns (fate: Fate)
    requires WorkerCan(s, w, does)
    ensures Moved(s, WorkerDoes(s, w, does), w, WorkerDoes(s, w, does).workers[w], fate)
  {
    var s' := WorkerDoes(s, w, does);
    assert s'.workers == s.workers[w := s'.workers[w]];
    fate := match does
      case Pop => Taken
      case Finish => Done
      case Promote => if s'.workers[w] == Popping then Dropped else Kept
      case Check => if s'.workers[w].Releasing? then Dropped else Kept
      case _ => Kept;
  }

  lemma MovedConserves(s: State, s': State, w: nat, pc: WorkerPc, fate: Fate, m: Message)
    requires Moved(s, s', w, pc, fate)
    ensures Everywhere(s', m) == Everywhere(s, m)
  {
    CarriedUpdate(s.workers, w, pc, m);
    hide CarriedCopies, Copies;
    match fate
    case Taken => CopiesFirst(s.queue, m);
    case Done => CopiesPush(s.processed, s.workers[w].m, m);
    case Dropped => CopiesPush(s.dropped, s.workers[w].m, m);
    case Kept =>
  }

  lemma PoolStepConserves(s: State, l: Step, m: Message)
    requires PoolOk(s) && Enabled(s, l) && (l.StartPool? || l.StopPool? || l.PoolStopped?)
    ensures Everywhere(Apply(s, l), m) == Everywhere(s, m) && Apply(s, l).arrivals == s.arrivals
  {
    var s' := Apply(s, l);
    NoCopies(m);
    hide CarriedCopies, Copies;
    if l.PoolStopped? {
      NothingCarried(s.workers, m);
      NothingCarried([], m);
      CopiesAppend(s.flushed, s.queue, m);
    }
    if l.StartPool? {
      NothingCarried(s.workers, m);
      NothingCarried(s'.workers, m);
    }
  }

  lemma ReceivingConserves(s: State, c: nat, m: Message)
    requires Enabled(s, Receive(c))
    ensures var s' := Apply(s, Receive(c));
            Everywhere(s', m) - Copies(s'.arrivals, m) == Everywhere(s, m) - Copies(s.arrivals, m)
  {
    var s' := Apply(s, Receive(c));
    hide CarriedCopies, Copies;
    CopiesPush(s.queue, s'.queue[|s.queue|], m);
    CopiesPush(s.arrivals, s'.queue[|s.queue|], m);
  }

  lemma AgentStepConserves(s: State, a: Agent, act: AgentMove, m: Message)
    requires AgentCan(s, a, act)
    ensures Everywhere(AgentDoes(s, a, act), m) == Everywhere(s, m) && AgentDoes(s, a, act).arrivals == s.arrivals
  {
    hide CarriedCopies, Copies;
  }

  /** A step conserves every request, and only a reception adds one. */
  lemma StepConserves(s: State, l: Step, m: Message)
    requires PoolOk(s) && Enabled(s, l)
    ensures var s' := Apply(s, l);
            Everywhere(s', m) - Copies(s'.arrivals, m) == Everywhere(s, m) - Copies(s.arrivals, m)
  {
    var s' := Apply(s, l);
    hide CarriedCopies, Copies, WorkerDoes, AgentDoes;
    match l
    case WorkerStep(w, does) =>
      var fate := WorkerStepMoves(s, w, does);
      MovedConserves(s, s', w, s'.workers[w], fate, m);
    case AgentStep(a, act) => AgentStepConserves(s, a, act, m);
    case Receive(c) => ReceivingConserves(s, c, m);
    case StartConnection(_) =>
    case _ => PoolStepConserves(s, l, m);
  }

  lemma NoCopies(m: Message)
    ensures Copies([], m) == 0
  {
  }

  ghost predicate Numbered(s: State) {
    forall i :: 0 <= i < |s.arrivals| ==> s.arrivals[i].serial == i
  }

  lemma StepKeepsPool(s: State, l: Step)
    requires PoolOk(s) && Enabled(s, l)
    ensures PoolOk(Apply(s, l)) && (Numbered(s) ==> Numbered(Apply(s, l)))
  {
    hide Alive;
  }

  lemma {:induction false} NumbersStay(s: State, ls: seq<Step>)
    requires PoolOk(s) && Numbered(s) && Legal(s, ls)
    ensures Numbered(After(s, ls))
    decreases |ls|
  {
    if ls != [] {
      StepKeepsPool(s, ls[0]);
      NumbersStay(Apply(s, ls[0]), ls[1..]);
    }
  }

  lemma {:induction false} RunConserves(s: State, ls: seq<Step>, m: Message)
    requires PoolOk(s) && Legal(s, ls) && Everywhere(s, m) == Copies(s.arrivals, m)
    ensures Everywhere(After(s, ls), m) == Copies(After(s, ls).arrivals, m)
    decreases |ls|
  {
    if ls != [] {
      StepConserves(s, ls[0], m);
      StepKeepsPool(s, ls[0]);
      hide Apply, Everywhere;
      RunConserves(Apply(s, ls[0]), ls[1..], m);
    }
  }

  lemma {:induction false} SerialsAreUnique(ms: seq<Message>, m: Message)
    requires forall i :: 0 <= i < |ms| ==> ms[i].serial == i
    ensures Copies(ms, m) == if m in ms then 1 else 0
    decreases |ms|
  {
    if ms != [] {
      var n := |ms| - 1;
      SerialsAreUnique(ms[..n], m);
      assert ms == ms[..n] + [ms[n]];
    }
  }

  /** At every point of every run, each request that was received is in exactly one place, once:
      queued, carried by one worker, processed, dropped, or flushed. */
  lemma EachRequestHasOneFate(count: nat, ls: seq<Step>, m: Message)
    requires Legal(Init(count), ls)
    ensures var s := After(Init(count), ls);
            Copies(s.queue, m) + CarriedCopies(s.workers, m) + Copies(s.processed, m) + Copies(s.dropped, m)
            + Copies(s.flushed, m) == if m in s.arrivals then 1 else 0
  {
    RunConserves(Init(count), ls, m);
    NumbersStay(Init(count), ls);
    SerialsAreUnique(After(Init(count), ls).arrivals, m);
  }

  /** Requests are dropped only because they came without a session, or for one that is over. */
  ghost predicate DropsJustified(s: State) {
    forall i :: 0 <= i < |s.dropped| ==>
      var owner := s.dropped[i].owner;
      owner.Some? ==> owner.value < |s.owners| && !s.owners[owner.value].operational
  }

  lemma WorkerDropIsJustified(s: State, w: nat, does: WorkerMove)
    requires Sessions(s) && WorkerCan(s, w, does) && DropsJustified(s)
    ensures DropsJustified(WorkerDoes(s, w, does))
  {
    assert CarrierOk(s, s.workers[w]);
    if does.Promote? && s.workers[w].m.owner.Some? {
      assert SessionOk(s, s.workers[w].m.owner.value);
    }
  }

  lemma {:induction false} DropsStayJustified(s: State, ls: seq<Step>)
    requires Sessions(s) && Legal(s, ls) && DropsJustified(s)
    ensures DropsJustified(After(s, ls))
    decreases |ls|
  {
    if ls != [] {
      var l := ls[0];
      StepKeepsSessions(s, l);
      if l.WorkerStep? {
        WorkerDropIsJustified(s, l.w, l.does);
      }
      DropsStayJustified(Apply(s, l), ls[1..]);
    }
  }

  /** In every run, orderly or not. */
  lemma DropsAreJustified(count: nat, ls: seq<Step>)
    requires Legal(Init(count), ls)
    ensures DropsJustified(After(Init(count), ls))
  {
    DropsStayJustified(Init(count), ls);
  }

  // ---------------------------------------------------------------------------------------
  // Order
  // ---------------------------------------------------------------------------------------

  ghost predicate Increasing(ms: seq<Message>) {
    forall i, j :: 0 <= i < j < |ms| ==> ms[i].serial < ms[j].serial
  }

  /** Every pool that is started has `n` workers. */
  ghost predicate PoolsOf(ls: seq<Step>, n: nat) {
    forall i :: 0 <= i < |ls| && ls[i].StartPool? ==> ls[i].n == n
  }

  ghost function Carried(s: State): seq<Message> {
    if |s.workers| == 1 && Carries(s.workers[0]) then [s.workers[0].m] else []
  }

  /** What was processed, what the one worker carries and what is queued, in that order. */
  ghost function SingleFile(s: State): seq<Message>
    requires |s.workers| <= 1
  {
    s.processed + Carried(s) + s.queue
  }

  ghost predicate AllFrom(ms: seq<Message>, arrivals: seq<Message>) {
    forall i :: 0 <= i < |ms| ==> ms[i].serial < |arrivals| && ms[i] in arrivals
  }

  ghost predicate InFile(s: State) {
    && |s.workers| <= 1 && Increasing(SingleFile(s))
    && AllFrom(SingleFile(s), s.arrivals)
  }

  lemma CutOut(a: seq<Message>, x: Message, b: seq<Message>)
    ensures var f := a + [x] + b; f[..|a|] + f[|a| + 1..] == a + [] + b
  {
  }

  lemma PassedOn(a: seq<Message>, x: Message, b: seq<Message>)
    ensures a + [] + ([x] + b) == a + [x] + b == a + [x] + [] + b
  {
  }

  /** A worker's step leaves the file alone, or takes the dropped request out of it. */
  lemma MovedFile(s: State, s': State, w: nat, pc: WorkerPc, fate: Fate)
    requires |s.workers| <= 1 && Moved(s, s', w, pc, fate)
    ensures |s'.workers| <= 1
    ensures var f, n := SingleFile(s), |s.processed|;
            if fate.Dropped? then n < |f| && SingleFile(s') == f[..n] + f[n + 1..] else SingleFile(s') == f
  {
    assert w == 0;
    match fate
    case Dropped =>
      assert Carried(s) == [s.workers[0].m] && Carried(s') == [];
      CutOut(s.processed, s.workers[0].m, s.queue);
    case Taken =>
      assert Carried(s) == [] && Carried(s') == [pc.m] && s.queue == [pc.m] + s'.queue;
      PassedOn(s.processed, pc.m, s'.queue);
    case Done =>
      assert Carried(s) == [s.workers[0].m] && Carried(s') == [];
      PassedOn(s.processed, s.workers[0].m, s.queue);
    case Kept =>
  }

  lemma WithoutOne(f: seq<Message>, n: nat, arrivals: seq<Message>)
    requires n < |f| && Increasing(f) && AllFrom(f, arrivals)
    ensures Increasing(f[..n] + f[n + 1..]) && AllFrom(f[..n] + f[n + 1..], arrivals)
  {
    assert forall i :: 0 <= i < |f| - 1 ==> (f[..n] + f[n + 1..])[i] == if i < n then f[i] else f[i + 1];
  }

  lemma MovedKeepsFile(s: State, s': State, w: nat, pc: WorkerPc, fate: Fate)
    requires InFile(s) && Moved(s, s', w, pc, fate)
    ensures InFile(s')
  {
    MovedFile(s, s', w, pc, fate);
    assert s'.arrivals == s.arrivals && |s'.workers| <= 1;
    hide SingleFile, Moved, Increasing, AllFrom;
    if SingleFile(s') != SingleFile(s) {
      WithoutOne(SingleFile(s), |s.processed|, s.arrivals);
    }
  }

  lemma ReceivingKeepsFile(s: State, s': State, m: Message)
    requires InFile(s) && m.serial == |s.arrivals|
    requires s' == s.(queue := s.queue + [m], arrivals := s.arrivals + [m])
    ensures InFile(s')
  {
    assert SingleFile(s') == SingleFile(s) + [m];
  }

  lemma StepKeepsFile(s: State, l: Step)
    requires PoolOk(s) && Enabled(s, l) && InFile(s) && (l.StartPool? ==> l.n == 1)
    ensures InFile(Apply(s, l))
  {
    var s' := Apply(s, l);
    var f := SingleFile(s);
    match l
    case WorkerStep(w, does) =>
      var fate := WorkerStepMoves(s, w, does);
      MovedKeepsFile(s, s', w, s'.workers[w], fate);
    case Receive(c) => ReceivingKeepsFile(s, s', Message(|s.arrivals|, c, s.conns[c].owner));
    case PoolStopped => assert SingleFile(s') == f[..|s.processed|];
    case _ => assert SingleFile(s') == f;
  }

  lemma {:induction false} RunKeepsFile(s: State, ls: seq<Step>)
    requires PoolOk(s) && Legal(s, ls) && InFile(s) && PoolsOf(ls, 1)
    ensures InFile(After(s, ls))
    decreases |ls|
  {
    if ls != [] {
      StepKeepsPool(s, ls[0]);
      StepKeepsFile(s, ls[0]);
      assert forall i :: 0 <= i < |ls[1..]| ==> ls[1..][i] == ls[i + 1];
      RunKeepsFile(Apply(s, ls[0]), ls[1..]);
    }
  }

  lemma InitInFile(count: nat)
    ensures PoolOk(Init(count)) && InFile(Init(count))
  {
    assert SingleFile(Init(count)) == [];
  }

  lemma ProcessedInFile(s: State)
    requires InFile(s)
    ensures Increasing(s.processed) && forall i :: 0 <= i < |s.processed| ==> s.processed[i] in s.arrivals
  {
    assert forall i :: 0 <= i < |s.processed| ==> SingleFile(s)[i] == s.processed[i];
  }

  /** With one worker, requests are processed in the order in which they arrived. */
  lemma OneWorkerKeepsOrder(count: nat, ls: seq<Step>)
    requires Legal(Init(count), ls) && PoolsOf(ls, 1)
    ensures var s := After(Init(count), ls);
            && Increasing(s.processed)
            && forall i :: 0 <= i < |s.processed| ==> s.processed[i] in s.arrivals
  {
    InitInFile(count);
    hide InFile, Init, Legal, After, PoolOk, PoolsOf, Increasing;
    RunKeepsFile(Init(count), ls);
    ProcessedInFile(After(Init(count), ls));
  }

  // ---------------------------------------------------------------------------------------
  // Stopping the pool
  // ---------------------------------------------------------------------------------------

  function Effort(pc: WorkerPc): nat {
    match pc
    case Exited => 0
    case Popping => 1
    case Releasing(_) => 2
    case Processing(_, _) => 3
    case Locked(_, _) => 4
    case Owning(_, _) => 5
    case Holding(_) => 6
  }

  function TotalEffort(ws: seq<WorkerPc>): nat {
    if ws == [] then 0 else TotalEffort(ws[..|ws| - 1]) + Effort(ws[|ws| - 1])
  }

  lemma {:induction false} EffortUpdate(ws: seq<WorkerPc>, w: nat, pc: WorkerPc)
    requires w < |ws|
    ensures TotalEffort(ws[w := pc]) == TotalEffort(ws) - Effort(ws[w]) + Effort(pc)
    decreases |ws|
  {
    var n := |ws| - 1;
    if w == n {
      assert ws[w := pc][..n] == ws[..n];
    } else {
      assert ws[w := pc][..n] == ws[..n][w := pc];
      EffortUpdate(ws[..n], w, pc);
    }
  }

  /** While the pool is being stopped, every step of a worker uses up some of the effort that
      is left and no step of anybody else adds to it: the wait for the workers is bounded. */
  lemma StoppingUsesUpEffort(s: State, l: Step)
    requires PoolOk(s) && Enabled(s, l) && s.pool == Stopping && !l.PoolStopped?
    ensures Apply(s, l).pool == Stopping
    ensures if l.WorkerStep? then TotalEffort(Apply(s, l).workers) < TotalEffort(s.workers)
            else Apply(s, l).workers == s.workers
  {
    if l.WorkerStep? {
      EffortUpdate(s.workers, l.w, Apply(s, l).workers[l.w]);
    }
  }

  /** The step is one of a worker, or of an agent that already holds a lock. */
  predicate FinishesUp(s: State, l: Step) {
    l.WorkerStep? || (l.AgentStep? && (AgentAt(s, l.a).Inside? || AgentAt(s, l.a).Leaving?))
  }

  /** And it cannot get stuck: as long as a worker has not exited, a worker can move, or an agent
      that holds a lock can. */
  lemma StoppingNeverStuck(s: State)
    requires Inv(s) && s.pool == Stopping && !Enabled(s, PoolStopped)
    ensures exists l :: Enabled(s, l) && FinishesUp(s, l)
  {
    var w: nat :| w < |s.workers| && s.workers[w] != Exited;
    assert WorkerOk(s, w);
    match s.workers[w]
    case Popping => assert Enabled(s, WorkerStep(w, PopFails));
    case Holding(_) => assert Enabled(s, WorkerStep(w, Promote));
    case Locked(_, _) => assert Enabled(s, WorkerStep(w, Check));
    case Processing(_, _) => assert Enabled(s, WorkerStep(w, Finish));
    case Releasing(_) => assert Enabled(s, WorkerStep(w, WorkerMove.Unlock));
    case Owning(_, o) =>
      assert OwnerOk(s, o);
      match s.owners[o].lock
      case Nobody => assert Enabled(s, WorkerStep(w, Acquire));
      case ByAgent(a) =>
        assert AgentOk(s, a);
        assert Enabled(s, AgentStep(a, if AgentAt(s, a).Inside? then Disable else AgentMove.Unlock));
      case ByWorker(v) =>
        assert WorkerOk(s, v);
        assert Enabled(s, WorkerStep(v, match s.workers[v] case Locked(_, _) => Check case Processing(_, _) => Finish
                                        case _ => WorkerMove.Unlock));
  }

  // ---------------------------------------------------------------------------------------
  // Several workers
  // ---------------------------------------------------------------------------------------

  /** A worker's four steps from a promoted request to a processed one. */
  function Serving(w: nat): seq<Step> {
    ([WorkerStep(w, Acquire)] + [WorkerStep(w, Check)]) + ([WorkerStep(w, Finish)] + [WorkerStep(w, WorkerMove.Unlock)])
  }

  /** The worker has a request of a session that is operational and not locked. */
  predicate MayServe(s: State, w: nat) {
    && !s.crashed && w < |s.workers| && s.workers[w].Owning? && s.workers[w].o < |s.owners|
    && s.owners[s.workers[w].o].lock == Nobody && s.owners[s.workers[w].o].operational
  }

  function AmidServing(s: State, w: nat): State
    requires MayServe(s, w)
  {
    var m, o := s.workers[w].m, s.workers[w].o;
    SetLock(MoveWorker(s, w, Processing(m, o)), o, ByWorker(w))
  }

  function AfterServing(s: State, w: nat): State
    requires MayServe(s, w)
  {
    MoveWorker(s, w, Popping).(processed := s.processed + [s.workers[w].m])
  }

  lemma ServingBegins(s: State, w: nat)
    requires MayServe(s, w)
    ensures var a, b := WorkerStep(w, Acquire), WorkerStep(w, Check);
            Enabled(s, a) && Enabled(Apply(s, a), b) && Apply(Apply(s, a), b) == AmidServing(s, w)
  {
    hide Alive;
  }

  lemma ServingEnds(s: State, w: nat)
    requires MayServe(s, w)
    ensures var s', c, d := AmidServing(s, w), WorkerStep(w, Finish), WorkerStep(w, WorkerMove.Unlock);
            Enabled(s', c) && Enabled(Apply(s', c), d) && Apply(Apply(s', c), d) == AfterServing(s, w)
  {
    hide Alive;
    var s', c, d := AmidServing(s, w), WorkerStep(w, Finish), WorkerStep(w, WorkerMove.Unlock);
    var s'' := Apply(Apply(s', c), d);
    assert s''.workers == AfterServing(s, w).workers && s''.owners == s.owners;
  }

  lemma ServingRuns(s: State, w: nat)
    requires MayServe(s, w)
    ensures Legal(s, Serving(w)) && After(s, Serving(w)) == AfterServing(s, w)
  {
    ServingBegins(s, w);
    ServingEnds(s, w);
    hide Enabled, Apply, Legal, After, MayServe, AmidServing, AfterServing;
    TwoSteps(s, WorkerStep(w, Acquire), WorkerStep(w, Check));
    TwoSteps(AmidServing(s, w), WorkerStep(w, Finish), WorkerStep(w, WorkerMove.Unlock));
    OneAfterTheOther(s, [WorkerStep(w, Acquire)] + [WorkerStep(w, Check)],
                     [WorkerStep(w, Finish)] + [WorkerStep(w, WorkerMove.Unlock)]);
  }

  lemma {:induction false} OneAfterTheOther(s: State, a: seq<Step>, b: seq<Step>)
    requires Legal(s, a) && Legal(After(s, a), b)
    ensures Legal(s, a + b) && After(s, a + b) == After(After(s, a), b)
    decreases |a|
  {
    hide Enabled, Apply;
    if a == [] {
      assert a + b == b;
    } else {
      assert a == [a[0]] + a[1..] && a + b == [a[0]] + (a[1..] + b);
      OneAfterTheOther(Apply(s, a[0]), a[1..], b);
      Longer(s, a[0], a[1..] + b);
    }
  }

  lemma OneStep(s: State, l: Step)
    requires Enabled(s, l)
    ensures Legal(s, [l]) && After(s, [l]) == Apply(s, l)
  {
    assert [l][1..] == [];
  }

  lemma TwoSteps(s: State, l: Step, l': Step)
    requires Enabled(s, l) && Enabled(Apply(s, l), l')
    ensures Legal(s, [l] + [l']) && After(s, [l] + [l']) == Apply(Apply(s, l), l')
  {
    hide Apply, Enabled, Legal, After;
    OneStep(s, l);
    OneStep(Apply(s, l), l');
    OneAfterTheOther(s, [l], [l']);
  }

  const FIRST := Message(0, 0, Some(0))
  const SECOND := Message(1, 0, Some(0))

  /** `n` workers of which the first two are at `a` and `b`, one connection that received two
      requests, and what is left of the queue. */
  function TwoAhead(n: nat, queue: seq<Message>, a: WorkerPc, b: WorkerPc, processed: seq<Message>): State
    requires n >= 2
  {
    State(Running, true, queue, [a, b] + seq(n - 2, i => Popping), [Owner(0, true, Nobody)],
          [Connection(Some(0), Away, Away)], false, [FIRST, SECOND], processed, [], [])
  }

  lemma ReachTwoQueued(n: nat) returns (ls: seq<Step>)
    requires n >= 2
    ensures PoolsOf(ls, n) && Legal(Init(1), ls)
    ensures After(Init(1), ls) == TwoAhead(n, [FIRST, SECOND], Popping, Popping, [])
  {
    var s0 := Init(1);
    var s2 := Apply(Apply(s0, StartPool(n)), StartConnection(0));
    var s4 := Apply(Apply(s2, Receive(0)), Receive(0));
    assert s4.workers == [Popping, Popping] + seq(n - 2, i => Popping);
    assert s4 == TwoAhead(n, [FIRST, SECOND], Popping, Popping, []);
    ls := ([StartPool(n)] + [StartConnection(0)]) + ([Receive(0)] + [Receive(0)]);
    hide Apply, Legal, After;
    TwoSteps(s0, StartPool(n), StartConnection(0));
    TwoSteps(s2, Receive(0), Receive(0));
    OneAfterTheOther(s0, [StartPool(n)] + [StartConnection(0)], [Receive(0)] + [Receive(0)]);
  }

  lemma PopBoth(n: nat)
    requires n >= 2
    ensures var s := TwoAhead(n, [FIRST, SECOND], Popping, Popping, []);
            var pop0, pop1 := WorkerStep(0, Pop), WorkerStep(1, Pop);
            && Enabled(s, pop0) && Enabled(Apply(s, pop0), pop1)
            && Apply(Apply(s, pop0), pop1) == TwoAhead(n, [], Holding(FIRST), Holding(SECOND), [])
  {
    hide Alive;
    var s := TwoAhead(n, [FIRST, SECOND], Popping, Popping, []);
    assert Apply(s, WorkerStep(0, Pop)) == TwoAhead(n, [SECOND], Holding(FIRST), Popping, []);
    assert Apply(TwoAhead(n, [SECOND], Holding(FIRST), Popping, []), WorkerStep(1, Pop))
        == TwoAhead(n, [], Holding(FIRST), Holding(SECOND), []);
  }

  lemma PromoteBoth(n: nat)
    requires n >= 2
    ensures var s := TwoAhead(n, [], Holding(FIRST), Holding(SECOND), []);
            var own0, own1 := WorkerStep(0, Promote), WorkerStep(1, Promote);
            && Enabled(s, own0) && Enabled(Apply(s, own0), own1)
            && Apply(Apply(s, own0), own1) == TwoAhead(n, [], Owning(FIRST, 0), Owning(SECOND, 0), [])
  {
    var s := TwoAhead(n, [], Holding(FIRST), Holding(SECOND), []);
    var s' := TwoAhead(n, [], Owning(FIRST, 0), Holding(SECOND), []);
    assert Alive(s, 0) && Alive(s', 0);
    hide Alive;
    assert Apply(s, WorkerStep(0, Promote)) == s';
    assert Apply(s', WorkerStep(1, Promote)) == TwoAhead(n, [], Owning(FIRST, 0), Owning(SECOND, 0), []);
  }

  lemma ReachBothTaken(n: nat) returns (ls: seq<Step>)
    requires n >= 2
    ensures var s := TwoAhead(n, [FIRST, SECOND], Popping, Popping, []);
            && PoolsOf(ls, n) && Legal(s, ls)
            && After(s, ls) == TwoAhead(n, [], Owning(FIRST, 0), Owning(SECOND, 0), [])
  {
    var pop0, pop1 := WorkerStep(0, Pop), WorkerStep(1, Pop);
    var own0, own1 := WorkerStep(0, Promote), WorkerStep(1, Promote);
    ls := ([pop0] + [pop1]) + ([own0] + [own1]);
    PopBoth(n);
    PromoteBoth(n);
    hide Apply, Enabled, Legal, After, TwoAhead;
    TwoSteps(TwoAhead(n, [FIRST, SECOND], Popping, Popping, []), pop0, pop1);
    TwoSteps(TwoAhead(n, [], Holding(FIRST), Holding(SECOND), []), own0, own1);
    OneAfterTheOther(TwoAhead(n, [FIRST, SECOND], Popping, Popping, []), [pop0] + [pop1], [own0] + [own1]);
  }

  lemma ReachSwapped(n: nat) returns (ls: seq<Step>)
    requires n >= 2
    ensures var s := TwoAhead(n, [], Owning(FIRST, 0), Owning(SECOND, 0), []);
            && PoolsOf(ls, n) && Legal(s, ls)
            && After(s, ls) == TwoAhead(n, [], Popping, Popping, [SECOND, FIRST])
  {
    var s := TwoAhead(n, [], Owning(FIRST, 0), Owning(SECOND, 0), []);
    var s' := TwoAhead(n, [], Owning(FIRST, 0), Popping, [SECOND]);
    assert AfterServing(s, 1) == s' && AfterServing(s', 0) == TwoAhead(n, [], Popping, Popping, [SECOND, FIRST]);
    ls := Serving(1) + Serving(0);
    hide Legal, After;
    ServingRuns(s, 1);
    ServingRuns(s', 0);
    OneAfterTheOther(s, Serving(1), Serving(0));
  }

  /** Two or more workers may process the requests of one connection in the other order: they pop
      them in order, but the second one may be the first to take the lock. */
  lemma SeveralWorkersMayReorder(n: nat) returns (ls: seq<Step>)
    requires n >= 2
    ensures PoolsOf(ls, n) && Legal(Init(1), ls)
    ensures var s := After(Init(1), ls); |s.arrivals| == 2 && s.processed == [s.arrivals[1], s.arrivals[0]]
  {
    var a := ReachTwoQueued(n);
    var b := ReachBothTaken(n);
    var c := ReachSwapped(n);
    hide Legal, After, Init;
    OneAfterTheOther(Init(1), a, b);
    OneAfterTheOther(Init(1), a + b, c);
    ls := a + b + c;
  }

  /** Pools of `n` workers process every connection's requests in the order of their arrival. */
  ghost predicate KeepOrder(n: nat) {
    forall count, ls :: Legal(Init(count), ls) && PoolsOf(ls, n) ==> Increasing(After(Init(count), ls).processed)
  }

  /** One worker is exactly what keeps the order. */
  lemma OrderIffOneWorker(n: nat)
    requires n > 0
    ensures KeepOrder(n) <==> n == 1
  {
    if n == 1 {
      forall count, ls | Legal(Init(count), ls) && PoolsOf(ls, n) ensures Increasing(After(Init(count), ls).processed) {
        OneWorkerKeepsOrder(count, ls);
      }
    } else {
      var ls := SeveralWorkersMayReorder(n);
      OrderIsSwapped(1, ls);
    }
  }

  lemma OrderIsSwapped(count: nat, ls: seq<Step>)
    requires Legal(Init(count), ls)
    requires var s := After(Init(count), ls); |s.arrivals| == 2 && s.processed == [s.arrivals[1], s.arrivals[0]]
    ensures !Increasing(After(Init(count), ls).processed)
  {
    NumbersStay(Init(count), ls);
    var s := After(Init(count), ls);
    assert s.processed[0].serial == 1 && s.processed[1].serial == 0;
  }

  // ---------------------------------------------------------------------------------------
  // A restart that overtakes a disconnection
  // ---------------------------------------------------------------------------------------

  /** An agent has the lock of session `o`, and no connection leads to that session any more. */
  ghost predicate Abandoned(s: State, o: nat) {
    && o < |s.owners| && s.owners[o].lock.ByAgent?
    && (forall c :: 0 <= c < |s.conns| ==> s.conns[c].owner != Some(o))
    && (forall w :: 0 <= w < |s.workers| && InCriticalSection(s.workers[w]) ==> s.workers[w].o != o)
  }

  /** The worker waits for the lock of session `o`. */
  ghost predicate WaitsFor(s: State, w: nat, o: nat) {
    w < |s.workers| && s.workers[w].Owning? && s.workers[w].o == o
  }

  lemma AbandonedAfterWorkerStep(s: State, v: nat, does: WorkerMove, o: nat, w: nat)
    requires WorkerCan(s, v, does) && Abandoned(s, o) && WaitsFor(s, w, o)
    ensures Abandoned(WorkerDoes(s, v, does), o) && WaitsFor(WorkerDoes(s, v, does), w, o)
  {
    hide Alive;
  }

  lemma AbandonedAfterAgentStep(s: State, a: Agent, act: AgentMove, o: nat)
    requires AgentCan(s, a, act) && Abandoned(s, o)
    ensures Abandoned(AgentDoes(s, a, act), o)
  {
    AgentStepFrame(s, a, act);
    assert AgentDoes(s, a, act).owners[o].lock == s.owners[o].lock;
    hide AgentDoes;
  }

  lemma AbandonedStays(s: State, l: Step, o: nat, w: nat)
    requires PoolOk(s) && Enabled(s, l) && Abandoned(s, o) && WaitsFor(s, w, o)
    ensures Abandoned(Apply(s, l), o) && WaitsFor(Apply(s, l), w, o)
    ensures s.pool == Stopping ==> Apply(s, l).pool == Stopping
  {
    match l
    case WorkerStep(v, does) =>
      AbandonedAfterWorkerStep(s, v, does, o, w);
      QueueAfterWorkerStep(s, v, does);
    case AgentStep(a, act) =>
      AbandonedAfterAgentStep(s, a, act, o);
      AgentStepFrame(s, a, act);
      hide AgentDoes;
    case _ =>
  }

  /** A worker that waits for an abandoned lock waits forever, and so does who waits for the pool. */
  lemma {:induction false} AbandonedLockBlocks(s: State, ls: seq<Step>, o: nat, w: nat)
    requires PoolOk(s) && Legal(s, ls) && Abandoned(s, o) && WaitsFor(s, w, o)
    ensures WaitsFor(After(s, ls), w, o)
    ensures s.pool == Stopping ==> After(s, ls).pool == Stopping
    decreases |ls|
  {
    if ls != [] {
      AbandonedStays(s, ls[0], o, w);
      StepKeepsPool(s, ls[0]);
      AbandonedLockBlocks(Apply(s, ls[0]), ls[1..], o, w);
    }
  }

  const SOCKET := SocketEvent(0)
  const STOP := StopCall(0)

  /** Two workers, of which one waits for the lock of session 0; and the one connection there is. */
  function Overtaken(pool: PoolPc, owners: seq<Owner>, conn: Connection): State {
    State(pool, pool != Stopping, [], [Owning(FIRST, 0), Popping], owners, [conn], false, [FIRST], [], [], [])
  }

  lemma ReachWaiting() returns (ls: seq<Step>)
    ensures Legal(Init(1), ls)
    ensures After(Init(1), ls) == Overtaken(Running, [Owner(0, true, Nobody)], Connection(Some(0), Away, Away))
  {
    var s0 := Init(1);
    var s2 := Apply(Apply(s0, StartPool(2)), StartConnection(0));
    assert s2.workers == [Popping, Popping];
    var s4 := Apply(Apply(s2, Receive(0)), WorkerStep(0, Pop));
    assert s4.workers == [Holding(FIRST), Popping] && Alive(s4, 0);
    var s5 := Apply(s4, WorkerStep(0, Promote));
    assert s5 == Overtaken(Running, [Owner(0, true, Nobody)], Connection(Some(0), Away, Away));
    hide Apply, Legal, After;
    TwoSteps(s0, StartPool(2), StartConnection(0));
    TwoSteps(s2, Receive(0), WorkerStep(0, Pop));
    OneStep(s4, WorkerStep(0, Promote));
    OneAfterTheOther(s0, [StartPool(2)] + [StartConnection(0)], [Receive(0)] + [WorkerStep(0, Pop)]);
    ls := ([StartPool(2)] + [StartConnection(0)]) + ([Receive(0)] + [WorkerStep(0, Pop)]);
    OneAfterTheOther(s0, ls, [WorkerStep(0, Promote)]);
    ls := ls + [WorkerStep(0, Promote)];
  }

  lemma Extended(s: State, ls: seq<Step>, l: Step, s': State) returns (longer: seq<Step>)
    requires Legal(s, ls) && Enabled(After(s, ls), l) && Apply(After(s, ls), l) == s'
    ensures longer == ls + [l] && Legal(s, longer) && After(s, longer) == s'
  {
    hide Apply, Enabled, Legal, After;
    OneStep(After(s, ls), l);
    OneAfterTheOther(s, ls, [l]);
    longer := ls + [l];
  }

  /** `stop` gives up session 0 while `processDisconnected` waits for its lock. */
  lemma ReachGivenUp() returns (ls: seq<Step>)
    ensures Legal(Init(1), ls)
    ensures After(Init(1), ls) == Overtaken(Running, [Owner(0, false, Nobody)], Connection(None, Away, Waiting(0)))
  {
    var up, down := Owner(0, true, Nobody), Owner(0, false, Nobody);
    ls := ReachWaiting();
    hide Legal, After, WorkerDoes, Alive;
    ls := Extended(Init(1), ls, AgentStep(SOCKET, Begin),
                   Overtaken(Running, [up], Connection(Some(0), Away, Waiting(0))));
    ls := Extended(Init(1), ls, AgentStep(STOP, Begin),
                   Overtaken(Running, [up], Connection(Some(0), Waiting(0), Waiting(0))));
    ls := Extended(Init(1), ls, AgentStep(STOP, Lock),
                   Overtaken(Running, [up.(lock := ByAgent(STOP))], Connection(Some(0), Inside(0), Waiting(0))));
    ls := Extended(Init(1), ls, AgentStep(STOP, Disable),
                   Overtaken(Running, [down.(lock := ByAgent(STOP))], Connection(Some(0), Leaving(0), Waiting(0))));
    ls := Extended(Init(1), ls, AgentStep(STOP, AgentMove.Unlock),
                   Overtaken(Running, [down], Connection(Some(0), Passed(0), Waiting(0))));
    ls := Extended(Init(1), ls, AgentStep(STOP, Release),
                   Overtaken(Running, [down], Connection(None, Away, Waiting(0))));
  }

  /** Then the connection is started again: `processDisconnected` locks session 0, but retires
      session 1. */
  lemma ReachRetired() returns (ls: seq<Step>)
    ensures Legal(Init(1), ls)
    ensures After(Init(1), ls)
         == Overtaken(Running, [Owner(0, false, ByAgent(SOCKET)), Owner(0, false, Nobody)],
                      Connection(Some(1), Away, Leaving(0)))
  {
    var up, down, held := Owner(0, true, Nobody), Owner(0, false, Nobody), Owner(0, false, ByAgent(SOCKET));
    ls := ReachGivenUp();
    hide Legal, After, WorkerDoes, Alive;
    ls := Extended(Init(1), ls, StartConnection(0),
                   Overtaken(Running, [down, up], Connection(Some(1), Away, Waiting(0))));
    ls := Extended(Init(1), ls, AgentStep(SOCKET, Lock),
                   Overtaken(Running, [held, up], Connection(Some(1), Away, Inside(0))));
    ls := Extended(Init(1), ls, AgentStep(SOCKET, Disable),
                   Overtaken(Running, [held, down], Connection(Some(1), Away, Leaving(0))));
  }

  /** When `stop` and `start` overtake a `processDisconnected` that waits for the lock, the old
      session's lock is never released, the new session is retired, and a worker that holds the old
      one may keep the pool from ever stopping. */
  lemma OvertakenDisconnectionBlocksThePool() returns (ls: seq<Step>)
    ensures Legal(Init(1), ls)
    ensures var s := After(Init(1), ls);
            && s.conns == [Connection(Some(1), Away, Away)]
            && s.owners == [Owner(0, false, ByAgent(SOCKET)), Owner(0, false, Nobody)]
            && forall more :: Legal(s, more) ==> After(s, more).pool == Stopping
  {
    var down, held := Owner(0, false, Nobody), Owner(0, false, ByAgent(SOCKET));
    ls := ReachRetired();
    hide Legal, After, WorkerDoes, Alive;
    ls := Extended(Init(1), ls, AgentStep(SOCKET, AgentMove.Unlock),
                   Overtaken(Running, [held, down], Connection(Some(1), Away, Away)));
    ls := Extended(Init(1), ls, StopPool, Overtaken(Stopping, [held, down], Connection(Some(1), Away, Away)));
    var s := After(Init(1), ls);
    assert Abandoned(s, 0) && WaitsFor(s, 0, 0);
    forall more | Legal(s, more) ensures After(s, more).pool == Stopping {
      AbandonedLockBlocks(s, more, 0, 0);
    }
  }

  /** The connection is stopped and started once more, and stopped again: `processDisconnected` then
      unlocks session 2, which `stop` has locked. */
  lemma ReachUnlocked() returns (ls: seq<Step>)
    ensures Legal(Init(1), ls)
    ensures After(Init(1), ls)
         == Overtaken(Running, [Owner(0, false, ByAgent(SOCKET)), Owner(0, false, Nobody), Owner(0, true, Nobody)],
                      Connection(Some(2), Inside(2), Away))
  {
    var up, down, held := Owner(0, true, Nobody), Owner(0, false, Nobody), Owner(0, false, ByAgent(SOCKET));
    ls := ReachRestarted();
    hide Legal, After, WorkerDoes, Alive;
    ls := Extended(Init(1), ls, AgentStep(STOP, Begin),
                   Overtaken(Running, [held, down, up], Connection(Some(2), Waiting(2), Leaving(0))));
    ls := Extended(Init(1), ls, AgentStep(STOP, Lock),
                   Overtaken(Running, [held, down, up.(lock := ByAgent(STOP))],
                             Connection(Some(2), Inside(2), Leaving(0))));
    ls := Extended(Init(1), ls, AgentStep(SOCKET, AgentMove.Unlock),
                   Overtaken(Running, [held, down, up], Connection(Some(2), Inside(2), Away)));
  }

  lemma ReachRestarted() returns (ls: seq<Step>)
    ensures Legal(Init(1), ls)
    ensures After(Init(1), ls)
         == Overtaken(Running, [Owner(0, false, ByAgent(SOCKET)), Owner(0, false, Nobody), Owner(0, true, Nobody)],
                      Connection(Some(2), Away, Leaving(0)))
  {
    var up, down, held := Owner(0, true, Nobody), Owner(0, false, Nobody), Owner(0, false, ByAgent(SOCKET));
    var locked := down.(lock := ByAgent(STOP));
    ls := ReachRetired();
    hide Legal, After, WorkerDoes, Alive;
    ls := Extended(Init(1), ls, AgentStep(STOP, Begin),
                   Overtaken(Running, [held, down], Connection(Some(1), Waiting(1), Leaving(0))));
    ls := Extended(Init(1), ls, AgentStep(STOP, Lock),
                   Overtaken(Running, [held, locked], Connection(Some(1), Inside(1), Leaving(0))));
    ls := Extended(Init(1), ls, AgentStep(STOP, Disable),
                   Overtaken(Running, [held, locked], Connection(Some(1), Leaving(1), Leaving(0))));
    ls := Extended(Init(1), ls, AgentStep(STOP, AgentMove.Unlock),
                   Overtaken(Running, [held, down], Connection(Some(1), Passed(1), Leaving(0))));
    ls := Extended(Init(1), ls, AgentStep(STOP, Release),
                   Overtaken(Running, [held, down], Connection(None, Away, Leaving(0))));
    ls := Extended(Init(1), ls, StartConnection(0),
                   Overtaken(Running, [held, down, up], Connection(Some(2), Away, Leaving(0))));
  }

  const LATER := Message(1, 0, Some(2))

  /** The state of `ReachUnlocked` with a second request, which worker 1 deals with. */
  function Later(queue: seq<Message>, pc: WorkerPc, last: Owner): State {
    Overtaken(Running, [Owner(0, false, ByAgent(SOCKET)), Owner(0, false, Nobody), last],
              Connection(Some(2), Inside(2), Away))
    .(queue := queue, workers := [Owning(FIRST, 0), pc], arrivals := [FIRST, LATER])
  }

  /** Thereby a worker gets into session 2 while `stop` is in its lock section: the session is
      retired although a request of it is being processed. */
  lemma GuardIsLost() returns (ls: seq<Step>)
    ensures Legal(Init(1), ls)
    ensures var s := After(Init(1), ls);
            && |s.workers| == 2 && s.workers[1] == Processing(LATER, 2)
            && |s.owners| == 3 && s.owners[2] == Owner(0, false, ByWorker(1))
  {
    var up, mine := Owner(0, true, Nobody), Owner(0, true, ByWorker(1));
    ls := ReachUnlocked();
    hide Legal, After;
    ls := Extended(Init(1), ls, Receive(0), Later([LATER], Popping, up));
    assert Alive(Later([], Holding(LATER), up), 2);
    hide Alive;
    ls := Extended(Init(1), ls, WorkerStep(1, Pop), Later([], Holding(LATER), up));
    ls := Extended(Init(1), ls, WorkerStep(1, Promote), Later([], Owning(LATER, 2), up));
    ls := Extended(Init(1), ls, WorkerStep(1, Acquire), Later([], Locked(LATER, 2), mine));
    ls := Extended(Init(1), ls, WorkerStep(1, Check), Later([], Processing(LATER, 2), mine));
    var s := Later([], Processing(LATER, 2), mine.(operational := false));
    ls := Extended(Init(1), ls, AgentStep(STOP, Disable),
                   s.(conns := [Connection(Some(2), Leaving(2), Away)]));
  }
}
