/** All the callers of one connection during one session, against a peer that answers only calls
    it was sent, but late, more than once or never. Each atomic action of each thread is a step. */
module RpcCalls {
  import opened Basics
  import opened Json
  import opened RpcBase

  /** A queued reply, and (history) the call the peer meant it for. */
  datatype Tagged = Tagged(reply: Reply, call: nat)

  datatype Caller =
    | Away
    | Blocked                                         // connected, waiting for the call mutex
    | Holding                                         // mutex taken, nothing sent yet
    | Awaiting(call: nat)                             // call sent, in the reply loop
    | Leaving(sent: Option<nat>, got: Option<Tagged>) // about to count up and release the mutex

  datatype State = State(
    id: int,
    mutex: Option<nat>,
    callers: seq<Caller>,
    results: seq<Tagged>,
    enabled: bool,
    // history
    calls: seq<int>,                 // the identifiers sent, in order
    serials: seq<nat>,               // for each of them, how often the identifier had been counted up
    made: nat,                       // how often it has been counted up by now
    returned: seq<(nat, Tagged)>)    // successful calls and what they returned

  datatype Step =
    | Enter(c: nat) | Acquire(c: nat) | Send(c: nat, ok: bool)
    | Pop(c: nat) | GiveUp(c: nat) | Return(c: nat)
    | Arrive(call: nat, payload: Value, failure: Option<Failure>)
    | Disable

  function Init(first: int, count: nat): State {
    State(first, None, seq(count, i => Away), [], true, [], [], 0, [])
  }

  function Move(s: State, c: nat, pc: Caller): State
    requires c < |s.callers|
  {
    s.(callers := s.callers[c := pc])
  }

  predicate Enabled(s: State, l: Step) {
    match l
    case Enter(c) => c < |s.callers| && s.callers[c].Away?
    case Acquire(c) => c < |s.callers| && s.callers[c].Blocked? && s.mutex == None
    case Send(c, _) => c < |s.callers| && s.callers[c].Holding?
    case Pop(c) => c < |s.callers| && s.callers[c].Awaiting? && s.enabled && s.results != []
    case GiveUp(c) => c < |s.callers| && s.callers[c].Awaiting?
    case Return(c) => c < |s.callers| && s.callers[c].Leaving?
    case Arrive(call, _, _) => call < |s.calls|
    case Disable => true
  }

  function Apply(s: State, l: Step): State
    requires Enabled(s, l)
  {
    match l
    case Enter(c) => Move(s, c, Blocked)
    case Acquire(c) => Move(s, c, Holding).(mutex := Some(c))
    case Send(c, ok) =>
      if ok then Move(s, c, Awaiting(|s.calls|)).(calls := s.calls + [s.id], serials := s.serials + [s.made])
      else Move(s, c, Leaving(None, None))
    case Pop(c) =>
      var front := s.results[0];
      var s' := s.(results := s.results[1..]);
      if front.reply.id == IdText(s.id) then Move(s', c, Leaving(Some(s.callers[c].call), Some(front))) else s'
    case GiveUp(c) => Move(s, c, Leaving(Some(s.callers[c].call), None))
    case Return(c) =>
      var pc := s.callers[c];
      Move(s, c, Away).(
        mutex := None, id := Next(s.id), made := s.made + 1,
        returned := if pc.sent.Some? && pc.got.Some? then s.returned + [(pc.sent.value, pc.got.value)] else s.returned)
    case Arrive(call, payload, failure) =>
      s.(results := s.results + [Tagged(Reply(IdText(s.calls[call]), payload, failure), call)])
    case Disable => s.(enabled := false)
  }

  ghost predicate Legal(s: State, ls: seq<Step>)
    decreases |ls|
  {
    ls == [] || (Enabled(s, ls[0]) && Legal(Apply(s, ls[0]), ls[1..]))
  }

  ghost function After(s: State, ls: seq<Step>): State
    requires Legal(s, ls)
    decreases |ls|
  {
    if ls == [] then s else After(Apply(s, ls[0]), ls[1..])
  }

  // ---------------------------------------------------------------------------------------
  // Identifiers
  // ---------------------------------------------------------------------------------------

  const PERIOD := 0x1_0000_0000

  predicate IsInt(id: int) {
    INT_MIN <= id <= INT_MAX
  }

  /** The identifier after counting up `n` times. */
  function IdAfter(first: int, n: nat): (id: int)
    ensures IsInt(id)
  {
    (first - INT_MIN + n) % PERIOD + INT_MIN
  }

  lemma CountingUp(first: int, n: nat)
    ensures Next(IdAfter(first, n)) == IdAfter(first, n + 1)
    ensures IsInt(first) ==> IdAfter(first, 0) == first
  {
    var x := first - INT_MIN + n;
    var q := x / PERIOD;
    assert x == q * PERIOD + x % PERIOD;
    if x % PERIOD == PERIOD - 1 {
      assert x + 1 == (q + 1) * PERIOD;
      Remainder(x + 1, q + 1, 0);
    } else {
      Remainder(x + 1, q, x % PERIOD + 1);
    }
  }

  lemma Remainder(x: int, q: int, r: nat)
    requires x == q * PERIOD + r && r < PERIOD
    ensures x % PERIOD == r
  {
    assert (x / PERIOD - q) * PERIOD == r - x % PERIOD;
  }

  /** Identifiers come round after 2^32 calls and not before. */
  lemma IdsComeRound(first: int, a: nat, b: nat)
    ensures a < b < a + PERIOD ==> IdAfter(first, a) != IdAfter(first, b)
    ensures IdAfter(first, a) == IdAfter(first, a + PERIOD)
  {
    var x, y := first - INT_MIN + a, first - INT_MIN + b;
    Remainder(x + PERIOD, x / PERIOD + 1, x % PERIOD);
    assert y - x == (y / PERIOD - x / PERIOD) * PERIOD + (y % PERIOD - x % PERIOD);
  }

  // ---------------------------------------------------------------------------------------
  // The invariant
  // ---------------------------------------------------------------------------------------

  predicate InCall(pc: Caller) {
    pc.Holding? || pc.Awaiting? || pc.Leaving?
  }

  /** The call this caller has sent and not yet returned from. */
  function Current(pc: Caller): Option<nat> {
    match pc
    case Awaiting(call) => Some(call)
    case Leaving(sent, _) => sent
    case _ => None
  }

  ghost predicate CallerOk(s: State, c: nat)
    requires c < |s.callers|
  {
    var pc := s.callers[c];
    && (InCall(pc) <==> s.mutex == Some(c))
    && (Current(pc).Some? ==>
          && Current(pc).value == |s.serials| - 1 && |s.serials| > 0
          && s.serials[|s.serials| - 1] == s.made)
    && (InCall(pc) && Current(pc).None? && |s.serials| > 0 ==> s.serials[|s.serials| - 1] < s.made)
  }

  /** A reply taken before the identifiers came round is the caller's own. */
  ghost predicate TakenOk(s: State, c: nat)
    requires c < |s.callers|
  {
    var pc := s.callers[c];
    pc.Leaving? && pc.got.Some? ==>
      && TagOk(s, pc.got.value) && pc.sent.Some? && pc.got.value.reply.id == IdText(s.id)
      && (s.made < PERIOD ==> pc.sent == Some(pc.got.value.call))
  }

  ghost predicate CallsOk(s: State, first: int) {
    && |s.calls| == |s.serials| && (forall i :: 0 <= i < |s.calls| ==> s.calls[i] == IdAfter(first, s.serials[i]))
    && (forall i, j :: 0 <= i < j < |s.serials| ==> s.serials[i] < s.serials[j])
    && (|s.serials| > 0 ==> s.serials[|s.serials| - 1] <= s.made)
    && (s.mutex == None && |s.serials| > 0 ==> s.serials[|s.serials| - 1] < s.made)
    && (s.mutex.Some? ==> s.mutex.value < |s.callers|)
  }

  ghost predicate TagOk(s: State, t: Tagged) {
    t.call < |s.calls| && t.reply.id == IdText(s.calls[t.call])
  }

  /** Every returned reply was meant for the call that returned it. */
  ghost predicate NothingStale(s: State) {
    forall i :: 0 <= i < |s.returned| ==> s.returned[i].0 == s.returned[i].1.call
  }

  ghost predicate ReturnedOk(s: State) {
    && (s.made <= PERIOD ==> NothingStale(s))
    && (forall i :: 0 <= i < |s.returned| ==>
          s.returned[i].0 < |s.calls| && s.returned[i].1.reply.id == IdText(s.calls[s.returned[i].0]))
    && (forall i, j :: 0 <= i < j < |s.returned| ==> s.returned[i].0 < s.returned[j].0)
    && (forall c, i :: 0 <= c < |s.callers| && Current(s.callers[c]).Some? && 0 <= i < |s.returned| ==>
          s.returned[i].0 < Current(s.callers[c]).value)
  }

  ghost predicate Inv(s: State, first: int) {
    && s.id == IdAfter(first, s.made) && CallsOk(s, first) && ReturnedOk(s)
    && (forall c :: 0 <= c < |s.callers| ==> CallerOk(s, c) && TakenOk(s, c))
    && (forall i :: 0 <= i < |s.results| ==> TagOk(s, s.results[i]))
  }

  /** The reply that carries the identifier of the last call was meant for it, as long as the
      identifiers have not come round. */
  lemma OwnReplyIsMeantForIt(s: State, first: int, t: Tagged)
    requires CallsOk(s, first) && TagOk(s, t) && |s.calls| > 0 && s.serials[|s.serials| - 1] == s.made < PERIOD
    requires t.reply.id == IdText(IdAfter(first, s.made))
    ensures t.call == |s.calls| - 1
  {
    IdTextInjective(s.calls[t.call], IdAfter(first, s.made));
    IdsComeRound(first, s.serials[t.call], s.made);
  }

  lemma SendKeepsInv(s: State, first: int, c: nat)
    requires Inv(s, first) && Enabled(s, Send(c, true))
    ensures Inv(Apply(s, Send(c, true)), first)
  {
    var s' := Apply(s, Send(c, true));
    assert CallerOk(s, c);
    hide IdAfter, IdText;
    forall d | 0 <= d < |s'.callers| ensures CallerOk(s', d) && TakenOk(s', d) {
      assert CallerOk(s, d) && TakenOk(s, d);
    }
    forall t: Tagged ensures TagOk(s, t) ==> TagOk(s', t) {}
  }

  /** What a caller finds when it takes a reply that carries its identifier. */
  lemma TakingIsOk(s: State, first: int, c: nat)
    requires Inv(s, first) && Enabled(s, Pop(c)) && s.results[0].reply.id == IdText(s.id)
    ensures var s' := Apply(s, Pop(c)); CallerOk(s', c) && TakenOk(s', c)
  {
    assert CallerOk(s, c) && TagOk(s, s.results[0]);
    if s.made < PERIOD {
      OwnReplyIsMeantForIt(s, first, s.results[0]);
    }
    hide IdAfter, IdText;
  }

  lemma OthersWhilePopping(s: State, c: nat, d: nat)
    requires Enabled(s, Pop(c)) && d < |s.callers| && CallerOk(s, d) && TakenOk(s, d)
    requires d != c || s.results[0].reply.id != IdText(s.id)
    ensures var s' := Apply(s, Pop(c)); CallerOk(s', d) && TakenOk(s', d)
  {
    hide IdText;
  }

  lemma PopKeepsInv(s: State, first: int, c: nat)
    requires Inv(s, first) && Enabled(s, Pop(c))
    ensures Inv(Apply(s, Pop(c)), first)
  {
    var s' := Apply(s, Pop(c));
    forall d | 0 <= d < |s'.callers|
      ensures CallerOk(s', d) && TakenOk(s', d) && Current(s'.callers[d]) == Current(s.callers[d])
    {
      if d == c && s.results[0].reply.id == IdText(s.id) {
        TakingIsOk(s, first, c);
      } else {
        OthersWhilePopping(s, c, d);
      }
    }
    SameReturned(s, s');
    hide IdAfter, IdText, CallerOk, TakenOk, Current, ReturnedOk;
    forall t: Tagged ensures TagOk(s, t) ==> TagOk(s', t) {}
  }

  lemma SameReturned(s: State, s': State)
    requires ReturnedOk(s) && s'.returned == s.returned && s'.calls == s.calls && s'.made >= s.made
    requires |s'.callers| == |s.callers|
    requires forall d :: 0 <= d < |s.callers| ==>
             Current(s'.callers[d]).None? || Current(s'.callers[d]) == Current(s.callers[d])
    ensures ReturnedOk(s')
  {
    hide IdText, Current;
  }

  /** What the caller brings back, if anything. */
  lemma TakenReply(s: State, first: int, c: nat)
    requires Inv(s, first) && Enabled(s, Return(c)) && s.callers[c].got.Some?
    ensures var call, t := s.callers[c].sent, s.callers[c].got.value;
            && call == Some(|s.calls| - 1) && |s.calls| > 0 && t.reply.id == IdText(s.calls[|s.calls| - 1])
            && (s.made < PERIOD ==> t.call == |s.calls| - 1)
            && (forall i :: 0 <= i < |s.returned| ==> s.returned[i].0 < |s.calls| - 1)
  {
    hide IdAfter, IdText;
    assert CallerOk(s, c) && TakenOk(s, c);
    assert Current(s.callers[c]) == s.callers[c].sent;
  }

  /** The mutex is free again: nobody has a call outstanding. */
  lemma NobodyInCall(s: State, first: int, c: nat)
    requires Inv(s, first) && Enabled(s, Return(c))
    ensures var s' := Apply(s, Return(c));
            forall d :: 0 <= d < |s'.callers| ==> !InCall(s'.callers[d]) && Current(s'.callers[d]).None?
  {
    hide IdAfter, IdText, ReturnedOk, CallsOk, TakenOk;
    var s' := Apply(s, Return(c));
    assert CallerOk(s, c);
    forall d | 0 <= d < |s'.callers| ensures !InCall(s'.callers[d]) && Current(s'.callers[d]).None? {
      assert CallerOk(s, d);
    }
  }

  /** One returned reply more. */
  lemma OneMoreReturned(s: State, s': State, call: nat, t: Tagged)
    requires ReturnedOk(s) && s'.returned == s.returned + [(call, t)] && s'.calls == s.calls && s'.made == s.made + 1
    requires call < |s.calls| && t.reply.id == IdText(s.calls[call]) && (s.made < PERIOD ==> t.call == call)
    requires forall i :: 0 <= i < |s.returned| ==> s.returned[i].0 < call
    requires forall d :: 0 <= d < |s'.callers| ==> Current(s'.callers[d]).None?
    ensures ReturnedOk(s')
  {
    hide IdText, Current;
  }

  lemma InvParts(s: State, first: int)
    requires Inv(s, first)
    ensures ReturnedOk(s)
  {
    hide IdAfter, IdText;
  }

  /** What a return leaves in the record of returned calls. */
  lemma RecordAfterReturn(s: State, c: nat)
    requires Enabled(s, Return(c))
    ensures var s' := Apply(s, Return(c)); var pc := s.callers[c];
            && s'.calls == s.calls && s'.made == s.made + 1 && |s'.callers| == |s.callers|
            && s'.returned == (if pc.sent.Some? && pc.got.Some? then s.returned + [(pc.sent.value, pc.got.value)]
                               else s.returned)
  {
  }

  lemma ReturnedAfterReturn(s: State, first: int, c: nat)
    requires Inv(s, first) && Enabled(s, Return(c))
    ensures ReturnedOk(Apply(s, Return(c)))
  {
    hide IdAfter, IdText, Inv, Next, CallsOk;
    RecordAfterReturn(s, c);
    InvParts(s, first);
    NobodyInCall(s, first, c);
    var s' := Apply(s, Return(c));
    hide Apply;
    if s.callers[c].got.Some? {
      TakenReply(s, first, c);
      hide ReturnedOk, Current;
      OneMoreReturned(s, s', s.callers[c].sent.value, s.callers[c].got.value);
    } else {
      hide ReturnedOk, Current;
      SameReturned(s, s');
    }
  }

  lemma ReturnKeepsInv(s: State, first: int, c: nat)
    requires Inv(s, first) && Enabled(s, Return(c))
    ensures Inv(Apply(s, Return(c)), first)
  {
    var s' := Apply(s, Return(c));
    CountingUp(first, s.made);
    ReturnedAfterReturn(s, first, c);
    assert CallerOk(s, c);
    hide IdAfter, IdText, ReturnedOk;
    forall d | 0 <= d < |s'.callers| ensures CallerOk(s', d) && TakenOk(s', d) && !InCall(s'.callers[d]) {
      assert CallerOk(s, d) && TakenOk(s, d);
    }
    forall t: Tagged ensures TagOk(s, t) ==> TagOk(s', t) {}
  }

  /** A step of a caller that neither sends, nor takes a reply, nor returns. */
  lemma CallerStepKeepsInv(s: State, first: int, l: Step)
    requires Inv(s, first) && Enabled(s, l)
    requires l.Enter? || l.Acquire? || (l.Send? && !l.ok) || l.GiveUp?
    ensures Inv(Apply(s, l), first)
  {
    var s' := Apply(s, l);
    assert CallerOk(s, l.c);
    hide IdAfter, IdText;
    forall d | 0 <= d < |s'.callers| ensures CallerOk(s', d) && TakenOk(s', d) {
      assert CallerOk(s, d) && TakenOk(s, d);
    }
    forall t: Tagged ensures TagOk(s, t) == TagOk(s', t) {}
    assert ReturnedOk(s') by {
      assert forall d :: 0 <= d < |s'.callers| && Current(s'.callers[d]).Some? ==>
             Current(s'.callers[d]) == Current(s.callers[d]);
    }
  }

  lemma OutsideStepKeepsInv(s: State, first: int, l: Step)
    requires Inv(s, first) && Enabled(s, l) && (l.Arrive? || l.Disable?)
    ensures Inv(Apply(s, l), first)
  {
    var s' := Apply(s, l);
    hide IdAfter, IdText;
    forall d | 0 <= d < |s'.callers| ensures CallerOk(s', d) && TakenOk(s', d) {
      assert CallerOk(s, d) && TakenOk(s, d);
    }
    forall t: Tagged ensures TagOk(s, t) == TagOk(s', t) {}
    forall i | 0 <= i < |s'.results| ensures TagOk(s', s'.results[i]) {
      assert i < |s.results| ==> TagOk(s, s.results[i]);
    }
  }

  lemma StepKeepsInv(s: State, first: int, l: Step)
    requires Inv(s, first) && Enabled(s, l)
    ensures Inv(Apply(s, l), first)
  {
    hide Inv, Apply, Enabled;
    match l
    case Send(c, true) => SendKeepsInv(s, first, c);
    case Pop(c) => PopKeepsInv(s, first, c);
    case Return(c) => ReturnKeepsInv(s, first, c);
    case Arrive(_, _, _) => OutsideStepKeepsInv(s, first, l);
    case Disable => OutsideStepKeepsInv(s, first, l);
    case _ => CallerStepKeepsInv(s, first, l);
  }

  lemma {:induction false} RunKeepsInv(s: State, first: int, ls: seq<Step>)
    requires Inv(s, first) && Legal(s, ls)
    ensures Inv(After(s, ls), first)
    decreases |ls|
  {
    hide Inv, Enabled, Apply;
    if ls != [] {
      StepKeepsInv(s, first, ls[0]);
      RunKeepsInv(Apply(s, ls[0]), first, ls[1..]);
    }
  }

  lemma InitKeepsInv(first: int, count: nat)
    requires IsInt(first)
    ensures Inv(Init(first, count), first)
  {
    CountingUp(first, 0);
    hide IdAfter;
  }

  /** In every interleaving: at most one call is outstanding; every successful call returned a
      reply with its own identifier, and none returned twice; and as long as the identifier has
      been counted up at most 2^32 times, the peer meant that reply for that very call. */
  lemma NoStaleReply(first: int, count: nat, ls: seq<Step>)
    requires IsInt(first) && Legal(Init(first, count), ls)
    ensures var s := After(Init(first, count), ls);
            && (forall c, d ::
                  0 <= c < |s.callers| && 0 <= d < |s.callers| && InCall(s.callers[c]) && InCall(s.callers[d]) ==>
                    c == d)
            && (forall i :: 0 <= i < |s.returned| ==>
                  s.returned[i].0 < |s.calls| && s.returned[i].1.reply.id == IdText(s.calls[s.returned[i].0]))
            && (forall i, j :: 0 <= i < j < |s.returned| ==> s.returned[i].0 != s.returned[j].0)
            && (s.made <= PERIOD ==> NothingStale(s))
  {
    InitKeepsInv(first, count);
    RunKeepsInv(Init(first, count), first, ls);
    var s := After(Init(first, count), ls);
    hide IdAfter, IdText;
    forall c, d | 0 <= c < |s.callers| && 0 <= d < |s.callers| && InCall(s.callers[c]) && InCall(s.callers[d])
      ensures c == d
    {
      assert CallerOk(s, c) && CallerOk(s, d);
    }
  }

  // ---------------------------------------------------------------------------------------
  // The bound is exact
  // ---------------------------------------------------------------------------------------

  lemma {:induction false} OneAfterTheOther(s: State, a: seq<Step>, b: seq<Step>)
    requires Legal(s, a) && Legal(After(s, a), b)
    ensures Legal(s, a + b) && After(s, a + b) == After(After(s, a), b)
    decreases |a|
  {
    hide Enabled, Apply;
    if a == [] {
      assert a + b == b;
    } else {
      assert (a + b)[0] == a[0] && (a + b)[1..] == a[1..] + b;
      OneAfterTheOther(Apply(s, a[0]), a[1..], b);
    }
  }

  lemma OneStep(s: State, l: Step)
    requires Enabled(s, l)
    ensures Legal(s, [l]) && After(s, [l]) == Apply(s, l)
  {
    assert [l][1..] == [];
  }

  /** One more step at the end of a run. */
  lemma ThenStep(s: State, ls: seq<Step>, l: Step)
    requires Legal(s, ls) && Enabled(After(s, ls), l)
    ensures Legal(s, ls + [l]) && After(s, ls + [l]) == Apply(After(s, ls), l)
  {
    hide Enabled, Apply, Legal, After;
    OneStep(After(s, ls), l);
    OneAfterTheOther(s, ls, [l]);
  }

  function Ids(first: int, n: nat): seq<int> {
    seq(n, i requires 0 <= i => IdAfter(first, i))
  }

  function Numbers(n: nat): seq<nat> {
    seq(n, i requires 0 <= i => i)
  }

  /** The only caller in some state, `n` calls having been sent and none answered so far. */
  function Lonely(first: int, pc: Caller, mutex: Option<nat>, sent: nat, made: nat): State {
    State(IdAfter(first, made), mutex, [pc], [], true, Ids(first, sent), Numbers(sent), made, [])
  }

  lemma SentOnce(first: int, n: nat)
    ensures Enabled(Lonely(first, Holding, Some(0), n, n), Send(0, true))
    ensures Apply(Lonely(first, Holding, Some(0), n, n), Send(0, true)) == Lonely(first, Awaiting(n), Some(0), n + 1, n)
  {
    hide IdAfter;
    assert Ids(first, n + 1) == Ids(first, n) + [IdAfter(first, n)];
    assert Numbers(n + 1) == Numbers(n) + [n];
  }

  /** The caller is about to send its call number `n`; all calls before have timed out. */
  lemma {:induction false} CallsThatTimeOut(first: int, n: nat) returns (ls: seq<Step>)
    requires IsInt(first)
    ensures Legal(Init(first, 1), ls) && After(Init(first, 1), ls) == Lonely(first, Away, None, n, n)
  {
    if n == 0 {
      CountingUp(first, 0);
      ls := [];
      assert Init(first, 1).callers == [Away] && Ids(first, 0) == [] && Numbers(0) == [];
    } else {
      var before := CallsThatTimeOut(first, n - 1);
      var sent, s0 := CallSent(first, n - 1, before);
      CountingUp(first, n - 1);
      hide IdAfter, Next;
      ThenStep(Init(first, 1), sent, GiveUp(0));
      ThenStep(Init(first, 1), sent + [GiveUp(0)], Return(0));
      ls := sent + [GiveUp(0)] + [Return(0)];
    }
  }

  lemma CallSent(first: int, n: nat, before: seq<Step>) returns (ls: seq<Step>, s: State)
    requires Legal(Init(first, 1), before) && After(Init(first, 1), before) == Lonely(first, Away, None, n, n)
    ensures s == Lonely(first, Awaiting(n), Some(0), n + 1, n)
    ensures Legal(Init(first, 1), ls) && After(Init(first, 1), ls) == s
  {
    hide IdAfter, Legal, After;
    var i := Init(first, 1);
    ThenStep(i, before, Enter(0));
    ThenStep(i, before + [Enter(0)], Acquire(0));
    SentOnce(first, n);
    ThenStep(i, before + [Enter(0)] + [Acquire(0)], Send(0, true));
    ls := before + [Enter(0)] + [Acquire(0)] + [Send(0, true)];
    s := Lonely(first, Awaiting(n), Some(0), n + 1, n);
  }

  /** A run whose call number 2^32 returns the late reply to call number 0. */
  lemma StaleReplyRun(first: int) returns (ls: seq<Step>)
    requires IsInt(first)
    ensures Legal(Init(first, 1), ls)
    ensures var s := After(Init(first, 1), ls); s.made == PERIOD + 1 && |s.returned| == 1 && s.returned[0].0 == PERIOD
                                                && s.returned[0].1.call == 0
  {
    var i := Init(first, 1);
    var before := CallsThatTimeOut(first, PERIOD);
    var sent, s := CallSent(first, PERIOD, before);
    IdsComeRound(first, 0, 0);
    assert s.calls[0] == IdAfter(first, 0) == s.id;
    hide IdAfter, Legal, After, Next;
    var arrive := Arrive(0, Null, None);
    ThenStep(i, sent, arrive);
    ThenStep(i, sent + [arrive], Pop(0));
    ThenStep(i, sent + [arrive] + [Pop(0)], Return(0));
    ls := sent + [arrive] + [Pop(0)] + [Return(0)];
  }

  /** So 2^32 is exactly the number of calls up to which no stale reply is ever returned. */
  lemma StaleReplyIff(first: int, bound: nat)
    requires IsInt(first)
    ensures (forall ls :: Legal(Init(first, 1), ls) && After(Init(first, 1), ls).made <= bound ==>
               NothingStale(After(Init(first, 1), ls)))
            <==> bound <= PERIOD
  {
    if bound <= PERIOD {
      forall ls | Legal(Init(first, 1), ls) && After(Init(first, 1), ls).made <= bound
        ensures NothingStale(After(Init(first, 1), ls))
      {
        NoStaleReply(first, 1, ls);
      }
    } else {
      var ls := StaleReplyRun(first);
      hide Legal, After, Init;
      assert !NothingStale(After(Init(first, 1), ls));
    }
  }
}
