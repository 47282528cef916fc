/** Two ends of a connection wired together. Anybody may inject any text; each end receives,
    answers what it was asked, and complains about what it does not understand. */
module RpcPeers {
  import opened Basics
  import opened Json
  import opened RpcFrame
  import opened RpcBase

  /** One end, and the frames on their way to it. */
  datatype End = End(inbox: seq<string>, peer: Peer)

  datatype Net = Net(left: End, right: End, injected: nat)

  datatype Side = Left | Right

  datatype Step =
    | Inject(at: Side, text: string)
    | Deliver(at: Side)
    /** A worker serves any of the queued requests; without an outcome, it drops it. */
    | Serve(at: Side, k: nat, outcome: Option<Outcome>)

  const QUIET := End([], Peer([], [], []))
  const EMPTY := Net(QUIET, QUIET, 0)

  function At(n: Net, side: Side): End {
    if side.Left? then n.left else n.right
  }

  function SentBy(n: Net): nat {
    |n.left.peer.sent| + |n.right.peer.sent|
  }

  /** The end at `side` has become `peer` and has left `inbox` to be read; what it has sent is on
      its way to the other end. */
  function Updated(n: Net, side: Side, inbox: seq<string>, peer: Peer, frames: seq<string>): Net {
    match side
    case Left => n.(left := End(inbox, peer), right := n.right.(inbox := n.right.inbox + frames))
    case Right => n.(right := End(inbox, peer), left := n.left.(inbox := n.left.inbox + frames))
  }

  predicate Enabled(n: Net, l: Step) {
    match l
    case Inject(_, _) => true
    case Deliver(at) => At(n, at).inbox != []
    case Serve(at, k, _) => k < |At(n, at).peer.requests|
  }

  function Apply(n: Net, l: Step): Net
    requires Enabled(n, l)
  {
    var e := At(n, l.at);
    match l
    case Inject(at, text) => Updated(n, at, e.inbox + [text], e.peer, []).(injected := n.injected + 1)
    case Deliver(at) =>
      var peer := Received(e.peer, None, e.inbox[0]);
      Updated(n, at, e.inbox[1..], peer, peer.sent[|e.peer.sent|..])
    case Serve(at, k, outcome) =>
      var requests := e.peer.requests[..k] + e.peer.requests[k + 1..];
      var frames := if outcome.Some? then Answer(e.peer.requests[k].request.id, outcome.value) else [];
      Updated(n, at, e.inbox, e.peer.(requests := requests, sent := e.peer.sent + frames), frames)
  }

  ghost predicate Legal(n: Net, ls: seq<Step>)
    decreases |ls|
  {
    ls == [] || (Enabled(n, ls[0]) && Legal(Apply(n, ls[0]), ls[1..]))
  }

  ghost function After(n: Net, ls: seq<Step>): Net
    requires Legal(n, ls)
    decreases |ls|
  {
    if ls == [] then n else After(Apply(n, ls[0]), ls[1..])
  }

  // ---------------------------------------------------------------------------------------
  // What is still to come
  // ---------------------------------------------------------------------------------------

  /** What a frame of each kind, or a queued request, may still cost. */
  datatype Rates = Rates(call: nat, queued: nat, malformed: nat, reply: nat)

  /** In further frames: a request is answered, and the answer may be malformed. */
  const FRAMES := Rates(2, 2, 1, 0)
  /** In further steps. */
  const STEPS := Rates(4, 3, 2, 1)

  function Cost(text: string, r: Rates): nat {
    match Meaning(text)
    case Call(_, _, _) => r.call
    case Malformed => r.malformed
    case _ => r.reply
  }

  function Costs(texts: seq<string>, r: Rates): nat {
    if texts == [] then 0 else Cost(texts[0], r) + Costs(texts[1..], r)
  }

  function Owed(e: End, r: Rates): nat {
    Costs(e.inbox, r) + r.queued * |e.peer.requests|
  }

  function Debt(n: Net, r: Rates): nat {
    Owed(n.left, r) + Owed(n.right, r)
  }

  lemma {:induction false} CostsAppend(a: seq<string>, b: seq<string>, r: Rates)
    ensures Costs(a + b, r) == Costs(a, r) + Costs(b, r)
  {
    if a == [] {
      assert a + b == b;
    } else {
      assert (a + b)[1..] == a[1..] + b;
      CostsAppend(a[1..], b, r);
    }
  }

  lemma CostsOne(text: string, r: Rates)
    ensures Costs([text], r) == Cost(text, r)
  {
    assert [text][1..] == [];
  }

  lemma ComplaintCosts(r: Rates)
    ensures Cost(PROTOCOL_ERROR, r) == r.reply
  {
    ErrorRoundTrip("", ERROR_PROTOCOL, "");
  }

  lemma AnswerCosts(id: string, outcome: Outcome, r: Rates)
    requires r.reply <= r.malformed
    ensures |Answer(id, outcome)| <= 1
    ensures Costs(Answer(id, outcome), r) <= if Answer(id, outcome) == [] then 0 else r.malformed
  {
    hide Meaning, CStr, ResultText, ErrorText;
    match outcome
    case Accepted(response) =>
      ResultIsNoCall(id, response);
      CostsOne(ResultText(id, response), r);
    case Rejected(code, message) =>
      ErrorIsNoCall(id, CStr(code), message);
      CostsOne(ErrorText(id, CStr(code), message), r);
  }

  /** An end changes what it owes by what it takes off its inbox, what it queues, and what it
      sends to the other end. */
  lemma UpdateCosts(n: Net, side: Side, inbox: seq<string>, peer: Peer, frames: seq<string>, r: Rates)
    ensures var e, n' := At(n, side), Updated(n, side, inbox, peer, frames);
            && Debt(n', r) == Debt(n, r) + Costs(inbox, r) - Costs(e.inbox, r) + Costs(frames, r)
                              + r.queued * (|peer.requests| - |e.peer.requests|)
            && SentBy(n') == SentBy(n) + |peer.sent| - |e.peer.sent|
  {
    var e := At(n, side);
    var other := if side.Left? then n.right else n.left;
    OwedWhen(e, inbox, peer, r);
    OwedAfterSending(other, frames, r);
    hide Costs, Owed;
  }

  lemma OwedAfterSending(e: End, frames: seq<string>, r: Rates)
    ensures Owed(e.(inbox := e.inbox + frames), r) == Owed(e, r) + Costs(frames, r)
  {
    CostsAppend(e.inbox, frames, r);
  }

  lemma OwedWhen(e: End, inbox: seq<string>, peer: Peer, r: Rates)
    ensures Owed(End(inbox, peer), r) ==
            Owed(e, r) + Costs(inbox, r) - Costs(e.inbox, r) + r.queued * (|peer.requests| - |e.peer.requests|)
  {
    hide Costs;
    Distribute(r.queued, |peer.requests|, |e.peer.requests|);
  }

  lemma Distribute(q: int, a: int, b: int)
    ensures q * (a - b) == q * a - q * b
  {
  }

  lemma InjectCosts(n: Net, at: Side, text: string, r: Rates)
    ensures var n' := Apply(n, Inject(at, text));
            && Debt(n', r) == Debt(n, r) + Cost(text, r) && SentBy(n') == SentBy(n) && n'.injected == n.injected + 1
  {
    var e := At(n, at);
    assert Costs([], r) == 0;
    CostsOne(text, r);
    hide Costs, Cost;
    CostsAppend(e.inbox, [text], r);
    UpdateCosts(n, at, e.inbox + [text], e.peer, [], r);
  }

  lemma DeliverCosts(n: Net, at: Side, r: Rates)
    requires Enabled(n, Deliver(at))
    ensures var n' := Apply(n, Deliver(at));
            var m := Meaning(At(n, at).inbox[0]);
            && n'.injected == n.injected
            && SentBy(n') == SentBy(n) + (if m.Malformed? then 1 else 0)
            && Debt(n', r) == Debt(n, r) - Cost(At(n, at).inbox[0], r)
                              + (if m.Malformed? then r.reply else 0) + (if m.Call? then r.queued else 0)
  {
    var e := At(n, at);
    var peer := Received(e.peer, None, e.inbox[0]);
    var frames := peer.sent[|e.peer.sent|..];
    var m := Meaning(e.inbox[0]);
    assert frames == if m.Malformed? then [PROTOCOL_ERROR] else [];
    assert |peer.requests| - |e.peer.requests| == if m.Call? then 1 else 0;
    CostsSplit(e.inbox, r);
    ComplaintCosts(r);
    CostsOne(PROTOCOL_ERROR, r);
    hide Meaning, Received, Costs, Cost, Debt, SentBy;
    UpdateCosts(n, at, e.inbox[1..], peer, frames, r);
  }

  lemma CostsSplit(texts: seq<string>, r: Rates)
    requires texts != []
    ensures Costs(texts, r) == Cost(texts[0], r) + Costs(texts[1..], r) && Costs([], r) == 0
  {
  }

  lemma ServeCosts(n: Net, at: Side, k: nat, outcome: Option<Outcome>, r: Rates)
    requires Enabled(n, Serve(at, k, outcome)) && r.reply <= r.malformed
    ensures var n' := Apply(n, Serve(at, k, outcome));
            && n'.injected == n.injected && SentBy(n) <= SentBy(n') <= SentBy(n) + 1
            && Debt(n', r) <= Debt(n, r) - r.queued + (if SentBy(n') == SentBy(n) then 0 else r.malformed)
  {
    var e := At(n, at);
    var requests := e.peer.requests[..k] + e.peer.requests[k + 1..];
    var frames := if outcome.Some? then Answer(e.peer.requests[k].request.id, outcome.value) else [];
    CostsAreNothing(r);
    hide Answer, Costs, Debt, SentBy;
    if outcome.Some? {
      AnswerCosts(e.peer.requests[k].request.id, outcome.value, r);
    }
    UpdateCosts(n, at, e.inbox, e.peer.(requests := requests, sent := e.peer.sent + frames), frames, r);
    OneFewer(r.queued, |requests|, |e.peer.requests|);
  }

  lemma CostsAreNothing(r: Rates)
    ensures Costs([], r) == 0
  {
  }

  lemma OneFewer(q: int, a: int, b: int)
    requires a == b - 1
    ensures q * (a - b) == -q
  {
  }

  /** Neither frames nor steps come from nowhere: a step that is no injection pays for itself and
      for the frame it sends out of what is owed. */
  lemma StepPays(n: Net, l: Step)
    requires Enabled(n, l)
    ensures var n' := Apply(n, l);
            && Debt(n', FRAMES) + SentBy(n') - 2 * n'.injected <= Debt(n, FRAMES) + SentBy(n) - 2 * n.injected
            && Debt(n', STEPS) + 1 - 5 * n'.injected <= Debt(n, STEPS) - 5 * n.injected
  {
    hide Debt, SentBy, Meaning, Apply;
    match l
    case Inject(at, text) =>
      InjectCosts(n, at, text, FRAMES);
      InjectCosts(n, at, text, STEPS);
    case Deliver(at) =>
      DeliverCosts(n, at, FRAMES);
      DeliverCosts(n, at, STEPS);
    case Serve(at, k, outcome) =>
      ServeCosts(n, at, k, outcome, FRAMES);
      ServeCosts(n, at, k, outcome, STEPS);
  }

  lemma {:induction false} RunPays(n: Net, ls: seq<Step>)
    requires Legal(n, ls)
    ensures var n' := After(n, ls);
            && Debt(n', FRAMES) + SentBy(n') - 2 * n'.injected <= Debt(n, FRAMES) + SentBy(n) - 2 * n.injected
            && Debt(n', STEPS) + |ls| - 5 * n'.injected <= Debt(n, STEPS) - 5 * n.injected
    decreases |ls|
  {
    hide Debt, SentBy;
    if ls != [] {
      StepPays(n, ls[0]);
      RunPays(Apply(n, ls[0]), ls[1..]);
    }
  }

  /** Each injected frame, well formed or not, triggers at most two further frames, and the
      exchange is over after at most five steps for each of them: errors do not bounce. */
  lemma NoPingPong(ls: seq<Step>)
    requires Legal(EMPTY, ls)
    ensures SentBy(After(EMPTY, ls)) <= 2 * After(EMPTY, ls).injected
    ensures |ls| <= 5 * After(EMPTY, ls).injected
  {
    RunPays(EMPTY, ls);
  }
}
