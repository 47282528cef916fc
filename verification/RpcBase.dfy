/** One end of an OCPP-J connection: it matches replies with calls, queues requests, answers
    them, and answers what it does not understand. */
module RpcBase {
  import opened Basics
  import opened Json
  import opened RpcFrame

  datatype Request = Request(id: string, action: string, payload: Value)

  /** A queued request, and the session it came in through. */
  datatype Queued = Queued(request: Request, owner: Option<nat>)

  datatype Failure = Failure(code: string, message: string)

  datatype Reply = Reply(id: string, payload: Value, failure: Option<Failure>)

  /** What the listener made of a request. */
  datatype Outcome = Accepted(response: Value) | Rejected(code: string, message: string)

  // ---------------------------------------------------------------------------------------
  // Identifiers
  // ---------------------------------------------------------------------------------------

  const INT_MAX := 0x7FFF_FFFF
  const INT_MIN := -0x8000_0000

  function DigitChar(n: nat): (c: char)
    requires n < 10
    ensures Digit(c) && c as int - '0' as int == n
  {
    "0123456789"[n]
  }

  function Decimal(n: nat): (s: string)
    ensures s != "" && forall i :: 0 <= i < |s| ==> Digit(s[i])
  {
    (if n < 10 then "" else Decimal(n / 10)) + [DigitChar(n % 10)]
  }

  /** A transaction identifier as a stream prints it. */
  function IdText(id: int): string {
    if id < 0 then "-" + Decimal(-id) else Decimal(id)
  }

  /** The next transaction identifier; the counter is a 32-bit integer. */
  function Next(id: int): int {
    if id == INT_MAX then INT_MIN else id + 1
  }

  lemma {:induction false} DigitsOfDecimal(n: nat)
    ensures DigitsValue(Decimal(n)) == n
  {
    var s := Decimal(n);
    if n < 10 {
      assert s[..|s| - 1] == "";
    } else {
      assert s[..|s| - 1] == Decimal(n / 10);
      DigitsOfDecimal(n / 10);
    }
  }

  /** Different identifiers print differently. */
  lemma IdTextInjective(a: int, b: int)
    ensures IdText(a) == IdText(b) <==> a == b
  {
    DigitsOfDecimal(if a < 0 then -a else a);
    DigitsOfDecimal(if b < 0 then -b else b);
    if IdText(a) == IdText(b) {
      assert Decimal(if a < 0 then -a else a)[0] != '-' && Decimal(if b < 0 then -b else b)[0] != '-';
      if a < 0 && b < 0 {
        assert IdText(a)[1..] == IdText(b)[1..];
      }
    }
  }

  lemma IdTextDigits(id: int)
    ensures id >= 0 ==> AllDigits(IdText(id)) && DigitsValue(IdText(id)) == id
    ensures id < 0 ==> !AllDigits(IdText(id))
  {
    if id >= 0 {
      DigitsOfDecimal(id);
    } else {
      assert !Digit(IdText(id)[0]);
    }
  }

  lemma IdTextPlain(id: int)
    ensures Plain(IdText(id))
  {
  }

  // ---------------------------------------------------------------------------------------
  // What a connection does, on values
  // ---------------------------------------------------------------------------------------

  /** What matters of one end: the queue its requests go to, its replies, what it has sent. */
  datatype Peer = Peer(requests: seq<Queued>, results: seq<Reply>, sent: seq<string>)

  const PROTOCOL_ERROR := ErrorText("", ERROR_PROTOCOL, "")

  /** Every received text has exactly one effect. */
  function Received(p: Peer, owner: Option<nat>, text: string): Peer {
    match Meaning(text)
    case Call(id, action, payload) => p.(requests := p.requests + [Queued(Request(id, action, payload), owner)])
    case CallResult(id, payload) => p.(results := p.results + [Reply(id, payload, None)])
    case CallError(id, code, message, payload) =>
      p.(results := p.results + [Reply(id, payload, Some(Failure(code, message)))])
    case Malformed => p.(sent := p.sent + [PROTOCOL_ERROR])
  }

  /** The frames that answer a request: one, or none for a rejection without a code. */
  function Answer(id: string, outcome: Outcome): seq<string> {
    match outcome
    case Accepted(response) => [ResultText(id, response)]
    case Rejected(code, message) => if code == "" then [] else [ErrorText(id, CStr(code), message)]
  }

  /** Responses are JSON objects. */
  predicate Sensible(outcome: Outcome) {
    outcome.Accepted? ==> outcome.response.Obj? && Writable(outcome.response)
  }

  /** The strings of an outcome that are spliced into its frame need no escape. */
  predicate PlainOutcome(outcome: Outcome) {
    outcome.Rejected? ==> Plain(outcome.code) && Plain(outcome.message)
  }

  /** The frame that tells the caller what the listener decided. */
  function Verdict(id: string, outcome: Outcome): Frame {
    match outcome
    case Accepted(response) => CallResult(id, response)
    case Rejected(code, message) => CallError(id, code, message, Obj([]))
  }

  /** A processed request is answered by exactly one frame, unless it is rejected without a code;
      and that frame says what the listener decided and is a reply to that request, if and only
      if the request's identifier and the strings of a rejection need no escape. */
  lemma AnswerReachesItsCall(id: string, outcome: Outcome)
    requires Sensible(outcome)
    ensures outcome.Rejected? && outcome.code == "" <==> Answer(id, outcome) == []
    ensures Answer(id, outcome) != [] ==>
              && |Answer(id, outcome)| == 1
              && (Meaning(Answer(id, outcome)[0]) == Verdict(id, outcome) <==> Plain(id) && PlainOutcome(outcome))
  {
    hide Meaning, Plain, Writable, CStr, ErrorText, ResultText;
    match outcome
    case Accepted(response) => ResultRoundTripIff(id, response);
    case Rejected(code, message) => CStringIff(id, code, message);
  }

  lemma CStringIff(id: string, code: string, message: string)
    ensures Meaning(ErrorText(id, CStr(code), message)) == CallError(id, code, message, Obj([]))
            <==> Plain(id) && Plain(code) && Plain(message)
  {
    hide Meaning, Plain, ErrorText;
    if Plain(code) {
      PlainHasNoNul(code);
      ErrorRoundTripIff(id, code, message);
    }
    if Meaning(ErrorText(id, CStr(code), message)) == CallError(id, code, message, Obj([])) {
      ErrorHasNoNul(ErrorText(id, CStr(code), message));
      CStrOfNoNul(code);
      ErrorRoundTripIff(id, code, message);
    }
  }

  /** The round trip of a call: what a caller sends is understood as its call, and what the peer
      then answers is queued by the caller under the identifier the caller waits for. */
  lemma CallAndAnswer(caller: Peer, callee: Peer, id: int, action: string, payload: Value, owner: Option<nat>,
                      session: Option<nat>, outcome: Outcome)
    requires Plain(action) && payload.Obj? && Writable(payload) && Sensible(outcome) && PlainOutcome(outcome)
    ensures Received(callee, owner, CallText(IdText(id), action, payload)) ==
            callee.(requests := callee.requests + [Queued(Request(IdText(id), action, payload), owner)])
    ensures Answer(IdText(id), outcome) != [] ==>
              Received(caller, session, Answer(IdText(id), outcome)[0]) ==
              caller.(results := caller.results +
                [match outcome
                 case Accepted(response) => Reply(IdText(id), response, None)
                 case Rejected(code, message) => Reply(IdText(id), Obj([]), Some(Failure(code, message)))])
  {
    hide Meaning, Plain, Writable, CallText, ResultText, ErrorText;
    IdTextPlain(id);
    CallRoundTrip(IdText(id), action, payload);
    AnswerReachesItsCall(IdText(id), outcome);
  }

  /** During one turn of the reply loop: what has been queued meanwhile, and whether the deadline
      has passed or the queue has been disabled. */
  datatype Turn = Turn(arrived: seq<Reply>, late: bool, disabled: bool)

  /** What the reply loop returns and what it leaves queued. After the last turn it times out. */
  function Await(queued: seq<Reply>, turns: seq<Turn>, id: string, enabled: bool): (Option<Reply>, seq<Reply>)
    decreases |turns|
  {
    if turns == [] then (None, queued)
    else
      var q := queued + turns[0].arrived;
      if turns[0].late || turns[0].disabled || !enabled || q == [] then (None, q)
      else if q[0].id == id then (Some(q[0]), q[1..])
      else Await(q[1..], turns[1..], id, enabled)
  }

  function Arrivals(turns: seq<Turn>): seq<Reply> {
    if turns == [] then [] else turns[0].arrived + Arrivals(turns[1..])
  }

  predicate NoneFor(rs: seq<Reply>, id: string) {
    forall i :: 0 <= i < |rs| ==> rs[i].id != id
  }

  /** A call that succeeds gets the first reply with its own identifier, drops exactly what was
      queued before it, and leaves queued everything that came after it. A call that fails has
      dropped only replies to other calls. */
  lemma {:induction false} AwaitTakesFirstOwn(queued: seq<Reply>, turns: seq<Turn>, id: string, enabled: bool)
      returns (n: nat, skipped: seq<Reply>)
    ensures n <= |turns| && NoneFor(skipped, id)
    ensures var (got, left) := Await(queued, turns, id, enabled);
            && queued + Arrivals(turns[..n]) == skipped + (if got.Some? then [got.value] else []) + left
            && (got.Some? ==> got.value.id == id)
            && (got.None? ==>
                  || n == |turns|
                  || (n > 0 && (!enabled || turns[n - 1].late || turns[n - 1].disabled || left == [])))
    decreases |turns|
  {
    if turns == [] {
      n, skipped := 0, [];
    } else {
      var q := queued + turns[0].arrived;
      if turns[0].late || turns[0].disabled || !enabled || q == [] || q[0].id == id {
        n, skipped := 1, [];
        assert turns[..1][1..] == [];
      } else {
        var n', skipped' := AwaitTakesFirstOwn(q[1..], turns[1..], id, enabled);
        n, skipped := n' + 1, [q[0]] + skipped';
        assert turns[..n][1..] == turns[1..][..n'];
        AfterFirst(queued, turns, n, q);
        assert q == [q[0]] + q[1..];
        var (got, left) := Await(q[1..], turns[1..], id, enabled);
        Prepend(q, Arrivals(turns[1..][..n']), skipped', if got.Some? then [got.value] else [], left);
      }
    }
  }

  lemma AfterFirst(queued: seq<Reply>, turns: seq<Turn>, n: nat, q: seq<Reply>)
    requires 0 < n <= |turns| && q == queued + turns[0].arrived
    ensures queued + Arrivals(turns[..n]) == q + Arrivals(turns[1..][..n - 1])
  {
    assert turns[..n][1..] == turns[1..][..n - 1];
  }

  lemma Prepend(q: seq<Reply>, more: seq<Reply>, skipped: seq<Reply>, got: seq<Reply>, left: seq<Reply>)
    requires q != [] && q[1..] + more == skipped + got + left
    ensures q + more == [q[0]] + skipped + got + left
  {
    assert q + more == [q[0]] + (q[1..] + more);
  }

  // ---------------------------------------------------------------------------------------
  // The classes
  // ---------------------------------------------------------------------------------------

  class Queue<T> {
    var items: seq<T>
    var enabled: bool

    constructor ()
      ensures items == [] && enabled
    {
      items, enabled := [], true;
    }

    /** Also while disabled. */
    method Push(item: T)
      modifies this
      ensures items == old(items) + [item] && enabled == old(enabled)
    {
      items := items + [item];
    }

    /** What `pop` returns once its wait is over: nothing if it timed out or if the queue is
        disabled, even if it is not empty. */
    method Pop() returns (item: Option<T>)
      modifies this
      ensures enabled == old(enabled)
      ensures if old(enabled) && old(items) != [] then item.Some? && old(items) == [item.value] + items
              else item.None? && items == old(items)
    {
      item := None;
      if enabled && items != [] {
        item := Some(items[0]);
        items := items[1..];
      }
    }

    method Clear()
      modifies this
      ensures items == [] && enabled == old(enabled)
    {
      while items != []
        invariant enabled == old(enabled)
        decreases |items|
      {
        items := items[1..];
      }
    }

    method SetEnable(on: bool)
      modifies this
      ensures items == old(items) && enabled == on
    {
      enabled := on;
    }
  }

  class RpcBase {
    const pool: Queue?<Queued>
    const requests: Queue<Queued>
    const results: Queue<Reply>
    var transactionId: int
    var owner: Option<nat>
    /** The owners whose `is_operational` flag has been cleared. */
    var retired: set<nat>
    var receiving: bool
    var sent: seq<string>

    ghost predicate Valid()
      reads this
    {
      pool != requests && (receiving ==> pool == null) && (owner.Some? ==> pool != null)
    }

    ghost function Footprint(): set<object> {
      {this, requests, results} + if pool == null then {} else {pool}
    }

    /** Where requests go: the queue of the pool if there is one. */
    function Incoming(): Queue<Queued> {
      if pool != null then pool else requests
    }

    function View(): Peer
      reads Footprint()
    {
      Peer(Incoming().items, results.items, sent)
    }

    constructor (pool: Queue?<Queued>)
      ensures Valid() && this.pool == pool && fresh(requests) && fresh(results)
      ensures owner == None && !receiving && sent == [] && results.items == [] && requests.items == []
      ensures results.enabled && requests.enabled
    {
      this.pool := pool;
      requests := new Queue<Queued>();
      results := new Queue<Reply>();
      transactionId, owner, retired, receiving, sent := 0, None, {}, false, [];
    }

    /** Nothing but the given queues, the identifier and the sent frames may differ. */
    twostate predicate SameSession()
      reads Footprint()
    {
      && owner == old(owner) && retired == old(retired) && receiving == old(receiving)
      && requests.enabled == old(requests.enabled) && results.enabled == old(results.enabled)
      && (pool != null ==> pool.enabled == old(pool.enabled) && requests.items == old(requests.items))
    }

    /** A session begins: a new identifier sequence, both queues enabled, and a fresh owner or a
        reception thread. Nothing happens in the middle of one. */
    method Start(random: int, session: nat)
      requires Valid() && session !in retired
      modifies Footprint()
      ensures Valid() && sent == old(sent) && retired == old(retired) && Incoming().items == old(Incoming().items)
      ensures results.items == old(results.items) && requests.items == old(requests.items)
      ensures if old(receiving || owner.Some?) then SameSession() && transactionId == old(transactionId)
              else
                && transactionId == random && results.enabled && requests.enabled
                && owner == (if pool == null then None else Some(session)) && receiving == (pool == null)
    {
      if !receiving && owner.None? {
        transactionId := random;
        requests.SetEnable(true);
        results.SetEnable(true);
        if pool != null {
          owner := Some(session);
        } else {
          receiving := true;
        }
      }
    }

    /** A session ends: nothing it queued for itself survives, and its owner is no longer
        operational. The pool's queue keeps what it has: the workers drop it. */
    method Stop()
      requires Valid()
      modifies Footprint()
      ensures Valid() && owner == None && !receiving && sent == old(sent) && transactionId == old(transactionId)
      ensures pool != null ==> pool.items == old(pool.items) && pool.enabled == old(pool.enabled)
      ensures retired == old(retired) + (if pool != null && old(owner).Some? then {old(owner).value} else {})
      ensures old(receiving || owner.Some?) ==>
                results.items == [] && requests.items == [] && !results.enabled && !requests.enabled
      ensures !old(receiving || owner.Some?) ==> SameSession() && View() == old(View())
    {
      if receiving || owner.Some? {
        results.SetEnable(false);
        requests.SetEnable(false);
        if pool != null {
          retired := retired + {owner.value};
        }
        owner, receiving := None, false;
        requests.Clear();
        results.Clear();
      }
    }

    /** The websocket went away: both queues are disabled and the owner is no longer operational,
        but the session goes on until it is stopped. */
    method ProcessDisconnected()
      requires Valid() && (pool != null ==> owner.Some?)
      modifies Footprint()
      ensures Valid() && owner == old(owner) && receiving == old(receiving) && View() == old(View())
      ensures !results.enabled && !requests.enabled && transactionId == old(transactionId)
      ensures retired == old(retired) + (if pool != null then {owner.value} else {})
    {
      requests.SetEnable(false);
      results.SetEnable(false);
      if pool != null {
        retired := retired + {owner.value};
      }
    }

    method Send(text: string)
      modifies `sent
      ensures sent == old(sent) + [text]
    {
      sent := sent + [text];
    }

    method SendCallError(id: string, code: string, message: string)
      modifies `sent
      ensures sent == old(sent) + [ErrorText(id, code, message)]
    {
      Send(ErrorText(id, code, message));
    }

    method DecodeCall(id: string, action: Value, payload: Value) returns (valid: bool)
      requires Valid()
      modifies Incoming()
      ensures valid == (action.Str? && payload.Obj?) && Incoming().enabled == old(Incoming().enabled)
      ensures Incoming().items == old(Incoming().items) +
                if valid then [Queued(Request(id, CStr(action.s), payload), if pool != null then owner else None)]
                else []
    {
      valid := false;
      if action.Str? && payload.Obj? {
        var request := Request(id, CStr(action.s), payload);
        if pool != null {
          pool.Push(Queued(request, owner));
        } else {
          requests.Push(Queued(request, None));
        }
        valid := true;
      }
    }

    method DecodeCallResult(id: string, payload: Value) returns (valid: bool)
      modifies results
      ensures valid == payload.Obj? && results.enabled == old(results.enabled)
      ensures results.items == old(results.items) + if valid then [Reply(id, payload, None)] else []
    {
      valid := false;
      if payload.Obj? {
        results.Push(Reply(id, payload, None));
        valid := true;
      }
    }

    method DecodeCallError(id: string, code: Value, message: Value, payload: Value) returns (valid: bool)
      modifies results
      ensures valid == (code.Str? && message.Str? && payload.Obj?) && results.enabled == old(results.enabled)
      ensures results.items == old(results.items) +
                if valid then [Reply(id, payload, Some(Failure(CStr(code.s), CStr(message.s))))] else []
    {
      valid := false;
      if code.Str? && message.Str? && payload.Obj? {
        results.Push(Reply(id, payload, Some(Failure(CStr(code.s), CStr(message.s)))));
        valid := true;
      }
    }

    /** A received text does what it means: it queues one request, or one reply, or, when it is
        none of the three message structures, has one ProtocolError sent. */
    method ProcessReceivedData(text: string)
      requires Valid()
      modifies Incoming(), results, `sent
      ensures Valid() && SameSession() && transactionId == old(transactionId)
      ensures View() == Received(old(View()), if pool != null then owner else None, text)
    {
      var frame := Parse(CStr(text));
      hide Parse, CStr;
      if frame.Some? && frame.value.Arr? && |frame.value.elems| >= 3 {
        var elems := frame.value.elems;
        var kind := Uint(elems[0]);
        hide Uint;
        if kind.Some? {
          var valid;
          match kind.value {
            case 2 => valid := |elems| == 4;
            case 3 => valid := |elems| == 3;
            case 4 => valid := |elems| == 5;
            case _ => valid := false;
          }
          if valid {
            if elems[1].Str? {
              var id := CStr(elems[1].s);
              if kind.value == 2 {
                valid := DecodeCall(id, elems[2], elems[3]);
              } else if kind.value == 3 {
                valid := DecodeCallResult(id, elems[2]);
              } else {
                valid := DecodeCallError(id, elems[2], elems[3], elems[4]);
              }
              if !valid {
                SendCallError("", ERROR_PROTOCOL, "");
              }
            } else {
              SendCallError("", ERROR_PROTOCOL, "");
            }
          } else {
            SendCallError("", ERROR_PROTOCOL, "");
          }
        } else {
          SendCallError("", ERROR_PROTOCOL, "");
        }
      } else {
        SendCallError("", ERROR_PROTOCOL, "");
      }
    }

    /** A processed request is answered once, or not at all. */
    method ProcessIncomingRequest(request: Request, outcome: Outcome)
      modifies `sent
      ensures sent == old(sent) + Answer(request.id, outcome)
    {
      if outcome.Accepted? {
        Send(ResultText(request.id, outcome.response));
      } else if outcome.code != "" {
        SendCallError(request.id, CStr(outcome.code), outcome.message);
      }
    }

    /** One call, alone on the connection. `turns` is what happens around each turn of the reply
        loop; when the reply is there it is the one `Await` describes. */
    method Call(action: string, payload: Value, connected: bool, sendable: bool, turns: seq<Turn>)
      returns (reply: Option<Reply>)
      requires Valid()
      modifies this, results
      ensures Valid()
      ensures owner == old(owner) && retired == old(retired) && receiving == old(receiving)
      ensures !connected ==> reply == None && View() == old(View()) && transactionId == old(transactionId)
      ensures connected ==>
                && transactionId == Next(old(transactionId))
                && sent == old(sent) + [CallText(IdText(old(transactionId)), action, payload)]
                && (reply, results.items) ==
                   if sendable then Await(old(results.items), turns, IdText(old(transactionId)), old(results.enabled))
                   else (None, old(results.items))
    {
      reply := None;
      if connected {
        Send(CallText(IdText(transactionId), action, payload));
        if sendable {
          var expected := IdText(transactionId);
          var popped := true;
          var k := 0;
          while popped && reply.None? && k < |turns|
            invariant 0 <= k <= |turns| && sent == old(sent) + [CallText(expected, action, payload)]
            invariant popped && k > 0 ==> results.enabled
            invariant k == 0 ==> results.enabled == old(results.enabled)
            invariant transactionId == old(transactionId) && owner == old(owner) && retired == old(retired)
            invariant receiving == old(receiving)
            invariant Await(old(results.items), turns, expected, old(results.enabled)) ==
                      if popped && reply.None? then Await(results.items, turns[k..], expected, results.enabled)
                      else (reply, results.items)
          {
            var turn := turns[k];
            assert turns[k..][0] == turn && turns[k..][1..] == turns[k + 1..];
            results.items := results.items + turn.arrived;
            if turn.disabled {
              results.SetEnable(false);
            }
            popped := false;
            if !turn.late {
              var item := results.Pop();
              if item.Some? {
                popped := true;
                if item.value.id == expected {
                  reply := item;
                }
              }
            }
            k := k + 1;
          }
        }
        transactionId := Next(transactionId);
      }
    }
  }
}
