/** The browser's RPC client against the web server, over one websocket connection at a time. */
module BrowserRpc {
  import opened Basics
  import opened Json
  import opened RpcFrame
  import RpcBase
  import W = WebServer

  // ---------------------------------------------------------------------------------------
  // The client
  // ---------------------------------------------------------------------------------------

  /** Why a promise was rejected. */
  datatype Rejection = NotSent | Replied(error: Value)

  /** The promises made, by request identifier: still pending, or settled, and how. */
  datatype Client = Client(
    connected: bool,
    requestId: nat,
    pending: set<nat>,
    resolved: map<nat, Value>,
    rejected: map<nat, Rejection>)

  const FRESH := Client(false, 0, {}, map[], map[])

  /** In JavaScript the last of several members of the same name counts. */
  function Last(members: seq<Member>, name: string): Option<Value> {
    if members == [] then None
    else if members[|members| - 1].name == name then Some(members[|members| - 1].value)
    else Last(members[..|members| - 1], name)
  }

  function Property(v: Value, name: string): Option<Value> {
    if v.Obj? then Last(v.members, name) else None
  }

  function IdOf(v: Value): Option<nat> {
    match Property(v, "id")
    case Some(Num(lexeme)) => if AllDigits(lexeme) then Some(DigitsValue(lexeme)) else None
    case _ => None
  }

  predicate Truthy(v: Value) {
    match v
    case Null => false
    case Bool(b) => b
    case Num(lexeme) =>
      exists i :: 0 <= i < |lexeme| && '1' <= lexeme[i] <= '9' && 'e' !in lexeme[..i] && 'E' !in lexeme[..i]
    case Str(s) => s != ""
    case _ => true
  }

  function RequestBody(id: nat, rpc: string, params: Value): Value {
    Obj([Member("jsonrpc", Str("2.0")), Member("id", Num(RpcBase.IdText(id))), Member("method", Str(rpc)),
         Member("params", params)])
  }

  /** A call takes the next identifier and stays pending, unless it cannot be sent. */
  function Called(c: Client, sendable: bool): Client {
    if !c.connected then c
    else
      var id := c.requestId + 1;
      if sendable then c.(requestId := id, pending := c.pending + {id})
      else c.(requestId := id, pending := c.pending - {id}, rejected := c.rejected[id := NotSent])
  }

  /** A message that carries the identifier of a pending call settles it. */
  function Settled(c: Client, message: Value): Client {
    var id := IdOf(message);
    if id.None? || id.value == 0 || id.value !in c.pending then c
    else
      var error := Property(message, "error");
      if error.Some? && Truthy(error.value)
      then c.(pending := c.pending - {id.value}, rejected := c.rejected[id.value := Replied(error.value)])
      else c.(pending := c.pending - {id.value}, resolved := c.resolved[id.value := message])
  }

  /** A message that is a string is parsed once more. */
  function Handled(c: Client, message: Value): Client {
    if message.Str? then
      var inner := Parse(message.s);
      if inner.Some? then Settled(c, inner.value) else c
    else Settled(c, message)
  }

  function Heard(c: Client, data: string): Client {
    var message := Parse(data);
    if message.Some? then Handled(c, message.value) else c
  }

  class RpcClient {
    var connected: bool
    var requestId: nat
    var pendingRequests: set<nat>
    ghost var resolved: map<nat, Value>
    ghost var rejected: map<nat, Rejection>

    ghost function View(): Client
      reads this
    {
      Client(connected, requestId, pendingRequests, resolved, rejected)
    }

    constructor ()
      ensures View() == FRESH
    {
      connected, requestId, pendingRequests, resolved, rejected := false, 0, {}, map[], map[];
    }

    method Call(rpc: string, params: Value, sendable: bool) returns (sent: Option<string>)
      modifies this
      ensures View() == Called(old(View()), sendable)
      ensures sent == if old(connected) && sendable then Some(Print(RequestBody(old(requestId) + 1, rpc, params)))
              else None
    {
      sent := None;
      if connected {
        requestId := requestId + 1;
        pendingRequests := pendingRequests + {requestId};
        var text := Print(RequestBody(requestId, rpc, params));
        if sendable {
          sent := Some(text);
        } else {
          pendingRequests := pendingRequests - {requestId};
          rejected := rejected[requestId := NotSent];
        }
        assert old(pendingRequests) + {requestId} - {requestId} == old(pendingRequests) - {requestId};
      }
    }

    method HandleMessage(received: Value)
      modifies this
      ensures View() == Handled(old(View()), received)
    {
      var message := received;
      if message.Str? {
        var inner := Parse(message.s);
        if inner.None? {
          return;
        }
        message := inner.value;
      }
      var id := IdOf(message);
      if id.Some? && id.value != 0 && id.value in pendingRequests {
        pendingRequests := pendingRequests - {id.value};
        var error := Property(message, "error");
        if error.Some? && Truthy(error.value) {
          rejected := rejected[id.value := Replied(error.value)];
        } else {
          resolved := resolved[id.value := message];
        }
      }
    }

    method OnMessage(data: string)
      modifies this
      ensures View() == Heard(old(View()), data)
    {
      var message := Parse(data);
      if message.Some? {
        HandleMessage(message.value);
      }
    }
  }

  // ---------------------------------------------------------------------------------------
  // Messages and frames
  // ---------------------------------------------------------------------------------------

  /** A message the server has queued: what it says, and the request it replies to, if any. */
  datatype Out = Out(text: string, body: Value, answers: int)

  /** The text reads as the value wherever it stands, up to its own end. */
  ghost predicate Document(text: string, v: Value) {
    && text != "" && text[0] == '{' && v.Obj?
    && forall rest: string :: ReadValue(text + rest) == Ok(v, rest)
  }

  ghost predicate Good(o: Out) {
    && Document(o.text, o.body)
    && (if o.answers > 0 then IdOf(o.body) == Some(o.answers) else IdOf(o.body).None? || IdOf(o.body) == Some(0))
  }

  function Join(frame: seq<Out>): string {
    if frame == [] then "" else frame[0].text + Join(frame[1..])
  }

  /** A frame with one message reads as that message; one with several does not read at all. */
  lemma FrameReads(frame: seq<Out>)
    requires frame != [] && forall i :: 0 <= i < |frame| ==> Good(frame[i])
    ensures Parse(Join(frame)) == if |frame| == 1 then Some(frame[0].body) else None
  {
    var rest := Join(frame[1..]);
    assert Good(frame[0]);
    assert ReadValue(frame[0].text + rest) == Ok(frame[0].body, rest);
    if |frame| > 1 {
      assert Good(frame[1]);
      assert rest != "" && rest[0] == '{';
    }
    hide ReadValue, Good, Join;
    ParseOne(frame[0].text, frame[0].body, rest);
  }

  lemma ParseOne(text: string, v: Value, rest: string)
    requires text != "" && text[0] == '{' && ReadValue(text + rest) == Ok(v, rest) && (rest == "" || rest[0] == '{')
    ensures Parse(text + rest) == if rest == "" then Some(v) else None
  {
    assert SkipSpace(text + rest) == text + rest && SkipSpace(rest) == rest;
    hide ReadValue, SkipSpace;
  }

  lemma PrintedIsDocument(v: Value)
    requires v.Obj? && Writable(v)
    ensures Document(Print(v), v)
  {
    forall rest: string ensures ReadValue(Print(v) + rest) == Ok(v, rest) {
      ReadPrintedObject(v.members, rest);
    }
  }

  lemma {:induction false} AllNumberChars(s: string)
    requires forall i :: 0 <= i < |s| ==> Digit(s[i])
    ensures NumberLength(s) == |s| && DropDigits(s) == ""
  {
    if s != "" {
      AllNumberChars(s[1..]);
    }
  }

  lemma {:induction false} NoLeadingZero(n: nat)
    ensures RpcBase.Decimal(n)[0] == '0' ==> n == 0
  {
    if n >= 10 {
      NoLeadingZero(n / 10);
    }
  }

  /** A printed identifier is a JSON number. */
  lemma IdIsNumber(id: int)
    ensures Writable(Num(RpcBase.IdText(id)))
  {
    var d := RpcBase.Decimal(if id < 0 then -id else id);
    AllNumberChars(d);
    AllNumberChars(d[1..]);
    NoLeadingZero(if id < 0 then -id else id);
    assert ("-" + d)[1..] == d;
    if d[0] == '0' {
      assert d == "0";
    }
  }

  lemma IdOfNumber(v: Value, id: int)
    requires Property(v, "id") == Some(Num(RpcBase.IdText(id)))
    ensures IdOf(v) == if id >= 0 then Some(id) else None
  {
    RpcBase.IdTextDigits(id);
    hide RpcBase.IdText, AllDigits, DigitsValue;
  }

  lemma LastOfThree(a: Member, b: Member, c: Member)
    requires b.name == "id" && c.name != "id"
    ensures Last([a, b, c], "id") == Some(b.value)
  {
    assert [a, b, c][..2] == [a, b];
  }

  lemma ReplyId(id: int, result: W.Result<string>)
    ensures IdOf(W.ReplyBody(id, result)) == if id >= 0 then Some(id) else None
  {
    var ms := W.ReplyBody(id, result).members;
    assert ms == [ms[0], ms[1], ms[2]] && ms[1].name == "id" && (ms[2].name == "error" || ms[2].name == "result");
    hide RpcBase.IdText;
    LastOfThree(ms[0], ms[1], ms[2]);
    IdOfNumber(W.ReplyBody(id, result), id);
  }

  lemma ReplyIsWritable(id: int, result: W.Result<string>)
    ensures W.ReplyBody(id, result).Obj? && Writable(W.ReplyBody(id, result))
  {
    IdIsNumber(id);
    hide RpcBase.IdText;
  }

  lemma ReplyIsGood(id: int, result: W.Result<string>)
    ensures var body := W.ReplyBody(id, result); Good(Out(Print(body), body, id))
  {
    hide Print, W.ReplyBody, Document, IdOf, Writable;
    ReplyIsWritable(id, result);
    ReplyId(id, result);
    PrintedIsDocument(W.ReplyBody(id, result));
  }

  lemma NoticeHasNoId(key: string, value: string)
    ensures W.NoticeBody(key, value).Obj? && Writable(W.NoticeBody(key, value)) && IdOf(W.NoticeBody(key, value)).None?
  {
    var ms := W.NoticeBody(key, value).members;
    assert ms[..2][..1] == ms[..1] && ms[..1][..0] == [];
    assert Last(ms[..1], "id") == Last([], "id");
    assert Last(ms[..2], "id") == Last(ms[..1], "id");
    assert Last(ms, "id") == Last(ms[..2], "id");
  }

  lemma NoticeIsGood(key: string, value: string)
    ensures var body := W.NoticeBody(key, value); Good(Out(Print(body), body, 0))
  {
    hide Print, W.NoticeBody, Document, IdOf, Writable;
    NoticeHasNoId(key, value);
    PrintedIsDocument(W.NoticeBody(key, value));
  }

  // ---------------------------------------------------------------------------------------
  // The server's side of a request
  // ---------------------------------------------------------------------------------------

  datatype Request = Request(id: nat, rpc: string, params: Value)

  function TextOf(r: Request): string {
    Print(RequestBody(r.id, r.rpc, r.params))
  }

  lemma RequestMembers(r: Request)
    requires r.id > 0
    ensures var body := RequestBody(r.id, r.rpc, r.params);
            && W.Get(body, "jsonrpc") == Some(Str("2.0")) && W.Get(body, "id") == Some(Num(RpcBase.IdText(r.id)))
            && W.Get(body, "method") == Some(Str(r.rpc)) && W.Get(body, "params") == Some(r.params)
  {
    var ms := RequestBody(r.id, r.rpc, r.params).members;
    hide RpcBase.IdText;
    forall name: string
      ensures W.Find(ms, name) == if ms[0].name == name then Some(ms[0].value)
              else if ms[1].name == name then Some(ms[1].value)
                                  else if ms[2].name == name then Some(ms[2].value)
                                  else if ms[3].name == name then Some(ms[3].value) else None
    {
      assert ms[1..][1..] == ms[2..] && ms[2..][1..] == ms[3..] && ms[3..][1..] == [];
      assert W.Find([], name) == None;
      assert W.Find(ms[3..], name) == if ms[3].name == name then Some(ms[3].value) else None;
      assert W.Find(ms[2..], name) == if ms[2].name == name then Some(ms[2].value) else W.Find(ms[3..], name);
      assert W.Find(ms[1..], name) == if ms[1].name == name then Some(ms[1].value) else W.Find(ms[2..], name);
    }
  }

  /** The server understands what the client sends, as long as the identifier is a 32-bit one. */
  lemma ServerUnderstands(r: Request)
    requires r.id > 0 && Writable(r.params)
    ensures W.ParseRpcRequest(TextOf(r)) ==
            if r.id <= RpcBase.INT_MAX then W.Value(W.RpcRequest(CStr(r.rpc), r.id, r.params))
            else W.Exception("Missing or invalid 'id' field")
  {
    ReadsBack(r);
    RequestMembers(r);
    IdReadsBack(r.id);
    RequestInIs(RequestBody(r.id, r.rpc, r.params), r.rpc, Num(RpcBase.IdText(r.id)), r.params);
    hide Print, Parse, CStr, W.Get, RpcBase.IdText, W.Int32, RequestBody, W.RequestIn, TextOf;
  }

  lemma RequestInIs(doc: Value, rpc: string, id: Value, params: Value)
    requires W.Get(doc, "jsonrpc") == Some(Str("2.0")) && W.Get(doc, "id") == Some(id)
    requires W.Get(doc, "method") == Some(Str(rpc)) && W.Get(doc, "params") == Some(params)
    ensures W.RequestIn(doc) ==
            if W.Int32(id).Some? then W.Value(W.RpcRequest(CStr(rpc), W.Int32(id).value, params))
            else W.Exception("Missing or invalid 'id' field")
  {
    hide W.Get, W.Int32, CStr;
  }

  lemma ReadsBack(r: Request)
    requires Writable(r.params)
    ensures Parse(CStr(TextOf(r))) == Some(RequestBody(r.id, r.rpc, r.params))
            && RequestBody(r.id, r.rpc, r.params).Obj?
  {
    var body := RequestBody(r.id, r.rpc, r.params);
    IdIsNumber(r.id);
    hide RpcBase.IdText, Print, Parse, CStr;
    assert Writable(body);
    hide RequestBody, Writable;
    PrintHasNoNul(body);
    CStrOfNoNul(Print(body));
    ParsePrint(body);
  }

  lemma IdReadsBack(id: nat)
    ensures W.Int32(Num(RpcBase.IdText(id))) == if id <= RpcBase.INT_MAX then Some(id) else None
  {
    RpcBase.DigitsOfDecimal(id);
    assert RpcBase.Decimal(id)[0] != '-';
  }

  // ---------------------------------------------------------------------------------------
  // Both ends
  // ---------------------------------------------------------------------------------------

  /** One browser, its current connection, and what is on its way in either direction. The last
      two fields are history: the replies queued, and the last request served. */
  datatype Net = Net(
    client: Client,
    values: map<string, string>,
    toServer: seq<Request>,
    buffer: seq<Out>,
    toClient: seq<seq<Out>>,
    replies: map<nat, Value>,
    served: nat)

  datatype Step =
    | Open(welcome: Out)
    | Close
    | Call(rpc: string, params: Value, sendable: bool)
    | Serve(outside: W.Outside)
    | Notice(key: string, value: string)   // somebody else's change
    | Flush
    | Receive

  function Init(values: map<string, string>): Net {
    Net(FRESH, values, [], [], [], map[], 0)
  }

  function Outs(vs: seq<Value>): seq<Out> {
    seq(|vs|, i requires 0 <= i < |vs| => Out(Print(vs[i]), vs[i], 0))
  }

  ghost predicate Enabled(n: Net, l: Step) {
    match l
    case Open(welcome) => !n.client.connected && Good(welcome) && welcome.answers == 0
    case Close => n.client.connected
    case Call(_, params, _) => Writable(params)
    case Serve(_) => n.toServer != []
    case Notice(_, _) => n.client.connected
    case Flush => n.buffer != []
    case Receive => n.toClient != []
  }

  /** The request at the head is handled: everybody is told, then its sender is answered. */
  function Served(n: Net, outside: W.Outside): Net
    requires n.toServer != []
  {
    var r := n.toServer[0];
    var h := W.Handle(n.values, TextOf(r), outside);
    var answers := if r.id <= RpcBase.INT_MAX then r.id else -1;
    n.(values := h.values, toServer := n.toServer[1..],
       buffer := n.buffer + Outs(h.notices) + [Out(Print(h.reply), h.reply, answers)],
       replies := if answers > 0 then n.replies[r.id := h.reply] else n.replies, served := r.id)
  }

  ghost function Apply(n: Net, l: Step): Net
    requires Enabled(n, l)
  {
    match l
    case Open(welcome) =>
      n.(client := n.client.(connected := true), toServer := [], buffer := [welcome], toClient := [])
    case Close => n.(client := n.client.(connected := false), toServer := [], buffer := [], toClient := [])
    case Call(rpc, params, sendable) =>
      var c := Called(n.client, sendable);
      n.(client := c,
         toServer := if n.client.connected && sendable then n.toServer + [Request(c.requestId, rpc, params)]
                     else n.toServer)
    case Serve(outside) => Served(n, outside)
    case Notice(key, value) => n.(buffer := n.buffer + Outs([W.NoticeBody(key, value)]))
    case Flush => n.(buffer := [], toClient := n.toClient + [n.buffer])
    case Receive => n.(client := Heard(n.client, Join(n.toClient[0])), toClient := n.toClient[1..])
  }

  ghost predicate Legal(n: Net, ls: seq<Step>)
    decreases |ls|
  {
    ls == [] || (Enabled(n, ls[0]) && Legal(Apply(n, ls[0]), ls[1..]))
  }

  ghost function After(n: Net, ls: seq<Step>): Net
    requires Legal(n, ls)
    decreases |ls|
  {
    if ls == [] then n else After(Apply(n, ls[0]), ls[1..])
  }

  // ---------------------------------------------------------------------------------------
  // The invariant
  // ---------------------------------------------------------------------------------------

  /** The identifiers 1 to requestId are those pending, resolved and rejected, once each. */
  ghost predicate Partition(c: Client) {
    && (forall id: nat :: id in c.pending || id in c.resolved || id in c.rejected <==> 1 <= id <= c.requestId)
    && c.pending !! c.resolved.Keys && c.pending !! c.rejected.Keys && c.resolved.Keys !! c.rejected.Keys
  }

  /** Whatever settled a call is the reply to that call. */
  ghost predicate Answered(n: Net) {
    && (forall id: nat :: id in n.client.resolved ==> id in n.replies && n.client.resolved[id] == n.replies[id])
    && (forall id: nat :: id in n.client.rejected && n.client.rejected[id].Replied? ==>
          id in n.replies && Property(n.replies[id], "error") == Some(n.client.rejected[id].error))
  }

  ghost predicate OutOk(n: Net, o: Out) {
    Good(o) && o.answers <= n.served && (o.answers > 0 ==> o.answers in n.replies && n.replies[o.answers] == o.body)
  }

  ghost predicate OutsOk(n: Net, os: seq<Out>) {
    forall i :: 0 <= i < |os| ==> OutOk(n, os[i])
  }

  ghost predicate Waiting(n: Net) {
    && (forall i :: 0 <= i < |n.toServer| ==>
        n.served < n.toServer[i].id <= n.client.requestId && Writable(n.toServer[i].params))
    && (forall i, j :: 0 <= i < j < |n.toServer| ==> n.toServer[i].id < n.toServer[j].id)
    && n.served <= n.client.requestId && (forall id: nat :: id in n.replies ==> id <= n.served)
  }

  ghost predicate Inv(n: Net) {
    && Partition(n.client) && Answered(n) && Waiting(n) && OutsOk(n, n.buffer)
    && (forall k :: 0 <= k < |n.toClient| ==> n.toClient[k] != [] && OutsOk(n, n.toClient[k]))
  }

  lemma NoticesAreGood(changes: seq<(string, string)>)
    ensures forall i :: 0 <= i < |W.Notices(changes)| ==> Good(Outs(W.Notices(changes))[i])
  {
    hide Good, W.NoticeBody, Print;
    forall i | 0 <= i < |W.Notices(changes)| ensures Good(Outs(W.Notices(changes))[i]) {
      NoticeIsGood(changes[i].0, changes[i].1);
    }
  }

  /** What the server makes of a request: good notices, and a good reply that carries the
      identifier of the request, or -1 if that does not fit. */
  lemma HandlingIsGood(values: map<string, string>, r: Request, outside: W.Outside)
    requires r.id > 0 && Writable(r.params)
    ensures var h := W.Handle(values, TextOf(r), outside);
            && (forall i :: 0 <= i < |h.notices| ==> Good(Outs(h.notices)[i]))
            && Good(Out(Print(h.reply), h.reply, if r.id <= RpcBase.INT_MAX then r.id else -1))
  {
    ServerUnderstands(r);
    hide Good, Print, W.ReplyBody, W.ParseRpcRequest, W.Execute, TextOf, Outs;
    NoticesAreGood([]);
    if r.id <= RpcBase.INT_MAX {
      var done := W.Execute(values, W.RpcRequest(CStr(r.rpc), r.id, r.params), outside);
      NoticesAreGood(done.changes);
      ReplyIsGood(r.id, done.result);
    } else {
      ReplyIsGood(-1, W.Exception("Missing or invalid 'id' field"));
    }
  }

  /** The request at the head has been answered by these messages. */
  ghost predicate AnsweredWith(n: Net, n': Net, notices: seq<Out>, reply: Out) {
    && n.toServer != []
    && var r := n.toServer[0];
       && n' == n.(values := n'.values, toServer := n.toServer[1..], buffer := n.buffer + notices + [reply],
                   replies := if reply.answers > 0 then n.replies[r.id := reply.body] else n.replies, served := r.id)
       && Good(reply) && (reply.answers == r.id || reply.answers == -1)
       && forall i :: 0 <= i < |notices| ==> Good(notices[i]) && notices[i].answers == 0
  }

  lemma OutsAnswerNothing(vs: seq<Value>)
    ensures |Outs(vs)| == |vs| && forall i :: 0 <= i < |vs| ==> Outs(vs)[i].answers == 0
  {
  }

  lemma ServingQueues(n: Net, outside: W.Outside) returns (notices: seq<Out>, reply: Out)
    requires n.toServer != [] && n.toServer[0].id > 0 && Writable(n.toServer[0].params)
    ensures AnsweredWith(n, Served(n, outside), notices, reply)
    ensures reply.answers == if n.toServer[0].id <= RpcBase.INT_MAX then n.toServer[0].id else -1
    ensures notices == Outs(W.Handle(n.values, TextOf(n.toServer[0]), outside).notices)
  {
    var r := n.toServer[0];
    hide W.Handle, TextOf, Good, Print, Outs, Writable;
    HandlingIsGood(n.values, r, outside);
    var h := W.Handle(n.values, TextOf(r), outside);
    OutsAnswerNothing(h.notices);
    notices, reply := Outs(h.notices), Out(Print(h.reply), h.reply, if r.id <= RpcBase.INT_MAX then r.id else -1);
  }

  lemma OutStaysOk(n: Net, n': Net, notices: seq<Out>, reply: Out, o: Out)
    requires Waiting(n) && AnsweredWith(n, n', notices, reply) && OutOk(n, o)
    ensures OutOk(n', o)
  {
    hide Good;
  }

  lemma ServedBuffer(n: Net, n': Net, notices: seq<Out>, reply: Out)
    requires Waiting(n) && AnsweredWith(n, n', notices, reply) && OutsOk(n, n.buffer)
    ensures OutsOk(n', n'.buffer)
  {
    hide Good;
    forall i | 0 <= i < |n'.buffer| ensures OutOk(n', n'.buffer[i]) {
      if i < |n.buffer| {
        OutStaysOk(n, n', notices, reply, n.buffer[i]);
      } else if i < |n.buffer| + |notices| {
        assert n'.buffer[i] == notices[i - |n.buffer|];
      }
    }
  }

  lemma ServedWaits(n: Net, n': Net, notices: seq<Out>, reply: Out)
    requires Waiting(n) && Answered(n) && AnsweredWith(n, n', notices, reply)
    ensures Waiting(n') && Answered(n')
  {
    hide Good;
  }

  lemma ServeKeepsInv(n: Net, outside: W.Outside)
    requires Inv(n) && n.toServer != []
    ensures Inv(Served(n, outside))
  {
    var n' := Served(n, outside);
    var notices, reply := ServingQueues(n, outside);
    hide Served, Good, OutOk;
    ServedWaits(n, n', notices, reply);
    ServedBuffer(n, n', notices, reply);
    forall k | 0 <= k < |n'.toClient| ensures n'.toClient[k] != [] && OutsOk(n', n'.toClient[k]) {
      forall i | 0 <= i < |n.toClient[k]| ensures OutOk(n', n.toClient[k][i]) {
        OutStaysOk(n, n', notices, reply, n.toClient[k][i]);
      }
    }
  }

  /** Receiving a frame with one message settles the call it answers, if that is pending;
      receiving anything else settles nothing. */
  lemma ReceiveSettles(c: Client, frame: seq<Out>)
    requires frame != [] && (forall i :: 0 <= i < |frame| ==> Good(frame[i])) && 0 !in c.pending
    ensures Heard(c, Join(frame)) == if |frame| == 1 then Settled(c, frame[0].body) else c
    ensures |frame| == 1 && frame[0].answers <= 0 ==> Heard(c, Join(frame)) == c
  {
    hide Parse, Join, Settled;
    FrameReads(frame);
    assert Good(frame[0]);
    if |frame| == 1 && frame[0].answers <= 0 {
      NothingToSettle(c, frame[0].body);
    }
  }

  lemma NothingToSettle(c: Client, message: Value)
    requires IdOf(message).None? || IdOf(message) == Some(0)
    ensures Settled(c, message) == c
  {
  }

  lemma SettlingKeeps(n: Net, o: Out)
    requires Partition(n.client) && Answered(n) && OutOk(n, o) && o.answers > 0
    ensures var n' := n.(client := Settled(n.client, o.body)); Partition(n'.client) && Answered(n')
  {
    hide Document, Truthy;
  }

  lemma ClientAfterReceive(n: Net)
    requires Inv(n) && Enabled(n, Receive)
    ensures var n' := Apply(n, Receive);
            Partition(n'.client) && Answered(n') && n'.client.requestId == n.client.requestId
  {
    var frame := n.toClient[0];
    FrameIsGood(n, 0);
    assert 0 !in n.client.pending;
    hide Heard, Join, Good, Settled;
    ReceiveSettles(n.client, frame);
    SettlingKeepsId(n.client, frame[0].body);
    if |frame| == 1 && frame[0].answers > 0 {
      assert OutsOk(n, frame) && OutOk(n, frame[0]);
      SettlingKeeps(n, frame[0]);
    }
  }

  lemma SettlingKeepsId(c: Client, message: Value)
    ensures Settled(c, message).requestId == c.requestId
  {
  }

  lemma FrameIsGood(n: Net, k: nat)
    requires Inv(n) && k < |n.toClient|
    ensures n.toClient[k] != [] && forall i :: 0 <= i < |n.toClient[k]| ==>
            Good(n.toClient[k][i]) && OutOk(n, n.toClient[k][i])
  {
    hide Good;
    assert OutsOk(n, n.toClient[k]);
  }

  lemma ReceiveKeepsInv(n: Net)
    requires Inv(n) && Enabled(n, Receive)
    ensures Inv(Apply(n, Receive))
  {
    var n' := Apply(n, Receive);
    ClientAfterReceive(n);
    hide Heard, Join, Good, Partition, Answered;
    forall os | OutsOk(n, os) ensures OutsOk(n', os) {
      forall i | 0 <= i < |os| ensures OutOk(n', os[i]) {
        assert OutOk(n, os[i]);
      }
    }
  }

  lemma ClientAfterCall(c: Client, sendable: bool)
    requires Partition(c)
    ensures var c' := Called(c, sendable);
            && Partition(c') && c'.resolved == c.resolved && c.requestId <= c'.requestId
            && forall id: nat :: id in c'.rejected && c'.rejected[id].Replied? ==>
               id in c.rejected && c.rejected[id] == c'.rejected[id]
  {
  }

  lemma CallKeepsInv(n: Net, l: Step)
    requires Inv(n) && l.Call? && Enabled(n, l)
    ensures Inv(Apply(n, l))
  {
    var n' := Apply(n, l);
    ClientAfterCall(n.client, l.sendable);
    hide Good, Partition;
    assert Answered(n') && Waiting(n');
    hide Waiting, Answered;
    forall os | OutsOk(n, os) ensures OutsOk(n', os) {
      forall i | 0 <= i < |os| ensures OutOk(n', os[i]) {
        assert OutOk(n, os[i]);
      }
    }
  }

  lemma SameHistory(n: Net, n': Net)
    requires Partition(n.client) && Answered(n) && Waiting(n)
    requires n'.client == n.client.(connected := n'.client.connected) && n'.replies == n.replies
             && n'.served == n.served
    requires n'.toServer == n.toServer || n'.toServer == []
    ensures Partition(n'.client) && Answered(n') && Waiting(n')
    ensures forall os :: OutsOk(n, os) ==> OutsOk(n', os)
  {
    hide Good;
    forall os | OutsOk(n, os) ensures OutsOk(n', os) {
      forall i | 0 <= i < |os| ensures OutOk(n', os[i]) {
        assert OutOk(n, os[i]);
      }
    }
  }

  /** Connecting, disconnecting, somebody else's change, and flushing. */
  lemma LinkKeepsInv(n: Net, l: Step)
    requires Inv(n) && Enabled(n, l) && (l.Open? || l.Close? || l.Notice? || l.Flush?)
    ensures Inv(Apply(n, l))
  {
    var n' := Apply(n, l);
    SameHistory(n, n');
    NewBuffer(n, l);
    hide Good, OutOk, W.NoticeBody, Print, Partition, Answered, Waiting;
    forall k | 0 <= k < |n'.toClient| ensures n'.toClient[k] != [] && OutsOk(n', n'.toClient[k]) {
      assert OutsOk(n, n.buffer);
      assert k < |n.toClient| ==> OutsOk(n, n.toClient[k]);
    }
  }

  lemma NewBuffer(n: Net, l: Step)
    requires Inv(n) && Enabled(n, l) && (l.Open? || l.Close? || l.Notice? || l.Flush?)
    ensures OutsOk(Apply(n, l), Apply(n, l).buffer)
  {
    var n' := Apply(n, l);
    if l.Notice? {
      NoticeIsGood(l.key, l.value);
    }
    hide Good, W.NoticeBody, Print, Partition, Answered, Waiting;
    forall i | 0 <= i < |n'.buffer| ensures OutOk(n', n'.buffer[i]) {
      assert l.Notice? && i < |n.buffer| ==> OutOk(n, n.buffer[i]);
    }
  }

  lemma StepKeepsInv(n: Net, l: Step)
    requires Inv(n) && Enabled(n, l)
    ensures Inv(Apply(n, l))
  {
    hide Inv;
    match l
    case Serve(outside) => ServeKeepsInv(n, outside);
    case Receive => ReceiveKeepsInv(n);
    case Call(_, _, _) => CallKeepsInv(n, l);
    case _ => LinkKeepsInv(n, l);
  }

  lemma {:induction false} RunKeepsInv(n: Net, ls: seq<Step>)
    requires Inv(n) && Legal(n, ls)
    ensures Inv(After(n, ls))
    decreases |ls|
  {
    hide Inv, Enabled, Apply;
    if ls != [] {
      StepKeepsInv(n, ls[0]);
      RunKeepsInv(Apply(n, ls[0]), ls[1..]);
    }
  }

  /** In every run: each of the identifiers 1 to requestId is pending, resolved or rejected, and
      only one of these; and a call that was settled by a message was settled by the one reply
      that the server queued for it. */
  lemma CallsSettleOnce(values: map<string, string>, ls: seq<Step>)
    requires Legal(Init(values), ls)
    ensures var n := After(Init(values), ls);
            && (forall id: nat :: id in n.client.pending || id in n.client.resolved || id in n.client.rejected <==>
                1 <= id <= n.client.requestId)
            && n.client.pending !! n.client.resolved.Keys && n.client.pending !! n.client.rejected.Keys
            && n.client.resolved.Keys !! n.client.rejected.Keys
            && (forall id: nat :: id in n.client.resolved ==> id in n.replies && n.client.resolved[id] == n.replies[id])
            && (forall id: nat :: id in n.client.rejected && n.client.rejected[id].Replied? ==>
                  id in n.replies && Property(n.replies[id], "error") == Some(n.client.rejected[id].error))
  {
    RunKeepsInv(Init(values), ls);
  }

  // ---------------------------------------------------------------------------------------
  // Which replies arrive
  // ---------------------------------------------------------------------------------------

  /** A reply delivered in a frame of its own settles its call. */
  lemma LoneReplySettles(n: Net, id: nat)
    requires Inv(n) && n.toClient != [] && |n.toClient[0]| == 1 && n.toClient[0][0].answers == id
             && id in n.client.pending
    ensures var c := Apply(n, Receive).client;
            && id !in c.pending
            && id in n.replies && (c.resolved == n.client.resolved[id := n.replies[id]] || id in c.rejected)
  {
    assert OutsOk(n, n.toClient[0]);
    assert OutOk(n, n.toClient[0][0]);
    hide Document, Truthy, Parse;
    ReceiveSettles(n.client, n.toClient[0]);
  }

  /** The reply to this call can still arrive in a frame of its own. */
  ghost predicate Reachable(n: Net, id: nat) {
    || (exists i :: 0 <= i < |n.toServer| && n.toServer[i].id == id)
    || (|n.buffer| == 1 && n.buffer[0].answers == id)
    || (exists k :: 0 <= k < |n.toClient| && |n.toClient[k]| == 1 && n.toClient[k][0].answers == id)
  }

  lemma ServedStaysUnreachable(n: Net, outside: W.Outside, id: nat)
    requires Inv(n) && n.toServer != [] && 1 <= id && !Reachable(n, id)
    ensures !Reachable(Served(n, outside), id)
  {
    var notices, reply := ServingQueues(n, outside);
    assert n.toServer[0].id != id;
    hide Served, Good, Inv, W.Handle, TextOf;
  }

  lemma StaysUnreachable(n: Net, l: Step, id: nat)
    requires Inv(n) && Enabled(n, l) && 1 <= id <= n.client.requestId && !Reachable(n, id)
    ensures !Reachable(Apply(n, l), id) && id <= Apply(n, l).client.requestId
  {
    match l
    case Serve(outside) => ServedStaysUnreachable(n, outside, id);
    case Receive =>
      assert Apply(n, l).toClient == n.toClient[1..];
      ClientAfterReceive(n);
    case Call(_, _, _) => hide Good, Inv;
    case _ => hide Good, Inv, Print, W.NoticeBody;
  }

  /** A step that is not the delivery of its reply leaves a pending call pending. */
  lemma StaysPending(n: Net, l: Step, id: nat)
    requires Inv(n) && Enabled(n, l) && id in n.client.pending && !Reachable(n, id)
    ensures id in Apply(n, l).client.pending
  {
    if l.Receive? {
      var frame := n.toClient[0];
      assert OutsOk(n, frame);
      forall i | 0 <= i < |frame| ensures Good(frame[i]) {
        assert OutOk(n, frame[i]);
      }
      hide Document;
      ReceiveSettles(n.client, frame);
    } else if l.Call? {
      assert id != n.client.requestId + 1;
    }
  }

  /** A call whose reply can no longer arrive in a frame of its own never settles. */
  lemma {:induction false} LostReplyNeverSettles(n: Net, ls: seq<Step>, id: nat)
    requires Inv(n) && Legal(n, ls) && id in n.client.pending && !Reachable(n, id)
    ensures id in After(n, ls).client.pending
    decreases |ls|
  {
    hide Enabled, Apply, Reachable;
    if ls != [] {
      StaysUnreachable(n, ls[0], id);
      StaysPending(n, ls[0], id);
      StepKeepsInv(n, ls[0]);
      LostReplyNeverSettles(Apply(n, ls[0]), ls[1..], id);
    }
  }

  /** The requests that make the server tell everybody of a change before it answers. */
  predicate Announces(r: Request) {
    r.id <= RpcBase.INT_MAX && W.AnnouncesChange(W.RpcRequest(CStr(r.rpc), r.id, r.params))
  }

  /** That they do is a matter of the request alone, whatever values the server has. */
  lemma WhoAnnounces(values: map<string, string>, r: Request, outside: W.Outside)
    requires r.id > 0 && Writable(r.params)
    ensures W.Handle(values, TextOf(r), outside).notices != [] <==> Announces(r)
  {
    ServerUnderstands(r);
    hide W.ParseRpcRequest, W.Execute, W.ReplyBody, W.NoticeBody, TextOf, CStr, W.AnnouncesChange;
    if r.id <= RpcBase.INT_MAX {
      W.WhatIsAnnounced(values, W.RpcRequest(CStr(r.rpc), r.id, r.params), outside);
    }
  }

  /** The request at the head is one that announces a change, or something waits in the buffer, or
      its identifier does not fit into 32 bits. */
  predicate Crowded(n: Net)
    requires n.toServer != []
  {
    Announces(n.toServer[0]) || n.buffer != [] || n.toServer[0].id > RpcBase.INT_MAX
  }

  /** The server answers each request once, but the caller is told only if nothing else is in the
      buffer then: a call that is served in such a situation never settles. */
  lemma CrowdedReplyIsLost(n: Net, outside: W.Outside, after: seq<Step>)
    requires Inv(n) && n.toServer != [] && n.toServer[0].id in n.client.pending && Crowded(n)
    requires Legal(Served(n, outside), after)
    ensures n.toServer[0].id in After(Served(n, outside), after).client.pending
  {
    hide Inv, Served, Crowded, Apply, Enabled, Reachable, Good;
    ServeKeepsInv(n, outside);
    UnreachableOnceServed(n, outside);
    LostReplyNeverSettles(Served(n, outside), after, n.toServer[0].id);
  }

  lemma UnreachableOnceServed(n: Net, outside: W.Outside)
    requires Inv(n) && n.toServer != [] && Crowded(n)
    ensures !Reachable(Served(n, outside), n.toServer[0].id) && Served(n, outside).client == n.client
  {
    var id := n.toServer[0].id;
    var n' := Served(n, outside);
    WhoAnnounces(n.values, n.toServer[0], outside);
    var notices, reply := ServingQueues(n, outside);
    forall k | 0 <= k < |n.toClient| ensures n.toClient[k][0].answers != id {
      FrameIsGood(n, k);
      assert OutOk(n, n.toClient[k][0]);
    }
    OutsAnswerNothing(W.Handle(n.values, TextOf(n.toServer[0]), outside).notices);
    hide W.Handle, Served, Good, Announces, Outs, TextOf, OutsOk, Partition, Answered;
  }

  lemma AloneOnceServed(n: Net, outside: W.Outside)
    requires Inv(n) && n.toServer != [] && !Crowded(n)
    ensures var n' := Served(n, outside);
            && |n'.buffer| == 1 && n'.buffer[0].answers == n.toServer[0].id
            && n'.client == n.client && n'.toClient == n.toClient
  {
    WhoAnnounces(n.values, n.toServer[0], outside);
    var notices, reply := ServingQueues(n, outside);
    assert notices == [] by { hide W.Handle, TextOf; }
    hide Served, Announces, Inv, Good;
  }

  function Receives(k: nat): (ls: seq<Step>)
    ensures |ls| == k
  {
    if k == 0 then [] else [Receive] + Receives(k - 1)
  }

  /** Receiving leaves no call pending that was not. */
  lemma ReceivingAddsNothing(n: Net, id: nat)
    requires Inv(n) && n.toClient != [] && id !in n.client.pending
    ensures id !in Apply(n, Receive).client.pending
  {
    hide Parse, Inv;
  }

  /** A reply in a frame of its own settles its call once the frames before it are received. */
  lemma {:induction false} ReplySettlesInTurn(n: Net, k: nat, id: nat)
    requires Inv(n) && k < |n.toClient| && |n.toClient[k]| == 1 && n.toClient[k][0].answers == id
    ensures Legal(n, Receives(k + 1)) && id !in After(n, Receives(k + 1)).client.pending
    decreases k
  {
    var ls := Receives(k + 1);
    var n' := Apply(n, Receive);
    assert ls[0] == Receive && ls[1..] == Receives(k) && n'.toClient == n.toClient[1..];
    StepKeepsInv(n, Receive);
    if k == 0 {
      if id in n.client.pending {
        LoneReplySettles(n, id);
      } else {
        ReceivingAddsNothing(n, id);
      }
    } else {
      hide Inv, Apply, Receives;
      ReplySettlesInTurn(n', k - 1, id);
    }
  }

  /** A reply alone in the buffer, flushed and received in its turn. */
  lemma AloneSettles(n: Net, id: nat)
    requires Inv(n) && |n.buffer| == 1 && n.buffer[0].answers == id
    ensures var ls := [Flush] + Receives(|n.toClient| + 1); Legal(n, ls) && id !in After(n, ls).client.pending
  {
    var ls := [Flush] + Receives(|n.toClient| + 1);
    var n' := Apply(n, Flush);
    assert n'.toClient == n.toClient + [n.buffer] && Enabled(n, Flush);
    StepKeepsInv(n, Flush);
    assert ls[0] == Flush && ls[1..] == Receives(|n.toClient| + 1);
    hide Inv, Receives, Apply, Enabled;
    ReplySettlesInTurn(n', |n.toClient|, id);
  }

  /** Otherwise the reply is alone in the buffer; and if that is flushed then, the call settles as
      soon as what is on its way is received. */
  lemma UncrowdedReplySettles(n: Net, outside: W.Outside)
    requires Inv(n) && n.toServer != [] && !Crowded(n)
    ensures var ls := [Flush] + Receives(|n.toClient| + 1);
            && Legal(Served(n, outside), ls)
            && n.toServer[0].id !in After(Served(n, outside), ls).client.pending
  {
    hide Inv, Served, Crowded, Receives, Apply, Enabled, Legal, After;
    ServeKeepsInv(n, outside);
    AloneOnceServed(n, outside);
    AloneSettles(Served(n, outside), n.toServer[0].id);
  }

  /** In every run: when a pending call is served, it can still settle if and only if it is not
      served in such a situation. */
  lemma SettlesIffUncrowded(values: map<string, string>, before: seq<Step>, outside: W.Outside)
    requires Legal(Init(values), before)
    requires var n := After(Init(values), before); n.toServer != [] && n.toServer[0].id in n.client.pending
    ensures var n := After(Init(values), before);
            (exists after :: Legal(Served(n, outside), after)
                             && n.toServer[0].id !in After(Served(n, outside), after).client.pending) <==> !Crowded(n)
  {
    RunKeepsInv(Init(values), before);
    var n := After(Init(values), before);
    hide Inv, Served, Crowded, Apply, Enabled, Init, Receives;
    if Crowded(n) {
      forall after | Legal(Served(n, outside), after)
        ensures n.toServer[0].id in After(Served(n, outside), after).client.pending
      {
        CrowdedReplyIsLost(n, outside, after);
      }
    } else {
      UncrowdedReplySettles(n, outside);
    }
  }

  // ---------------------------------------------------------------------------------------
  // Such situations do arise
  // ---------------------------------------------------------------------------------------

  lemma NameOfCharging()
    ensures CStr("startCharging") == "startCharging"
  {
    var name := "startCharging";
    assert NoNul(name);
    hide CStr;
    CStrOfNoNul(name);
  }

  lemma ChargingAnnounces(id: nat)
    requires id <= RpcBase.INT_MAX
    ensures Announces(Request(id, "startCharging", Obj([])))
  {
    hide CStr, W.Get, W.TextOf, W.Int32;
    NameOfCharging();
  }

  lemma LongerRun(n: Net, l: Step, ls: seq<Step>)
    requires Enabled(n, l) && Legal(Apply(n, l), ls)
    ensures Legal(n, [l] + ls) && After(n, [l] + ls) == After(Apply(n, l), ls)
  {
    assert ([l] + ls)[1..] == ls;
  }

  /** A first call, of any command, made before the welcome message has been flushed. */
  lemma FirstCallMayBeCrowded(values: map<string, string>, welcome: Out, rpc: string, params: Value)
    returns (ls: seq<Step>)
    requires Good(welcome) && welcome.answers == 0 && Writable(params)
    ensures Legal(Init(values), ls)
    ensures var n := After(Init(values), ls);
            n.client.pending == {1} && n.toServer == [Request(1, rpc, params)] && n.buffer == [welcome] && Crowded(n)
  {
    hide Good, Writable, Announces;
    var n1 := Apply(Init(values), Open(welcome));
    var n2 := Apply(n1, Step.Call(rpc, params, true));
    assert n2.client.pending == {1};
    LongerRun(n1, Step.Call(rpc, params, true), []);
    LongerRun(Init(values), Open(welcome), [Step.Call(rpc, params, true)] + []);
    ls := [Open(welcome)] + ([Step.Call(rpc, params, true)] + []);
  }

  /** A request that announces a change, with nothing else going on. */
  lemma AnnouncingCallIsCrowded(values: map<string, string>, welcome: Out, rpc: string, params: Value)
    returns (ls: seq<Step>)
    requires Good(welcome) && welcome.answers == 0 && Writable(params) && Announces(Request(1, rpc, params))
    ensures Legal(Init(values), ls)
    ensures var n := After(Init(values), ls);
            n.client.pending == {1} && n.toServer == [Request(1, rpc, params)] && n.buffer == [] && n.toClient == []
              && Crowded(n)
  {
    hide Good, Writable, Announces, Heard;
    var call := Step.Call(rpc, params, true);
    var n2 := Apply(Apply(Init(values), Open(welcome)), Flush);
    var c := FRESH.(connected := true);
    assert n2 == Init(values).(client := c, toClient := [[welcome]]);
    ReceiveSettles(c, [welcome]);
    var n3 := Apply(n2, Receive);
    assert n3 == Init(values).(client := c);
    var n4 := Apply(n3, call);
    assert n4.client == Called(c, true) && n4.client.pending == {1};
    ls := [Open(welcome)] + ([Flush] + ([Receive] + ([call] + [])));
    hide Apply;
    LongerRun(n3, call, []);
    LongerRun(n2, Receive, [call] + []);
    LongerRun(Apply(Init(values), Open(welcome)), Flush, [Receive] + ([call] + []));
    LongerRun(Init(values), Open(welcome), [Flush] + ([Receive] + ([call] + [])));
  }
}
