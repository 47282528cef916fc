/** The web server's JSON-RPC: requests, replies, notifications, and the write buffer of each
    websocket connection. */
module WebServer {
  import opened Basics
  import opened Json
  import opened RpcFrame
  import RpcBase

  datatype Result<T> = Value(value: T) | Exception(what: string)

  datatype RpcRequest = RpcRequest(name: string, id: int, params: Json.Value)

  // ---------------------------------------------------------------------------------------
  // Requests
  // ---------------------------------------------------------------------------------------

  /** The first member of that name. */
  function Find(members: seq<Member>, name: string): Option<Json.Value> {
    if members == [] then None
    else if members[0].name == name then Some(members[0].value)
    else Find(members[1..], name)
  }

  function Get(v: Json.Value, name: string): Option<Json.Value> {
    if v.Obj? then Find(v.members, name) else None
  }

  /** The value of a JSON number that is a signed 32-bit integer. */
  function Int32(v: Json.Value): Option<int> {
    if !v.Num? then None
    else if AllDigits(v.lexeme) && DigitsValue(v.lexeme) <= RpcBase.INT_MAX then Some(DigitsValue(v.lexeme))
    else if v.lexeme != "" && v.lexeme[0] == '-' && AllDigits(v.lexeme[1..])
            && DigitsValue(v.lexeme[1..]) <= -RpcBase.INT_MIN
    then Some(0 - DigitsValue(v.lexeme[1..]))
    else None
  }

  function TextOf(v: Option<Json.Value>): Option<string> {
    if v.Some? && v.value.Str? then Some(CStr(v.value.s)) else None
  }

  function RequestIn(doc: Json.Value): Result<RpcRequest> {
    var jsonrpc, rpc, id := TextOf(Get(doc, "jsonrpc")), TextOf(Get(doc, "method")), Get(doc, "id");
    if jsonrpc.None? then Exception("Missing or invalid 'jsonrpc' field")
    else if rpc.None? then Exception("Missing or invalid 'method' field")
    else if id.None? || Int32(id.value).None? then Exception("Missing or invalid 'id' field")
    else
      var params := Get(doc, "params");
      Value(RpcRequest(rpc.value, Int32(id.value).value, if params.Some? then params.value else Obj([])))
  }

  function ParseRpcRequest(text: string): Result<RpcRequest> {
    var doc := Parse(CStr(text));
    if doc.None? then Exception("JSON parse error")
    else if !doc.value.Obj? then Exception("Expected JSON object")
    else RequestIn(doc.value)
  }

  // ---------------------------------------------------------------------------------------
  // Messages to the browser
  // ---------------------------------------------------------------------------------------

  function ReplyBody(id: int, result: Result<string>): Json.Value {
    Obj([Member("jsonrpc", Str("2.0")), Member("id", Num(RpcBase.IdText(id))),
         match result
         case Exception(what) => if what != "" then Member("error", Str(CStr(what))) else Member("result", Str(""))
         case Value(text) => Member("result", Str(CStr(text)))])
  }

  function NoticeBody(key: string, value: string): Json.Value {
    Obj([Member("jsonrpc", Str("2.0")), Member("method", Str("valueChanged")),
         Member("params", Obj([Member("key", Str(CStr(key))), Member("value", Str(CStr(value)))]))])
  }

  /** Sent to a browser as soon as it connects. */
  function WelcomeText(id: int): string {
    "{\n        \"jsonrpc\": \"2.0\",\n        \"method\": \"connected\", \n        \"params\": {\n"
    + "            \"connectionId\": "
    + RpcBase.IdText(id) + ",\n            \"message\": \"WebSocket connection established\"\n        }\n    }"
  }

  // ---------------------------------------------------------------------------------------
  // Commands
  // ---------------------------------------------------------------------------------------

  /** What a command returns, the values it leaves, and the changes it announces to everybody. */
  datatype Executed = Executed(result: Result<string>, values: map<string, string>, changes: seq<(string, string)>)

  /** What comes from outside: the result of the commands that report on stations and metrics, and
      how a number that is no 32-bit integer is shown. */
  datatype Outside = Outside(report: Result<string>, shown: string -> string)

  const INITIAL_VALUES: map<string, string> := map[
    "systemStatus" := "running", "maxPower" := "50", "chargingEnabled" := "false", "currentSession" := "0",
    "totalEnergy" := "0", "firmwareVersion" := "1.0.0", "operator" := "OS System"]

  function ShowValue(v: Json.Value, outside: Outside): string {
    match v
    case Str(s) => CStr(s)
    case Num(lexeme) => if Int32(v).Some? then RpcBase.IdText(Int32(v).value) else outside.shown(lexeme)
    case Bool(b) => if b then "true" else "false"
    case _ => Print(v)
  }

  predicate Reports(rpc: string) {
    || rpc == "GetStations" || rpc == "GetStationStatus" || rpc == "GetConnectorStatus" || rpc == "getValues"
    || rpc == "getMetrics"
  }

  function GetValue(values: map<string, string>, params: Json.Value): Result<string> {
    var key := TextOf(Get(params, "key"));
    if key.None? then Exception("Invalid parameters: expected object with 'key' string")
    else if key.value !in values then Exception("Key not found: " + key.value)
    else Value(values[key.value])
  }

  function SetValue(values: map<string, string>, params: Json.Value, outside: Outside): Executed {
    var key, value := TextOf(Get(params, "key")), Get(params, "value");
    if key.None? || value.None? then
      Executed(Exception("Invalid parameters: expected object with 'key' and 'value'"), values, [])
    else
      var text := ShowValue(value.value, outside);
      Executed(Value("OK"), values[key.value := text], [(key.value, text)])
  }

  function SetMaxPower(values: map<string, string>, params: Json.Value): Executed {
    var value := Get(params, "value");
    if value.None? || Int32(value.value).None? then
      Executed(Exception("Invalid parameters: expected object with 'value' as integer"), values, [])
    else
      var power := Int32(value.value).value;
      if power < 1 || power > 100 then Executed(Exception("Max power must be between 1 and 100 kW"), values, [])
      else
        var text := RpcBase.IdText(power);
        Executed(Value("Max power set to " + text + " kW"), values["maxPower" := text], [("maxPower", text)])
  }

  function Execute(values: map<string, string>, r: RpcRequest, outside: Outside): Executed {
    if r.name == "getValue" then Executed(GetValue(values, r.params), values, [])
    else if Reports(r.name) then Executed(outside.report, values, [])
    else if r.name == "setValue" then SetValue(values, r.params, outside)
    else if r.name == "ping" then Executed(Value("pong"), values, [])
    else if r.name == "startCharging" then
      Executed(Value("Charging started"), values["chargingEnabled" := "true"]["systemStatus" := "charging"],
               [("chargingEnabled", "true"), ("systemStatus", "charging")])
    else if r.name == "stopCharging" then
      Executed(Value("Charging stopped"), values["chargingEnabled" := "false"]["systemStatus" := "ready"],
               [("chargingEnabled", "false"), ("systemStatus", "ready")])
    else if r.name == "resetSystem" then
      Executed(Value("System reset completed"), values + INITIAL_VALUES, [("systemStatus", "reset")])
    else if r.name == "setMaxPower" then SetMaxPower(values, r.params)
    else Executed(Exception("Unknown method: " + r.name), values, [])
  }

  /** A value the maximal power may have. */
  predicate PowerValue(v: Option<Json.Value>) {
    v.Some? && Int32(v.value).Some? && 1 <= Int32(v.value).value <= 100
  }

  /** The requests that announce a change: those to start, stop or reset, a well-formed one to set
      a value, and one to set a maximal power that is in range. */
  predicate AnnouncesChange(r: RpcRequest) {
    || r.name == "startCharging" || r.name == "stopCharging" || r.name == "resetSystem"
    || (r.name == "setValue" && TextOf(Get(r.params, "key")).Some? && Get(r.params, "value").Some?)
    || (r.name == "setMaxPower" && PowerValue(Get(r.params, "value")))
  }

  lemma WhatIsAnnounced(values: map<string, string>, r: RpcRequest, outside: Outside)
    ensures Execute(values, r, outside).changes != [] <==> AnnouncesChange(r)
  {
    hide Get, TextOf, Int32, ShowValue, RpcBase.IdText;
  }

  /** What handling a text does: what is announced to everybody, then what the sender is told. */
  datatype Handling = Handling(values: map<string, string>, notices: seq<Json.Value>, reply: Json.Value)

  function Notices(changes: seq<(string, string)>): seq<Json.Value> {
    seq(|changes|, i requires 0 <= i < |changes| => NoticeBody(changes[i].0, changes[i].1))
  }

  function Handle(values: map<string, string>, text: string, outside: Outside): Handling {
    match ParseRpcRequest(text)
    case Exception(what) => Handling(values, [], ReplyBody(-1, Exception(what)))
    case Value(request) =>
      var done := Execute(values, request, outside);
      Handling(done.values, Notices(done.changes), ReplyBody(request.id, done.result))
  }

  function Texts(vs: seq<Json.Value>): seq<string> {
    seq(|vs|, i requires 0 <= i < |vs| => Print(vs[i]))
  }

  // ---------------------------------------------------------------------------------------
  // Connections
  // ---------------------------------------------------------------------------------------

  function Concat(texts: seq<string>): string {
    if texts == [] then "" else Concat(texts[..|texts| - 1]) + texts[|texts| - 1]
  }

  lemma ConcatPush(texts: seq<string>, text: string)
    ensures Concat(texts + [text]) == Concat(texts) + text
  {
    assert (texts + [text])[..|texts|] == texts;
  }

  lemma SomeMember(ids: set<int>)
    ensures ids == {} || exists id :: id in ids
  {
    if forall id :: id !in ids {
      assert ids == {};
    }
  }

  class WebSocketConnection {
    var writeBuffer: string
    /** The messages queued and the frames sent, since the connection was established. */
    ghost var queued: seq<string>
    ghost var frames: seq<string>

    /** Nothing is lost between the messages and the frames, though their limits may be. */
    ghost predicate Valid()
      reads this
    {
      Concat(frames) + writeBuffer == Concat(queued)
    }

    constructor ()
      ensures Valid() && writeBuffer == "" && queued == [] && frames == []
    {
      writeBuffer, queued, frames := "", [], [];
    }

    method Send(message: string)
      requires Valid()
      modifies this
      ensures Valid() && queued == old(queued) + [message] && frames == old(frames)
      ensures writeBuffer == old(writeBuffer) + message
    {
      ConcatPush(queued, message);
      writeBuffer := writeBuffer + message;
      queued := queued + [message];
      assert Concat(frames) + writeBuffer == Concat(frames) + old(writeBuffer) + message;
    }

    /** The writable callback: the whole buffer goes out as one frame. */
    method Writable() returns (frame: Option<string>)
      requires Valid()
      modifies this
      ensures Valid() && writeBuffer == "" && queued == old(queued)
      ensures frame == if old(writeBuffer) == "" then None else Some(old(writeBuffer))
      ensures frames == old(frames) + if frame.Some? then [frame.value] else []
    {
      frame := None;
      if writeBuffer != "" {
        frame := Some(writeBuffer);
        ConcatPush(frames, writeBuffer);
        frames := frames + [writeBuffer];
        writeBuffer := "";
      }
    }
  }

  class WebServer {
    var values: map<string, string>
    var connections: map<int, WebSocketConnection>
    var nextConnectionId: int

    ghost predicate Valid()
      reads this, connections.Values
    {
      && (forall c :: c in connections ==> connections[c].Valid() && c < nextConnectionId)
      && (forall c, d :: c in connections && d in connections && c != d ==> connections[c] != connections[d])
    }

    constructor ()
      ensures Valid() && connections == map[] && values == INITIAL_VALUES && nextConnectionId == 1
    {
      values, connections, nextConnectionId := INITIAL_VALUES, map[], 1;
    }

    method Connect() returns (id: int)
      requires Valid()
      modifies this
      ensures Valid() && id == old(nextConnectionId) && id !in old(connections) && values == old(values)
      ensures id in connections && fresh(connections[id]) && connections == old(connections)[id := connections[id]]
      ensures connections[id].queued == [WelcomeText(id)] && connections[id].frames == []
    {
      hide WelcomeText;
      id := nextConnectionId;
      nextConnectionId := nextConnectionId + 1;
      var connection := new WebSocketConnection();
      connections := connections[id := connection];
      connection.Send(WelcomeText(id));
    }

    method Close(id: int)
      requires Valid()
      modifies this
      ensures Valid() && connections == old(connections) - {id} && values == old(values)
    {
      connections := connections - {id};
    }

    method SendToConnection(id: int, message: string)
      requires Valid()
      modifies connections.Values
      ensures Valid()
      ensures forall c :: c in connections ==>
                connections[c].queued == old(connections[c].queued) + (if c == id then [message] else [])
    {
      if id in connections {
        assert forall c :: c in connections && c != id ==> connections[c] != connections[id];
        connections[id].Send(message);
      }
    }

    method Broadcast(message: string)
      requires Valid()
      modifies connections.Values
      ensures Valid()
      ensures forall c :: c in connections ==> connections[c].queued == old(connections[c].queued) + [message]
    {
      hide WebSocketConnection.Valid;
      var left := connections.Keys;
      while left != {}
        invariant left <= connections.Keys && Valid()
        invariant forall c :: c in connections ==>
                    connections[c].queued == old(connections[c].queued) + (if c in left then [] else [message])
        decreases |left|
      {
        SomeMember(left);
        var id :| id in left;
        connections[id].Send(message);
        left := left - {id};
      }
    }

    /** Everybody is told of every change. */
    method Announce(changes: seq<(string, string)>)
      requires Valid()
      modifies connections.Values
      ensures Valid()
      ensures forall c :: c in connections ==>
              connections[c].queued == old(connections[c].queued) + Texts(Notices(changes))
    {
      ghost var texts := Texts(Notices(changes));
      hide Concat, Valid;
      var k := 0;
      while k < |changes|
        invariant 0 <= k <= |changes| && Valid()
        invariant forall c :: c in connections ==> connections[c].queued == old(connections[c].queued) + texts[..k]
      {
        var text := Print(NoticeBody(changes[k].0, changes[k].1));
        assert texts[k] == text;
        assert texts[..k + 1] == texts[..k] + [text];
        hide NoticeBody, Print, Texts, Notices;
        Broadcast(text);
        k := k + 1;
      }
      assert texts[..k] == texts;
    }

    /** One text from a browser: everybody is told what has changed, and its sender is sent exactly
        one reply, after that. */
    method HandleRpcMessage(id: int, text: string, outside: Outside)
      requires Valid()
      modifies this`values, connections.Values
      ensures Valid()
      ensures var h := Handle(old(values), text, outside);
              && values == h.values
              && forall c :: c in connections ==>
                   connections[c].queued == old(connections[c].queued) + Texts(h.notices)
                     + (if c == id then [Print(h.reply)] else [])
    {
      hide ParseRpcRequest, Execute, ReplyBody, Notices, Print;
      var request := ParseRpcRequest(text);
      if request.Value? {
        var done := Execute(values, request.value, outside);
        values := done.values;
        Announce(done.changes);
        SendToConnection(id, Print(ReplyBody(request.value.id, done.result)));
      } else {
        SendToConnection(id, Print(ReplyBody(-1, Exception(request.what))));
      }
    }
  }
}
