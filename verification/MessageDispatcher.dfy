/** Which handler a request goes to, and what it is answered with. */
module MessageDispatcher {
  import opened Basics
  import opened Json
  import opened RpcFrame
  import opened RpcBase

  /** What a handler leaves in its return value and its output parameters. */
  datatype Handled = Handled(accepted: bool, response: Value, code: string, message: string)

  /** A schema: no error means that the payload is valid. */
  type Validator = Value -> Option<string>

  type Handler = (string, Value) -> Handled

  /** A payload validator and a handler. */
  datatype Entry = Entry(validator: Validator, handler: Handler)

  // ---------------------------------------------------------------------------------------
  // Registration
  // ---------------------------------------------------------------------------------------

  datatype Attempt = Attempt(action: string, handler: Handler, allowReplace: bool)

  /** The handler an action ends up with: the one registered last with permission to replace, or
      else the first one. Without a validator for the action, none. */
  function Winner(attempts: seq<Attempt>, action: string): Option<Handler> {
    if attempts == [] then None
    else
      var last := attempts[|attempts| - 1];
      var before := Winner(attempts[..|attempts| - 1], action);
      if last.action == action && (last.allowReplace || before.None?) then Some(last.handler) else before
  }

  /** Said of positions: the winner is an attempt for that action, no later one may replace it,
      and it either replaced what there was or was the first. */
  lemma {:induction false} WinnerIs(attempts: seq<Attempt>, action: string) returns (k: int)
    ensures Winner(attempts, action).None? <==> forall i :: 0 <= i < |attempts| ==> attempts[i].action != action
    ensures Winner(attempts, action).Some? ==>
              && 0 <= k < |attempts| && attempts[k].action == action
                 && Winner(attempts, action).value == attempts[k].handler
              && (forall i :: k < i < |attempts| && attempts[i].action == action ==> !attempts[i].allowReplace)
              && (attempts[k].allowReplace || forall i :: 0 <= i < k ==> attempts[i].action != action)
    decreases |attempts|
  {
    k := 0;
    if attempts != [] {
      var n := |attempts| - 1;
      var k' := WinnerIs(attempts[..n], action);
      assert forall i :: 0 <= i < n ==> attempts[..n][i] == attempts[i];
      var last := attempts[n];
      k := if last.action == action && (last.allowReplace || Winner(attempts[..n], action).None?) then n else k';
    }
  }

  // ---------------------------------------------------------------------------------------
  // Dispatching
  // ---------------------------------------------------------------------------------------

  /** The verdict on a message, given who is registered. */
  function Dispatched(handlers: map<string, Entry>, action: string, payload: Value): Handled {
    if action !in handlers then Handled(false, Obj([]), ERROR_NOT_IMPLEMENTED, "")
    else
      match handlers[action].validator(payload)
      case Some(error) => Handled(false, Obj([]), ERROR_TYPE_CONSTRAINT, error)
      case None => handlers[action].handler(action, payload)
  }

  class MessageDispatcher {
    /** The schemas that can be loaded, by action. */
    const schemas: map<string, Validator>
    var handlers: map<string, Entry>
    ghost var attempts: seq<Attempt>

    /** Every action with a schema has the handler that won, and no other action has one. */
    ghost predicate Valid()
      reads this
    {
      forall action ::
        if action in schemas && Winner(attempts, action).Some?
        then action in handlers && handlers[action] == Entry(schemas[action], Winner(attempts, action).value)
        else action !in handlers
    }

    constructor (schemas: map<string, Validator>)
      ensures Valid() && attempts == [] && this.schemas == schemas
    {
      this.schemas := schemas;
      handlers := map[];
      attempts := [];
    }

    method RegisterHandler(action: string, handler: Handler, allowReplace: bool) returns (ok: bool)
      requires Valid()
      modifies this
      ensures Valid() && attempts == old(attempts) + [Attempt(action, handler, allowReplace)]
      ensures ok <==> action in schemas && (allowReplace || Winner(old(attempts), action).None?)
    {
      ok := false;
      ghost var before := attempts;
      attempts := attempts + [Attempt(action, handler, allowReplace)];
      assert attempts[..|attempts| - 1] == before;
      if allowReplace || action !in handlers {
        if action in schemas {
          handlers := handlers[action := Entry(schemas[action], handler)];
          ok := true;
        }
      }
    }

    method DispatchMessage(action: string, payload: Value) returns (handled: Handled)
      ensures handled == Dispatched(handlers, action, payload)
    {
      handled := Handled(false, Obj([]), "", "");
      if action in handlers {
        var entry := handlers[action];
        var error := entry.validator(payload);
        if error.None? {
          handled := entry.handler(action, payload);
        } else {
          handled := handled.(code := ERROR_TYPE_CONSTRAINT, message := error.value);
        }
      } else {
        handled := handled.(code := ERROR_NOT_IMPLEMENTED);
      }
    }
  }

  // ---------------------------------------------------------------------------------------
  // The generic handler
  // ---------------------------------------------------------------------------------------

  /** What a step of a handler leaves: whether it worked, what it made, and the error strings,
      which it may have filled in either case. */
  datatype Made<T> = Made(ok: bool, value: T, code: string, message: string)

  /** Request and response converters, and the handler proper. */
  datatype Stages<!Req, !Resp> = Stages(
    fromJson: Value -> Made<Req>,
    handle: (Req, string, string) -> Made<Resp>,
    toJson: Resp -> Option<Value>)

  /** Where a generic handler may stop. */
  datatype Stop = BadRequest | Refused | BadResponse | Finished

  function StopsAt<Req, Resp>(s: Stages<Req, Resp>, payload: Value): Stop {
    var request := s.fromJson(payload);
    if !request.ok then BadRequest
    else
      var response := s.handle(request.value, request.code, request.message);
      if !response.ok then Refused else if s.toJson(response.value).None? then BadResponse else Finished
  }

  /** The error code at that point. */
  function CodeAt<Req, Resp>(s: Stages<Req, Resp>, payload: Value): string {
    var request := s.fromJson(payload);
    if StopsAt(s, payload).BadRequest? then request.code
    else s.handle(request.value, request.code, request.message).code
  }

  method Handle<Req, Resp>(s: Stages<Req, Resp>, payload: Value) returns (handled: Handled)
    ensures handled.accepted <==> StopsAt(s, payload).Finished?
    ensures handled.code == CodeAt(s, payload)
    ensures handled.accepted ==>
              Some(handled.response) == s.toJson(s.handle(s.fromJson(payload).value, s.fromJson(payload).code,
                s.fromJson(payload).message).value)
  {
    handled := Handled(false, Obj([]), "", "");
    var request := s.fromJson(payload);
    handled := handled.(code := request.code, message := request.message);
    if request.ok {
      var response := s.handle(request.value, request.code, request.message);
      handled := handled.(code := response.code, message := response.message);
      if response.ok {
        var json := s.toJson(response.value);
        if json.Some? {
          handled := handled.(accepted := true, response := json.value);
        }
      }
    }
  }

  // ---------------------------------------------------------------------------------------
  // What a request is answered with
  // ---------------------------------------------------------------------------------------

  function AsOutcome(h: Handled): Outcome {
    if h.accepted then Accepted(h.response) else Rejected(h.code, h.message)
  }

  /** The frames sent in answer to a received request. */
  function AnswerTo(handlers: map<string, Entry>, request: Request): seq<string> {
    Answer(request.id, AsOutcome(Dispatched(handlers, request.action, request.payload)))
  }

  /** The registered handler behaves as the stages say, for this payload. */
  ghost predicate Runs<Req, Resp>(handler: Handler, s: Stages<Req, Resp>, action: string, payload: Value) {
    && (handler(action, payload).accepted <==> StopsAt(s, payload).Finished?)
    && handler(action, payload).code == CodeAt(s, payload)
  }

  /** An unknown action and an invalid payload are always answered, with their standard code, so
      that the peer reads it as the answer to its call; what remains unanswered is a request
      whose own handler stopped somewhere without giving a code. */
  lemma SilenceIsTheHandlers<Req, Resp>(handlers: map<string, Entry>, request: Request, s: Stages<Req, Resp>)
    requires request.action in handlers ==> Runs(handlers[request.action].handler, s, request.action, request.payload)
    ensures AnswerTo(handlers, request) == [] <==>
              && request.action in handlers && handlers[request.action].validator(request.payload).None?
              && !StopsAt(s, request.payload).Finished? && CodeAt(s, request.payload) == ""
    ensures |AnswerTo(handlers, request)| <= 1
  {
    hide ResultText, ErrorText;
  }

  lemma StandardCodesArePlain()
    ensures Plain(ERROR_NOT_IMPLEMENTED) && CStr(ERROR_NOT_IMPLEMENTED) == ERROR_NOT_IMPLEMENTED
    ensures Plain(ERROR_TYPE_CONSTRAINT) && CStr(ERROR_TYPE_CONSTRAINT) == ERROR_TYPE_CONSTRAINT
    ensures Plain("")
  {
    hide CStr;
    PlainHasNoNul(ERROR_NOT_IMPLEMENTED);
    PlainHasNoNul(ERROR_TYPE_CONSTRAINT);
  }

  /** The peer reads the standard code for an unknown action, if and only if the identifier of its
      call needs no escape. */
  lemma UnknownActionIsReported(handlers: map<string, Entry>, request: Request)
    requires request.action !in handlers
    ensures |AnswerTo(handlers, request)| == 1
    ensures Meaning(AnswerTo(handlers, request)[0]) == CallError(request.id, ERROR_NOT_IMPLEMENTED, "", Obj([]))
            <==> Plain(request.id)
  {
    StandardCodesArePlain();
    hide Meaning, CStr, Plain, ErrorText;
    ErrorRoundTripIff(request.id, ERROR_NOT_IMPLEMENTED, "");
  }

  /** And the one for an invalid payload, if the validator's message needs none either. */
  lemma InvalidPayloadIsReported(handlers: map<string, Entry>, request: Request)
    requires request.action in handlers && handlers[request.action].validator(request.payload).Some?
    ensures |AnswerTo(handlers, request)| == 1
    ensures var error := handlers[request.action].validator(request.payload).value;
            Meaning(AnswerTo(handlers, request)[0]) == CallError(request.id, ERROR_TYPE_CONSTRAINT, error, Obj([]))
            <==> Plain(request.id) && Plain(error)
  {
    StandardCodesArePlain();
    hide Meaning, CStr, Plain, ErrorText;
    ErrorRoundTripIff(request.id, ERROR_TYPE_CONSTRAINT, handlers[request.action].validator(request.payload).value);
  }
}
