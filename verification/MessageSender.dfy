/** Store and forward: requests of the charge point are sent in the order in which they are
    issued, through a FIFO whenever they cannot be sent at once. */
module MessageSender {
  import opened Basics
  import opened Json
  import F = RequestFifo

  datatype CallResult = Ok | Delayed | Failed | Error

  datatype RpcReply = RpcReply(response: Value, error: string)

  /** One execution of the RPC: what it returned, if anything; what the schema of the response
      says, if there is one; and whether the response can be converted. */
  datatype Exchange = Exchange(reply: Option<RpcReply>, valid: Option<bool>, converts: bool)

  /** The result of a request that got a reply, or none. */
  function Judged(x: Exchange): CallResult {
    if x.reply.None? then Failed
    else if x.reply.value.error != "" then CallResult.Error
    else if x.valid == Some(true) && x.converts then CallResult.Ok
    else Failed
  }

  /** How a request came to its end: answered when it was issued, answered well out of the FIFO,
      or given up after so many failures. */
  datatype End =
    | Answered(request: F.Stored, result: CallResult)
    | Drained(request: F.Stored)
    | Dropped(request: F.Stored, failures: nat)

  const START_TRANSACTION := "StartTransaction"
  const STOP_TRANSACTION := "StopTransaction"
  const METER_VALUES := "MeterValues"
  const SECURITY_EVENT := "SecurityEventNotification"

  predicate Known(action: string) {
    action == START_TRANSACTION || action == STOP_TRANSACTION || action == METER_VALUES || action == SECURITY_EVENT
  }

  /** One turn of the drain: the exchange, and the state of the connection as it is asked for. */
  datatype Turn = Turn(x: Exchange, connectedAtRetry: bool, connectedAtEnd: bool)

  /** The FIFO holds these requests. */
  ghost predicate Holds(entries: seq<F.Entry>, requests: seq<F.Stored>) {
    |entries| == |requests| && forall i :: 0 <= i < |entries| ==> F.Read(entries[i]) == Some(requests[i])
  }

  ghost predicate Nondecreasing(ns: seq<nat>) {
    forall i, j :: 0 <= i < j < |ns| ==> ns[i] <= ns[j]
  }

  /** History: the requests that were issued for the FIFO and could be serialised, in order; how
      they ended, in order; and the position of the request of each RPC that was executed. */
  datatype History = History(issued: seq<F.Stored>, ended: seq<End>, tried: seq<nat>)

  ghost predicate Consistent(h: History, entries: seq<F.Entry>, attempts: nat) {
    && |h.ended| <= |h.issued| && (forall i :: 0 <= i < |h.ended| ==> h.ended[i].request == h.issued[i])
    && (forall i :: 0 <= i < |h.ended| && h.ended[i].Dropped? ==> h.ended[i].failures == attempts + 1)
    && (forall i :: 0 <= i < |h.ended| && h.ended[i].Answered? ==> !h.ended[i].result.Delayed?)
    && Holds(entries, h.issued[|h.ended|..])
    && Nondecreasing(h.tried) && (forall i :: 0 <= i < |h.tried| ==> h.tried[i] <= |h.ended| && h.tried[i] < |h.issued|)
  }

  lemma Tries(h: History, entries: seq<F.Entry>, attempts: nat)
    requires Consistent(h, entries, attempts) && |h.ended| < |h.issued|
    ensures Consistent(h.(tried := h.tried + [|h.ended|]), entries, attempts)
  {
    hide Holds;
  }

  lemma Ends(h: History, entries: seq<F.Entry>, attempts: nat, end: End)
    requires Consistent(h, entries, attempts) && |h.ended| < |h.issued| && end.request == h.issued[|h.ended|]
    requires (end.Answered? ==> !end.result.Delayed?) && (end.Dropped? ==> end.failures == attempts + 1)
    ensures entries != [] && Consistent(h.(ended := h.ended + [end]), entries[1..], attempts)
  {
    var rest := h.issued[|h.ended|..];
    assert h.issued[|h.ended| + 1..] == rest[1..];
    assert Holds(entries[1..], rest[1..]);
    hide Holds;
  }

  /** A request answered as soon as it is issued. */
  lemma EndsAtOnce(h: History, attempts: nat, request: F.Stored, result: CallResult)
    requires Consistent(h, [], attempts) && !result.Delayed?
    ensures |h.ended| == |h.issued|
    ensures Consistent(History(h.issued + [request], h.ended + [Answered(request, result)], h.tried + [|h.ended|]),
                       [], attempts)
  {
  }

  lemma Queues(h: History, entries: seq<F.Entry>, attempts: nat, request: F.Stored, entry: F.Entry)
    requires Consistent(h, entries, attempts) && F.Read(entry) == Some(request)
    ensures Consistent(h.(issued := h.issued + [request]), entries + [entry], attempts)
    ensures Holds(entries + [entry], h.issued[|h.ended|..] + [request])
  {
    hide F.Read;
    assert (h.issued + [request])[|h.ended|..] == h.issued[|h.ended|..] + [request];
  }

  lemma FrontIs(h: History, entries: seq<F.Entry>, attempts: nat)
    requires Consistent(h, entries, attempts)
    ensures (entries != [] <==> |h.ended| < |h.issued|)
    ensures entries != [] ==> F.Read(entries[0]) == Some(h.issued[|h.ended|])
                              && entries[0].action == h.issued[|h.ended|].action
  {
  }

  class MessageSender {
    const fifo: F.RequestFifo
    const attempts: nat
    var retryCount: nat
    var timerStarted: bool
    ghost var h: History

    ghost predicate Valid()
      reads this, fifo
    {
      Consistent(h, fifo.fifo, attempts) && retryCount <= attempts
    }

    /** The database has the FIFO, too. */
    ghost predicate Durable()
      reads fifo
    {
      fifo.Valid() && fifo.persistent
    }

    /** The FIFO starts with the requests that are in the database. */
    constructor (attempts: nat, table: map<nat, F.Entry>, rows: seq<F.Entry>, ghost requests: seq<F.Stored>)
      requires F.RowsOf(table, rows) && F.InOrder(rows) && F.Fit(rows) && Holds(rows, requests)
      ensures Valid() && Durable() && h == History(requests, [], []) && this.attempts == attempts && fresh(fifo)
      ensures fifo.fifo == rows
    {
      fifo := new F.RequestFifo(table);
      this.attempts := attempts;
      retryCount, timerStarted, h := 0, false, History(requests, [], []);
      new;
      assert requests[0..] == requests;
      hide F.RowsOf, F.InOrder, F.Fit, Holds;
      fifo.InitDatabaseTable(rows);
    }

    /** Queues a request, whose listener then sees to it that there is a next try. */
    method Queue(request: F.Stored, connected: bool)
      requires Writable(request.payload)
      modifies fifo, `timerStarted
      ensures fifo.fifo != [] && fifo.fifo == old(fifo.fifo) + [fifo.fifo[|fifo.fifo| - 1]]
      ensures F.Read(fifo.fifo[|fifo.fifo| - 1]) == Some(request)
      ensures timerStarted == (old(timerStarted) || connected)
      ensures old(Durable()) && old(fifo.nextId) + 1 < F.UINT_RANGE ==> Durable()
    {
      F.ReadWhatWasPushed(fifo.nextId, request);
      hide F.Read, Print, Writable, F.RequestFifo.Valid;
      fifo.Push(request.connector, request.action, request.payload);
      if connected && !timerStarted {
        timerStarted := true;
      }
    }

    /** Issues a request. It is sent at once only if nothing is waiting; it is queued, once, at the
        end, if something is or if the RPC fails; and in every other case the FIFO is left alone. */
    method Call(request: F.Stored, convertible: bool, useFifo: bool, x: Exchange, connected: bool)
      returns (result: CallResult)
      requires Valid() && Writable(request.payload)
      modifies this, fifo
      ensures Valid() && retryCount == old(retryCount)
      ensures result.Delayed? <==> convertible && useFifo && (old(fifo.fifo) != [] || x.reply.None?)
      ensures !result.Delayed? ==> fifo.fifo == old(fifo.fifo) && result == if convertible then Judged(x) else Failed
      ensures result.Delayed? ==> Holds(fifo.fifo, old(h.issued[|h.ended|..]) + [request])
      ensures h.issued == old(h.issued) + if convertible && useFifo then [request] else []
      ensures h.ended == old(h.ended) +
                if convertible && useFifo && !result.Delayed? then [Answered(request, result)] else []
      ensures h.tried == old(h.tried) + if convertible && useFifo && old(fifo.fifo) == [] then [|old(h.ended)|] else []
      ensures old(Durable()) && old(fifo.nextId) + 1 < F.UINT_RANGE ==> Durable()
    {
      hide Consistent, Holds, Writable, F.RequestFifo.Valid;
      ghost var h0, entries := h, fifo.fifo;
      FrontIs(h, entries, attempts);
      result := Failed;
      if convertible {
        if !useFifo || fifo.fifo == [] {
          if x.reply.Some? {
            if x.reply.value.error == "" {
              if x.valid.Some? {
                if x.valid.value {
                  if x.converts {
                    result := CallResult.Ok;
                  }
                }
              }
            } else {
              result := CallResult.Error;
            }
          } else if useFifo {
            Queue(request, connected);
            result := Delayed;
          }
          if useFifo {
            if result.Delayed? {
              Queues(h0, entries, attempts, request, fifo.fifo[|entries|]);
              h := h.(issued := h.issued + [request]);
              FrontIs(h, fifo.fifo, attempts);
              Tries(h, fifo.fifo, attempts);
              h := h.(tried := h.tried + [|h.ended|]);
            } else {
              EndsAtOnce(h0, attempts, request, result);
              h := History(h.issued + [request], h.ended + [Answered(request, result)], h.tried + [|h.ended|]);
            }
          }
        } else {
          Queue(request, connected);
          Queues(h0, entries, attempts, request, fifo.fifo[|entries|]);
          h := h.(issued := h.issued + [request]);
          result := Delayed;
        }
      }
    }

    /** Sends a request that was queued. */
    method CallJson(x: Exchange) returns (result: CallResult)
      ensures result == Judged(x)
    {
      result := Failed;
      if x.reply.Some? {
        if x.reply.value.error == "" {
          if x.valid.Some? {
            if x.valid.value {
              if x.converts {
                result := CallResult.Ok;
              }
            }
          }
        } else {
          result := CallResult.Error;
        }
      }
    }

    /** One turn of the drain. The first request leaves the FIFO when it has been answered well,
        or when it has failed once too often; otherwise nothing leaves and the failure counts. */
    method ProcessFront(turn: Turn)
      requires Valid() && fifo.fifo != []
      modifies this, fifo
      ensures Valid() && h.issued == old(h.issued) && |old(h.ended)| < |h.issued|
      ensures var request := h.issued[|old(h.ended)|];
              var good := Known(request.action) && Judged(turn.x).Ok?;
              var last := old(retryCount) == attempts;
              && h.ended == old(h.ended)
                            + (if good then [Drained(request)]
                               else if last then [Dropped(request, attempts + 1)] else [])
              && fifo.fifo == (if good || last then old(fifo.fifo)[1..] else old(fifo.fifo))
              && retryCount == (if good || last then 0 else old(retryCount) + 1)
              && timerStarted == (old(timerStarted) || (!good && !last && turn.connectedAtRetry))
              && h.tried == old(h.tried) + (if Known(request.action) then [|old(h.ended)|] else [])
      ensures old(Durable()) ==> Durable()
    {
      hide Consistent, Known, F.Read, F.RequestFifo.Valid;
      FrontIs(h, fifo.fifo, attempts);
      ghost var request := h.issued[|h.ended|];
      var first := fifo.Front();
      var result := Failed;
      if Known(first.value.action) {
        Tries(h, fifo.fifo, attempts);
        h := h.(tried := h.tried + [|h.ended|]);
        result := CallJson(turn.x);
      }
      if result.Ok? {
        Ends(h, fifo.fifo, attempts, Drained(request));
        fifo.PopFront();
        h := h.(ended := h.ended + [Drained(request)]);
        retryCount := 0;
      } else {
        retryCount := retryCount + 1;
        if retryCount > attempts {
          Ends(h, fifo.fifo, attempts, Dropped(request, retryCount));
          fifo.PopFront();
          h := h.(ended := h.ended + [Dropped(request, retryCount)]);
          retryCount := 0;
        } else if turn.connectedAtRetry {
          timerStarted := true;
        }
      }
    }

    /** The drain. It works only while connected and accepted; and it stops only when the FIFO is
        empty, a retry is scheduled, or the connection is gone. */
    method ProcessFifoRequest(connected: bool, accepted: bool, world: nat -> Turn) returns (turns: nat)
      requires Valid()
      modifies this, fifo
      ensures Valid() && h.issued == old(h.issued) && old(h.ended) <= h.ended && old(h.tried) <= h.tried
      ensures !(connected && accepted) ==> h == old(h) && turns == 0
      ensures connected && !accepted ==> timerStarted
      ensures connected && accepted && old(fifo.fifo) != [] ==>
                turns > 0 && (fifo.fifo == [] || timerStarted || !world(turns - 1).connectedAtEnd)
      ensures forall i :: |old(h.ended)| <= i < |h.ended| ==> !h.ended[i].Answered?
      ensures old(Durable()) ==> Durable()
    {
      hide Consistent, Known, Judged, F.RequestFifo.Valid;
      turns := 0;
      if connected {
        if accepted {
          var again := true;
          while again
            invariant Valid() && h.issued == old(h.issued) && old(h.ended) <= h.ended && old(h.tried) <= h.tried
            invariant again <==> turns == 0 || (fifo.fifo != [] && !timerStarted && world(turns - 1).connectedAtEnd)
            invariant turns == 0 ==> fifo.fifo == old(fifo.fifo)
            invariant old(Durable()) ==> Durable()
            invariant forall i :: |old(h.ended)| <= i < |h.ended| ==> !h.ended[i].Answered?
            decreases |fifo.fifo|, attempts - retryCount, again
          {
            if fifo.fifo != [] {
              ProcessFront(world(turns));
            }
            again := fifo.fifo != [] && !timerStarted && world(turns).connectedAtEnd;
            turns := turns + 1;
          }
        } else {
          timerStarted := true;
        }
      }
    }

    /** The charge point reboots. The database lists what it has; nothing that was issued is lost or
        doubled, and the count of failures starts again. */
    method Reboot(rows: seq<F.Entry>)
      requires Valid() && Durable() && F.RowsOf(fifo.table, rows) && F.InOrder(rows)
      modifies this, fifo
      ensures Valid() && Durable() && h == old(h) && fifo.fifo == old(fifo.fifo)
      ensures retryCount == 0 && !timerStarted
    {
      hide Consistent, F.RequestFifo.Valid, F.RowsOf, F.InOrder;
      fifo.Reboot(rows);
      retryCount, timerStarted := 0, false;
    }

    /** The retry timer fires once. */
    method TimerFires()
      requires Valid()
      modifies `timerStarted
      ensures Valid() && !timerStarted
    {
      timerStarted := false;
    }
  }

  // ---------------------------------------------------------------------------------------
  // Nothing is lost, doubled or overtaken
  // ---------------------------------------------------------------------------------------

  function Requests(es: seq<End>): seq<F.Stored> {
    if es == [] then [] else Requests(es[..|es| - 1]) + [es[|es| - 1].request]
  }

  lemma {:induction false} RequestsAt(es: seq<End>)
    ensures |Requests(es)| == |es| && forall i :: 0 <= i < |es| ==> Requests(es)[i] == es[i].request
    decreases |es|
  {
    if es != [] {
      RequestsAt(es[..|es| - 1]);
    }
  }

  /** At every moment, the requests that have ended, in the order in which they did, followed by
      what the FIFO holds, are the requests that were issued, in the order in which they were.
      And no RPC was executed for a request after one was executed for a request issued later. */
  lemma EndedThenQueued(h: History, entries: seq<F.Entry>, attempts: nat) returns (queued: seq<F.Stored>)
    requires Consistent(h, entries, attempts)
    ensures Holds(entries, queued) && Requests(h.ended) + queued == h.issued
    ensures forall i, j :: 0 <= i < j < |h.tried| ==> h.tried[i] <= h.tried[j] < |h.issued|
  {
    queued := h.issued[|h.ended|..];
    RequestsAt(h.ended);
    assert Requests(h.ended) == h.issued[..|h.ended|];
  }
}
