/** The FIFO of requests that could not be sent, and its copy in the database. */
module RequestFifo {
  import opened Basics
  import opened Json
  import opened RpcFrame

  datatype Entry = Entry(id: nat, connector: nat, action: string, request: string)

  datatype Stored = Stored(connector: nat, action: string, payload: Value)

  const UINT_RANGE := 0x1_0000_0000

  /** What an entry gives back: its text is a C string when it is parsed. */
  function Read(e: Entry): Option<Stored> {
    var payload := Parse(CStr(e.request));
    if payload.Some? then Some(Stored(e.connector, e.action, payload.value)) else None
  }

  /** What was pushed can be read again. */
  lemma ReadWhatWasPushed(id: nat, x: Stored)
    requires Writable(x.payload)
    ensures Read(Entry(id, x.connector, x.action, Print(x.payload))) == Some(x)
  {
    PrintHasNoNul(x.payload);
    CStrOfNoNul(Print(x.payload));
    ParsePrint(x.payload);
  }

  /** The identifiers increase along the sequence. */
  ghost predicate InOrder(es: seq<Entry>) {
    forall i, j :: 0 <= i < j < |es| ==> es[i].id < es[j].id
  }

  /** The rows are those of the table, under their identifiers. */
  ghost predicate RowsOf(table: map<nat, Entry>, rows: seq<Entry>) {
    && (forall i :: 0 <= i < |rows| ==> rows[i].id in table && table[rows[i].id] == rows[i])
    && (forall id :: id in table ==> table[id] in rows && table[id].id == id)
  }

  /** There is only one way to list a table in the order of its identifiers. */
  lemma {:induction false} OneListing(table: map<nat, Entry>, a: seq<Entry>, b: seq<Entry>)
    requires RowsOf(table, a) && RowsOf(table, b) && InOrder(a) && InOrder(b)
    ensures a == b
    decreases |a|
  {
    EmptyTogether(table, a, b);
    if a != [] {
      SmallestIsFirst(table, a, b);
      ShorterListing(table, a);
      ShorterListing(table, b);
      hide RowsOf, InOrder;
      OneListing(table - {a[0].id}, a[1..], b[1..]);
      assert a == [a[0]] + a[1..] && b == [b[0]] + b[1..];
    }
  }

  lemma EmptyTogether(table: map<nat, Entry>, a: seq<Entry>, b: seq<Entry>)
    requires RowsOf(table, a) && RowsOf(table, b)
    ensures a == [] <==> b == []
  {
    assert a != [] ==> table[a[0].id] in b;
    assert b != [] ==> table[b[0].id] in a;
  }

  lemma SmallestIsFirst(table: map<nat, Entry>, a: seq<Entry>, b: seq<Entry>)
    requires RowsOf(table, a) && RowsOf(table, b) && InOrder(a) && InOrder(b) && a != [] && b != []
    ensures a[0] == b[0]
  {
    assert table[a[0].id] in b && table[b[0].id] in a;
    var i :| 0 <= i < |b| && b[i] == a[0];
    var j :| 0 <= j < |a| && a[j] == b[0];
  }

  lemma ShorterListing(table: map<nat, Entry>, a: seq<Entry>)
    requires RowsOf(table, a) && InOrder(a) && a != []
    ensures RowsOf(table - {a[0].id}, a[1..]) && InOrder(a[1..])
  {
    var rest := table - {a[0].id};
    forall id | id in rest ensures rest[id] in a[1..] {
      var i :| 0 <= i < |a| && a[i] == table[id];
      assert i != 0;
      assert a[1..][i - 1] == a[i];
    }
  }

  lemma LongerListing(table: map<nat, Entry>, a: seq<Entry>, e: Entry)
    requires RowsOf(table, a) && InOrder(a) && forall i :: 0 <= i < |a| ==> a[i].id < e.id
    ensures e.id !in table && RowsOf(table[e.id := e], a + [e])
  {
    var b := a + [e];
    forall id | id in table ensures table[id] in b && id != e.id {
      var i :| 0 <= i < |a| && a[i] == table[id];
      assert b[i] == table[id];
    }
    assert b[|a|] == e;
  }

  lemma LastIsLargest(es: seq<Entry>)
    requires InOrder(es)
    ensures forall i :: 0 <= i < |es| ==> es[i].id <= es[|es| - 1].id
  {
  }

  /** There are identifiers left after those of the entries. */
  ghost predicate Fit(es: seq<Entry>) {
    forall i :: 0 <= i < |es| ==> es[i].id + 1 < UINT_RANGE
  }

  class RequestFifo {
    var fifo: seq<Entry>
    var nextId: nat
    /** The database table; before its queries exist, nothing is read from it or written to it. */
    var table: map<nat, Entry>
    var persistent: bool

    /** Over a database that may have a table from earlier. */
    constructor (table: map<nat, Entry>)
      ensures fifo == [] && nextId == 0 && !persistent && this.table == table
    {
      fifo, nextId, this.table, persistent := [], 0, table, false;
    }

    /** Identifiers are in order, and the database agrees with the FIFO. */
    ghost predicate Valid()
      reads this
    {
      && InOrder(fifo) && (forall i :: 0 <= i < |fifo| ==> fifo[i].id < nextId)
      && nextId < UINT_RANGE && (persistent ==> RowsOf(table, fifo))
    }

    /** One entry more, at the end; it stays in order unless the 32-bit identifier comes round. */
    method Push(connector: nat, action: string, payload: Value)
      modifies this
      ensures fifo == old(fifo) + [Entry(old(nextId), connector, action, Print(payload))]
      ensures persistent == old(persistent) && nextId == (old(nextId) + 1) % UINT_RANGE
      ensures old(Valid()) && old(nextId) + 1 < UINT_RANGE ==> Valid()
      ensures table == if old(persistent) && old(nextId) !in old(table) then old(table)[old(nextId) := fifo[|fifo| - 1]]
                       else old(table)
    {
      var request := Print(payload);
      var e := Entry(nextId, connector, action, request);
      if Valid() && persistent {
        LongerListing(table, fifo, e);
      }
      hide RowsOf;
      fifo := fifo + [e];
      if persistent && nextId !in table {
        table := table[nextId := e];
      }
      nextId := (nextId + 1) % UINT_RANGE;
    }

    method Front() returns (first: Option<Entry>)
      ensures first == if fifo == [] then None else Some(fifo[0])
    {
      first := None;
      if fifo != [] {
        first := Some(fifo[0]);
      }
    }

    method PopFront()
      requires fifo != []
      modifies this
      ensures fifo == old(fifo)[1..] && nextId == old(nextId) && persistent == old(persistent)
      ensures old(Valid()) ==> Valid()
      ensures table == if old(persistent) then old(table) - {old(fifo)[0].id} else old(table)
    {
      ghost var before := fifo;
      var id := fifo[0].id;
      fifo := fifo[1..];
      if persistent {
        if old(Valid()) {
          ShorterListing(table, before);
        }
        hide RowsOf;
        table := table - {id};
      }
    }

    /** The queries are made, and what the database has is loaded. */
    method InitDatabaseTable(rows: seq<Entry>)
      requires nextId < UINT_RANGE && RowsOf(table, rows) && InOrder(rows)
      modifies this
      ensures fifo == rows && persistent && table == old(table)
      ensures Fit(rows) ==> Valid()
    {
      persistent := true;
      Load(rows);
    }

    /** The database lists its rows in the order of their identifiers; they become the FIFO. */
    method Load(rows: seq<Entry>)
      requires nextId < UINT_RANGE && persistent && RowsOf(table, rows) && InOrder(rows)
      modifies `fifo, `nextId
      ensures fifo == rows
      ensures Fit(rows) ==> Valid()
    {
      LastIsLargest(rows);
      hide RowsOf, InOrder;
      Refill(rows);
      if rows != [] {
        nextId := (fifo[|fifo| - 1].id + 1) % UINT_RANGE;
      }
    }

    /** The process ends, and a new one builds a FIFO over the same database: it is what it was. */
    method Reboot(rows: seq<Entry>)
      requires Valid() && persistent && RowsOf(table, rows) && InOrder(rows)
      modifies this
      ensures Valid() && persistent && fifo == old(fifo)
    {
      OneListing(table, rows, fifo);
      hide RowsOf, InOrder;
      fifo, nextId, persistent := [], 0, false;
      InitDatabaseTable(rows);
    }

    method Refill(rows: seq<Entry>)
      modifies `fifo
      ensures fifo == rows
    {
      fifo := [];
      var k := 0;
      while k < |rows|
        invariant 0 <= k <= |rows| && fifo == rows[..k]
      {
        fifo := fifo + [rows[k]];
        k := k + 1;
      }
    }
  }
}
