/** The refresh client: three parallel queues, two flags, and the result map it fills. */
module ClientDB {
  import opened Text
  import opened Json
  import opened JsonFormatter
  import opened SelectText

  type Columns = map<string, seq<string>>
  type RespData = map<string, Columns>

  /** Boost's `serialize`; only what it does to strings matters to the statements. */
  type Serializer = Json -> string

  ghost predicate WritesStrings(ser: Serializer) {
    forall s :: ser(Str(s)) == Quote(s)
  }

  datatype Identity = Identity(name: string, login: string, password: string)

  /** An asynchronous operation handed to the socket and not completed yet. */
  datatype Op = Connect | Send(message: Json) | Receive

  // ---- What the handlers do, with the three queues read as one list of jobs

  datatype Client = Client(
    todo: seq<Job>, connected: bool, leaving: bool, table: string, fields: seq<string>,
    data: RespData, ops: seq<Op>, delivered: seq<RespData>, crashed: bool)

  function Started(c: Client): Client {
    c.(connected := false, leaving := false, ops := c.ops + [Connect])
  }

  function Proceeded(me: Identity, c: Client): Client {
    if c.connected then Generated(me, c)
    else if c.leaving then c
    else c.(ops := c.ops + [Send(ConnectRequest(me.name, me.login, me.password))])
  }

  function Generated(me: Identity, c: Client): Client {
    if c.leaving then c.(delivered := c.delivered + [c.data])
    else if c.todo == [] then c.(ops := c.ops + [Send(DisconnectRequest(me.name))])
    else
      var job := c.todo[0];
      c.(todo := c.todo[1..], table := job.table, fields := job.fields,
         ops := c.ops + [Send(QueryRequestOf(me.name, job.fields, QueryText(job)))])
  }

  function Connected(me: Identity, c: Client, error: bool): Client {
    if error then Started(c) else Proceeded(me, c)
  }

  function Sent(c: Client, error: bool): Client {
    if error then Started(c) else c.(ops := c.ops + [Receive])
  }

  /** `None` is a receive that failed. */
  function Received(me: Identity, ser: Serializer, c: Client, message: Option<Json>): Client {
    match message
    case None => Started(c)
    case Some(m) => Analized(me, ser, c, m)
  }

  function Analized(me: Identity, ser: Serializer, c: Client, m: Json): Client {
    if At(m, "target").None? then c.(crashed := true)
    else if TargetIs(m, "connect") then
      match Status(m)
      case None => c.(crashed := true)
      case Some(s) =>
        if s != Str("success") then Proceeded(me, c.(leaving := true))
        else Proceeded(me, c.(connected := true, leaving := false))
    else if TargetIs(m, "disconnect") then
      match Status(m)
      case None => c.(crashed := true)
      case Some(s) => Proceeded(me, c.(leaving := s == Str("success")))
    else if TargetIs(m, "db_query") then
      match Decode(ser, m, c.fields)
      case None => Proceeded(me, c)
      case Some(columns) => Proceeded(me, c.(data := c.data[c.table := columns]))
    else c
  }

  /** The array under one field of the response, serialised cell by cell. */
  function DecodeField(ser: Serializer, m: Json, field: string): Option<seq<string>> {
    match AtPath(m, "response", field)
    case Some(Arr(items)) => Some(Cells(ser, items))
    case _ => None
  }

  function Cells(ser: Serializer, items: seq<Json>): seq<string> {
    seq(|items|, i requires 0 <= i < |items| => ser(items[i]))
  }

  /** All requested columns, or nothing at all when one is missing. */
  function Decode(ser: Serializer, m: Json, fields: seq<string>): Option<Columns> {
    if exists f <- fields :: DecodeField(ser, m, f).None? then None
    else Some(map f | f in fields :: DecodeField(ser, m, f).value)
  }

  /** What the client stores for a column sent by the server. */
  function QuoteAll(column: seq<string>): seq<string> {
    seq(|column|, i requires 0 <= i < |column| => Quote(column[i]))
  }

  function Stored(columns: Columns): Columns {
    map f | f in columns :: QuoteAll(columns[f])
  }

  /** The client reads back, serialised, exactly the columns the server put in. */
  lemma QueryReplyReadBack(ser: Serializer, sender: string, columns: Columns, fields: seq<string>)
    requires WritesStrings(ser)
    requires columns.Keys == set f | f in fields
    ensures var m := QueryReplyOf(sender, columns);
            TargetIs(m, "db_query") && Decode(ser, m, fields) == Some(Stored(columns))
  {
    var m := QueryReplyOf(sender, columns);
    ResponseShape(sender, "db_query", QueryMembers(columns));
    forall f | f in fields
      ensures DecodeField(ser, m, f) == Some(QuoteAll(columns[f]))
    {
      assert f in columns;
      FieldReadBack(ser, sender, columns, f);
    }
    assert (map f | f in fields :: DecodeField(ser, m, f).value) == Stored(columns);
  }

  lemma FieldReadBack(ser: Serializer, sender: string, columns: Columns, f: string)
    requires WritesStrings(ser) && f in columns
    ensures DecodeField(ser, QueryReplyOf(sender, columns), f) == Some(QuoteAll(columns[f]))
  {
    ResponseShape(sender, "db_query", QueryMembers(columns));
    assert QueryMembers(columns)[f] == Texts(columns[f]);
    CellsOfTexts(ser, columns[f]);
  }

  lemma CellsOfTexts(ser: Serializer, column: seq<string>)
    requires WritesStrings(ser)
    ensures Cells(ser, Texts(column).items) == QuoteAll(column)
  {
  }

  /** A reply is taken whole or not at all: every requested column must be there, and is taken cell by cell. */
  lemma DecodedExactly(ser: Serializer, m: Json, fields: seq<string>)
    ensures var decoded := Decode(ser, m, fields);
            && (decoded.Some? <==>
                forall f <- fields :: AtPath(m, "response", f).Some? && AtPath(m, "response", f).value.Arr?)
            && (decoded.Some? ==>
                  decoded.value.Keys == (set f | f in fields)
                  && forall f <- fields ::
                       var items := AtPath(m, "response", f).value.items;
                       |decoded.value[f]| == |items|
                       && forall i :: 0 <= i < |items| ==> decoded.value[f][i] == ser(items[i]))
  {
    hide AtPath;
  }

  /** What a message does to a client that was waiting for it, told from its effects: when the map changes and
      where, when the client takes itself for logged in or for leaving, when it goes silent, when it ends. */
  lemma MessageEffects(me: Identity, ser: Serializer, c: Client, m: Json)
    requires c.ops == [] && !c.crashed
    ensures var (after, status) := (Analized(me, ser, c, m), Status(m));
            var greets, parts, answers := TargetIs(m, "connect"), TargetIs(m, "disconnect"), TargetIs(m, "db_query");
            && (after.crashed <==> At(m, "target").None? || ((greets || parts) && status.None?))
            && (after.data != c.data ==> answers && Decode(ser, m, c.fields).Some?)
            && (answers && Decode(ser, m, c.fields).Some? ==>
                  after.data == c.data[c.table := Decode(ser, m, c.fields).value])
            && (after.connected <==> c.connected || (greets && status == Some(Str("success"))))
            && (!after.crashed ==>
                  (after.leaving <==> if greets then status != Some(Str("success"))
                                      else if parts then status == Some(Str("success")) else c.leaving))
            && (after.delivered == c.delivered
                || (after.delivered == c.delivered + [after.data] && after.connected && after.leaving))
            && (after.ops == [] && after.delivered == c.delivered <==>
                after.crashed || !(greets || parts || answers) || (after.leaving && !after.connected))
  {
    hide Decode, QueryText, QueryRequestOf, ConnectRequest, DisconnectRequest;
    assert "connect"[0] == 'c' && "disconnect"[0] == 'd' && "db_query"[1] == 'b';
  }

  // ---- The class

  class ClientDB {
    const me: Identity
    const serialize: Serializer
    var tables: seq<string>
    var fieldsQueue: seq<seq<string>>
    var conditions: seq<string>
    var flagConnect: bool
    var flagDisconnect: bool
    var flagConditions: bool
    var tableSend: string
    var fieldsSend: seq<string>
    var respData: RespData
    var ops: seq<Op>
    var delivered: seq<RespData>
    var crashed: bool

    constructor (me: Identity, serialize: Serializer)
      ensures Aligned() && Todo() == [] && this.me == me && this.serialize == serialize
      ensures respData == map[] && ops == [] && delivered == [] && !crashed
    {
      this.me, this.serialize := me, serialize;
      tables, fieldsQueue, conditions := [], [], [];
      flagConnect, flagDisconnect, flagConditions := false, false, false;
      tableSend, fieldsSend, respData := "", [], map[];
      ops, delivered, crashed := [], [], false;
    }

    /** The queues run in step: what `front` and `pop` on three queues need. */
    ghost predicate Aligned()
      reads this
    {
      && |fieldsQueue| == |tables|
      && (forall i :: 0 <= i < |fieldsQueue| ==> fieldsQueue[i] != [])
      && (flagConditions ==> |conditions| == |tables| && tables != [])
    }

    ghost function Todo(): (jobs: seq<Job>)
      requires Aligned()
      reads this
      ensures |jobs| == |tables|
    {
      Zipped(tables, fieldsQueue, if flagConditions then Some(conditions) else None)
    }

    ghost function View(): Client
      requires Aligned()
      reads this
    {
      Client(Todo(), flagConnect, flagDisconnect, tableSend, fieldsSend, respData, ops, delivered, crashed)
    }

    /** Conditions of the wrong length are stored but not switched on; an empty list of conditions
        leaves those of an earlier call, and whether they are on, as they were. Hence when the queues are
        in step, and which condition every job then has. */
    method SetQuerys(queueTables: seq<string>, queueFields: seq<seq<string>>, queueConditions: seq<string>)
      requires |queueFields| == |queueTables| && forall i :: 0 <= i < |queueFields| ==> queueFields[i] != []
      modifies this`tables, this`fieldsQueue, this`conditions, this`flagConditions
      ensures Aligned() <==>
              if queueConditions == [] then
                old(flagConditions) ==> |old(conditions)| == |queueTables| && queueTables != []
              else !old(flagConditions) || |queueConditions| == |queueTables|
      ensures Aligned() ==>
                Todo() == Zipped(queueTables, queueFields,
                                 if queueConditions != [] && |queueConditions| == |queueTables|
                                 then Some(queueConditions)
                                 else if queueConditions == [] && old(flagConditions) then Some(old(conditions))
                                 else None)
    {
      tables := queueTables;
      fieldsQueue := queueFields;
      if queueConditions != [] {
        conditions := queueConditions;
        if |conditions| == |tables| {
          flagConditions := true;
        }
      }
    }

    method Start()
      requires Aligned()
      modifies this`flagConnect, this`flagDisconnect, this`ops
      ensures Aligned() && View() == Started(old(View()))
    {
      flagConnect := false;
      flagDisconnect := false;
      ops := ops + [Connect];
    }

    method CheckConnect(error: bool)
      requires Aligned()
      modifies this
      ensures Aligned() && View() == Connected(me, old(View()), error)
    {
      if error {
        Start();
        return;
      }
      if !flagConnect {
        if !flagDisconnect {
          ops := ops + [Send(ConnectRequest(me.name, me.login, me.password))];
        }
      } else {
        QueryGenerator();
      }
    }

    method QueryGenerator()
      requires Aligned()
      modifies this
      ensures Aligned() && View() == Generated(me, old(View()))
    {
      hide QueryText, Zipped;
      if flagDisconnect {
        delivered := delivered + [respData];
        return;
      }
      if tables == [] {
        ops := ops + [Send(DisconnectRequest(me.name))];
        return;
      }
      var job := TakeJob();
      tableSend, fieldsSend := job.table, job.fields;
      var query := BuildSelect(job);
      var message := QueryRequest(me.name, job.fields, query);
      ops := ops + [Send(message)];
    }

    /** The pops from the queues, the last condition switching conditions off. */
    method TakeJob() returns (job: Job)
      requires Aligned() && tables != []
      modifies this`tables, this`fieldsQueue, this`conditions, this`flagConditions
      ensures Aligned() && job == old(Todo())[0] && Todo() == old(Todo())[1..] && job.fields != []
    {
      var condition := None;
      if flagConditions {
        condition := Some(conditions[0]);
      }
      job := Job(tables[0], fieldsQueue[0], condition);
      tables, fieldsQueue := tables[1..], fieldsQueue[1..];
      if flagConditions {
        conditions := conditions[1..];
        if conditions == [] {
          flagConditions := false;
        }
      }
    }

    /** The completion of the whole message; the partial writes before it are another module's. */
    method SendCommand(error: bool)
      requires Aligned()
      modifies this
      ensures Aligned() && View() == Sent(old(View()), error)
    {
      if error {
        Start();
        return;
      }
      ops := ops + [Receive];
    }

    method ReciveCommand(message: Option<Json>)
      requires Aligned()
      modifies this
      ensures Aligned() && View() == Received(me, serialize, old(View()), message)
    {
      if message.None? {
        Start();
        return;
      }
      CommandAnalize(message.value);
    }

    /** The two loops over the requested fields and their cells; a missing field abandons the reply. */
    method DecodeColumns(m: Json) returns (columns: Option<Columns>)
      ensures columns == Decode(serialize, m, fieldsSend)
    {
      var result: Columns := map[];
      for i := 0 to |fieldsSend|
        invariant forall f <- fieldsSend[..i] :: DecodeField(serialize, m, f).Some?
        invariant result == map f | f in fieldsSend[..i] :: DecodeField(serialize, m, f).value
      {
        assert fieldsSend[..i + 1] == fieldsSend[..i] + [fieldsSend[i]];
        var field := AtPath(m, "response", fieldsSend[i]);
        if field.None? || !field.value.Arr? {
          assert DecodeField(serialize, m, fieldsSend[i]).None? && fieldsSend[i] in fieldsSend;
          return None;
        }
        var items := field.value.items;
        var values: seq<string> := [];
        for j := 0 to |items|
          invariant values == Cells(serialize, items[..j])
        {
          values := values + [serialize(items[j])];
        }
        assert items[..|items|] == items;
        result := result[fieldsSend[i] := values];
      }
      assert fieldsSend[..|fieldsSend|] == fieldsSend;
      return Some(result);
    }

    method CommandAnalize(m: Json)
      requires Aligned()
      modifies this
      ensures Aligned() && View() == Analized(me, serialize, old(View()), m)
    {
      hide Decode, Proceeded, Zipped;
      if At(m, "target").None? {
        crashed := true;
      } else if TargetIs(m, "connect") {
        var status := Status(m);
        if status.None? {
          crashed := true;
          return;
        }
        if status.value != Str("success") {
          flagDisconnect := true;
        } else {
          flagConnect := true;
          flagDisconnect := false;
        }
        CheckConnect(false);
      } else if TargetIs(m, "disconnect") {
        var status := Status(m);
        if status.None? {
          crashed := true;
          return;
        }
        flagDisconnect := status.value == Str("success");
        CheckConnect(false);
      } else if TargetIs(m, "db_query") {
        var columns := DecodeColumns(m);
        if columns.Some? {
          respData := respData[tableSend := columns.value];
        }
        CheckConnect(false);
      }
    }
  }

  function Zipped(tables: seq<string>, fields: seq<seq<string>>, conditions: Option<seq<string>>): (jobs: seq<Job>)
    requires |fields| == |tables| && (conditions.Some? ==> |conditions.value| == |tables|)
    ensures |jobs| == |tables|
  {
    seq(|tables|, i requires 0 <= i < |tables| =>
      Job(tables[i], fields[i], if conditions.Some? then Some(conditions.value[i]) else None))
  }
}
