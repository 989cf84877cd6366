/** The messages of the database protocol: what one side builds and what the other side reads. */
module JsonFormatter {
  import opened Text
  import opened Json

  function Request(sender: string, target: string, request: map<string, Json>): Json {
    Obj(map["sender" := Str(sender), "target" := Str(target), "request" := Obj(request)])
  }

  function Response(sender: string, target: string, response: map<string, Json>): Json {
    Obj(map["sender" := Str(sender), "target" := Str(target), "response" := Obj(response)])
  }

  function ConnectRequest(sender: string, login: string, password: string): Json {
    Request(sender, "connect", map["login" := Str(login), "password" := Str(password)])
  }

  function DisconnectRequest(sender: string): Json {
    Obj(map["sender" := Str(sender), "target" := Str("disconnect")])
  }

  function Texts(strings: seq<string>): Json {
    Arr(seq(|strings|, i requires 0 <= i < |strings| => Str(strings[i])))
  }

  function QueryRequestOf(sender: string, fields: seq<string>, query: string): Json {
    Request(sender, "db_query",
            map["method" := Str("select"), "fields" := Texts(fields), "query" := Str(query)])
  }

  function PingReply(sender: string): Json {
    Response(sender, "ping", map["status" := Str("success")])
  }

  function ConnectReply(sender: string): Json {
    Response(sender, "connect", map["status" := Str("success")])
  }

  /** The error code is `ERROR_CODE::CONNECT`, written as text. */
  function ConnectFailure(sender: string, code: string, message: string): Json {
    Response(sender, "connect",
             map["status" := Str("fail"), "error_code" := Str(code), "message" := Str(message)])
  }

  function DisconnectReply(sender: string): Json {
    Response(sender, "disconnect", map["status" := Str("success")])
  }

  /** One member a column; a column called "method" replaces the member of that name. */
  function QueryReplyOf(sender: string, columns: map<string, seq<string>>): Json {
    Response(sender, "db_query", QueryMembers(columns))
  }

  function QueryMembers(columns: map<string, seq<string>>): map<string, Json> {
    map["method" := Str("select")] + map f | f in columns :: Texts(columns[f])
  }

  method QueryRequest(sender: string, fields: seq<string>, query: string) returns (message: Json)
    ensures message == QueryRequestOf(sender, fields, query)
  {
    var jsonFields: seq<Json> := [];
    for i := 0 to |fields|
      invariant Arr(jsonFields) == Texts(fields[..i])
    {
      jsonFields := jsonFields + [Str(fields[i])];
    }
    assert fields[..|fields|] == fields;
    message := Obj(map["sender" := Str(sender), "target" := Str("db_query"),
                       "request" := Obj(map["method" := Str("select"), "fields" := Arr(jsonFields),
                                            "query" := Str(query)])]);
  }

  method QueryReply(sender: string, columns: map<string, seq<string>>) returns (message: Json)
    ensures message == QueryReplyOf(sender, columns)
  {
    var response := map["method" := Str("select")];
    var left := columns.Keys;
    while left != {}
      invariant left <= columns.Keys
      invariant response == map["method" := Str("select")]
                            + map f | f in columns && f !in left :: Texts(columns[f])
      decreases left
    {
      var f :| f in left;
      var cells := columns[f];
      var value: seq<Json> := [];
      for j := 0 to |cells|
        invariant Arr(value) == Texts(cells[..j])
      {
        value := value + [Str(cells[j])];
      }
      assert cells[..|cells|] == cells;
      response := response[f := Arr(value)];
      left := left - {f};
    }
    assert (map f | f in columns && f !in left :: Texts(columns[f])) == map f | f in columns :: Texts(columns[f]);
    message := Obj(map["sender" := Str(sender), "target" := Str("db_query"), "response" := Obj(response)]);
  }

  // ---- Readers

  function TargetIs(message: Json, target: string): bool {
    At(message, "target") == Some(Str(target))
  }

  /** `at("response").at("status")`. */
  function Status(message: Json): Option<Json> {
    AtPath(message, "response", "status")
  }

  predicate AllStrings(items: seq<Json>) {
    forall v <- items :: v.Str?
  }

  /** `at("request").at("fields").as_array()` with every element read by `as_string()`. */
  function FieldsOf(message: Json): Option<seq<string>> {
    match AtPath(message, "request", "fields")
    case Some(Arr(items)) =>
      if AllStrings(items) then
        Some(seq(|items|, i requires 0 <= i < |items| => assert items[i] in items; items[i].text))
      else None
    case _ => None
  }

  function QueryOf(message: Json): Option<string> {
    match AtPath(message, "request", "query")
    case Some(Str(q)) => Some(q)
    case _ => None
  }

  lemma ResponseShape(sender: string, target: string, response: map<string, Json>)
    ensures var m := Response(sender, target, response);
            At(m, "target") == Some(Str(target)) && At(m, "response") == Some(Obj(response))
  {
  }

  /** Every message names its sender and its target, and carries its own members: a login both credentials, a
      refusal its code and its text, a query its method. */
  lemma MessagesCarry(sender: string, login: string, password: string, fields: seq<string>, query: string,
    code: string, message: string)
    ensures var m := ConnectRequest(sender, login, password);
            From(m, sender, "connect")
            && AtPath(m, "request", "login") == Some(Str(login))
            && AtPath(m, "request", "password") == Some(Str(password))
    ensures From(DisconnectRequest(sender), sender, "disconnect")
    ensures var m := QueryRequestOf(sender, fields, query);
            From(m, sender, "db_query") && AtPath(m, "request", "method") == Some(Str("select"))
    ensures From(PingReply(sender), sender, "ping") && Status(PingReply(sender)) == Some(Str("success"))
    ensures From(ConnectReply(sender), sender, "connect") && Status(ConnectReply(sender)) == Some(Str("success"))
    ensures From(DisconnectReply(sender), sender, "disconnect")
            && Status(DisconnectReply(sender)) == Some(Str("success"))
    ensures var m := ConnectFailure(sender, code, message);
            && From(m, sender, "connect") && Status(m) == Some(Str("fail"))
            && AtPath(m, "response", "error_code") == Some(Str(code))
            && AtPath(m, "response", "message") == Some(Str(message))
  {
  }

  predicate From(m: Json, sender: string, target: string) {
    At(m, "sender") == Some(Str(sender)) && At(m, "target") == Some(Str(target))
  }

  /** A reply to a query has a member for every column, its cells in order, and the method unless a column has
      taken that name. */
  lemma ReplyCarries(sender: string, columns: map<string, seq<string>>, name: string)
    ensures var (m, value) := (QueryReplyOf(sender, columns), AtPath(QueryReplyOf(sender, columns), "response", name));
            && From(m, sender, "db_query")
            && (name in columns ==> value.Some? && value.value.Arr? && |value.value.items| == |columns[name]|
                                    && forall i :: 0 <= i < |columns[name]| ==>
                                         value.value.items[i] == Str(columns[name][i]))
            && (name !in columns ==> value == if name == "method" then Some(Str("select")) else None)
  {
  }

  /** What the server reads out of a query request is what the client put in. */
  lemma QueryRequestReadBack(sender: string, fields: seq<string>, query: string)
    ensures var m := QueryRequestOf(sender, fields, query);
            && TargetIs(m, "db_query") && FieldsOf(m) == Some(fields) && QueryOf(m) == Some(query)
  {
    var items := Texts(fields).items;
    assert AllStrings(items);
    assert seq(|items|, i requires 0 <= i < |items| => items[i].text) == fields;
  }
}
