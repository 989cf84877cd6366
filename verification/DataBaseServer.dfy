/** The SQLite wrapper's session: login, queries, and rows gathered into columns. */
module DataBaseServer {
  import opened Text
  import opened Json
  import opened JsonFormatter
  import opened SelectText
  import opened Sqlite

  const NAME := "Data_base"
  const ACCOUNTS := "SELECT * FROM Accounts"
  const CODE_CONNECT := "3"

  // ---- What a session promises, query by query

  /** The answer to a query: the requested columns, a refusal, or a missing column that ends the process. */
  datatype Answer =
    | Answered(columns: map<string, seq<string>>)
    | Refused
    | Fatal

  predicate Succeeds(result: SqlResult) {
    result.Rows? && !HasNull(result.rows)
  }

  function Lookup(db: Database, text: string, fields: seq<string>): Answer {
    var result := db(text);
    if !Succeeds(result) then Refused
    else
      var columns := Gathered(result.names, result.rows);
      if forall f <- fields :: f in columns then Answered(map f | f in fields :: columns[f]) else Fatal
  }

  /** `Mute` is an exception swallowed inside `__checkConnect`, `Undefined` an index out of bounds. */
  datatype Verdict = Admitted | Denied(message: string) | Mute | Undefined

  /** Index of the first stored login equal to the quoted one, `-1` when there is none. */
  function FindLogin(stored: seq<string>, login: Json): (at: int)
    ensures -1 <= at < |stored|
  {
    if stored == [] then -1
    else if SameText(stored[0], login) then 0
    else var at := FindLogin(stored[1..], login); if at == -1 then -1 else at + 1
  }

  /** The stored text between quotes against the serialised value received. */
  predicate SameText(stored: string, received: Json) {
    received.Str? && "\"" + stored + "\"" == Quote(received.text)
  }

  function Verify(db: Database, login: Json, password: Json): Verdict {
    var result := db(ACCOUNTS);
    if result.NoDatabase? then Denied("No dataBase")
    else if !Succeeds(result) then Denied("User not found")
    else VerifyIn(Gathered(result.names, result.rows), login, password)
  }

  function VerifyIn(accounts: map<string, seq<string>>, login: Json, password: Json): Verdict {
    if "login" !in accounts || "password" !in accounts then Mute
    else
      var at := FindLogin(accounts["login"], login);
      if at < 0 || at >= |accounts["password"]| then Undefined
      else if SameText(accounts["password"][at], password) then Admitted
      else Denied("Password mismatch")
  }

  /** `Entangled` is a second connect on an open connection: two receives are outstanding. */
  datatype Stage = Login | Commands | Closed | Crashed | Entangled

  /** A session that starts while the database does not open closes its socket at once. */
  function StartStage(db: Database): Stage {
    if db(ACCOUNTS).NoDatabase? then Closed else Login
  }

  /** One request, up to the end of sending its reply; no reply means nothing was written. */
  function Serve(db: Database, stage: Stage, request: Json): (Option<Json>, Stage) {
    match stage
    case Login =>
      (match (AtPath(request, "request", "login"), AtPath(request, "request", "password"))
       case (Some(login), Some(password)) =>
         (match Verify(db, login, password)
          case Admitted => (Some(ConnectReply(NAME)), Commands)
          case Denied(message) => (Some(ConnectFailure(NAME, CODE_CONNECT, message)), Closed)
          case Mute => (None, Commands)
          case Undefined => (None, Crashed))
       case _ => (None, Login))
    case Commands =>
      if At(request, "target").None? then (None, Crashed)
      else if TargetIs(request, "ping") then (Some(PingReply(NAME)), Commands)
      else if TargetIs(request, "disconnect") then (Some(DisconnectReply(NAME)), Closed)
      else if TargetIs(request, "db_query") then
        match (FieldsOf(request), QueryOf(request))
        case (Some(fields), Some(text)) =>
          (match Lookup(db, text, fields)
           case Answered(columns) => (Some(QueryReplyOf(NAME, columns)), Commands)
           case Refused => (Some(DisconnectReply(NAME)), Closed)
           case Fatal => (None, Crashed))
        case _ => (None, Crashed)
      else if TargetIs(request, "connect") then (None, Entangled)
      else (None, Commands)
    case _ => (None, stage)
  }

  /** Admission looks at the first stored row carrying the escaped login, and at no other. */
  lemma AdmittedExactly(logins: seq<string>, passwords: seq<string>, login: string, password: string)
    ensures VerifyIn(map["login" := logins, "password" := passwords], Str(login), Str(password)).Admitted? <==>
            exists i: nat :: FirstAt(logins, Escape(login), i) && i < |passwords| && passwords[i] == Escape(password)
  {
    FoundFirst(logins, login);
    var at := FindLogin(logins, Str(login));
    if 0 <= at < |passwords| {
      SameTextMeansEscape(passwords[at], password);
    }
  }

  /** The row that decides: the first storing the escaped login, if it has a password. */
  predicate DecidedAt(accounts: map<string, seq<string>>, login: string, i: nat) {
    "login" in accounts && "password" in accounts
    && FirstAt(accounts["login"], Escape(login), i) && i < |accounts["password"]|
  }

  /** All verdicts on a login: which row decides, and how; what a missing column and an unknown login lead to. */
  lemma VerdictExactly(accounts: map<string, seq<string>>, login: string, password: string)
    ensures var verdict := VerifyIn(accounts, Str(login), Str(password));
            && (verdict == Mute <==> "login" !in accounts || "password" !in accounts)
            && (verdict == Undefined <==>
                "login" in accounts && "password" in accounts && forall i: nat :: !DecidedAt(accounts, login, i))
            && (verdict == Admitted <==>
                exists i: nat :: DecidedAt(accounts, login, i) && accounts["password"][i] == Escape(password))
            && (verdict == Denied("Password mismatch") <==>
                exists i: nat :: DecidedAt(accounts, login, i) && accounts["password"][i] != Escape(password))
  {
    if "login" in accounts && "password" in accounts {
      var logins, passwords := accounts["login"], accounts["password"];
      var at := FindLogin(logins, Str(login));
      FoundFirst(logins, login);
      assert forall i: nat :: DecidedAt(accounts, login, i) <==> i == at < |passwords|;
      if 0 <= at < |passwords| {
        SameTextMeansEscape(passwords[at], password);
        assert DecidedAt(accounts, login, at);
      }
    }
  }

  /** What the accounts query gives is read only if it succeeds. */
  lemma AccountsExactly(db: Database, login: Json, password: Json)
    ensures var (verdict, result) := (Verify(db, login, password), db(ACCOUNTS));
            && (verdict == Denied("No dataBase") <==> result.NoDatabase?)
            && (verdict == Denied("User not found") <==> !result.NoDatabase? && !Succeeds(result))
            && (Succeeds(result) ==> verdict == VerifyIn(Gathered(result.names, result.rows), login, password))
  {
    hide VerifyIn, HasNull, Gathered;
    var result := db(ACCOUNTS);
    if Succeeds(result) {
      MismatchOnly(Gathered(result.names, result.rows), login, password);
    }
    assert "Password mismatch"[0] == 'P' && "No dataBase"[0] == 'N' && "User not found"[0] == 'U';
  }

  lemma MismatchOnly(accounts: map<string, seq<string>>, login: Json, password: Json)
    ensures var verdict := VerifyIn(accounts, login, password);
            verdict.Denied? ==> verdict.message == "Password mismatch"
  {
    hide FindLogin, SameText;
  }

  lemma AccountsQuery(catalog: Catalog)
    requires ValidCatalog(catalog)
    ensures DatabaseOf(catalog)(ACCOUNTS) == ExecJob(catalog, Job("Accounts", ["*"], None))
  {
    hide ParseSelect, ExecJob, ValidCatalog;
    var job := Job("Accounts", ["*"], None);
    assert QueryText(job) == ACCOUNTS;
    SelectReadBack(job);
  }

  lemma TableGathered(t: Table)
    requires ValidTable(t)
    ensures Gathered(t.columns, ProjectAll(t, t.columns, t.rows))
         == if t.rows == [] then map[] else map f | f in t.columns :: TableColumn(t, t.rows, f)
  {
    hide ColumnCells, TableColumn;
    forall f | f in t.columns
      ensures ColumnCells(t.columns, ProjectAll(t, t.columns, t.rows), f) == TableColumn(t, t.rows, f)
    {
      var k :| 0 <= k < |t.columns| && t.columns[k] == f;
      OnceColumn(t, t.columns, t.rows, k);
    }
  }

  /** The accounts as the query gives them: every column of the table, or nothing when it has no rows. */
  lemma AccountsRead(catalog: Catalog)
    requires ValidCatalog(catalog)
    ensures var result := DatabaseOf(catalog)(ACCOUNTS);
            if "Accounts" !in catalog.tables then result == SqlError
            else
              var t := catalog.tables["Accounts"];
              Succeeds(result)
              && Gathered(result.names, result.rows)
                 == if t.rows == [] then map[] else map f | f in t.columns :: TableColumn(t, t.rows, f)
  {
    hide Gathered, TableColumn, DatabaseOf, Select;
    var job := Job("Accounts", ["*"], None);
    AccountsQuery(catalog);
    if "Accounts" in catalog.tables {
      var t := catalog.tables["Accounts"];
      SelectAll(catalog, t, job, t.rows);
      TableGathered(t);
      assert Wanted(t, job.fields) == t.columns;
    }
  }

  /** From the rows of the accounts table to the verdict: the first row with the escaped login decides. With no
      table every login is refused; with no rows in it, or without one of the two columns, none is answered. */
  lemma LoginFromRows(catalog: Catalog, login: string, password: string)
    requires ValidCatalog(catalog)
    ensures var verdict := Verify(DatabaseOf(catalog), Str(login), Str(password));
            if "Accounts" !in catalog.tables then verdict == Denied("User not found")
            else
              var t := catalog.tables["Accounts"];
              if t.rows == [] || "login" !in t.columns || "password" !in t.columns then verdict == Mute
              else
                var logins, passwords := TableColumn(t, t.rows, "login"), TableColumn(t, t.rows, "password");
                && (verdict == Admitted <==>
                    exists r: nat :: FirstAt(logins, Escape(login), r) && passwords[r] == Escape(password))
                && (verdict == Denied("Password mismatch") <==>
                    exists r: nat :: FirstAt(logins, Escape(login), r) && passwords[r] != Escape(password))
                && (verdict == Undefined <==> forall r: nat :: !FirstAt(logins, Escape(login), r))
  {
    hide VerifyIn, Gathered, TableColumn, DatabaseOf, FirstAt, HasNull;
    AccountsRead(catalog);
    AccountsExactly(DatabaseOf(catalog), Str(login), Str(password));
    if "Accounts" in catalog.tables {
      var t := catalog.tables["Accounts"];
      var accounts: map<string, seq<string>> :=
        if t.rows == [] then map[] else map f | f in t.columns :: TableColumn(t, t.rows, f);
      VerdictExactly(accounts, login, password);
      FirstInside(accounts, login);
    }
  }

  lemma FirstInside(accounts: map<string, seq<string>>, login: string)
    requires "login" in accounts && "password" in accounts ==> |accounts["login"]| == |accounts["password"]|
    ensures "login" in accounts && "password" in accounts ==>
              forall i: nat :: DecidedAt(accounts, login, i) <==> FirstAt(accounts["login"], Escape(login), i)
  {
  }

  /** A session over a database that does not open answers nothing at all. */
  lemma NoDatabaseNoAnswer(db: Database, request: Json)
    ensures db(ACCOUNTS).NoDatabase? <==> StartStage(db) != Login
    ensures db(ACCOUNTS).NoDatabase? ==> Serve(db, StartStage(db), request) == (None, Closed)
  {
  }

  /** A login request: who may give commands afterwards, who is refused and cut off, and what ends the process.
      Commands are taken from an admitted client, and from any client when an account column is missing. */
  lemma LoginLeadsTo(db: Database, sender: string, login: string, password: string)
    ensures var (reply, stage) := Serve(db, Login, ConnectRequest(sender, login, password));
            var verdict := Verify(db, Str(login), Str(password));
            && (stage == Commands <==> verdict == Admitted || verdict == Mute)
            && (stage == Closed <==> verdict.Denied?)
            && (stage == Crashed <==> verdict == Undefined)
            && (reply == Some(ConnectReply(NAME)) <==> verdict == Admitted)
            && (verdict.Denied? ==> reply == Some(ConnectFailure(NAME, "3", verdict.message)))
            && (reply == None <==> verdict == Mute || verdict == Undefined)
  {
    hide Verify;
    var m := ConnectRequest(sender, login, password);
    assert AtPath(m, "request", "login") == Some(Str(login));
    assert AtPath(m, "request", "password") == Some(Str(password));
    assert Status(ConnectReply(NAME)) == Some(Str("success"));
    assert forall message :: Status(ConnectFailure(NAME, "3", message)) == Some(Str("fail"));
    assert "success"[0] != "fail"[0];
  }

  /** A login request without its two members leaves the session waiting for another. */
  lemma UnreadLogin(db: Database, request: Json)
    requires AtPath(request, "request", "login").None? || AtPath(request, "request", "password").None?
    ensures Serve(db, Login, request) == (None, Login)
  {
  }

  /** The answer to a query by the result of SQLite: refused without rows or for one NULL in them, fatal when a
      requested column is not there or has no value, and otherwise every cell of the requested columns. */
  lemma LookupExactly(db: Database, text: string, fields: seq<string>)
    ensures var (answer, result) := (Lookup(db, text, fields), db(text));
            && (answer == Refused <==> !result.Rows? || exists r, k :: NullAt(result.rows, r, k))
            && (answer == Fatal <==>
                answer != Refused && exists f <- fields :: f !in result.names || result.rows == [])
            && (answer.Answered? ==>
                  answer.columns.Keys == (set f | f in fields)
                  && forall f <- fields :: answer.columns[f] == ColumnCells(result.names, result.rows, f))
  {
    hide ColumnCells;
    var result := db(text);
    if result.Rows? {
      if HasNull(result.rows) {
        var row :| row in result.rows && None in row;
        var r :| 0 <= r < |result.rows| && result.rows[r] == row;
        var k :| 0 <= k < |row| && row[k] == None;
        assert NullAt(result.rows, r, k);
      }
      forall r, k | NullAt(result.rows, r, k)
        ensures HasNull(result.rows)
      {
        assert result.rows[r] in result.rows && result.rows[r][k] in result.rows[r];
      }
    }
  }

  predicate NullAt(rows: seq<Row>, r: int, k: int) {
    0 <= r < |rows| && 0 <= k < |rows[r]| && rows[r][k] == None
  }

  /** A command: which stage and reply follow from which request, told from what follows. */
  lemma CommandLeadsTo(db: Database, request: Json)
    ensures var (reply, stage) := Serve(db, Commands, request);
            var answer := if FieldsOf(request).Some? && QueryOf(request).Some?
                          then Lookup(db, QueryOf(request).value, FieldsOf(request).value) else Fatal;
            var asks := TargetIs(request, "db_query");
            && (stage == Crashed <==> At(request, "target").None? || (asks && answer == Fatal))
            && (stage == Entangled <==> TargetIs(request, "connect"))
            && (stage == Closed <==> TargetIs(request, "disconnect") || (asks && answer == Refused))
            && (stage == Closed ==> reply == Some(DisconnectReply(NAME)))
            && (stage == Commands ==>
                  reply == if TargetIs(request, "ping") then Some(PingReply(NAME))
                           else if asks then Some(QueryReplyOf(NAME, answer.columns)) else None)
            && (stage == Crashed || stage == Entangled ==> reply == None)
  {
    hide Lookup, FieldsOf, QueryOf;
    assert "connect"[0] == 'c' && "disconnect"[0] == 'd' && "ping"[0] == 'p' && "db_query"[1] == 'b';
  }

  lemma {:induction false} FoundLogin(stored: seq<string>, login: Json)
    ensures var at := FindLogin(stored, login);
            var before := if at >= 0 then at else |stored|;
            (at >= 0 ==> SameText(stored[at], login)) && forall i :: 0 <= i < before ==> !SameText(stored[i], login)
  {
    hide SameText;
    if stored != [] && !SameText(stored[0], login) {
      FoundLogin(stored[1..], login);
    }
  }

  lemma FoundFirst(logins: seq<string>, login: string)
    ensures var at := FindLogin(logins, Str(login));
            forall i: nat :: FirstAt(logins, Escape(login), i) <==> i == at
  {
    var at := FindLogin(logins, Str(login));
    FoundLogin(logins, Str(login));
    forall k | 0 <= k < |logins|
      ensures SameText(logins[k], Str(login)) <==> logins[k] == Escape(login)
    {
      SameTextMeansEscape(logins[k], login);
    }
    forall i: nat
      ensures FirstAt(logins, Escape(login), i) <==> i == at
    {
      if i < |logins| && 0 <= at < i {
        assert logins[..i][at] == logins[at];
      }
    }
  }

  predicate FirstAt(texts: seq<string>, text: string, i: nat) {
    i < |texts| && texts[i] == text && text !in texts[..i]
  }

  lemma SameTextMeansEscape(stored: string, received: string)
    ensures SameText(stored, Str(received)) <==> stored == Escape(received)
  {
    var quoted := "\"" + stored + "\"";
    assert quoted[1..|quoted| - 1] == stored;
    assert Quote(received)[1..|Quote(received)| - 1] == Escape(received);
  }

  /** An account gets in with its own stored login and password exactly when the first row storing its
      escaped login stores its escaped password: for a plain login of its own, exactly when the password is
      plain too; for a login needing an escape, not at all unless another row stores the escaped text. */
  lemma OwnAccountAdmitted(logins: seq<string>, passwords: seq<string>, i: nat)
    requires i < |logins| == |passwords|
    ensures var admitted := VerifyIn(map["login" := logins, "password" := passwords],
                                     Str(logins[i]), Str(passwords[i])).Admitted?;
            && (admitted <==> exists k: nat :: FirstAt(logins, Escape(logins[i]), k)
                                               && passwords[k] == Escape(passwords[i]))
            && (Plain(logins[i]) && FirstAt(logins, logins[i], i) ==> (admitted <==> Plain(passwords[i])))
            && (Escape(logins[i]) !in logins ==> !admitted)
  {
    AdmittedExactly(logins, passwords, logins[i], passwords[i]);
    EscapeFixesPlain(logins[i]);
    EscapeFixesPlain(passwords[i]);
    if Plain(logins[i]) {
      FoundFirst(logins, logins[i]);
    }
  }

  // ---- The session itself

  datatype Handler = ConnectAnalize | WaitCommand

  class DataBase {
    const db: Database
    var bufSend: Option<Json>
    var answer: map<string, seq<string>>
    var flagWrongConnect: bool
    var flagSend: bool
    var receiving: Handler
    var open: bool
    var threw: bool
    var entangled: bool

    constructor (db: Database)
      ensures this.db == db && Stage() == Login && Settled()
    {
      this.db := db;
      bufSend, answer := None, map[];
      flagWrongConnect, flagSend := false, false;
      receiving, open, threw, entangled := ConnectAnalize, true, false, false;
    }

    ghost predicate Settled()
      reads this
    {
      !flagWrongConnect && bufSend.None?
    }

    function Stage(): Stage
      reads this
    {
      if threw then Crashed
      else if entangled then Entangled
      else if !open then Closed
      else if receiving == ConnectAnalize then Login
      else Commands
    }

    method Start()
      requires Settled() && Stage() == Login
      modifies this`open
      ensures Settled() && Stage() == StartStage(db)
    {
      if db(ACCOUNTS).NoDatabase? {
        Stop();
      }
    }

    method Stop()
      modifies this`open
      ensures !open
    {
      open := false;
    }

    /** The row callback: code 1, which makes SQLite abort, exactly on a NULL cell. */
    method Connection(names: seq<string>, row: Row) returns (code: int)
      requires |names| == |row|
      modifies this`answer
      ensures code == 0 || code == 1
      ensures code == 0 <==> None !in row
      ensures code == 0 ==> answer == WithRow(old(answer), names, row)
    {
      WithNoCells(answer);
      assert names[..0] == [] && row[..0] == [];
      for i := 0 to |row|
        invariant None !in row[..i]
        invariant answer == WithRow(old(answer), names[..i], row[..i])
      {
        assert row[..i + 1] == row[..i] + [row[i]];
        if row[i].None? {
          return 1;
        }
        WithCell(old(answer), names, row, i);
        var column := if names[i] in answer then answer[names[i]] else [];
        answer := answer[names[i] := column + [row[i].value]];
      }
      assert row[..|row|] == row && names[..|row|] == names;
      return 0;
    }

    /** `sqlite3_exec` over the callback, starting from a cleared answer. */
    method SqliteExec(text: string) returns (ok: bool)
      modifies this`answer
      ensures ok <==> Succeeds(db(text))
      ensures ok ==> answer == Gathered(db(text).names, db(text).rows)
    {
      answer := map[];
      var result := db(text);
      if !result.Rows? {
        return false;
      }
      var names, rows := result.names, result.rows;
      for r := 0 to |rows|
        invariant !HasNull(rows[..r])
        invariant answer == Gathered(names, rows[..r])
      {
        assert rows[r] in rows;
        var code := Connection(names, rows[r]);
        if code != 0 {
          return false;
        }
        assert rows[..r + 1] == rows[..r] + [rows[r]];
        assert rows[..r + 1][..r] == rows[..r];
        WithLastRow(names, rows[..r + 1]);
      }
      assert rows[..|rows|] == rows;
      return true;
    }

    method MakeDisconnect()
      modifies this`bufSend, this`flagWrongConnect
      ensures bufSend == Some(DisconnectReply(NAME)) && flagWrongConnect
    {
      bufSend := Some(DisconnectReply(NAME));
      flagWrongConnect := true;
    }

    method MakeQuery(request: Json)
      requires Settled()
      modifies this`bufSend, this`flagWrongConnect, this`answer, this`threw
      ensures match (FieldsOf(request), QueryOf(request))
              case (Some(fields), Some(text)) =>
                (match Lookup(db, text, fields)
                 case Answered(columns) =>
                   bufSend == Some(QueryReplyOf(NAME, columns)) && !flagWrongConnect && threw == old(threw)
                 case Refused =>
                   bufSend == Some(DisconnectReply(NAME)) && flagWrongConnect && threw == old(threw)
                 case Fatal => threw)
              case _ => threw
    {
      var fields, text := FieldsOf(request), QueryOf(request);
      if fields.None? || text.None? {
        threw := true;
        return;
      }
      var ok := SqliteExec(text.value);
      if !ok {
        MakeDisconnect();
        return;
      }
      var response := PickColumns(fields.value);
      if response.None? {
        threw := true;
        return;
      }
      var message := QueryReply(NAME, response.value);
      bufSend := Some(message);
    }

    /** `at` on every requested field; `None` is the exception of the first missing one. */
    method PickColumns(fields: seq<string>) returns (response: Option<map<string, seq<string>>>)
      ensures response.Some? <==> forall f <- fields :: f in answer
      ensures response.Some? ==> response.value == map f | f in fields :: answer[f]
    {
      var picked: map<string, seq<string>> := map[];
      for i := 0 to |fields|
        invariant forall f <- fields[..i] :: f in answer
        invariant picked == map f | f in fields[..i] :: answer[f]
      {
        assert fields[..i + 1] == fields[..i] + [fields[i]];
        if fields[i] !in answer {
          return None;
        }
        picked := picked[fields[i] := answer[fields[i]]];
      }
      assert fields[..|fields|] == fields;
      return Some(picked);
    }

    static method LoginNumber(logins: seq<string>, login: Json) returns (number: int)
      ensures number == FindLogin(logins, login)
    {
      hide SameText;
      FoundLogin(logins, login);
      for i := 0 to |logins|
        invariant forall j :: 0 <= j < i ==> !SameText(logins[j], login)
      {
        if SameText(logins[i], login) {
          return i;
        }
      }
      return -1;
    }

    method CheckConnect(login: Json, password: Json)
      requires Settled()
      modifies this`bufSend, this`flagWrongConnect, this`answer, this`threw
      ensures match Verify(db, login, password)
              case Admitted => bufSend == Some(ConnectReply(NAME)) && !flagWrongConnect && threw == old(threw)
              case Denied(message) =>
                bufSend == Some(ConnectFailure(NAME, CODE_CONNECT, message)) && flagWrongConnect && threw == old(threw)
              case Mute => bufSend.None? && !flagWrongConnect && threw == old(threw)
              case Undefined => threw
    {
      hide FindLogin, SameText, Gathered, HasNull, ConnectFailure, ConnectReply;
      if db(ACCOUNTS).NoDatabase? {
        bufSend, flagWrongConnect := Some(ConnectFailure(NAME, CODE_CONNECT, "No dataBase")), true;
        return;
      }
      bufSend := None;
      var ok := SqliteExec(ACCOUNTS);
      if !ok {
        bufSend, flagWrongConnect := Some(ConnectFailure(NAME, CODE_CONNECT, "User not found")), true;
        return;
      }
      if "login" !in answer || "password" !in answer {
        return;
      }
      var logins, passwords := answer["login"], answer["password"];
      var number := LoginNumber(logins, login);
      if number < 0 || number >= |passwords| {
        threw := true;
      } else if SameText(passwords[number], password) {
        bufSend := Some(ConnectReply(NAME));
      } else {
        bufSend, flagWrongConnect := Some(ConnectFailure(NAME, CODE_CONNECT, "Password mismatch")), true;
      }
    }

    method ResAutentification()
      requires flagSend
      modifies this
      ensures Settled() && threw == old(threw) && entangled == old(entangled)
      ensures open == (old(open) && !old(flagWrongConnect))
      ensures receiving == WaitCommand
    {
      bufSend := None;
      if flagWrongConnect {
        Stop();
        flagWrongConnect := false;
      }
      flagSend := false;
      receiving := WaitCommand;
    }

    method SendCommand()
      requires flagSend
      modifies this
      ensures Settled() && threw == old(threw) && entangled == old(entangled)
      ensures open == (old(open) && !old(flagWrongConnect))
      ensures receiving == if old(flagWrongConnect) then old(receiving) else WaitCommand
    {
      bufSend := None;
      if flagWrongConnect {
        flagWrongConnect := false;
        Stop();
      } else {
        receiving := WaitCommand;
      }
    }

    /** `__connectAnalize` on one whole request, up to the end of sending its reply. */
    method LogIn(request: Json) returns (reply: Option<Json>)
      requires Settled() && Stage() == Login
      modifies this
      ensures !threw ==> Settled()
      ensures (reply, Stage()) == Serve(db, Login, request)
    {
      hide Verify;
      reply := None;
      var login, password := AtPath(request, "request", "login"), AtPath(request, "request", "password");
      if login.None? || password.None? {
        return;
      }
      CheckConnect(login.value, password.value);
      if threw {
        return;
      }
      flagSend := true;
      reply := bufSend;
      ResAutentification();
    }

    /** The command switch of `__waitCommand`. */
    method RunCommand(request: Json)
      requires Settled() && Stage() == Commands
      modifies this`bufSend, this`flagWrongConnect, this`answer, this`threw, this`entangled
      ensures var (reply, stage) := Serve(db, Commands, request);
              && (threw <==> stage == Crashed)
              && (entangled <==> stage == Entangled)
              && (!threw && !entangled ==> bufSend == reply && (flagWrongConnect <==> stage == Closed))
    {
      if At(request, "target").None? {
        threw := true;
      } else if TargetIs(request, "ping") {
        bufSend := Some(PingReply(NAME));
      } else if TargetIs(request, "disconnect") {
        MakeDisconnect();
      } else if TargetIs(request, "db_query") {
        MakeQuery(request);
      } else if TargetIs(request, "connect") {
        entangled := true;
      }
    }

    /** A whole request arrives, is handled, and its reply is sent. */
    method Exchange(request: Json) returns (reply: Option<Json>)
      requires Settled()
      modifies this
      ensures !threw && !entangled ==> Settled()
      ensures (reply, Stage()) == Serve(db, old(Stage()), request)
    {
      reply := None;
      if threw || entangled || !open {
        return;
      }
      if receiving == ConnectAnalize {
        reply := LogIn(request);
        return;
      }
      RunCommand(request);
      if threw || entangled {
        return;
      }
      flagSend := true;
      reply := bufSend;
      SendCommand();
    }
  }
}
