/** The worker over its whole life: stations' requests interleaved with refreshes of its tables. */
module WorkerLife {
  import opened SelectText
  import opened Sqlite
  import opened DataBaseServer
  import opened ClientDB
  import opened Refresh
  import opened RefreshTheorems
  import opened WorkerM
  import opened DialogTheorems
  import opened Pipeline

  /** `data` is the client's result map, which it keeps from one refresh to the next; `shown` is the map
      of the last callback, which the tables come from. `alive` is false once a callback has thrown. */
  datatype Worker = Worker(tables: Tables, shown: RespData, data: RespData, sessions: Sessions, alive: bool)

  /** A refresh leaves a new map in the client, and calls back with it or not. */
  datatype Happening = Asks(request: Request) | Refreshes(data: RespData, callback: bool)

  function Born(): Worker {
    Worker(Tables(map[], map[], map[], [], [], [], [], []), map[], map[], map[], true)
  }

  predicate Usable(data: RespData) {
    KeywordTablesEven(data) && Indexable(data)
  }

  /** A map that is not fit for the index ends the process. */
  function Lived(skill: Skill, w: Worker, h: Happening): Worker {
    if !w.alive then w
    else
      match h
      case Asks(request) => w.(sessions := Respond(w.tables, skill, w.sessions, request).1)
      case Refreshes(data, callback) =>
        if !callback then w.(data := data)
        else if Usable(data) then w.(tables := TablesFrom(data), shown := data, data := data)
        else w.(data := data, alive := false)
  }

  function Life(skill: Skill, happenings: seq<Happening>): Worker {
    if happenings == [] then Born()
    else Lived(skill, Life(skill, happenings[..|happenings| - 1]), happenings[|happenings| - 1])
  }

  /** A map a refresh can leave: the client's own map overridden by the answers some database of tables
      gave to queries of the worker, whatever was lost or refused on the way. */
  ghost predicate DeliveredFrom(env: Env, catalog: Catalog, before: RespData, after: RespData, history: seq<Entry>) {
    && ValidCatalog(catalog) && env.db == DatabaseOf(catalog)
    && Truthful(env, history) && (forall i :: 0 <= i < |history| ==> history[i].job in RefreshJobs())
    && after == Applied(env, before, history)
  }

  ghost predicate Deliverable(before: RespData, after: RespData) {
    exists env, catalog, history :: DeliveredFrom(env, catalog, before, after, history)
  }

  /** Every run of the worker's client, I/O errors included, leaves such a map, and calls back with it if at all. */
  lemma CallbackDeliverable(env: Env, catalog: Catalog, c: Client, server: Stage, errors: seq<bool>)
    requires WritesStrings(env.ser) && Idle(c) && server != Crashed && c.todo == RefreshJobs()
    requires ValidCatalog(catalog) && env.db == DatabaseOf(catalog)
    ensures var client := Run(env, Opening(c, server), errors).client;
            Deliverable(c.data, client.data)
            && (client.delivered == c.delivered || client.delivered == c.delivered + [client.data])
  {
    hide RefreshJobs, JobAnswer, Queries, InQuery, ErrorsInQuery, QueriesOf, Run, Truthful, Applied;
    EveryRun(env, c, server, errors);
    var history: seq<Entry>, underway: seq<Job> :| Explained(env, c, Opening(c, server), errors, history, underway);
    var client := Run(env, Opening(c, server), errors).client;
    forall i | 0 <= i < |history|
      ensures history[i].job in RefreshJobs()
    {
      assert (JobsOf(history) + underway + client.todo)[i] == history[i].job;
    }
    assert DeliveredFrom(env, catalog, c.data, client.data, history);
  }

  ghost predicate LegalLife(skill: Skill, happenings: seq<Happening>) {
    happenings == [] || (
      var n := |happenings| - 1;
      var h, w := happenings[n], Life(skill, happenings[..n]);
      LegalLife(skill, happenings[..n]) && (h.Refreshes? ==> Deliverable(w.data, h.data)))
  }

  // ---- What refreshes keep of the map

  /** Columns of equal length, none empty, every cell serialised. */
  predicate GoodTable(table: Columns) {
    Rectangular(table) && forall f <- table :: table[f] != [] && AllQuoted(table[f])
  }

  predicate GoodMap(data: RespData) {
    && (forall name <- data :: GoodTable(data[name]))
    && ("InterestingFact" in data ==> "fact" in data["InterestingFact"])
  }

  lemma TableGood(catalog: Catalog, i: nat)
    requires ValidCatalog(catalog) && i < 8 && Stocked(catalog, i)
    ensures GoodTable(TableAt(catalog, i))
  {
    var t := catalog.tables[TABLES[i]];
    hide Stocked, ValidCatalog, Known;
    forall f | f in FIELDS[i]
      ensures |TableAt(catalog, i)[f]| == |t.rows| && AllQuoted(TableAt(catalog, i)[f])
    {
      QuotesInAll(TableColumn(t, t.rows, f));
    }
  }

  lemma QuotesInAll(column: seq<string>)
    ensures AllQuoted(QuoteAll(column))
  {
    forall i | 0 <= i < |column|
      ensures '"' in QuoteAll(column)[i]
    {
      assert QuoteAll(column)[i][0] == '"';
    }
  }

  /** A table to be stored keeps the map good: its columns are, and the facts' table has facts. */
  predicate Storable(name: string, table: Columns) {
    GoodTable(table) && (name == "InterestingFact" ==> "fact" in table)
  }

  lemma FactsTable(catalog: Catalog, i: nat)
    requires ValidCatalog(catalog) && i < 8 && Stocked(catalog, i)
    ensures TABLES[i] == "InterestingFact" ==> "fact" in TableAt(catalog, i)
  {
    hide ValidCatalog, Known, TableColumn, QuoteAll;
    if TABLES[i] == TABLES[1] {
      NamesDiffer();
      assert i == 1;
      assert FIELDS[1] == ["fact"];
    }
  }

  lemma JobStorable(env: Env, catalog: Catalog, job: Job)
    requires ValidCatalog(catalog) && env.db == DatabaseOf(catalog)
    requires job in RefreshJobs() && JobAnswer(env, job).Answered?
    ensures Storable(job.table, Stored(JobAnswer(env, job).columns))
  {
    hide JobAnswer, RefreshJobs, GoodTable, TableAt, Stored, Stocked, ValidCatalog, DatabaseOf;
    var i :| 0 <= i < 8 && RefreshJobs()[i] == job;
    JobNamed(i);
    AnsweredExactly(env, catalog, i);
    TableGood(catalog, i);
    FactsTable(catalog, i);
  }

  lemma {:induction false} AppliedGood(env: Env, catalog: Catalog, before: RespData, history: seq<Entry>)
    requires ValidCatalog(catalog) && env.db == DatabaseOf(catalog) && GoodMap(before)
    requires forall i :: 0 <= i < |history| ==> history[i].job in RefreshJobs()
    ensures GoodMap(Applied(env, before, history))
    ensures before.Keys <= Applied(env, before, history).Keys
  {
    hide JobAnswer, RefreshJobs, GoodTable, Stored, ValidCatalog, DatabaseOf;
    if history != [] {
      var n := |history| - 1;
      AppliedGood(env, catalog, before, history[..n]);
      if JobAnswer(env, history[n].job).Answered? {
        JobStorable(env, catalog, history[n].job);
      }
    }
  }

  lemma GoodIsEven(data: RespData)
    requires GoodMap(data)
    ensures KeywordTablesEven(data)
  {
    assert forall name <- data :: EvenKeywords(data[name]);
  }

  predicate AllKeywords(data: RespData) {
    forall i :: 3 <= i < 8 ==> HasKeywords(TableIn(data, TABLES[i]))
  }

  lemma IndexableIsAll(data: RespData)
    ensures Indexable(data) <==> AllKeywords(data)
  {
    hide HasKeywords;
    if AllKeywords(data) {
      assert HasKeywords(TableIn(data, TABLES[3])) && HasKeywords(TableIn(data, TABLES[4]));
      assert HasKeywords(TableIn(data, TABLES[5])) && HasKeywords(TableIn(data, TABLES[6]));
      assert HasKeywords(TableIn(data, TABLES[7]));
    }
  }

  /** Once a map is fit for the index, every later one is: tables are replaced, never dropped. */
  lemma {:induction false} AppliedIndexable(env: Env, catalog: Catalog, before: RespData, history: seq<Entry>)
    requires ValidCatalog(catalog) && env.db == DatabaseOf(catalog)
    requires forall i :: 0 <= i < |history| ==> history[i].job in RefreshJobs()
    ensures AllKeywords(before) ==> AllKeywords(Applied(env, before, history))
  {
    hide JobAnswer, RefreshJobs, HasKeywords, Stored, ValidCatalog, DatabaseOf;
    if history != [] {
      var n := |history| - 1;
      AppliedIndexable(env, catalog, before, history[..n]);
      if JobAnswer(env, history[n].job).Answered? {
        JobHasKeywords(env, catalog, history[n].job);
      }
    }
  }

  lemma JobHasKeywords(env: Env, catalog: Catalog, job: Job)
    requires ValidCatalog(catalog) && env.db == DatabaseOf(catalog)
    requires job in RefreshJobs() && JobAnswer(env, job).Answered?
    ensures job.table in TABLES[3..] ==> HasKeywords(Stored(JobAnswer(env, job).columns))
  {
    hide JobAnswer, RefreshJobs, HasKeywords, TableAt, Stored, Stocked, ValidCatalog, DatabaseOf;
    var i :| 0 <= i < 8 && RefreshJobs()[i] == job;
    JobNamed(i);
    AnsweredExactly(env, catalog, i);
    NamesDiffer();
    if i >= 3 {
      EqualColumns(catalog, i);
    }
  }

  // ---- The invariant over lives

  predicate Safe(w: Worker) {
    && GoodMap(w.shown) && GoodMap(w.data) && w.shown.Keys <= w.data.Keys
    && w.tables.interesting == TableIn(w.shown, "InterestingFact")
    && w.tables.university == TableIn(w.shown, "UniversityFact")
    && w.tables.preparation == TableIn(w.shown, "DirectionOfPreparation")
    && Sound(w.tables, w.sessions)
    && (w.shown != map[] ==> AllKeywords(w.data))
    && NoQuotes(w.tables.directions) && EarlySteps(w.sessions)
  }

  lemma AskedSafe(skill: Skill, w: Worker, request: Request)
    requires Safe(w)
    ensures Safe(Lived(skill, w, Asks(request)))
    ensures Respond(w.tables, skill, w.sessions, request).0 != Output.Undefined
  {
    hide GoodTable, SoundTalk, Respond, EarlySteps, NoQuotes, AllKeywords;
    PreparationGood(w);
    RespondSound(w.tables, skill, w.sessions, request);
    RespondEarly(w.tables, skill, w.sessions, request);
  }

  lemma PreparationGood(w: Worker)
    requires Safe(w)
    ensures Rectangular(w.tables.preparation)
    ensures "direction" in w.tables.preparation ==> AllQuoted(w.tables.preparation["direction"])
  {
  }

  lemma RefreshedSafe(skill: Skill, w: Worker, data: RespData, callback: bool)
    requires Safe(w) && Deliverable(w.data, data)
    ensures Safe(Lived(skill, w, Refreshes(data, callback)))
    ensures w.alive && w.shown != map[] ==> Lived(skill, w, Refreshes(data, callback)).alive
  {
    hide KeywordTablesEven, Indexable, Truthful, GoodTable, AllKeywords, NoQuotes, EarlySteps, Applied, RefreshJobs;
    var env: Env, catalog: Catalog, history: seq<Entry> :| DeliveredFrom(env, catalog, w.data, data, history);
    AppliedGood(env, catalog, w.data, history);
    AppliedIndexable(env, catalog, w.data, history);
    IndexableIsAll(data);
    GoodIsEven(data);
    if callback && Indexable(data) {
      FactsKept(w, data);
      DirectionsUnquoted(data);
    }
  }

  /** A live dialog of interesting facts still has facts to tell after the refresh. */
  lemma FactsKept(w: Worker, data: RespData)
    requires Safe(w) && GoodMap(data) && w.data.Keys <= data.Keys
    requires KeywordTablesEven(data) && Indexable(data)
    ensures Sound(TablesFrom(data), w.sessions)
  {
    forall station | station in w.sessions
      ensures SoundTalk(TablesFrom(data), w.sessions[station])
    {
      assert SoundTalk(w.tables, w.sessions[station]);
    }
  }

  /** Whatever is asked and refreshed in whatever order, dialogs stay sound and no output is undefined:
      although the wrong table is tested for emptiness, no refresh delivers an empty column. */
  lemma {:induction false} NeverUndefined(skill: Skill, happenings: seq<Happening>, request: Request)
    requires LegalLife(skill, happenings)
    ensures var w := Life(skill, happenings);
            Safe(w) && Respond(w.tables, skill, w.sessions, request).0 != Output.Undefined
    decreases |happenings|
  {
    hide Lived, Respond, Safe, Deliverable, Indexable;
    if happenings == [] {
      assert Safe(Born()) by { BornSafe(); }
    } else {
      var n := |happenings| - 1;
      NeverUndefined(skill, happenings[..n], request);
      var w := Life(skill, happenings[..n]);
      match happenings[n]
      case Asks(asked) => AskedSafe(skill, w, asked);
      case Refreshes(data, callback) => RefreshedSafe(skill, w, data, callback);
    }
    AskedSafe(skill, Life(skill, happenings), request);
  }

  /** A worker that survives its first callback survives every later refresh, whatever it loses. */
  lemma FirstCallbackDecides(skill: Skill, happenings: seq<Happening>)
    requires happenings != [] && LegalLife(skill, happenings)
    ensures var n := |happenings| - 1;
            var w := Life(skill, happenings[..n]);
            w.alive && w.shown != map[] ==> Life(skill, happenings).alive
  {
    hide Lived, Safe, Deliverable, Respond;
    var n := |happenings| - 1;
    var w := Life(skill, happenings[..n]);
    NeverUndefined(skill, happenings[..n], Request("", "", 0));
    match happenings[n]
    case Asks(asked) => AskedLives(skill, w, asked);
    case Refreshes(data, callback) => RefreshedSafe(skill, w, data, callback);
  }

  lemma AskedLives(skill: Skill, w: Worker, request: Request)
    ensures Lived(skill, w, Asks(request)).alive == w.alive
  {
  }

  /** In no life does any station's places or score dialog reach step 2. */
  lemma StepTwoNever(skill: Skill, happenings: seq<Happening>)
    requires LegalLife(skill, happenings)
    ensures EarlySteps(Life(skill, happenings).sessions)
  {
    hide Life, Respond;
    NeverUndefined(skill, happenings, Request("", "", 0));
  }

  lemma BornSafe()
    ensures Safe(Born())
  {
  }
}
