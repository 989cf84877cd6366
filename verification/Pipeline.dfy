/** From the rows of the database to the worker's tables: the daily refresh, end to end. */
module Pipeline {
  import opened Text
  import opened Json
  import opened SelectText
  import opened Sqlite
  import opened DataBaseServer
  import opened ClientDB
  import opened Refresh
  import opened RefreshTheorems
  import opened Keywords
  import opened WorkerM
  import opened Answers

  // ---- The refresh the worker asks for

  const TABLES: seq<string> := [
    "DirectionOfPreparation", "InterestingFact", "UniversityFact", "StaticPhrases",
    "GroupsName", "ProfessorsName", "DaysWeek", "Directions"]

  const KEYWORDS: seq<string> := ["key_words", "response"]

  const FIELDS: seq<seq<string>> := [
    ["direction", "number_of_budget_positions", "minimum_score"], ["fact"], ["fact"], KEYWORDS,
    KEYWORDS, KEYWORDS, KEYWORDS, KEYWORDS]

  function RefreshJobs(): (jobs: seq<Job>)
    ensures |jobs| == 8
  {
    Zipped(TABLES, FIELDS, None)
  }

  lemma NamesDiffer()
    ensures Distinct(TABLES)
  {
    assert TABLES[2][0] == 'U' && TABLES[5][0] == 'P';
    assert TABLES[4][0] == 'G' && TABLES[7][0] == 'D';
  }

  lemma KeywordNames()
    ensures forall f <- KEYWORDS :: IsName(f)
    ensures Distinct(KEYWORDS) && KEYWORDS != ["*"]
  {
    assert KEYWORDS[0][0] == 'k' && KEYWORDS[1][0] == 'r';
  }

  lemma FieldNames(i: nat)
    requires i < 8
    ensures FIELDS[i] != [] && Distinct(FIELDS[i]) && FIELDS[i] != ["*"]
    ensures forall f <- FIELDS[i] :: IsName(f)
  {
    if i == 0 {
      assert IsName("direction") && IsName("number_of_budget_positions") && IsName("minimum_score");
    } else if i < 3 {
      assert FIELDS[i] == ["fact"] && "fact"[0] == 'f' && IsName("fact");
    } else {
      KeywordNames();
    }
  }

  lemma TableName(i: nat)
    requires i < 8
    ensures IsName(TABLES[i])
  {
    if i == 0 {
      assert IsName("DirectionOfPreparation");
    } else if i == 1 {
      assert IsName("InterestingFact");
    } else if i == 2 {
      assert IsName("UniversityFact");
    } else if i == 3 {
      assert IsName("StaticPhrases");
    } else if i == 4 {
      assert IsName("GroupsName");
    } else if i == 5 {
      assert IsName("ProfessorsName");
    } else if i == 6 {
      assert IsName("DaysWeek");
    } else {
      assert IsName("Directions");
    }
  }

  lemma JobNamed(i: nat)
    requires i < 8
    ensures RefreshJobs()[i] == Job(TABLES[i], FIELDS[i], None) && WellNamed(RefreshJobs()[i])
    ensures Distinct(FIELDS[i]) && FIELDS[i] != ["*"]
    ensures i >= 3 ==> FIELDS[i] == KEYWORDS
  {
    hide IsName;
    FieldNames(i);
    TableName(i);
  }

  predicate AllAnswered(env: Env, jobs: seq<Job>) {
    forall i :: 0 <= i < |jobs| ==> JobAnswer(env, jobs[i]).Answered?
  }

  lemma {:induction false} PrefixIsAll(env: Env, jobs: seq<Job>)
    ensures AnsweredPrefix(env, jobs) == |jobs| <==> AllAnswered(env, jobs)
  {
    hide JobAnswer;
    if jobs != [] {
      PrefixIsAll(env, jobs[1..]);
      assert forall i :: 0 < i < |jobs| ==> jobs[i] == jobs[1..][i - 1];
    }
  }

  /** A first refresh delivers the i-th table exactly when its query was answered in turn. */
  lemma TableDelivered(env: Env, i: nat)
    requires i < 8
    ensures var data := Refreshed(env, RefreshJobs(), map[]);
            && (TABLES[i] in data <==> i < AnsweredPrefix(env, RefreshJobs()))
            && (TABLES[i] in data ==> JobAnswer(env, RefreshJobs()[i]).Answered?
                                      && data[TABLES[i]] == Stored(JobAnswer(env, RefreshJobs()[i]).columns))
  {
    hide JobAnswer, Stored;
    var jobs := RefreshJobs();
    var k := AnsweredPrefix(env, jobs);
    NamesDiffer();
    RefreshedTable(env, jobs, map[], TABLES[i]);
    assert forall j :: 0 <= j < 8 ==> jobs[j].table == TABLES[j];
    if i < k {
      assert LastOn(jobs, k, TABLES[i], i);
    } else {
      assert Untouched(jobs, k, TABLES[i]);
    }
  }

  /** The database has the i-th table, with the columns asked for and at least one row. */
  predicate Stocked(catalog: Catalog, i: nat)
    requires i < 8
  {
    TABLES[i] in catalog.tables && Known(FIELDS[i], catalog.tables[TABLES[i]].columns)
    && catalog.tables[TABLES[i]].rows != []
  }

  /** The i-th table as the worker is to see it: all rows, in order, serialised. */
  function TableAt(catalog: Catalog, i: nat): Columns
    requires ValidCatalog(catalog) && i < 8 && Stocked(catalog, i)
  {
    var t := catalog.tables[TABLES[i]];
    map f | f in FIELDS[i] :: QuoteAll(TableColumn(t, t.rows, f))
  }

  /** A query of the refresh is answered exactly when the database has rows for it, and with all of them. */
  lemma AnsweredExactly(env: Env, catalog: Catalog, i: nat)
    requires ValidCatalog(catalog) && env.db == DatabaseOf(catalog) && i < 8
    ensures JobAnswer(env, RefreshJobs()[i]).Answered? <==> Stocked(catalog, i)
    ensures Stocked(catalog, i) ==> Stored(JobAnswer(env, RefreshJobs()[i]).columns) == TableAt(catalog, i)
  {
    hide RefreshJobs, JobAnswer, TableColumn, QuoteAll, DatabaseOf, IsName, Select, ValidCatalog;
    var job := RefreshJobs()[i];
    JobNamed(i);
    CatalogAnswers(env, catalog, job);
    if job.table in catalog.tables {
      SelectAll(catalog, catalog.tables[job.table], job, catalog.tables[job.table].rows);
    }
  }

  /** Keys and responses of one table, one each a row. */
  predicate EqualKeywords(table: Columns) {
    HasKeywords(table) ==> |table["key_words"]| == |table["response"]|
  }

  lemma KeywordColumns(env: Env, catalog: Catalog, i: nat)
    requires ValidCatalog(catalog) && env.db == DatabaseOf(catalog)
    requires 3 <= i < 8 && TABLES[i] in Refreshed(env, RefreshJobs(), map[])
    ensures TABLES[i] in catalog.tables && Known(KEYWORDS, catalog.tables[TABLES[i]].columns)
    ensures var (table, t) := (Refreshed(env, RefreshJobs(), map[])[TABLES[i]], catalog.tables[TABLES[i]]);
            && HasKeywords(table)
            && table["key_words"] == QuoteAll(TableColumn(t, t.rows, "key_words"))
            && table["response"] == QuoteAll(TableColumn(t, t.rows, "response"))
  {
    hide Refreshed, AnsweredPrefix, RefreshJobs, TableColumn, QuoteAll, JobAnswer;
    TableDelivered(env, i);
    AnsweredExactly(env, catalog, i);
    JobNamed(i);
    assert KEYWORDS[0] in KEYWORDS && KEYWORDS[1] in KEYWORDS;
  }

  lemma KeywordTableShape(env: Env, catalog: Catalog, i: nat)
    requires ValidCatalog(catalog) && env.db == DatabaseOf(catalog)
    requires 3 <= i < 8
    ensures var data := Refreshed(env, RefreshJobs(), map[]);
            && EqualKeywords(TableIn(data, TABLES[i]))
            && (HasKeywords(TableIn(data, TABLES[i])) <==> i < AnsweredPrefix(env, RefreshJobs()))
  {
    hide Refreshed, AnsweredPrefix, RefreshJobs, TableColumn, JobAnswer;
    TableDelivered(env, i);
    if TABLES[i] in Refreshed(env, RefreshJobs(), map[]) {
      KeywordColumns(env, catalog, i);
    }
  }

  predicate AllEqual(data: RespData) {
    forall i :: 3 <= i < 8 ==> EqualKeywords(TableIn(data, TABLES[i]))
  }

  lemma EqualIsEven(data: RespData)
    requires AllEqual(data)
    ensures KeywordTablesEven(data)
  {
    hide HasKeywords;
    assert EqualKeywords(TableIn(data, TABLES[3])) && EqualKeywords(TableIn(data, TABLES[4]));
    assert EqualKeywords(TableIn(data, TABLES[5])) && EqualKeywords(TableIn(data, TABLES[6]));
    assert EqualKeywords(TableIn(data, TABLES[7]));
  }

  /** The map promised to a first refresh has equal columns, and is fit for the index exactly when all
      eight queries are answered, since the last one fills a keyword table. */
  lemma FirstMapIndexable(env: Env, catalog: Catalog)
    requires ValidCatalog(catalog) && env.db == DatabaseOf(catalog)
    ensures var data := Refreshed(env, RefreshJobs(), map[]);
            && AllEqual(data) && KeywordTablesEven(data)
            && (Indexable(data) <==> AllAnswered(env, RefreshJobs()))
  {
    hide Refreshed, RefreshJobs, JobAnswer, EqualKeywords, HasKeywords, KeywordTablesEven;
    var data := Refreshed(env, RefreshJobs(), map[]);
    PrefixIsAll(env, RefreshJobs());
    KeywordTableShape(env, catalog, 3);
    KeywordTableShape(env, catalog, 4);
    KeywordTableShape(env, catalog, 5);
    KeywordTableShape(env, catalog, 6);
    KeywordTableShape(env, catalog, 7);
    EqualIsEven(data);
  }

  /** The client of a worker that has just started. */
  predicate FirstDay(c: Client) {
    Idle(c) && c.todo == RefreshJobs() && c.data == map[] && c.delivered == []
  }

  /** The worker's first refresh, without I/O errors: if the callback fires, the columns it gets are of equal
      length, and it does not throw exactly when all eight queries were answered. */
  lemma FirstRefreshSurvives(env: Env, catalog: Catalog, c: Client, server: Stage, n: nat)
    requires WritesStrings(env.ser) && ValidCatalog(catalog) && env.db == DatabaseOf(catalog)
    requires FirstDay(c) && server != Crashed && n >= 21
    ensures var delivered := Run(env, Opening(c, server), Calm(n)).client.delivered;
            if !Delivers(env, RefreshJobs()) then delivered == []
            else |delivered| == 1 && AllEqual(delivered[0]) && KeywordTablesEven(delivered[0])
                 && (Indexable(delivered[0]) <==> AllAnswered(env, RefreshJobs()))
  {
    hide Refreshed, Delivers, AllAnswered, AllEqual, KeywordTablesEven, Indexable, Run;
    RefreshDelivers(env, c, server, n);
    FirstMapIndexable(env, catalog);
  }

  // ---- A first refresh whatever the I/O errors

  /** The history of a first refresh settles its jobs from the front. */
  predicate FirstJobs(history: seq<Entry>) {
    |history| <= 8 && forall k :: 0 <= k < |history| ==> history[k].job == RefreshJobs()[k]
  }

  /** The map holds exactly the tables whose entries are fresh. */
  lemma {:induction false} FreshTables(env: Env, history: seq<Entry>, i: nat)
    requires FirstJobs(history) && Truthful(env, history) && i < 8
    ensures var data := Applied(env, map[], history);
            && (TABLES[i] in data <==> i < |history| && history[i].fate == Fresh)
            && (TABLES[i] in data ==> data[TABLES[i]] == Stored(JobAnswer(env, RefreshJobs()[i]).columns))
  {
    hide JobAnswer, Stored;
    if history != [] {
      var n := |history| - 1;
      var init := history[..n];
      assert Truthful(env, init);
      FreshTables(env, init, i);
      NamesDiffer();
      JobNamed(n);
    }
  }

  lemma FreshKeywords(env: Env, catalog: Catalog, history: seq<Entry>, i: nat)
    requires ValidCatalog(catalog) && env.db == DatabaseOf(catalog)
    requires FirstJobs(history) && Truthful(env, history) && 3 <= i < 8
    ensures var table := TableIn(Applied(env, map[], history), TABLES[i]);
            EqualKeywords(table) && (HasKeywords(table) <==> i < |history| && history[i].fate == Fresh)
  {
    hide JobAnswer, RefreshJobs, Applied, TableColumn, QuoteAll, DatabaseOf;
    FreshTables(env, history, i);
    if TABLES[i] in Applied(env, map[], history) {
      assert FirstJobs(history) && history[i].job == RefreshJobs()[i];
      AnsweredExactly(env, catalog, i);
      JobNamed(i);
      EqualColumns(catalog, i);
    }
  }

  lemma EqualColumns(catalog: Catalog, i: nat)
    requires ValidCatalog(catalog) && 3 <= i < 8 && Stocked(catalog, i)
    ensures HasKeywords(TableAt(catalog, i)) && EqualKeywords(TableAt(catalog, i))
  {
    hide ValidCatalog;
    assert FIELDS[i] == KEYWORDS && KEYWORDS[0] in KEYWORDS && KEYWORDS[1] in KEYWORDS;
  }

  predicate KeywordsFresh(history: seq<Entry>) {
    |history| == 8 && forall i :: 3 <= i < 8 ==> history[i].fate == Fresh
  }

  /** The first refresh over every run, whatever the I/O errors: the map its callback gets, if it gets one, has
      columns of equal length, and the callback does not throw exactly when all five keyword tables are fresh.
      A refusal or an error ends the worker if it costs one of these, and only then. */
  lemma FirstRefreshExactly(
    env: Env, catalog: Catalog, c: Client, server: Stage, errors: seq<bool>, history: seq<Entry>, underway: seq<Job>)
    requires ValidCatalog(catalog) && env.db == DatabaseOf(catalog) && FirstDay(c)
    requires Explained(env, c, Opening(c, server), errors, history, underway)
    ensures var client := Run(env, Opening(c, server), errors).client;
            && FirstJobs(history) && (client.delivered == [] || client.delivered == [client.data])
            && AllEqual(client.data) && KeywordTablesEven(client.data)
            && (Indexable(client.data) <==> KeywordsFresh(history))
  {
    hide RefreshJobs, JobAnswer, Applied, Truthful, Run, Queries, QueriesOf, LostIn, ErrorsInQuery, InQuery;
    hide EqualKeywords, HasKeywords, KeywordTablesEven;
    var data := Run(env, Opening(c, server), errors).client.data;
    forall k | 0 <= k < |history|
      ensures history[k].job == RefreshJobs()[k]
    {
      assert (JobsOf(history) + underway + Run(env, Opening(c, server), errors).client.todo)[k] == history[k].job;
    }
    FreshKeywords(env, catalog, history, 3);
    FreshKeywords(env, catalog, history, 4);
    FreshKeywords(env, catalog, history, 5);
    FreshKeywords(env, catalog, history, 6);
    FreshKeywords(env, catalog, history, 7);
    EqualIsEven(data);
  }

  // ---- One error

  /** The events up to the sending of the i-th query, that query failing, and `n` more. */
  function OneError(i: nat, n: nat): seq<bool> {
    Calm(3 + 2 * i) + [true] + Calm(n)
  }

  predicate AllFresh(history: seq<Entry>) {
    forall k :: 0 <= k < |history| ==> history[k].fate == Fresh
  }

  /** Without an error the i-th query is being sent after 3 + 2 i events. */
  lemma {:induction false} CalmAsks(env: Env, c: Client, i: nat)
    requires AllAnswered(env, c.todo) && i < |c.todo|
    ensures LoginVerdict(env).Admitted? ==> Asks(Course(env, Planned(c), Calm(3 + 2 * i)), c.todo, i)
  {
    hide JobAnswer, LoginVerdict, Course, Asks;
    if LoginVerdict(env).Admitted? {
      if i == 0 {
        CalmAgain(env, Planned(c), 0);
        CalmAgain(env, Planned(c), 1);
        CalmAgain(env, Planned(c), 2);
        CalmLogin(env, c);
      } else {
        CalmAsks(env, c, i - 1);
        CalmAgain(env, Planned(c), 1 + 2 * i);
        CalmAgain(env, Planned(c), 2 + 2 * i);
        NextAsks(env, Course(env, Planned(c), Calm(1 + 2 * i)), c.todo, i);
      }
    }
  }

  predicate Asks(p: Progress, jobs: seq<Job>, i: nat)
    requires i < |jobs|
  {
    p.phase == Asking(jobs[i]) && p.todo == jobs[i + 1..] && |p.history| == i && AllFresh(p.history)
  }

  lemma CalmLogin(env: Env, c: Client)
    requires LoginVerdict(env).Admitted? && c.todo != []
    ensures Asks(Progressed(env, Progressed(env, Progressed(env, Planned(c), false), false), false), c.todo, 0)
  {
    hide JobAnswer, LoginVerdict;
  }

  lemma NextAsks(env: Env, p: Progress, jobs: seq<Job>, i: nat)
    requires AllAnswered(env, jobs) && 0 < i < |jobs| && Asks(p, jobs, i - 1)
    ensures Asks(Progressed(env, Progressed(env, p, false), false), jobs, i)
  {
    hide JobAnswer, LoginVerdict;
    assert JobAnswer(env, jobs[i - 1]).Answered?;
  }

  lemma CalmAgain(env: Env, p: Progress, n: nat)
    ensures Course(env, p, Calm(0)) == p
    ensures Course(env, p, Calm(n + 1)) == Progressed(env, Course(env, p, Calm(n)), false)
  {
    hide Progressed;
    assert Calm(n + 1)[..n] == Calm(n);
  }

  /** Without an error nothing more is lost. */
  lemma {:induction false} CalmLosesNothing(env: Env, c: Client, i: nat, n: nat)
    requires AllAnswered(env, c.todo) && i < |c.todo|
    ensures LoginVerdict(env).Admitted? ==>
              var history := Course(env, Planned(c), OneError(i, n)).history;
              |history| > i && history[i].fate == Lost
              && forall k :: 0 <= k < |history| && k != i ==> history[k].fate != Lost
  {
    hide JobAnswer, LoginVerdict, Progressed;
    if LoginVerdict(env).Admitted? {
      if n == 0 {
        CalmAsks(env, c, i);
        assert OneError(i, 0)[..3 + 2 * i] == Calm(3 + 2 * i);
        LosesOne(env, Course(env, Planned(c), Calm(3 + 2 * i)), c.todo, i);
      } else {
        assert OneError(i, n)[..3 + 2 * i + n] == OneError(i, n - 1);
        CalmLosesNothing(env, c, i, n - 1);
        CalmKeeps(env, Course(env, Planned(c), OneError(i, n - 1)));
      }
    }
  }

  lemma LosesOne(env: Env, p: Progress, jobs: seq<Job>, i: nat)
    requires i < |jobs| && Asks(p, jobs, i)
    ensures var history := Progressed(env, p, true).history;
            |history| == i + 1 && history[i].fate == Lost
            && forall k :: 0 <= k < i ==> history[k].fate == Fresh
  {
    hide JobAnswer, LoginVerdict;
  }

  lemma CalmKeeps(env: Env, p: Progress)
    ensures var q := Progressed(env, p, false);
            p.history <= q.history
            && forall k :: |p.history| <= k < |q.history| ==> q.history[k].fate != Lost
  {
    hide JobAnswer, LoginVerdict;
  }

  lemma {:induction false} OneCounted(i: nat, n: nat)
    ensures Count(OneError(i, n)) == 1
  {
    if n == 0 {
      assert OneError(i, 0)[..3 + 2 * i] == Calm(3 + 2 * i);
      NoneCounted(3 + 2 * i);
    } else {
      assert OneError(i, n)[..3 + 2 * i + n] == OneError(i, n - 1);
      OneCounted(i, n - 1);
    }
  }

  lemma {:induction false} NoneCounted(n: nat)
    ensures Count(Calm(n)) == 0
  {
    if n > 0 {
      assert Calm(n)[..n - 1] == Calm(n - 1);
      NoneCounted(n - 1);
    }
  }

  /** With every query answered, one I/O error on the first refresh ends the worker if and only if it falls on the
      query of a keyword table: the client redials, the rest is delivered, and the callback throws for want of
      that table. */
  lemma OneErrorExactly(env: Env, catalog: Catalog, c: Client, server: Stage, i: nat, n: nat)
    requires WritesStrings(env.ser) && ValidCatalog(catalog) && env.db == DatabaseOf(catalog)
    requires FirstDay(c) && server != Crashed && i < 8 && n >= 22
    ensures LoginVerdict(env).Admitted? && AllAnswered(env, RefreshJobs()) ==>
              var delivered := Run(env, Opening(c, server), OneError(i, n)).client.delivered;
              |delivered| == 1 && (Indexable(delivered[0]) <==> i < 3)
  {
    hide RefreshJobs, JobAnswer, LoginVerdict, Run, Course, Queries, QueriesOf, LostIn, ErrorsInQuery, InQuery;
    hide Applied, Indexable, AllEqual, KeywordTablesEven, DatabaseOf, ValidCatalog, OneError;
    if LoginVerdict(env).Admitted? && AllAnswered(env, RefreshJobs()) {
      var errors := OneError(i, n);
      var p := Course(env, Planned(c), errors);
      NeverFatalAtAll(env, RefreshJobs());
      OneCounted(i, n);
      OneErrorLength(i, n);
      EveryRunEnds(env, c, server, errors);
      CourseExplains(env, c, server, errors);
      CalmLosesNothing(env, c, i, n);
      FirstRefreshExactly(env, catalog, c, server, errors, p.history, Underway(p.phase));
      OneLost(env, p.history, i);
    }
  }

  lemma OneErrorLength(i: nat, n: nat)
    ensures |OneError(i, n)| == 4 + 2 * i + n
  {
  }

  lemma NeverFatalAtAll(env: Env, jobs: seq<Job>)
    requires AllAnswered(env, jobs)
    ensures NoneFatal(env, jobs)
  {
    hide JobAnswer;
  }

  lemma OneLost(env: Env, history: seq<Entry>, i: nat)
    requires FirstJobs(history) && (TurnedAway(history) || JobsOf(history) == RefreshJobs())
    requires Truthful(env, history) && AllAnswered(env, RefreshJobs())
    requires i < |history| && history[i].fate == Lost
    requires forall k :: 0 <= k < |history| && k != i ==> history[k].fate != Lost
    ensures KeywordsFresh(history) <==> i < 3
  {
    hide JobAnswer, RefreshJobs;
    assert JobsOf(history) == RefreshJobs() ==> |history| == 8;
  }

  // ---- The worker's tables, row by row

  predicate HasKeywordRows(catalog: Catalog, name: string) {
    name in catalog.tables && "key_words" in catalog.tables[name].columns && "response" in catalog.tables[name].columns
  }

  function KeysOf(catalog: Catalog, name: string): (keys: seq<string>)
    requires ValidCatalog(catalog) && HasKeywordRows(catalog, name)
    ensures |keys| == |catalog.tables[name].rows|
  {
    TableColumn(catalog.tables[name], catalog.tables[name].rows, "key_words")
  }

  function ResponsesOf(catalog: Catalog, name: string): (responses: seq<string>)
    requires ValidCatalog(catalog) && HasKeywordRows(catalog, name)
    ensures |responses| == |catalog.tables[name].rows|
  {
    TableColumn(catalog.tables[name], catalog.tables[name].rows, "response")
  }

  /** An index made of the serialised cells of one table's rows; the rows' own strings exactly when no cell needs
      a JSON escape. */
  predicate IndexedBy(index: seq<Variant>, catalog: Catalog, name: string)
    requires ValidCatalog(catalog)
  {
    && HasKeywordRows(catalog, name)
    && index == IndexOf(QuoteAll(KeysOf(catalog, name)), QuoteAll(ResponsesOf(catalog, name)))
    && PlainIndex(index, KeysOf(catalog, name), ResponsesOf(catalog, name))
  }

  predicate PlainIndex(index: seq<Variant>, keys: seq<string>, responses: seq<string>)
    requires |keys| == |responses|
  {
    index == DirectIndex(keys, responses)
    <==> forall i :: 0 <= i < |keys| ==> Plain(keys[i]) && Plain(responses[i])
  }

  /** These columns and no others, of all rows, each cell serialised. */
  predicate ColumnsOf(columns: Columns, catalog: Catalog, name: string, fields: set<string>)
    requires ValidCatalog(catalog)
  {
    && name in catalog.tables && columns.Keys == fields
    && forall f <- fields :: f in catalog.tables[name].columns
                             && columns[f] == QuoteAll(TableColumn(catalog.tables[name], catalog.tables[name].rows, f))
  }

  lemma KeywordsIndexed(env: Env, catalog: Catalog, i: nat)
    requires ValidCatalog(catalog) && env.db == DatabaseOf(catalog)
    requires AllAnswered(env, RefreshJobs()) && 3 <= i < 8
    ensures var data := Refreshed(env, RefreshJobs(), map[]);
            && HasKeywords(TableIn(data, TABLES[i])) && EvenKeywords(TableIn(data, TABLES[i]))
            && IndexedBy(IndexIn(data, TABLES[i]), catalog, TABLES[i])
  {
    hide Refreshed, RefreshJobs, AllAnswered, TableColumn, QuoteAll, IndexOf, DatabaseOf, ValidCatalog, PlainIndex;
    hide IndexedBy;
    PrefixIsAll(env, RefreshJobs());
    TableDelivered(env, i);
    KeywordColumns(env, catalog, i);
    assert KEYWORDS[0] in KEYWORDS && KEYWORDS[1] in KEYWORDS;
    TableIndexed(Refreshed(env, RefreshJobs(), map[]), catalog, TABLES[i]);
  }

  lemma TableIndexed(data: RespData, catalog: Catalog, name: string)
    requires ValidCatalog(catalog) && HasKeywordRows(catalog, name) && name in data && HasKeywords(data[name])
    requires data[name]["key_words"] == QuoteAll(KeysOf(catalog, name))
    requires data[name]["response"] == QuoteAll(ResponsesOf(catalog, name))
    ensures EvenKeywords(TableIn(data, name)) && IndexedBy(IndexIn(data, name), catalog, name)
  {
    hide TableColumn, QuoteAll, IndexOf, ValidCatalog, KeysOf, ResponsesOf;
    QuotedLength(KeysOf(catalog, name));
    QuotedLength(ResponsesOf(catalog, name));
    IndexAgrees(KeysOf(catalog, name), ResponsesOf(catalog, name));
  }

  lemma QuotedLength(column: seq<string>)
    ensures |QuoteAll(column)| == |column|
  {
  }

  lemma ColumnsDelivered(env: Env, catalog: Catalog, i: nat)
    requires ValidCatalog(catalog) && env.db == DatabaseOf(catalog)
    requires AllAnswered(env, RefreshJobs()) && i < 8
    ensures ColumnsOf(TableIn(Refreshed(env, RefreshJobs(), map[]), TABLES[i]), catalog, TABLES[i],
                      set f | f in FIELDS[i])
  {
    hide Refreshed, RefreshJobs, TableColumn, QuoteAll, DatabaseOf, ValidCatalog, JobAnswer;
    PrefixIsAll(env, RefreshJobs());
    TableDelivered(env, i);
    AnsweredExactly(env, catalog, i);
  }

  /** Every table of the worker comes from the table of that name, and from no other. */
  ghost predicate FromRows(t: Tables, catalog: Catalog)
    requires ValidCatalog(catalog)
  {
    && IndexedBy(t.phrases, catalog, "StaticPhrases")
    && IndexedBy(t.groups, catalog, "GroupsName")
    && IndexedBy(t.professors, catalog, "ProfessorsName")
    && IndexedBy(t.days, catalog, "DaysWeek")
    && IndexedBy(t.directions, catalog, "Directions")
    && ColumnsOf(t.preparation, catalog, "DirectionOfPreparation",
                 {"direction", "number_of_budget_positions", "minimum_score"})
    && ColumnsOf(t.interesting, catalog, "InterestingFact", {"fact"})
    && ColumnsOf(t.university, catalog, "UniversityFact", {"fact"})
  }

  lemma TablesFromRows(env: Env, catalog: Catalog)
    requires ValidCatalog(catalog) && env.db == DatabaseOf(catalog)
    requires AllAnswered(env, RefreshJobs())
    ensures var data := Refreshed(env, RefreshJobs(), map[]);
            KeywordTablesEven(data) && Indexable(data) && FromRows(TablesFrom(data), catalog)
  {
    hide Refreshed, RefreshJobs, AllAnswered, IndexedBy, ColumnsOf, AllEqual, IndexOf, ValidCatalog, DatabaseOf;
    FirstMapIndexable(env, catalog);
    KeywordsIndexed(env, catalog, 3);
    KeywordsIndexed(env, catalog, 4);
    KeywordsIndexed(env, catalog, 5);
    KeywordsIndexed(env, catalog, 6);
    KeywordsIndexed(env, catalog, 7);
    ColumnsDelivered(env, catalog, 0);
    ColumnsDelivered(env, catalog, 1);
    ColumnsDelivered(env, catalog, 2);
    assert (set f | f in FIELDS[0]) == {"direction", "number_of_budget_positions", "minimum_score"};
    assert (set f | f in FIELDS[1]) == {"fact"} && (set f | f in FIELDS[2]) == {"fact"};
  }

  // ---- From the rows of the database to an answer

  /** The first row one of whose ';'-separated key words occurs in the command. */
  ghost predicate FirstRowHit(keys: seq<string>, command: string, r: nat) {
    r < |keys| && RowHit(keys[r], command) && forall s :: 0 <= s < r ==> !RowHit(keys[s], command)
  }

  ghost predicate RowHit(key: string, command: string) {
    exists piece <- Split(key, ';') :: Contains(command, piece)
  }

  lemma DirectHits(keys: seq<string>, responses: seq<string>, command: string)
    requires |keys| == |responses|
    ensures forall r: nat :: FirstRowHit(keys, command, r) <==> FirstHit(DirectIndex(keys, responses), command, r)
  {
    var index := DirectIndex(keys, responses);
    assert forall s :: 0 <= s < |keys| ==> (RowHit(keys[s], command) <==> Hits(index[s], command));
  }

  /** Over tables that come from the rows, phrases without escapes: a station's new command is answered by the first
      row of "StaticPhrases" with a key word in it, and not understood when there is none. */
  lemma AnsweredFromRows(t: Tables, catalog: Catalog, skill: Skill, request: Request)
    requires ValidCatalog(catalog) && IndexedBy(t.phrases, catalog, "StaticPhrases")
    ensures var (output, talk) := Reply(t, skill, None, request);
            var command := Dequote(Quote(request.command));
            var keys, responses := KeysOf(catalog, "StaticPhrases"), ResponsesOf(catalog, "StaticPhrases");
            (forall i :: 0 <= i < |keys| ==> Plain(keys[i]) && Plain(responses[i])) ==>
              && ((forall r: nat :: !FirstRowHit(keys, command, r)) ==> output == Said(NOT_UNDERSTOOD) && talk == None)
              && forall r: nat :: FirstRowHit(keys, command, r) && responses[r] != "" ==>
                   Begun(t, skill, responses[r], command, request.dice, output, talk)
  {
    hide Begun, Reply, Contains, FirstHit, Names, NamesNothing, ValidCatalog, IndexOf, KeysOf;
    hide ResponsesOf, Dequote, Quote, DirectIndex, HasKeywordRows;
    var keys, responses := KeysOf(catalog, "StaticPhrases"), ResponsesOf(catalog, "StaticPhrases");
    var command := Dequote(Quote(request.command));
    NewCommandExactly(t, skill, request);
    if t.phrases == DirectIndex(keys, responses) {
      DirectHits(keys, responses, command);
      DirectNames(keys, responses, command);
      var (output, talk) := Reply(t, skill, None, request);
      forall r: nat | FirstRowHit(keys, command, r) && responses[r] != ""
        ensures Begun(t, skill, responses[r], command, request.dice, output, talk)
      {
        assert Names(t.phrases, command, responses[r]);
      }
    }
  }

  lemma DirectNames(keys: seq<string>, responses: seq<string>, command: string)
    requires |keys| == |responses|
    ensures forall r: nat :: FirstRowHit(keys, command, r) && responses[r] != "" ==>
              Names(DirectIndex(keys, responses), command, responses[r])
    ensures (forall r: nat :: !FirstRowHit(keys, command, r)) ==>
              NamesNothing(DirectIndex(keys, responses), command)
  {
    var index := DirectIndex(keys, responses);
    DirectHits(keys, responses, command);
    forall r: nat | FirstRowHit(keys, command, r) && responses[r] != ""
      ensures Names(index, command, responses[r])
    {
      assert FirstHit(index, command, r) && index[r].response == responses[r];
    }
  }

  /** All eight tables of the database, fit for the index. */
  predicate FullDelivery(catalog: Catalog, data: RespData)
    requires ValidCatalog(catalog)
  {
    && KeywordTablesEven(data) && Indexable(data)
    && forall i :: 0 <= i < 8 ==>
         Stocked(catalog, i) && TABLES[i] in data && data[TABLES[i]] == TableAt(catalog, i)
  }

  predicate AllStocked(catalog: Catalog) {
    forall i :: 0 <= i < 8 ==> Stocked(catalog, i)
  }

  /** The whole day, from rows to callback: run without I/O errors, an admitted client over a database that has
      rows in all eight tables gets one callback, whose map holds every table's own columns, and the worker's tables
      are then those of the rows. */
  lemma DailyRefresh(env: Env, catalog: Catalog, c: Client, server: Stage, n: nat)
    requires WritesStrings(env.ser) && ValidCatalog(catalog) && env.db == DatabaseOf(catalog)
    requires FirstDay(c) && server != Crashed && n >= 21
    ensures LoginVerdict(env).Admitted? && AllStocked(catalog) ==>
              var delivered := Run(env, Opening(c, server), Calm(n)).client.delivered;
              |delivered| == 1 && FullDelivery(catalog, delivered[0])
              && FromRows(TablesFrom(delivered[0]), catalog)
  {
    hide Refreshed, JobAnswer, LoginVerdict, EvenKeywords, HasKeywords, Run, Stocked, RefreshJobs, FromRows;
    if LoginVerdict(env).Admitted? && AllStocked(catalog) {
      forall i | 0 <= i < 8
        ensures JobAnswer(env, RefreshJobs()[i]).Answered?
        ensures Stored(JobAnswer(env, RefreshJobs()[i]).columns) == TableAt(catalog, i)
      {
        AnsweredExactly(env, catalog, i);
      }
      var data := Refreshed(env, RefreshJobs(), map[]);
      NeverFatal(env, RefreshJobs());
      RefreshDelivers(env, c, server, n);
      TablesFromRows(env, catalog);
      PrefixIsAll(env, RefreshJobs());
      forall i | 0 <= i < 8
        ensures TABLES[i] in data && data[TABLES[i]] == TableAt(catalog, i)
      {
        TableDelivered(env, i);
      }
    }
  }

  lemma {:induction false} NeverFatal(env: Env, jobs: seq<Job>)
    requires AllAnswered(env, jobs)
    ensures !ReachesFatal(env, jobs)
  {
    hide JobAnswer;
    if jobs != [] {
      NeverFatal(env, jobs[1..]);
    }
  }
}
