/** What a refresh delivers, over every run of client and server. */
module RefreshTheorems {
  import opened Text
  import opened Json
  import opened JsonFormatter
  import opened SelectText
  import opened Sqlite
  import opened DataBaseServer
  import opened ClientDB
  import opened Refresh

  // ---- Every run, whatever the I/O errors

  function JobsOf(history: seq<Entry>): (jobs: seq<Job>)
    ensures |jobs| == |history|
  {
    seq(|history|, i requires 0 <= i < |history| => history[i].job)
  }

  /** The jobs not settled yet, the one under way first. */
  function Ahead(p: Progress): seq<Job> {
    match p.phase
    case Asking(job) => [job] + p.todo
    case Asked(job) => [job] + p.todo
    case Hung(Some(job)) => [job] + p.todo
    case _ => p.todo
  }

  function Count(errors: seq<bool>): (n: nat)
    ensures n <= |errors|
  {
    if errors == [] then 0
    else Count(errors[..|errors| - 1]) + if errors[|errors| - 1] then 1 else 0
  }

  function LostIn(history: seq<Entry>): nat {
    if history == [] then 0
    else LostIn(history[..|history| - 1]) + if history[|history| - 1].fate == Lost then 1 else 0
  }

  /** Each fate is the one the database gave the job, and only the last job can have been turned away. */
  predicate Truthful(env: Env, history: seq<Entry>) {
    forall i :: 0 <= i < |history| ==>
      && (history[i].fate == Fresh ==> JobAnswer(env, history[i].job).Answered?)
      && (history[i].fate == Turned ==> JobAnswer(env, history[i].job).Refused? && i == |history| - 1)
  }

  predicate TurnedAway(history: seq<Entry>) {
    history != [] && history[|history| - 1].fate == Turned
  }

  /** Bookkeeping kept by every step of the simple form. */
  predicate Accounted(env: Env, jobs: seq<Job>, p: Progress, lost: nat) {
    && JobsOf(p.history) + Ahead(p) == jobs
    && LostIn(p.history) == lost
    && Truthful(env, p.history)
    && (p.phase.Finished? ==> TurnedAway(p.history) || p.todo == [])
    && (!p.phase.Finished? ==> !TurnedAway(p.history))
    && (p.phase.Asked? ==> !JobAnswer(env, p.phase.job).Fatal?)
    && (p.phase.Parting? || p.phase.Parted? ==> p.todo == [])
  }

  predicate Fits(env: Env, job: Job, fate: Fate) {
    (fate == Fresh ==> JobAnswer(env, job).Answered?) && (fate == Turned ==> JobAnswer(env, job).Refused?)
  }

  lemma SettleAccounts(env: Env, history: seq<Entry>, job: Job, fate: Fate)
    requires Truthful(env, history) && !TurnedAway(history) && Fits(env, job, fate)
    ensures var after := history + [Entry(job, fate)];
            && JobsOf(after) == JobsOf(history) + [job]
            && LostIn(after) == LostIn(history) + (if fate == Lost then 1 else 0)
            && Truthful(env, after) && (TurnedAway(after) <==> fate == Turned)
  {
    hide JobAnswer;
    assert (history + [Entry(job, fate)])[..|history|] == history;
  }

  lemma AdvanceShape(p: Progress)
    ensures Ahead(Advance(p)) == p.todo
  {
  }

  lemma JobSettled(env: Env, jobs: seq<Job>, p: Progress, lost: nat, job: Job, fate: Fate)
    requires Accounted(env, jobs, p, lost) && Ahead(p) == [job] + p.todo && !TurnedAway(p.history)
    requires Fits(env, job, fate)
    ensures var history := p.history + [Entry(job, fate)];
            && JobsOf(history) + p.todo == jobs && Truthful(env, history)
            && LostIn(history) == lost + (if fate == Lost then 1 else 0)
            && (TurnedAway(history) <==> fate == Turned)
  {
    hide JobAnswer;
    SettleAccounts(env, p.history, job, fate);
    assert JobsOf(p.history) + [job] + p.todo == JobsOf(p.history) + ([job] + p.todo);
  }

  /** The job being asked, if there is one: its query is outstanding, or the answer to it. */
  function Underway(phase: Phase): seq<Job> {
    match phase
    case Asking(job) => [job]
    case Asked(job) => [job]
    case Hung(Some(job)) => [job]
    case _ => []
  }

  /** A job is lost by an error while it is under way, and by nothing else. */
  lemma StepAccounts(env: Env, jobs: seq<Job>, p: Progress, lost: nat, error: bool)
    requires Accounted(env, jobs, p, lost)
    ensures Accounted(env, jobs, Progressed(env, p, error), lost + if error && Underway(p.phase) != [] then 1 else 0)
  {
    hide JobAnswer, LoginVerdict, JobsOf, Truthful, LostIn, TurnedAway;
    match p.phase
    case Greeted => AdvanceShape(p);
    case Asking(job) => JobSettled(env, jobs, p, lost, job, Lost);
    case Asked(job) =>
      JobSettled(env, jobs, p, lost, job, Lost);
      if JobAnswer(env, job).Answered? {
        JobSettled(env, jobs, p, lost, job, Fresh);
        AdvanceShape(Settle(p, job, Fresh));
      } else {
        JobSettled(env, jobs, p, lost, job, Turned);
      }
    case Hung(Some(job)) => JobSettled(env, jobs, p, lost, job, Lost);
    case _ =>
  }

  // ---- What the client's socket sees of a run

  predicate SendsQuery(ops: seq<Op>) {
    ops != [] && ops[0].Send? && TargetIs(ops[0].message, "db_query")
  }

  /** The queries handed to the socket, in order. An event completes the operation outstanding before it, so
      a send outstanding after it was handed over by it. */
  function Queries(env: Env, w: World, errors: seq<bool>): seq<Json> {
    var ops := Run(env, w, errors).client.ops;
    (if errors == [] then [] else Queries(env, w, errors[..|errors| - 1]))
    + if SendsQuery(ops) then [ops[0].message] else []
  }

  /** The operation outstanding is a query being sent, or the receive that follows one. */
  predicate InQuery(env: Env, w: World, errors: seq<bool>) {
    var ops := Run(env, w, errors).client.ops;
    SendsQuery(ops) || (ops == [Receive] && errors != [] && InQuery(env, w, errors[..|errors| - 1]))
  }

  function ErrorsInQuery(env: Env, w: World, errors: seq<bool>): nat {
    if errors == [] then 0
    else
      var n := |errors| - 1;
      ErrorsInQuery(env, w, errors[..n]) + if errors[n] && InQuery(env, w, errors[..n]) then 1 else 0
  }

  function QueryOfJob(env: Env, job: Job): Json {
    QueryRequestOf(env.me.name, job.fields, QueryText(job))
  }

  function QueriesOf(env: Env, jobs: seq<Job>): (queries: seq<Json>)
    ensures |queries| == |jobs|
  {
    seq(|jobs|, i requires 0 <= i < |jobs| => QueryOfJob(env, jobs[i]))
  }

  /** The operation outstanding in a phase shows whether a query is being sent, and which. */
  lemma PhaseShows(env: Env, phase: Phase)
    ensures SendsQuery(Outstanding(env, phase)) <==> phase.Asking?
    ensures phase.Asking? ==> Outstanding(env, phase)[0].message == QueryOfJob(env, phase.job)
    ensures Underway(phase) != [] ==> phase.Asking? || Outstanding(env, phase) == [Receive]
  {
    hide QueryText;
    assert !TargetIs(ConnectRequest(env.me.name, env.me.login, env.me.password), "db_query");
    assert !TargetIs(DisconnectRequest(env.me.name), "db_query");
  }

  /** A phase that waits for the answer to a query follows one in which that query was under way. */
  lemma StepShows(env: Env, p: Progress, error: bool)
    ensures var q := Progressed(env, p, error);
            && (Underway(q.phase) != [] && !q.phase.Asking? ==> Underway(q.phase) == Underway(p.phase))
            && (Outstanding(env, q.phase) == [Receive] && Underway(q.phase) == [] ==> Underway(p.phase) == [])
            && JobsOf(q.history) + Underway(q.phase)
               == JobsOf(p.history) + Underway(p.phase) + if q.phase.Asking? then Underway(q.phase) else []
  {
    hide JobAnswer, LoginVerdict, QueryText;
    var q := Progressed(env, p, error);
    if Underway(p.phase) != [] {
      var job := Underway(p.phase)[0];
      assert forall fate :: JobsOf(p.history + [Entry(job, fate)]) == JobsOf(p.history) + [job];
    }
  }

  /** The run seen from the socket agrees with its phase: queries, and whether one is under way. */
  lemma {:induction false} SocketShows(env: Env, c: Client, server: Stage, errors: seq<bool>)
    requires WritesStrings(env.ser) && Idle(c) && server != Crashed
    ensures var (p, w) := (Course(env, Planned(c), errors), Opening(c, server));
            && (InQuery(env, w, errors) <==> Underway(p.phase) != [])
            && Queries(env, w, errors) == QueriesOf(env, JobsOf(p.history) + Underway(p.phase))
  {
    hide JobAnswer, LoginVerdict, QueryText, SendsQuery, Outstanding, JobsOf, Progressed, WritesStrings;
    RunMatches(env, c, server, errors);
    var q := Course(env, Planned(c), errors);
    PhaseShows(env, q.phase);
    if errors == [] {
      FirstShows(env, c, server);
    } else {
      var n := |errors| - 1;
      var p := Course(env, Planned(c), errors[..n]);
      SocketShows(env, c, server, errors[..n]);
      StepShows(env, p, errors[n]);
    }
  }

  lemma FirstShows(env: Env, c: Client, server: Stage)
    requires Idle(c)
    ensures Opening(c, server).client.ops == [Connect] && Underway(Dialing) == [] && JobsOf([]) == []
    ensures !SendsQuery([Connect])
  {
  }

  lemma {:induction false} CourseAccounts(env: Env, c: Client, server: Stage, errors: seq<bool>)
    requires WritesStrings(env.ser) && Idle(c) && server != Crashed
    ensures Accounted(env, c.todo, Course(env, Planned(c), errors), ErrorsInQuery(env, Opening(c, server), errors))
  {
    hide Accounted, InQuery, WritesStrings;
    if errors == [] {
      StartAccounts(env, c);
    } else {
      var n := |errors| - 1;
      CourseAccounts(env, c, server, errors[..n]);
      SocketShows(env, c, server, errors[..n]);
      StepAccounts(env, c.todo, Course(env, Planned(c), errors[..n]),
                   ErrorsInQuery(env, Opening(c, server), errors[..n]), errors[n]);
    }
  }

  lemma StartAccounts(env: Env, c: Client)
    ensures Accounted(env, c.todo, Planned(c), 0)
  {
  }

  /** Where a run stands, told by what became of each job; `underway` is the job being asked, if any. */
  ghost predicate Explained(
    env: Env, c: Client, start: World, errors: seq<bool>, history: seq<Entry>, underway: seq<Job>)
  {
    var w := Run(env, start, errors);
    && |w.client.ops| <= 1 && |underway| <= 1 && !w.client.crashed
    && JobsOf(history) + underway + w.client.todo == c.todo
    && Queries(env, start, errors) == QueriesOf(env, JobsOf(history) + underway)
    && (underway != [] <==> InQuery(env, start, errors))
    && w.client.data == Applied(env, c.data, history)
    && Truthful(env, history)
    && LostIn(history) == ErrorsInQuery(env, start, errors)
    && (w.client.delivered == c.delivered
        || (w.client.delivered == c.delivered + [w.client.data] && w.client.ops == []
            && (TurnedAway(history) || (JobsOf(history) == c.todo && w.client.todo == []))))
  }

  ghost predicate Explainable(env: Env, c: Client, start: World, errors: seq<bool>) {
    exists history, underway :: Explained(env, c, start, errors, history, underway)
  }

  /** In every state of every run, reconnects included: one operation outstanding at most; the queries handed
      to the socket are those of the settled jobs and the one under way, which with the jobs left are the
      initial jobs in order, so none is asked twice; a job is lost by exactly the I/O errors that fall while its
      query or its answer is outstanding; the result map is the old one overridden by exactly the answered
      jobs; at most one callback, with that map, and none after it. */
  lemma EveryRun(env: Env, c: Client, server: Stage, errors: seq<bool>)
    requires WritesStrings(env.ser) && Idle(c) && server != Crashed
    ensures Explainable(env, c, Opening(c, server), errors)
  {
    hide Explained;
    CourseExplains(env, c, server, errors);
  }

  /** The simple form tells what became of each job. */
  lemma CourseExplains(env: Env, c: Client, server: Stage, errors: seq<bool>)
    requires WritesStrings(env.ser) && Idle(c) && server != Crashed
    ensures var p := Course(env, Planned(c), errors);
            Explained(env, c, Opening(c, server), errors, p.history, Underway(p.phase))
  {
    hide Explained, Run, Course, Matches, Accounted, InQuery, Queries, ErrorsInQuery, QueriesOf, JobsOf;
    RunMatches(env, c, server, errors);
    CourseAccounts(env, c, server, errors);
    SocketShows(env, c, server, errors);
    Summary(env, c, Opening(c, server), errors, Course(env, Planned(c), errors));
  }

  lemma Summary(env: Env, c: Client, start: World, errors: seq<bool>, p: Progress)
    requires Matches(env, c.data, c.delivered, p, Run(env, start, errors))
    requires Accounted(env, c.todo, p, ErrorsInQuery(env, start, errors))
    requires InQuery(env, start, errors) <==> Underway(p.phase) != []
    requires Queries(env, start, errors) == QueriesOf(env, JobsOf(p.history) + Underway(p.phase))
    ensures Explained(env, c, start, errors, p.history, Underway(p.phase))
  {
    hide JobAnswer, LoginVerdict, ServerMatches, InQuery, Queries, ErrorsInQuery, Run, Applied, LostIn, QueriesOf;
    hide Truthful, QueryText;
    var underway := Underway(p.phase);
    assert Ahead(p) == underway + p.todo;
    assert JobsOf(p.history) + underway + p.todo == JobsOf(p.history) + (underway + p.todo);
    assert c.delivered + [] == c.delivered;
  }

  /** So no job is lost exactly when no error falls while a query or its answer is outstanding, and then every
      job settled was answered, but for a last one turned away. */
  lemma NothingLostExactly(
    env: Env, c: Client, start: World, errors: seq<bool>, history: seq<Entry>, underway: seq<Job>)
    requires Explained(env, c, start, errors, history, underway)
    ensures ErrorsInQuery(env, start, errors) == 0 <==> forall i :: 0 <= i < |history| ==> history[i].fate != Lost
    ensures ErrorsInQuery(env, start, errors) == 0 ==> forall i :: 0 <= i < |history| - 1 ==> history[i].fate == Fresh
  {
    NoneLost(history);
  }

  lemma {:induction false} NoneLost(history: seq<Entry>)
    ensures LostIn(history) == 0 <==> forall i :: 0 <= i < |history| ==> history[i].fate != Lost
  {
    if history != [] {
      NoneLost(history[..|history| - 1]);
    }
  }

  // ---- The client against any peer

  /** The client's oldest operation completes; whatever arrives on a receive is `message`. */
  function Completed(me: Identity, ser: Serializer, c: Client, error: bool, message: Json): Client {
    if c.ops == [] then c
    else
      var rest := c.(ops := c.ops[1..]);
      match c.ops[0]
      case Connect => Connected(me, rest, error)
      case Send(_) => Sent(rest, error)
      case Receive => Received(me, ser, rest, if error then None else Some(message))
  }

  function CompletedAll(me: Identity, ser: Serializer, c: Client, events: seq<(bool, Json)>): Client {
    if events == [] then c
    else
      var n := |events| - 1;
      Completed(me, ser, CompletedAll(me, ser, c, events[..n]), events[n].0, events[n].1)
  }

  /** What no peer can break: the jobs left are the last of the initial ones, so none is asked twice or out
      of order; one operation at most is outstanding; and a callback leaves none. */
  predicate Disciplined(start: Client, c: Client) {
    && |c.ops| <= 1
    && |c.todo| <= |start.todo| && c.todo == start.todo[|start.todo| - |c.todo|..]
    && (c.delivered == start.delivered || (c.delivered == start.delivered + [c.data] && c.ops == []))
  }

  lemma ProceededDisciplined(me: Identity, start: Client, c: Client)
    requires Disciplined(start, c) && c.ops == [] && c.delivered == start.delivered
    ensures Disciplined(start, Proceeded(me, c))
  {
  }

  predicate Between(start: Client, c: Client) {
    Disciplined(start, c) && c.ops == [] && c.delivered == start.delivered
  }

  lemma AnalizedDisciplined(me: Identity, ser: Serializer, start: Client, c: Client, m: Json)
    requires Between(start, c)
    ensures Disciplined(start, Analized(me, ser, c, m))
  {
    hide Proceeded, Decode, Status, At;
    var columns := Decode(ser, m, c.fields);
    if TargetIs(m, "connect") {
      ProceededDisciplined(me, start, c.(leaving := true));
      ProceededDisciplined(me, start, c.(connected := true, leaving := false));
    } else if TargetIs(m, "disconnect") {
      ProceededDisciplined(me, start, c.(leaving := true));
      ProceededDisciplined(me, start, c.(leaving := false));
    } else if columns.Some? {
      ProceededDisciplined(me, start, c.(data := c.data[c.table := columns.value]));
    } else {
      ProceededDisciplined(me, start, c);
    }
  }

  lemma CompletedDisciplined(me: Identity, ser: Serializer, start: Client, c: Client, error: bool, message: Json)
    requires Disciplined(start, c)
    ensures Disciplined(start, Completed(me, ser, c, error, message))
  {
    hide Proceeded, Analized;
    if c.ops != [] {
      var rest := c.(ops := c.ops[1..]);
      assert Between(start, rest);
      ProceededDisciplined(me, start, rest);
      AnalizedDisciplined(me, ser, start, rest, message);
    }
  }

  /** Against a peer that answers anything at all, with any I/O errors, the client keeps its discipline. */
  lemma {:induction false} AnyPeer(me: Identity, ser: Serializer, c: Client, events: seq<(bool, Json)>)
    requires Idle(c)
    ensures Disciplined(c, CompletedAll(me, ser, Started(c), events))
  {
    if events != [] {
      var n := |events| - 1;
      AnyPeer(me, ser, c, events[..n]);
      CompletedDisciplined(me, ser, c, CompletedAll(me, ser, Started(c), events[..n]), events[n].0, events[n].1);
    }
  }

  // ---- How long a run can take

  function AfterJobs(todo: seq<Job>): nat {
    2 * |todo| + 2
  }

  function StepsLeft(p: Progress): nat {
    match p.phase
    case Dialing => 3 + AfterJobs(p.todo)
    case Greeting => 2 + AfterJobs(p.todo)
    case Greeted => 1 + AfterJobs(p.todo)
    case Asking(_) => 2 + AfterJobs(p.todo)
    case Asked(_) => 1 + AfterJobs(p.todo)
    case Parting => 2
    case Parted => 1
    case _ => 0
  }

  predicate NoneFatal(env: Env, jobs: seq<Job>) {
    forall job <- jobs :: !JobAnswer(env, job).Fatal?
  }

  predicate OnCourse(p: Progress) {
    p.phase.Finished? || (StepsLeft(p) > 0 && (p.phase.Parting? || p.phase.Parted? ==> p.todo == []))
  }

  lemma StepCounts(env: Env, p: Progress, error: bool)
    requires LoginVerdict(env).Admitted? && NoneFatal(env, Ahead(p)) && OnCourse(p)
    ensures var q := Progressed(env, p, error);
            && OnCourse(q) && NoneFatal(env, Ahead(q))
            && (error ==> StepsLeft(q) <= StepsLeft(p) + 4)
            && (!error ==> q.phase.Finished? || StepsLeft(q) < StepsLeft(p))
  {
    hide JobAnswer, LoginVerdict;
    assert forall job <- p.todo :: job in Ahead(p);
    AdvanceShape(p);
    if p.phase.Asking? || p.phase.Asked? {
      assert p.phase.job in Ahead(p);
      AdvanceShape(Settle(p, p.phase.job, Fresh));
    }
  }

  lemma {:induction false} CourseCounts(env: Env, c: Client, errors: seq<bool>)
    requires LoginVerdict(env).Admitted? && NoneFatal(env, c.todo)
    ensures var p := Course(env, Planned(c), errors);
            && OnCourse(p) && NoneFatal(env, Ahead(p))
            && (p.phase.Finished? || StepsLeft(p) + |errors| <= 2 * |c.todo| + 5 + 5 * Count(errors))
  {
    hide JobAnswer, LoginVerdict;
    if errors != [] {
      var n := |errors| - 1;
      CourseCounts(env, c, errors[..n]);
      StepCounts(env, Course(env, Planned(c), errors[..n]), errors[n]);
    }
  }

  /** With a login that is admitted and no query that kills the server, every long enough run
      ends: nothing is outstanding and the callback has fired exactly once. */
  lemma EveryRunEnds(env: Env, c: Client, server: Stage, errors: seq<bool>)
    requires WritesStrings(env.ser) && Idle(c) && server != Crashed
    requires |errors| >= 2 * |c.todo| + 5 + 5 * Count(errors)
    ensures LoginVerdict(env).Admitted? && NoneFatal(env, c.todo) ==>
              var client := Run(env, Opening(c, server), errors).client;
              client.ops == [] && client.delivered == c.delivered + [client.data]
  {
    hide LoginVerdict, NoneFatal, Run, Course;
    RunMatches(env, c, server, errors);
    if LoginVerdict(env).Admitted? && NoneFatal(env, c.todo) {
      CourseCounts(env, c, errors);
    }
  }

  /** And with nothing outstanding it has ended. */
  lemma RestsWhenDone(env: Env, c: Client, server: Stage, errors: seq<bool>)
    requires WritesStrings(env.ser) && Idle(c) && server != Crashed
    ensures LoginVerdict(env).Admitted? && NoneFatal(env, c.todo) ==>
              var client := Run(env, Opening(c, server), errors).client;
              client.ops == [] ==> client.delivered == c.delivered + [client.data]
  {
    hide LoginVerdict, NoneFatal, Run, Course;
    RunMatches(env, c, server, errors);
    if LoginVerdict(env).Admitted? && NoneFatal(env, c.todo) {
      CourseCounts(env, c, errors);
    }
  }

  // ---- Runs without I/O errors: the map delivered, and exactly when it is

  function Calm(n: nat): seq<bool> {
    seq(n, _ => false)
  }

  /** The result promised by the data alone: override until the first query that is not answered. */
  function Refreshed(env: Env, jobs: seq<Job>, data: RespData): RespData {
    if jobs == [] || !JobAnswer(env, jobs[0]).Answered? then data
    else Refreshed(env, jobs[1..], data[jobs[0].table := Stored(JobAnswer(env, jobs[0]).columns)])
  }

  /** A query with a requested column of no values is reached. */
  predicate ReachesFatal(env: Env, jobs: seq<Job>) {
    jobs != [] && (JobAnswer(env, jobs[0]).Fatal?
                   || (JobAnswer(env, jobs[0]).Answered? && ReachesFatal(env, jobs[1..])))
  }

  predicate Delivers(env: Env, jobs: seq<Job>) {
    LoginVerdict(env).Admitted? && !ReachesFatal(env, jobs)
  }

  /** The map a calm run is heading for. */
  function Promised(env: Env, data: RespData, p: Progress): RespData {
    if p.phase.Finished? then Applied(env, data, p.history)
    else Refreshed(env, Ahead(p), Applied(env, data, p.history))
  }

  predicate Heading(env: Env, p: Progress) {
    p.phase.Finished? || (OnCourse(p) && Delivers(env, Ahead(p))
                          && (p.phase.Asked? ==> !JobAnswer(env, p.phase.job).Fatal?))
  }

  predicate Failing(env: Env, p: Progress) {
    p.phase.Rejected? || p.phase.Muted? || p.phase.Hung?
    || ((p.phase.Dialing? || p.phase.Greeting? || p.phase.Greeted?) && !Delivers(env, p.todo))
    || ((p.phase.Asking? || p.phase.Asked?) && LoginVerdict(env).Admitted? && ReachesFatal(env, Ahead(p))
        && (p.phase.Asked? ==> !JobAnswer(env, p.phase.job).Fatal?))
  }

  lemma FirstUnderway(job: Job, todo: seq<Job>)
    ensures ([job] + todo)[0] == job && ([job] + todo)[1..] == todo
  {
  }

  lemma CalmStep(env: Env, data: RespData, p: Progress)
    requires Heading(env, p)
    ensures var q := Progressed(env, p, false);
            && Heading(env, q) && Promised(env, data, q) == Promised(env, data, p)
            && (q.phase.Finished? || StepsLeft(q) < StepsLeft(p))
  {
    hide JobAnswer, LoginVerdict;
    match p.phase
    case Greeted => AdvanceShape(p);
    case Asking(job) => FirstUnderway(job, p.todo);
    case Asked(job) => CalmAnswer(env, data, p);
    case _ =>
  }

  lemma CalmAnswer(env: Env, data: RespData, p: Progress)
    requires Heading(env, p) && p.phase.Asked?
    ensures var q := Progressed(env, p, false);
            && Heading(env, q) && Promised(env, data, q) == Promised(env, data, p)
            && (q.phase.Finished? || StepsLeft(q) < StepsLeft(p))
  {
    hide JobAnswer, LoginVerdict;
    var job := p.phase.job;
    FirstUnderway(job, p.todo);
    if JobAnswer(env, job).Answered? {
      AppliedOnce(env, data, p.history, job, Fresh);
      AdvanceShape(Settle(p, job, Fresh));
    } else {
      AppliedOnce(env, data, p.history, job, Turned);
    }
  }

  lemma FailingStep(env: Env, p: Progress)
    requires Failing(env, p)
    ensures Failing(env, Progressed(env, p, false))
  {
    hide JobAnswer, LoginVerdict;
    match p.phase
    case Greeted => AdvanceShape(p);
    case Asking(job) => FirstUnderway(job, p.todo);
    case Asked(job) =>
      FirstUnderway(job, p.todo);
      AdvanceShape(Settle(p, job, Fresh));
    case _ =>
  }

  lemma {:induction false} CalmCourse(env: Env, c: Client, n: nat)
    ensures var p := Course(env, Planned(c), Calm(n));
            if Delivers(env, c.todo) then
              && Heading(env, p) && Promised(env, c.data, p) == Refreshed(env, c.todo, c.data)
              && (p.phase.Finished? || StepsLeft(p) + n <= 2 * |c.todo| + 5)
            else Failing(env, p)
  {
    hide JobAnswer, LoginVerdict;
    if n > 0 {
      assert Calm(n)[..n - 1] == Calm(n - 1);
      CalmCourse(env, c, n - 1);
      var p := Course(env, Planned(c), Calm(n - 1));
      if Delivers(env, c.todo) {
        CalmStep(env, c.data, p);
      } else {
        FailingStep(env, p);
      }
    }
  }

  /** End to end: without I/O errors the callback fires, once and with the promised map, if and only
      if the login is admitted and no query with an empty requested column is reached. */
  lemma RefreshDelivers(env: Env, c: Client, server: Stage, n: nat)
    requires WritesStrings(env.ser) && Idle(c) && server != Crashed
    requires n >= 2 * |c.todo| + 5
    ensures Run(env, Opening(c, server), Calm(n)).client.delivered
         == c.delivered + if Delivers(env, c.todo) then [Refreshed(env, c.todo, c.data)] else []
  {
    RunMatches(env, c, server, Calm(n));
    CalmCourse(env, c, n);
    assert c.delivered + [] == c.delivered;
  }

  // ---- The map itself, table by table

  /** How many queries are answered before the first that is not. */
  function AnsweredPrefix(env: Env, jobs: seq<Job>): (k: nat)
    ensures k <= |jobs|
  {
    if jobs == [] || !JobAnswer(env, jobs[0]).Answered? then 0 else 1 + AnsweredPrefix(env, jobs[1..])
  }

  predicate LastOn(jobs: seq<Job>, k: nat, table: string, i: nat) {
    i < k <= |jobs| && jobs[i].table == table && forall j :: i < j < k ==> jobs[j].table != table
  }

  predicate Untouched(jobs: seq<Job>, k: nat, table: string) {
    k <= |jobs| && forall j :: 0 <= j < k ==> jobs[j].table != table
  }

  /** Tables answered before the first failure are fresh, from their last query; all others are as before. */
  lemma {:induction false} RefreshedTable(env: Env, jobs: seq<Job>, data: RespData, table: string)
    ensures var (result, k) := (Refreshed(env, jobs, data), AnsweredPrefix(env, jobs));
            && (forall i: nat :: LastOn(jobs, k, table, i) ==>
                  JobAnswer(env, jobs[i]).Answered?
                  && table in result && result[table] == Stored(JobAnswer(env, jobs[i]).columns))
            && (Untouched(jobs, k, table) ==>
                  (table in result <==> table in data) && (table in data ==> result[table] == data[table]))
  {
    hide JobAnswer, Stored;
    var k := AnsweredPrefix(env, jobs);
    if k > 0 {
      var next := data[jobs[0].table := Stored(JobAnswer(env, jobs[0]).columns)];
      RefreshedTable(env, jobs[1..], next, table);
      forall i: nat | LastOn(jobs, k, table, i)
        ensures JobAnswer(env, jobs[i]).Answered? && table in Refreshed(env, jobs, data)
        ensures Refreshed(env, jobs, data)[table] == Stored(JobAnswer(env, jobs[i]).columns)
      {
        if i > 0 {
          assert LastOn(jobs[1..], k - 1, table, i - 1);
        } else {
          assert Untouched(jobs[1..], k - 1, table);
        }
      }
      if Untouched(jobs, k, table) {
        assert Untouched(jobs[1..], k - 1, table);
      }
    }
  }

  // ---- Over a database of tables

  /** Refused for an unknown table or column, fatal for no rows, and otherwise the table's own columns. */
  lemma CatalogAnswers(env: Env, catalog: Catalog, job: Job)
    requires ValidCatalog(catalog) && env.db == DatabaseOf(catalog)
    requires WellNamed(job) && job.fields != ["*"] && Distinct(job.fields)
    ensures var answer := JobAnswer(env, job);
            if job.table !in catalog.tables || !Known(job.fields, catalog.tables[job.table].columns) then
              answer == Refused
            else
              var t := catalog.tables[job.table];
              var rows := Select(catalog, t, job, t.rows);
              answer == if rows == [] then Fatal else Answered(map f | f in job.fields :: TableColumn(t, rows, f))
  {
    SelectReadBack(job);
    assert env.db(QueryText(job)) == ExecJob(catalog, job);
    if job.table in catalog.tables && Known(job.fields, catalog.tables[job.table].columns) {
      var t := catalog.tables[job.table];
      var rows := Select(catalog, t, job, t.rows);
      assert env.db(QueryText(job)) == Rows(job.fields, ProjectAll(t, job.fields, rows));
      if rows == [] {
        assert job.fields[0] in job.fields;
      } else {
        RowsAnswer(env, t, job, rows);
      }
    }
  }

  lemma RowsAnswer(env: Env, t: Table, job: Job, rows: seq<seq<string>>)
    requires rows != [] && Known(job.fields, t.columns) && Distinct(job.fields)
    requires forall row <- rows :: |row| == |t.columns|
    requires env.db(QueryText(job)) == Rows(job.fields, ProjectAll(t, job.fields, rows))
    ensures JobAnswer(env, job) == Answered(map f | f in job.fields :: TableColumn(t, rows, f))
  {
    hide TableColumn, ColumnCells, Project, ProjectAll, QueryText;
    var projected := ProjectAll(t, job.fields, rows);
    forall f | f in job.fields
      ensures ColumnCells(job.fields, projected, f) == TableColumn(t, rows, f)
    {
      var k :| 0 <= k < |job.fields| && job.fields[k] == f;
      ColumnOfTable(t, job.fields, rows, k);
    }
    var columns := Gathered(job.fields, projected);
    assert columns == map f | f in job.fields :: ColumnCells(job.fields, projected, f);
    assert (map f | f in job.fields :: columns[f]) == map f | f in job.fields :: TableColumn(t, rows, f);
  }

  /** A job over known, different columns of a table that has rows for it. */
  predicate Selectable(catalog: Catalog, job: Job)
    requires ValidCatalog(catalog)
  {
    && WellNamed(job) && Distinct(job.fields) && job.fields != ["*"]
    && job.table in catalog.tables && Known(job.fields, catalog.tables[job.table].columns)
    && Select(catalog, catalog.tables[job.table], job, catalog.tables[job.table].rows) != []
  }

  predicate AllSelectable(catalog: Catalog, jobs: seq<Job>)
    requires ValidCatalog(catalog)
  {
    forall i :: 0 <= i < |jobs| ==> Selectable(catalog, jobs[i])
  }

  /** The table's own columns, over the rows that meet the condition, in row order and serialised. */
  function TableView(catalog: Catalog, job: Job): Columns
    requires ValidCatalog(catalog) && Selectable(catalog, job)
  {
    var t := catalog.tables[job.table];
    map f | f in job.fields :: QuoteAll(TableColumn(t, Select(catalog, t, job, t.rows), f))
  }

  function Overridden(catalog: Catalog, jobs: seq<Job>, data: RespData): RespData
    requires ValidCatalog(catalog) && AllSelectable(catalog, jobs)
    decreases |jobs|
  {
    if jobs == [] then data
    else Overridden(catalog, jobs[1..], data[jobs[0].table := TableView(catalog, jobs[0])])
  }

  lemma SelectableAnswered(env: Env, catalog: Catalog, job: Job)
    requires ValidCatalog(catalog) && env.db == DatabaseOf(catalog) && Selectable(catalog, job)
    ensures JobAnswer(env, job).Answered? && Stored(JobAnswer(env, job).columns) == TableView(catalog, job)
  {
    hide JobAnswer, DatabaseOf, TableColumn, QuoteAll, Select;
    CatalogAnswers(env, catalog, job);
  }

  lemma {:induction false} RefreshedFromTables(env: Env, catalog: Catalog, jobs: seq<Job>, data: RespData)
    requires ValidCatalog(catalog) && env.db == DatabaseOf(catalog) && AllSelectable(catalog, jobs)
    ensures !ReachesFatal(env, jobs) && Refreshed(env, jobs, data) == Overridden(catalog, jobs, data)
    decreases |jobs|
  {
    hide JobAnswer, DatabaseOf, Selectable, TableView;
    if jobs != [] {
      SelectableAnswered(env, catalog, jobs[0]);
      RefreshedFromTables(env, catalog, jobs[1..], data[jobs[0].table := TableView(catalog, jobs[0])]);
    }
  }

  /** Rows to callback: for any tables and any such jobs, an admitted client's run without I/O errors delivers
      one map, the old one overridden at every queried table by the table's own columns. */
  lemma TablesDelivered(env: Env, catalog: Catalog, c: Client, server: Stage, n: nat)
    requires WritesStrings(env.ser) && Idle(c) && server != Crashed && n >= 2 * |c.todo| + 5
    requires ValidCatalog(catalog) && env.db == DatabaseOf(catalog) && AllSelectable(catalog, c.todo)
    ensures LoginVerdict(env).Admitted? ==>
              Run(env, Opening(c, server), Calm(n)).client.delivered
              == c.delivered + [Overridden(catalog, c.todo, c.data)]
  {
    hide LoginVerdict, Run, ReachesFatal, Refreshed, Overridden;
    RefreshDelivers(env, c, server, n);
    RefreshedFromTables(env, catalog, c.todo, c.data);
  }
}
