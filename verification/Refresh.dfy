/** Client and server composed over one connection, driven by the completions of the client's socket. */
module Refresh {
  import opened Text
  import opened Json
  import opened JsonFormatter
  import opened SelectText
  import opened Sqlite
  import opened DataBaseServer
  import opened ClientDB

  datatype Env = Env(db: Database, me: Identity, ser: Serializer)

  /** `wire` is the reply on its way to the client. */
  datatype World = World(client: Client, server: Stage, wire: Option<Json>)

  /** The oldest outstanding operation completes, with an I/O error or without. A connection starts
      a fresh server session; a crashed server process never accepts one again. A session that has closed
      answers nothing: what the client then sees is an I/O error, whenever the run has one. */
  function Step(env: Env, w: World, error: bool): World {
    if w.client.ops == [] then w
    else
      var c := w.client.(ops := w.client.ops[1..]);
      match w.client.ops[0]
      case Connect =>
        if error || w.server == Crashed then World(Connected(env.me, c, true), w.server, None)
        else World(Connected(env.me, c, false), StartStage(env.db), None)
      case Send(message) =>
        if error then World(Sent(c, true), w.server, None)
        else
          var (reply, stage) := Serve(env.db, w.server, message);
          World(Sent(c, false), stage, reply)
      case Receive =>
        if error then World(Received(env.me, env.ser, c, None), w.server, None)
        else if w.wire.None? then w
        else World(Received(env.me, env.ser, c, w.wire), w.server, None)
  }

  /** A run: one entry an event, `true` for an I/O error. */
  function Run(env: Env, w: World, errors: seq<bool>): World {
    if errors == [] then w else Step(env, Run(env, w, errors[..|errors| - 1]), errors[|errors| - 1])
  }

  // ---- The simple form: where a refresh stands, and what became of every job

  datatype Fate = Fresh | Lost | Turned
  datatype Entry = Entry(job: Job, fate: Fate)

  /** `Hung` is a server that died on the request, `Orphaned` a client redialling it for ever,
      `Muted` a login that gets no reply (on an open or a closed connection), `Rejected` a login that was denied. */
  datatype Phase =
    | Dialing | Greeting | Greeted | Asking(job: Job) | Asked(job: Job) | Parting | Parted | Finished
    | Rejected | Muted | Hung(on: Option<Job>) | Orphaned

  datatype Progress = Progress(phase: Phase, todo: seq<Job>, history: seq<Entry>)

  function JobAnswer(env: Env, job: Job): Answer {
    Lookup(env.db, QueryText(job), job.fields)
  }

  /** What the client's login meets; without a database the session is closed before it. */
  function LoginVerdict(env: Env): Verdict {
    if StartStage(env.db) == Closed then Mute else Verify(env.db, Str(env.me.login), Str(env.me.password))
  }

  function Advance(p: Progress): Progress {
    if p.todo == [] then p.(phase := Parting) else p.(phase := Asking(p.todo[0]), todo := p.todo[1..])
  }

  function Settle(p: Progress, job: Job, fate: Fate): Progress {
    p.(history := p.history + [Entry(job, fate)])
  }

  function Progressed(env: Env, p: Progress, error: bool): Progress {
    match p.phase
    case Dialing => if error then p else p.(phase := Greeting)
    case Greeting =>
      if error then p.(phase := Dialing)
      else (match LoginVerdict(env)
            case Mute => p.(phase := Muted)
            case Undefined => p.(phase := Hung(None))
            case _ => p.(phase := Greeted))
    case Greeted =>
      if error then p.(phase := Dialing)
      else if LoginVerdict(env).Admitted? then Advance(p) else p.(phase := Rejected)
    case Asking(job) =>
      if error then Settle(p.(phase := Dialing), job, Lost)
      else if JobAnswer(env, job).Fatal? then p.(phase := Hung(Some(job)))
      else p.(phase := Asked(job))
    case Asked(job) =>
      if error then Settle(p.(phase := Dialing), job, Lost)
      else if JobAnswer(env, job).Answered? then Advance(Settle(p, job, Fresh))
      else Settle(p.(phase := Finished), job, Turned)
    case Parting => if error then p.(phase := Dialing) else p.(phase := Parted)
    case Parted => if error then p.(phase := Dialing) else p.(phase := Finished)
    case Muted => if error then p.(phase := Dialing) else p
    case Hung(job) =>
      if !error then p
      else if job.Some? then Settle(p.(phase := Orphaned), job.value, Lost) else p.(phase := Orphaned)
    case _ => p
  }

  function Course(env: Env, p: Progress, errors: seq<bool>): Progress {
    if errors == [] then p else Progressed(env, Course(env, p, errors[..|errors| - 1]), errors[|errors| - 1])
  }

  /** The result map after the jobs that were answered, in order. */
  function Applied(env: Env, data: RespData, history: seq<Entry>): RespData {
    if history == [] then data
    else
      var e := history[|history| - 1];
      var before := Applied(env, data, history[..|history| - 1]);
      if e.fate == Fresh && JobAnswer(env, e.job).Answered?
      then before[e.job.table := Stored(JobAnswer(env, e.job).columns)]
      else before
  }

  // ---- The composed machine refines the simple form

  function Outstanding(env: Env, phase: Phase): seq<Op> {
    match phase
    case Dialing => [Connect]
    case Orphaned => [Connect]
    case Greeting => [Send(ConnectRequest(env.me.name, env.me.login, env.me.password))]
    case Asking(job) => [Send(QueryRequestOf(env.me.name, job.fields, QueryText(job)))]
    case Parting => [Send(DisconnectRequest(env.me.name))]
    case Finished => []
    case Rejected => []
    case _ => [Receive]
  }

  /** What the server has made of the phase: its stage and the reply on the wire. */
  predicate ServerMatches(env: Env, phase: Phase, server: Stage, wire: Option<Json>) {
    match phase
    case Dialing => server != Crashed
    case Greeting => server == StartStage(env.db)
    case Greeted =>
      (match LoginVerdict(env)
       case Admitted => server == Commands && wire == Some(ConnectReply(NAME))
       case Denied(message) => server == Closed && wire == Some(ConnectFailure(NAME, CODE_CONNECT, message))
       case _ => false)
    case Asking(_) => server == Commands
    case Asked(job) =>
      (match JobAnswer(env, job)
       case Answered(columns) => server == Commands && wire == Some(QueryReplyOf(NAME, columns))
       case Refused => server == Closed && wire == Some(DisconnectReply(NAME))
       case Fatal => false)
    case Parting => server == Commands
    case Parted => server == Closed && wire == Some(DisconnectReply(NAME))
    case Muted => server != Crashed && wire == None
    case Hung(_) => server == Crashed && wire == None
    case Orphaned => server == Crashed
    case _ => true
  }

  predicate Talking(phase: Phase) {
    phase.Asking? || phase.Asked? || phase.Parting? || phase.Parted?
  }

  predicate Silent(phase: Phase) {
    phase.Dialing? || phase.Greeting? || phase.Greeted? || phase.Muted? || phase.Orphaned?
  }

  ghost predicate Matches(env: Env, data: RespData, delivered: seq<RespData>, p: Progress, w: World) {
    var c := w.client;
    && c.todo == p.todo && c.data == Applied(env, data, p.history) && !c.crashed
    && c.ops == Outstanding(env, p.phase)
    && c.delivered == delivered + (if p.phase == Finished then [c.data] else [])
    && (Talking(p.phase) ==> c.connected && !c.leaving)
    && (Silent(p.phase) ==> !c.connected && !c.leaving)
    && (p.phase.Asking? || p.phase.Asked? ==> c.table == p.phase.job.table && c.fields == p.phase.job.fields)
    && ServerMatches(env, p.phase, w.server, w.wire)
  }

  // What the server makes of each request of the client.

  lemma LoginServed(env: Env)
    ensures Serve(env.db, StartStage(env.db), ConnectRequest(env.me.name, env.me.login, env.me.password))
         == match LoginVerdict(env)
            case Admitted => (Some(ConnectReply(NAME)), Commands)
            case Denied(message) => (Some(ConnectFailure(NAME, CODE_CONNECT, message)), Closed)
            case Mute => (None, if StartStage(env.db) == Closed then Closed else Commands)
            case Undefined => (None, Crashed)
  {
    var m := ConnectRequest(env.me.name, env.me.login, env.me.password);
    assert AtPath(m, "request", "login") == Some(Str(env.me.login));
    assert AtPath(m, "request", "password") == Some(Str(env.me.password));
  }

  lemma QueryServed(env: Env, job: Job)
    ensures Serve(env.db, Commands, QueryRequestOf(env.me.name, job.fields, QueryText(job)))
         == match JobAnswer(env, job)
            case Answered(columns) => (Some(QueryReplyOf(NAME, columns)), Commands)
            case Refused => (Some(DisconnectReply(NAME)), Closed)
            case Fatal => (None, Crashed)
  {
    hide Lookup;
    QueryRequestReadBack(env.me.name, job.fields, QueryText(job));
  }

  lemma PartingServed(env: Env)
    ensures Serve(env.db, Commands, DisconnectRequest(env.me.name)) == (Some(DisconnectReply(NAME)), Closed)
  {
  }

  // What the client makes of each reply of the server.

  lemma ConnectReplyRead(env: Env, c: Client)
    ensures Received(env.me, env.ser, c, Some(ConnectReply(NAME)))
         == Proceeded(env.me, c.(connected := true, leaving := false))
  {
    assert Status(ConnectReply(NAME)) == Some(Str("success"));
  }

  lemma ConnectFailureRead(env: Env, c: Client, message: string)
    ensures Received(env.me, env.ser, c, Some(ConnectFailure(NAME, CODE_CONNECT, message)))
         == Proceeded(env.me, c.(leaving := true))
  {
    assert Status(ConnectFailure(NAME, CODE_CONNECT, message)) == Some(Str("fail"));
  }

  lemma DisconnectReplyRead(env: Env, c: Client)
    ensures Received(env.me, env.ser, c, Some(DisconnectReply(NAME))) == Proceeded(env.me, c.(leaving := true))
  {
    assert Status(DisconnectReply(NAME)) == Some(Str("success"));
  }

  lemma AnsweredKeys(env: Env, job: Job)
    requires JobAnswer(env, job).Answered?
    ensures JobAnswer(env, job).columns.Keys == set f | f in job.fields
  {
  }

  lemma QueryReplyRead(env: Env, c: Client, job: Job)
    requires WritesStrings(env.ser)
    requires JobAnswer(env, job).Answered? && c.fields == job.fields
    ensures Received(env.me, env.ser, c, Some(QueryReplyOf(NAME, JobAnswer(env, job).columns)))
         == Proceeded(env.me, c.(data := c.data[c.table := Stored(JobAnswer(env, job).columns)]))
  {
    var columns := JobAnswer(env, job).columns;
    var m := QueryReplyOf(NAME, columns);
    AnsweredKeys(env, job);
    QueryReplyReadBack(env.ser, NAME, columns, job.fields);
    assert At(m, "target") == Some(Str("db_query"));
    QueryTarget(env, c, m, Stored(columns));
  }

  lemma QueryTarget(env: Env, c: Client, m: Json, columns: Columns)
    requires TargetIs(m, "db_query") && Decode(env.ser, m, c.fields) == Some(columns)
    ensures Analized(env.me, env.ser, c, m) == Proceeded(env.me, c.(data := c.data[c.table := columns]))
  {
  }

  lemma AppliedOnce(env: Env, data: RespData, history: seq<Entry>, job: Job, fate: Fate)
    ensures Applied(env, data, history + [Entry(job, fate)])
         == if fate == Fresh && JobAnswer(env, job).Answered?
            then Applied(env, data, history)[job.table := Stored(JobAnswer(env, job).columns)]
            else Applied(env, data, history)
  {
    assert (history + [Entry(job, fate)])[..|history|] == history;
  }

  /** Every completion moves the composed machine as the simple form says. */
  lemma StepMatches(env: Env, data: RespData, delivered: seq<RespData>, p: Progress, w: World, error: bool)
    requires WritesStrings(env.ser)
    requires Matches(env, data, delivered, p, w)
    ensures Matches(env, data, delivered, Progressed(env, p, error), Step(env, w, error))
  {
    if error {
      FailureMatches(env, data, delivered, p, w);
    } else {
      match p.phase
      case Dialing =>
      case Greeting => GreetingMatches(env, data, delivered, p, w);
      case Greeted => GreetedMatches(env, data, delivered, p, w);
      case Asking(job) => AskingMatches(env, data, delivered, p, w);
      case Asked(job) => AskedMatches(env, data, delivered, p, w);
      case Parting => PartingMatches(env, data, delivered, p, w);
      case Parted => PartedMatches(env, data, delivered, p, w);
      case _ => RestMatches(env, data, delivered, p, w);
    }
  }

  lemma RestMatches(env: Env, data: RespData, delivered: seq<RespData>, p: Progress, w: World)
    requires Matches(env, data, delivered, p, w)
    requires p.phase.Finished? || p.phase.Rejected? || p.phase.Muted? || p.phase.Hung? || p.phase.Orphaned?
    ensures Matches(env, data, delivered, Progressed(env, p, false), Step(env, w, false))
  {
  }

  lemma GreetingMatches(env: Env, data: RespData, delivered: seq<RespData>, p: Progress, w: World)
    requires Matches(env, data, delivered, p, w) && p.phase.Greeting?
    ensures Matches(env, data, delivered, Progressed(env, p, false), Step(env, w, false))
  {
    hide Verify;
    SendStep(env, w, ConnectRequest(env.me.name, env.me.login, env.me.password));
    LoginServed(env);
  }

  lemma SendStep(env: Env, w: World, m: Json)
    requires w.client.ops == [Send(m)]
    ensures Step(env, w, false) == World(Sent(w.client.(ops := []), false), Serve(env.db, w.server, m).1,
                                         Serve(env.db, w.server, m).0)
  {
  }

  lemma PartingMatches(env: Env, data: RespData, delivered: seq<RespData>, p: Progress, w: World)
    requires Matches(env, data, delivered, p, w) && p.phase.Parting?
    ensures Matches(env, data, delivered, Progressed(env, p, false), Step(env, w, false))
  {
    PartingServed(env);
  }

  lemma PartedMatches(env: Env, data: RespData, delivered: seq<RespData>, p: Progress, w: World)
    requires Matches(env, data, delivered, p, w) && p.phase.Parted?
    ensures Matches(env, data, delivered, Progressed(env, p, false), Step(env, w, false))
  {
    DisconnectReplyRead(env, w.client.(ops := []));
  }

  lemma AskingMatches(env: Env, data: RespData, delivered: seq<RespData>, p: Progress, w: World)
    requires Matches(env, data, delivered, p, w) && p.phase.Asking?
    ensures Matches(env, data, delivered, Progressed(env, p, false), Step(env, w, false))
  {
    hide Lookup;
    SendStep(env, w, QueryRequestOf(env.me.name, p.phase.job.fields, QueryText(p.phase.job)));
    QueryServed(env, p.phase.job);
  }

  lemma FailureMatches(env: Env, data: RespData, delivered: seq<RespData>, p: Progress, w: World)
    requires Matches(env, data, delivered, p, w)
    ensures Matches(env, data, delivered, Progressed(env, p, true), Step(env, w, true))
  {
    match p.phase
    case Asking(job) => AppliedOnce(env, data, p.history, job, Lost);
    case Asked(job) => AppliedOnce(env, data, p.history, job, Lost);
    case Hung(job) => if job.Some? { AppliedOnce(env, data, p.history, job.value, Lost); }
    case _ =>
  }

  lemma GreetedMatches(env: Env, data: RespData, delivered: seq<RespData>, p: Progress, w: World)
    requires Matches(env, data, delivered, p, w) && p.phase == Greeted
    ensures Matches(env, data, delivered, Progressed(env, p, false), Step(env, w, false))
  {
    hide Verify;
    var c := w.client.(ops := []);
    match LoginVerdict(env)
    case Admitted => ConnectReplyRead(env, c);
    case Denied(message) => ConnectFailureRead(env, c, message);
    case _ => assert false;
  }

  lemma AskedMatches(env: Env, data: RespData, delivered: seq<RespData>, p: Progress, w: World)
    requires WritesStrings(env.ser)
    requires Matches(env, data, delivered, p, w) && p.phase.Asked?
    ensures Matches(env, data, delivered, Progressed(env, p, false), Step(env, w, false))
  {
    var c, job := w.client.(ops := []), p.phase.job;
    ReceiveStep(env, w);
    if JobAnswer(env, job).Answered? {
      QueryReplyRead(env, c, job);
      AppliedOnce(env, data, p.history, job, Fresh);
      AdvanceMatches(env, data, delivered, Settle(p, job, Fresh),
                     c.(data := c.data[c.table := Stored(JobAnswer(env, job).columns)]));
    } else {
      DisconnectReplyRead(env, c);
      AppliedOnce(env, data, p.history, job, Turned);
      FinishMatches(env, data, delivered, Settle(p, job, Turned), c);
    }
  }

  lemma ReceiveStep(env: Env, w: World)
    requires w.client.ops == [Receive] && w.wire.Some?
    ensures Step(env, w, false) == World(Received(env.me, env.ser, w.client.(ops := []), w.wire), w.server, None)
  {
  }

  predicate InTalk(env: Env, data: RespData, delivered: seq<RespData>, p: Progress, c: Client) {
    c.todo == p.todo && c.data == Applied(env, data, p.history) && !c.crashed
    && c.ops == [] && c.delivered == delivered && c.connected
  }

  lemma AdvanceMatches(env: Env, data: RespData, delivered: seq<RespData>, p: Progress, c: Client)
    requires InTalk(env, data, delivered, p, c) && !c.leaving
    ensures Matches(env, data, delivered, Advance(p), World(Proceeded(env.me, c), Commands, None))
  {
  }

  lemma FinishMatches(env: Env, data: RespData, delivered: seq<RespData>, p: Progress, c: Client)
    requires InTalk(env, data, delivered, p, c)
    ensures Matches(env, data, delivered, p.(phase := Finished),
                    World(Proceeded(env.me, c.(leaving := true)), Closed, None))
  {
  }

  // ---- Runs

  /** A client about to refresh: nothing outstanding, nothing delivered by this run yet. */
  predicate Idle(c: Client) {
    c.ops == [] && !c.crashed
  }

  function Opening(c: Client, server: Stage): World {
    World(Started(c), server, None)
  }

  function Planned(c: Client): Progress {
    Progress(Dialing, c.todo, [])
  }

  lemma {:induction false} RunMatches(env: Env, c: Client, server: Stage, errors: seq<bool>)
    requires WritesStrings(env.ser) && Idle(c) && server != Crashed
    ensures Matches(env, c.data, c.delivered, Course(env, Planned(c), errors), Run(env, Opening(c, server), errors))
  {
    if errors != [] {
      var n := |errors| - 1;
      RunMatches(env, c, server, errors[..n]);
      StepMatches(env, c.data, c.delivered, Course(env, Planned(c), errors[..n]),
                  Run(env, Opening(c, server), errors[..n]), errors[n]);
    }
  }
}
