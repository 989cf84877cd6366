/** The refresh byte by byte: the same client and server, their messages sent and received in pieces, with the
    send counter and the parser that outlive a connection. */
module RefreshBytes {
  import opened Text
  import opened Json
  import opened JsonReader
  import opened JsonFormatter
  import opened SelectText
  import opened Sqlite
  import opened DataBaseServer
  import opened ClientDB
  import opened Refresh
  import opened RefreshTheorems
  import Framing
  import PartialSend

  /** `chain` is the message being sent, and holds the counter between messages; `flight` the bytes of the
      reply not received yet. */
  datatype Wired = Wired(world: World, chain: PartialSend.Chain, assembly: Framing.Assembly, flight: string)

  /** The outstanding operation fails, or moves some bytes. */
  datatype Signal = Fails | Moves(count: nat)

  ghost function Outgoing(w: World): string {
    if w.client.ops != [] && w.client.ops[0].Send? then Render(w.client.ops[0].message) else ""
  }

  ghost function Incoming(w: World): string {
    if w.client.ops != [] && w.client.ops[0].Receive? && w.wire.Some? then Render(w.wire.value) else ""
  }

  function Counter(chain: PartialSend.Chain): nat {
    if chain.Sending? then chain.sent else 0
  }

  /** An operation of the client is complete: a connection, a message sent, or a reply handed over. */
  ghost predicate Completes(b: Wired, s: Signal)
    requires !b.assembly.parser.done
  {
    && b.world.client.ops != []
    && match s
       case Fails => true
       case Moves(n) =>
         match b.world.client.ops[0]
         case Connect => true
         case Send(m) =>
           PartialSend.Acceptable(b.chain, n)
           && PartialSend.Written(Render(m), b.chain, n) == PartialSend.Complete(Render(m))
         case Receive =>
           n <= |b.flight| && b.world.wire.Some?
           && Framing.Assembled(b.assembly, b.flight[..n]).0 == Some(Render(b.world.wire.value))
  }

  /** The world at a completion with the message as its bytes read: what the socket accepted is the server's
      request, and the document handed over the client's reply. */
  ghost function Understood(b: Wired, s: Signal): World
    requires !b.assembly.parser.done && Completes(b, s)
  {
    var w := b.world;
    match s
    case Fails => w
    case Moves(n) =>
      match w.client.ops[0]
      case Connect => w
      case Send(_) =>
        var request := Read(b.chain.wire + b.chain.slice[..n]);
        if request.None? then w else w.(client := w.client.(ops := [Send(request.value)] + w.client.ops[1..]))
      case Receive => w.(wire := Read(Framing.Assembled(b.assembly, b.flight[..n]).0.value))
  }

  /** Each side understands the message the other meant: its text is the text of no other. */
  lemma UnderstoodIsMeant(b: Wired, s: Signal)
    requires !b.assembly.parser.done && Completes(b, s)
    ensures Understood(b, s) == b.world
    ensures s.Moves? && b.world.client.ops[0].Receive? ==>
              forall j :: Framing.Assembled(b.assembly, b.flight[..s.count]).0 == Some(Render(j)) <==>
                          b.world.wire == Some(j)
  {
    hide Read;
    var ops := b.world.client.ops;
    if s.Moves? && ops[0].Send? {
      ReadBack(ops[0].message);
      assert [ops[0]] + ops[1..] == ops;
    } else if s.Moves? && ops[0].Receive? {
      ReadBack(b.world.wire.value);
      forall j
        ensures Framing.Assembled(b.assembly, b.flight[..s.count]).0 == Some(Render(j)) <==> b.world.wire == Some(j)
      {
        TextDetermines(b.world.wire.value, j);
      }
    }
  }

  /** A completed operation is an event of the composed machine; the next message starts at the counter left.
      A message begun at another counter than 0, or a document that is not the reply sent, is followed no
      further. */
  ghost function Signalled(env: Env, b: Wired, s: Signal): (after: Wired)
    requires !b.assembly.parser.done
    ensures !after.assembly.parser.done
  {
    if b.world.client.ops == [] then b
    else
      var op := b.world.client.ops[0];
      var n := if s.Moves? then s.count else 0;
      var assembly := if s.Moves? && op.Receive? && n <= |b.flight| then Framing.Assembled(b.assembly, b.flight[..n]).1
                      else b.assembly;
      if Completes(b, s) then
        var w := Step(env, Understood(b, s), s.Fails?);
        var counter := if s.Moves? && op.Send? then 0 else Counter(b.chain);
        Wired(w, PartialSend.Begun(Outgoing(w), counter), assembly, Incoming(w))
      else if op.Send? && PartialSend.Acceptable(b.chain, n) then
        b.(chain := PartialSend.Written(Render(op.message), b.chain, n))
      else b.(assembly := assembly, flight := if op.Receive? && n <= |b.flight| then b.flight[n..] else b.flight)
  }

  ghost function Wires(env: Env, b: Wired, signals: seq<Signal>): (after: Wired)
    requires !b.assembly.parser.done
    ensures !after.assembly.parser.done
  {
    if signals == [] then b else Signalled(env, Wires(env, b, signals[..|signals| - 1]), signals[|signals| - 1])
  }

  ghost function Beginning(c: Client, server: Stage): Wired {
    Wired(Opening(c, server), PartialSend.Begun("", 0), Framing.START, "")
  }

  // ---- Every run over bytes is a run of the composed machine

  /** The operations completed, `true` for those that failed. */
  ghost function Completions(env: Env, b: Wired, signals: seq<Signal>): (errors: seq<bool>)
    requires !b.assembly.parser.done
    ensures |errors| <= |signals|
  {
    if signals == [] then []
    else
      var n := |signals| - 1;
      Completions(env, b, signals[..n])
      + if Completes(Wires(env, b, signals[..n]), signals[n]) then [signals[n].Fails?] else []
  }

  lemma {:induction false} RunOfCompletions(env: Env, b: Wired, signals: seq<Signal>)
    requires !b.assembly.parser.done
    ensures Wires(env, b, signals).world == Run(env, b.world, Completions(env, b, signals))
  {
    if signals != [] {
      hide Step, Completes, Signalled, Run;
      var n := |signals| - 1;
      RunOfCompletions(env, b, signals[..n]);
      WorldAfter(env, Wires(env, b, signals[..n]), signals[n]);
      RunExtended(env, b.world, Completions(env, b, signals[..n]), signals[n].Fails?);
      assert Completions(env, b, signals[..n]) + [] == Completions(env, b, signals[..n]);
    } else {
      RunExtended(env, b.world, [], true);
    }
  }

  lemma WorldAfter(env: Env, b: Wired, s: Signal)
    requires !b.assembly.parser.done
    ensures Signalled(env, b, s).world == if Completes(b, s) then Step(env, b.world, s.Fails?) else b.world
  {
    hide Understood;
    if Completes(b, s) {
      UnderstoodIsMeant(b, s);
    }
  }

  lemma RunExtended(env: Env, w: World, errors: seq<bool>, error: bool)
    ensures Run(env, w, []) == w
    ensures Run(env, w, errors + [error]) == Step(env, Run(env, w, errors), error)
  {
    hide Step;
    assert (errors + [error])[..|errors|] == errors;
  }

  /** So what holds of every run of the composed machine holds of every run over bytes. */
  lemma EveryRunOfBytes(env: Env, c: Client, server: Stage, signals: seq<Signal>)
    requires WritesStrings(env.ser) && Idle(c) && server != Crashed
    ensures var errors := Completions(env, Beginning(c, server), signals);
            && Wires(env, Beginning(c, server), signals).world == Run(env, Opening(c, server), errors)
            && Explainable(env, c, Opening(c, server), errors)
  {
    hide Explainable, Run, Completions;
    RunOfCompletions(env, Beginning(c, server), signals);
    EveryRun(env, c, server, Completions(env, Beginning(c, server), signals));
  }

  // ---- Where the client stands after one event

  /** Nothing outstanding, or a request to send. */
  predicate SendsOrRests(w: World) {
    w.client.ops == [] || (|w.client.ops| == 1 && w.client.ops[0].Send? && w.client.ops[0].message.Obj?)
  }

  lemma ProceededSends(me: Identity, c: Client)
    requires c.ops == []
    ensures var ops := Proceeded(me, c).ops;
            ops == [] || (|ops| == 1 && ops[0].Send? && ops[0].message.Obj?)
  {
    hide QueryText;
  }

  lemma AnalizedSends(me: Identity, ser: Serializer, c: Client, m: Json)
    requires c.ops == []
    ensures var ops := Analized(me, ser, c, m).ops;
            ops == [] || (|ops| == 1 && ops[0].Send? && ops[0].message.Obj?)
  {
    hide Proceeded, Decode;
    var columns := Decode(ser, m, c.fields);
    ProceededSends(me, c);
    ProceededSends(me, c.(leaving := true));
    ProceededSends(me, c.(leaving := false));
    ProceededSends(me, c.(connected := true, leaving := false));
    if columns.Some? {
      ProceededSends(me, c.(data := c.data[c.table := columns.value]));
    }
  }

  lemma ServesObjects(db: Database, stage: Stage, m: Json)
    ensures var reply := Serve(db, stage, m).0;
            reply.Some? ==> reply.value.Obj?
  {
    hide Verify, Lookup, AtPath, FieldsOf, QueryOf;
  }

  lemma ConnectStep(env: Env, w: World)
    requires w.client.ops == [Connect]
    ensures var after := Step(env, w, false);
            after.wire == None && (after.client.ops == [Connect] || SendsOrRests(after))
  {
    ProceededSends(env.me, w.client.(ops := []));
  }

  lemma SendCompletes(env: Env, w: World)
    requires |w.client.ops| == 1 && w.client.ops[0].Send?
    ensures var after := Step(env, w, false);
            after.client.ops == [Receive] && (after.wire.Some? ==> after.wire.value.Obj?)
  {
    hide Serve;
    ServesObjects(env.db, w.server, w.client.ops[0].message);
  }

  lemma ReceiveCompletes(env: Env, w: World)
    requires w.client.ops == [Receive] && w.wire.Some?
    ensures var after := Step(env, w, false);
            after.wire == None && SendsOrRests(after)
  {
    hide Analized;
    ReceiveStep(env, w);
    AnalizedSends(env.me, env.ser, w.client.(ops := []), w.wire.value);
  }

  lemma FailedStep(env: Env, w: World)
    requires |w.client.ops| == 1
    ensures var after := Step(env, w, true);
            after.wire == None && after.client.ops == [Connect]
            && !after.client.connected && !after.client.leaving && after.client.delivered == w.client.delivered
  {
  }

  // ---- Runs whose errors fall between messages

  /** Part of a reply is read, the rest of it in flight. */
  ghost predicate Reading(p: Framing.Parser, flight: string, reply: Json) {
    && !p.done && reply.Obj? && p.text + flight == Render(reply) && flight != ""
    && Framing.Decode(p, flight) == ([Render(reply)], Framing.FRESH)
    && (p == Framing.FRESH || Framing.Stale(p))
  }

  lemma ReadingBegins(reply: Json)
    requires reply.Obj?
    ensures Reading(Framing.FRESH, Render(reply), reply)
  {
    Framing.WholeDecoded(reply);
  }

  lemma ReadingGoesOn(p: Framing.Parser, flight: string, reply: Json, n: nat)
    requires Reading(p, flight, reply) && 0 < n <= |flight|
    ensures var (document, next) := Framing.Assembled(Framing.Assembly(p, false), flight[..n]);
            if n == |flight| then document == Some(Render(reply)) && next == Framing.START
            else document == None && !next.failed && Reading(next.parser, flight[n..], reply)
  {
    if n == |flight| {
      assert flight[..n] == flight;
      Framing.BackFinishes(p, flight);
    } else {
      var front, back := flight[..n], flight[n..];
      assert front + back == flight;
      assert p.text + front + back == p.text + flight;
      Framing.FrontUnfinished(p, front, back);
      Framing.WriteSomeDecodes(p, front);
      if p == Framing.FRESH {
        assert flight == Render(reply);
        Framing.FrontStale(reply, n);
      } else {
        Framing.StaleStays(p, front);
      }
    }
  }

  ghost predicate AtRest(b: Wired) {
    b.chain == PartialSend.Begun("", 0) && b.assembly == Framing.START && b.flight == ""
  }

  /** Whatever is outstanding is a front of the message it should be. */
  ghost predicate Intact(b: Wired) {
    var ops := b.world.client.ops;
    && |ops| <= 1
    && if ops == [] then AtRest(b)
       else
         match ops[0]
         case Connect => AtRest(b)
         case Send(m) =>
           m.Obj? && b.assembly == Framing.START && b.flight == ""
           && b.chain.Sending? && b.chain.slice != "" && PartialSend.Tiles(Render(m), b.chain)
         case Receive =>
           b.chain == PartialSend.Begun("", 0) && !b.assembly.failed
           && match b.world.wire
              case None => AtRest(b)
              case Some(reply) => Reading(b.assembly.parser, b.flight, reply)
  }

  /** What the socket can do: accept part of what it is given, deliver part of what is in flight, or fail. */
  predicate Possible(b: Wired, s: Signal) {
    b.world.client.ops != [] && s.Moves? ==>
      match b.world.client.ops[0]
      case Connect => true
      case Send(_) => PartialSend.Acceptable(b.chain, s.count)
      case Receive => 0 < s.count <= |b.flight|
  }

  /** An error that finds no byte of a message sent, and no byte of a reply received. */
  predicate SendClear(b: Wired, s: Signal) {
    b.world.client.ops != [] && s.Fails? ==> Counter(b.chain) == 0
  }

  predicate HearsClear(b: Wired, s: Signal) {
    b.world.client.ops != [] && s.Fails? ==> b.assembly.parser == Framing.FRESH
  }

  /** The bytes the outstanding operation still has to move, counting a connection or a wait as one. */
  function Left(b: Wired): nat {
    if b.world.client.ops == [] then 0
    else if b.world.client.ops[0].Send? && b.chain.Sending? then |b.chain.slice|
    else if b.flight != "" then |b.flight|
    else 1
  }

  /** Errors between messages keep everything whole, and every other signal brings its operation nearer to
      completion. */
  lemma IntactStays(env: Env, b: Wired, s: Signal)
    requires Intact(b) && !b.assembly.parser.done && Possible(b, s) && SendClear(b, s) && HearsClear(b, s)
    ensures Intact(Signalled(env, b, s))
    ensures b.world.client.ops != [] && !Completes(b, s) ==> Left(Signalled(env, b, s)) < Left(b)
    ensures b.world.client.ops != [] ==> Left(b) > 0
  {
    if b.world.client.ops != [] {
      if s.Fails? {
        FailedStep(env, b.world);
      } else {
        match b.world.client.ops[0]
        case Connect =>
          ConnectStep(env, b.world);
          RestIntact(Step(env, b.world, false));
        case Send(m) => SendIntact(env, b, s.count);
        case Receive => ReceiveIntact(env, b, s.count);
      }
    }
  }

  lemma RestIntact(w: World)
    requires w.wire == None && (w.client.ops == [Connect] || SendsOrRests(w))
    ensures Intact(Wired(w, PartialSend.Begun(Outgoing(w), 0), Framing.START, Incoming(w)))
  {
    if w.client.ops != [] && w.client.ops[0].Send? {
      var buf := Render(w.client.ops[0].message);
      assert buf[0] == '{' && buf[0..] == buf;
    }
  }

  lemma SendIntact(env: Env, b: Wired, n: nat)
    requires Intact(b) && !b.assembly.parser.done && Possible(b, Moves(n))
    requires b.world.client.ops != [] && b.world.client.ops[0].Send?
    ensures var after := Signalled(env, b, Moves(n));
            Intact(after) && (!Completes(b, Moves(n)) ==> Left(after) < Left(b))
  {
    var buf := Render(b.world.client.ops[0].message);
    PartialSend.WrittenTiles(buf, b.chain, n);
    hide Understood, Read, Step, PartialSend.Tiles;
    if Completes(b, Moves(n)) {
      UnderstoodIsMeant(b, Moves(n));
      SendCompletes(env, b.world);
      var w := Step(env, b.world, false);
      if w.wire.Some? {
        ReadingBegins(w.wire.value);
      }
    }
  }

  lemma ReceiveIntact(env: Env, b: Wired, n: nat)
    requires Intact(b) && !b.assembly.parser.done && Possible(b, Moves(n))
    requires b.world.client.ops != [] && b.world.client.ops[0].Receive?
    ensures var after := Signalled(env, b, Moves(n));
            Intact(after) && (!Completes(b, Moves(n)) ==> Left(after) < Left(b))
  {
    hide Understood, Read, Step;
    ReadingGoesOn(b.assembly.parser, b.flight, b.world.wire.value, n);
    if Completes(b, Moves(n)) {
      UnderstoodIsMeant(b, Moves(n));
      ReceiveCompletes(env, b.world);
      RestIntact(Step(env, b.world, false));
    }
  }

  // ---- An error inside a reply

  function Login(env: Env): Json {
    ConnectRequest(env.me.name, env.me.login, env.me.password)
  }

  /** A client that dials and logs in again and again, and never hears an answer: whatever is in flight, its
      parser stays inside the document it was stopped in. */
  ghost predicate Deaf(env: Env, delivered: seq<RespData>, b: Wired) {
    var c := b.world.client;
    && c.delivered == delivered && !c.connected && !c.leaving
    && !b.assembly.failed && Framing.Stale(b.assembly.parser)
    && Framing.Decode(b.assembly.parser, b.flight).0 == []
    && if c.ops == [Send(Login(env))] then
         b.world.server == StartStage(env.db) && b.chain.Sending? && PartialSend.Tiles(Render(Login(env)), b.chain)
       else (c.ops == [Connect] || c.ops == [Receive]) && b.chain == PartialSend.Begun("", 0)
  }

  lemma NamesTame()
    ensures Framing.Tame("sender") && Framing.Tame("target") && Framing.Tame("response") && Framing.Tame("status")
    ensures Framing.Tame("error_code") && Framing.Tame("message") && Framing.Tame(NAME) && Framing.Tame(CODE_CONNECT)
    ensures Framing.Tame("connect") && Framing.Tame("success") && Framing.Tame("fail")
  {
  }

  lemma RefusalsTame()
    ensures Framing.Tame("No dataBase") && Framing.Tame("User not found") && Framing.Tame("Password mismatch")
  {
  }

  lemma VerdictTame(env: Env)
    ensures var verdict := LoginVerdict(env);
            verdict.Denied? ==> Framing.Tame(verdict.message)
  {
    hide FindLogin, SameText, Gathered, Framing.Tame;
    RefusalsTame();
  }

  lemma ResponseTame(target: string, response: map<string, Json>)
    requires Framing.Tame(target) && Framing.TameJson(Obj(response))
    ensures Framing.TameJson(Response(NAME, target, response))
  {
    hide Framing.Tame;
    NamesTame();
  }

  lemma ConnectRepliesTame(message: string)
    ensures Framing.TameJson(ConnectReply(NAME))
    ensures Framing.Tame(message) ==> Framing.TameJson(ConnectFailure(NAME, CODE_CONNECT, message))
  {
    hide Framing.Tame;
    NamesTame();
    ResponseTame("connect", map["status" := Str("success")]);
    if Framing.Tame(message) {
      ResponseTame("connect", map["status" := Str("fail"), "error_code" := Str(CODE_CONNECT),
                                  "message" := Str(message)]);
    }
  }

  lemma LoginRepliesTame(env: Env)
    ensures var reply := Serve(env.db, StartStage(env.db), Login(env)).0;
            reply.Some? ==> reply.value.Obj? && Framing.TameJson(reply.value)
  {
    hide LoginVerdict, Serve, StartStage, Framing.Tame, Framing.TameJson;
    LoginServed(env);
    VerdictTame(env);
    var verdict := LoginVerdict(env);
    ConnectRepliesTame(if verdict.Denied? then verdict.message else "");
  }

  lemma DeafStays(env: Env, delivered: seq<RespData>, b: Wired, s: Signal)
    requires Deaf(env, delivered, b) && !b.assembly.parser.done && SendClear(b, s)
    ensures Deaf(env, delivered, Signalled(env, b, s))
  {
    if s.Fails? {
      FailedStep(env, b.world);
    } else {
      match b.world.client.ops[0]
      case Connect =>
        var buf := Render(Login(env));
        assert buf[0..] == buf;
      case Send(_) => DeafSends(env, delivered, b, s.count);
      case Receive => DeafReceives(env, delivered, b, s.count);
    }
  }

  lemma DeafSends(env: Env, delivered: seq<RespData>, b: Wired, n: nat)
    requires Deaf(env, delivered, b) && !b.assembly.parser.done && b.world.client.ops == [Send(Login(env))]
    ensures Deaf(env, delivered, Signalled(env, b, Moves(n)))
  {
    hide Serve, Understood, Read, Render;
    if PartialSend.Acceptable(b.chain, n) {
      PartialSend.WrittenTiles(Render(Login(env)), b.chain, n);
      if Completes(b, Moves(n)) {
        UnderstoodIsMeant(b, Moves(n));
        LoginRepliesTame(env);
        SendStep(env, b.world, Login(env));
        var reply := Serve(env.db, b.world.server, Login(env)).0;
        if reply.Some? {
          Framing.TameUnheard(b.assembly.parser, reply.value);
        }
      }
    }
  }

  lemma DeafReceives(env: Env, delivered: seq<RespData>, b: Wired, n: nat)
    requires Deaf(env, delivered, b) && !b.assembly.parser.done && b.world.client.ops == [Receive]
    ensures Deaf(env, delivered, Signalled(env, b, Moves(n)))
  {
    if n <= |b.flight| {
      var p := b.assembly.parser;
      Framing.FrontSilent(p, b.flight, n);
      Framing.SilentAssembled(p, b.flight[..n]);
      Framing.StaleStays(p, b.flight[..n]);
    }
  }

  lemma TurnsDeaf(env: Env, b: Wired)
    requires Intact(b) && !b.assembly.parser.done && SendClear(b, Fails) && !HearsClear(b, Fails)
    ensures Deaf(env, b.world.client.delivered, Signalled(env, b, Fails))
  {
    FailedStep(env, b.world);
  }

  // ---- Exactly which runs end

  /** Every signal is possible, and no error finds a message partly sent. */
  ghost predicate Feasible(env: Env, b: Wired, signals: seq<Signal>)
    requires !b.assembly.parser.done
  {
    signals == [] || (
      var n := |signals| - 1;
      var before := Wires(env, b, signals[..n]);
      Feasible(env, b, signals[..n]) && Possible(before, signals[n]) && SendClear(before, signals[n]))
  }

  /** No error finds a reply partly received. */
  ghost predicate Heard(env: Env, b: Wired, signals: seq<Signal>)
    requires !b.assembly.parser.done
  {
    signals == [] || (
      var n := |signals| - 1;
      Heard(env, b, signals[..n]) && HearsClear(Wires(env, b, signals[..n]), signals[n]))
  }

  lemma NotYet(env: Env, c: Client, server: Stage, signals: seq<Signal>)
    requires WritesStrings(env.ser) && Idle(c) && server != Crashed
    ensures var client := Wires(env, Beginning(c, server), signals).world.client;
            client.ops != [] ==> client.delivered == c.delivered
  {
    hide Run, Completions, Wires, Applied, Truthful, Queries, QueriesOf, InQuery, LostIn, ErrorsInQuery, JobsOf;
    EveryRunOfBytes(env, c, server, signals);
    var errors := Completions(env, Beginning(c, server), signals);
    var history, underway :| Explained(env, c, Opening(c, server), errors, history, underway);
  }

  /** Every run is whole, or deaf from its first error inside a reply on. */
  lemma {:induction false} WholeOrDeaf(env: Env, c: Client, server: Stage, signals: seq<Signal>)
    requires WritesStrings(env.ser) && Idle(c) && server != Crashed
    requires Feasible(env, Beginning(c, server), signals)
    ensures var b := Wires(env, Beginning(c, server), signals);
            if Heard(env, Beginning(c, server), signals) then Intact(b) else Deaf(env, c.delivered, b)
  {
    if signals != [] {
      hide Signalled, Intact, Deaf, Possible, SendClear, HearsClear, WritesStrings;
      var n := |signals| - 1;
      WholeOrDeaf(env, c, server, signals[..n]);
      var b, s := Wires(env, Beginning(c, server), signals[..n]), signals[n];
      if !Heard(env, Beginning(c, server), signals[..n]) {
        DeafStays(env, c.delivered, b, s);
      } else if HearsClear(b, s) {
        IntactStays(env, b, s);
      } else {
        NotYet(env, c, server, signals[..n]);
        NotHeard(b, s);
        TurnsDeaf(env, b);
      }
    }
  }

  lemma NotHeard(b: Wired, s: Signal)
    requires !HearsClear(b, s)
    ensures s == Fails && b.world.client.ops != []
  {
  }

  function Failures(signals: seq<Signal>): nat {
    if signals == [] then 0
    else Failures(signals[..|signals| - 1]) + if signals[|signals| - 1].Fails? then 1 else 0
  }

  /** No message has more bytes. */
  ghost predicate Within(env: Env, b: Wired, signals: seq<Signal>, most: nat)
    requires !b.assembly.parser.done
  {
    Left(Wires(env, b, signals)) <= most && (signals == [] || Within(env, b, signals[..|signals| - 1], most))
  }

  /** Every completion takes at most as many signals as its message has bytes. */
  lemma {:induction false} SignalsSpent(env: Env, c: Client, server: Stage, signals: seq<Signal>, most: nat)
    requires WritesStrings(env.ser) && Idle(c) && server != Crashed
    requires Feasible(env, Beginning(c, server), signals) && Heard(env, Beginning(c, server), signals)
    requires Within(env, Beginning(c, server), signals, most)
    ensures var (b, k) := (Wires(env, Beginning(c, server), signals),
                           |Completions(env, Beginning(c, server), signals)|);
            b.world.client.ops == [] || (Left(b) > 0 && |signals| + Left(b) <= most * (k + 1))
    ensures Count(Completions(env, Beginning(c, server), signals)) <= Failures(signals)
  {
    hide Signalled, Intact, Possible, SendClear, HearsClear, WritesStrings, Completes, Left;
    if signals == [] {
      FirstSignal(c, server);
    } else {
      var n := |signals| - 1;
      SignalsSpent(env, c, server, signals[..n], most);
      WholeOrDeaf(env, c, server, signals[..n]);
      var b, s := Wires(env, Beginning(c, server), signals[..n]), signals[n];
      IntactStays(env, b, s);
      SomethingLeft(Signalled(env, b, s));
      if b.world.client.ops == [] {
        NoneOutstanding(env, b, s);
      }
      var before := Completions(env, Beginning(c, server), signals[..n]);
      if Completes(b, s) {
        assert Completions(env, Beginning(c, server), signals) == before + [s.Fails?];
        assert (before + [s.Fails?])[..|before|] == before;
        assert most * (|before| + 2) == most * (|before| + 1) + most;
      } else {
        assert Completions(env, Beginning(c, server), signals) == before;
      }
    }
  }

  lemma FirstSignal(c: Client, server: Stage)
    requires Idle(c)
    ensures Left(Beginning(c, server)) == 1 && Beginning(c, server).world.client.ops != []
  {
  }

  lemma SomethingLeft(b: Wired)
    requires Intact(b)
    ensures b.world.client.ops == [] || Left(b) > 0
  {
  }

  lemma NoneOutstanding(env: Env, b: Wired, s: Signal)
    requires !b.assembly.parser.done && b.world.client.ops == []
    ensures Signalled(env, b, s) == b && !Completes(b, s)
  {
  }

  lemma Enough(most: nat, k: nat, bound: nat)
    requires k + 1 <= bound
    ensures most * (k + 1) <= most * bound
  {
  }

  lemma WholeRunEnds(env: Env, c: Client, server: Stage, signals: seq<Signal>, most: nat)
    requires WritesStrings(env.ser) && Idle(c) && server != Crashed
    requires Feasible(env, Beginning(c, server), signals) && Heard(env, Beginning(c, server), signals)
    requires Within(env, Beginning(c, server), signals, most)
    requires |signals| >= most * (2 * |c.todo| + 5 + 5 * Failures(signals))
    ensures LoginVerdict(env).Admitted? && NoneFatal(env, c.todo) ==>
              var client := Wires(env, Beginning(c, server), signals).world.client;
              client.ops == [] && client.delivered == c.delivered + [client.data]
  {
    hide LoginVerdict, NoneFatal, Wires, Completions, Feasible, Heard, Within, Left, WritesStrings, Run;
    var errors := Completions(env, Beginning(c, server), signals);
    RunOfCompletions(env, Beginning(c, server), signals);
    SignalsSpent(env, c, server, signals, most);
    var bound := 2 * |c.todo| + 5 + 5 * Failures(signals);
    if |errors| < bound {
      Enough(most, |errors|, bound);
      assert Wires(env, Beginning(c, server), signals).world.client.ops == [];
      RestsWhenDone(env, c, server, errors);
    } else {
      EveryRunEnds(env, c, server, errors);
    }
  }

  /** Exactly which runs end. Take any run in which no error finds a message partly sent: with a login that is
      admitted, no fatal query and a signal for every byte, it has fired its one callback if and only if no
      error found a reply partly received. After one that did, there is never a callback. */
  lemma EndsExactly(env: Env, c: Client, server: Stage, signals: seq<Signal>, most: nat)
    requires WritesStrings(env.ser) && Idle(c) && server != Crashed
    requires Feasible(env, Beginning(c, server), signals)
    ensures !Heard(env, Beginning(c, server), signals) ==>
              Wires(env, Beginning(c, server), signals).world.client.delivered == c.delivered
    ensures LoginVerdict(env).Admitted? && NoneFatal(env, c.todo)
            && Within(env, Beginning(c, server), signals, most)
            && |signals| >= most * (2 * |c.todo| + 5 + 5 * Failures(signals)) ==>
              var client := Wires(env, Beginning(c, server), signals).world.client;
              client.delivered == c.delivered + [client.data] <==> Heard(env, Beginning(c, server), signals)
  {
    hide LoginVerdict, NoneFatal, Wires, Feasible, Heard, Within, Left, WritesStrings, Intact;
    WholeOrDeaf(env, c, server, signals);
    if Heard(env, Beginning(c, server), signals) && Within(env, Beginning(c, server), signals, most)
       && |signals| >= most * (2 * |c.todo| + 5 + 5 * Failures(signals)) {
      WholeRunEnds(env, c, server, signals, most);
    }
  }

  /** Once deaf, deaf for good: no continuation of the run brings a callback. */
  lemma {:induction false} DeafForGood(env: Env, delivered: seq<RespData>, b: Wired, signals: seq<Signal>)
    requires Deaf(env, delivered, b) && !b.assembly.parser.done && Feasible(env, b, signals)
    ensures Deaf(env, delivered, Wires(env, b, signals))
  {
    if signals != [] {
      hide Signalled, Deaf, Possible, SendClear;
      DeafForGood(env, delivered, b, signals[..|signals| - 1]);
      DeafStays(env, delivered, Wires(env, b, signals[..|signals| - 1]), signals[|signals| - 1]);
    }
  }
}
