/** Dialogs over whole traces of requests: noninterference, reachable states, and which answers exist. */
module DialogTheorems {
  import opened Text
  import opened Json
  import opened ClientDB
  import opened Keywords
  import opened WorkerM

  // ---- Traces

  function Play(t: Tables, skill: Skill, sessions: Sessions, requests: seq<Request>): Sessions
    decreases |requests|
  {
    if requests == [] then sessions
    else Play(t, skill, Respond(t, skill, sessions, requests[0]).1, requests[1..])
  }

  /** The outputs one station gets out of an interleaved trace. */
  function Heard(t: Tables, skill: Skill, sessions: Sessions, requests: seq<Request>, station: string): seq<Output>
    decreases |requests|
  {
    if requests == [] then []
    else
      var (output, next) := Respond(t, skill, sessions, requests[0]);
      (if requests[0].station == station then [output] else [])
      + Heard(t, skill, next, requests[1..], station)
  }

  function Only(requests: seq<Request>, station: string): seq<Request> {
    if requests == [] then []
    else (if requests[0].station == station then [requests[0]] else []) + Only(requests[1..], station)
  }

  lemma RespondViews(t: Tables, skill: Skill, sessions: Sessions, request: Request, station: string)
    ensures var (output, next) := Respond(t, skill, sessions, request);
            if station == request.station then
              var (own, talk) := Reply(t, skill, View(sessions, station), request);
              output == own && View(next, station) == if talk.Some? && talk.value.step == 0 then None else talk
            else View(next, station) == View(sessions, station)
  {
    var talk := View(sessions, request.station);
    assert talk.Some? ==> Reply(t, skill, talk, request).1.Some?;
    hide Reply;
  }

  /** A station hears, and ends up, as if no other station had ever spoken. */
  lemma {:induction false} Noninterference(
    t: Tables, skill: Skill, mixed: Sessions, alone: Sessions, requests: seq<Request>, station: string)
    requires View(mixed, station) == View(alone, station)
    ensures Heard(t, skill, mixed, requests, station) == Heard(t, skill, alone, Only(requests, station), station)
    ensures View(Play(t, skill, mixed, requests), station)
         == View(Play(t, skill, alone, Only(requests, station)), station)
    decreases |requests|
  {
    if requests != [] {
      hide Respond, View;
      var request, rest := requests[0], requests[1..];
      RespondViews(t, skill, mixed, request, station);
      var next := Respond(t, skill, mixed, request).1;
      if request.station == station {
        RespondViews(t, skill, alone, request, station);
        Noninterference(t, skill, next, Respond(t, skill, alone, request).1, rest, station);
        assert Only(requests, station) == [request] + Only(rest, station);
      } else {
        Noninterference(t, skill, next, alone, rest, station);
        assert Only(requests, station) == Only(rest, station);
      }
    }
  }

  // ---- Reachable states

  /** The kinds and steps a stored dialog can have; a live dialog of interesting facts has facts to tell. */
  predicate SoundTalk(t: Tables, talk: Talk) {
    || ((talk.kind == "number_of_places" || talk.kind == "min_score") && talk.step <= 2)
    || (talk.kind == "university_fact" && talk.step <= 1)
    || (talk.kind == "interesting_fact" && talk.step <= 1
        && (talk.step == 1 ==> "fact" in t.interesting && t.interesting["fact"] != []))
  }

  predicate Sound(t: Tables, sessions: Sessions) {
    forall station <- sessions :: SoundTalk(t, sessions[station])
  }

  /** Columns of the directions' table have a cell for every row. */
  predicate Rectangular(t: Columns) {
    forall a <- t, b <- t :: |t[a]| == |t[b]|
  }

  lemma AskSound(t: Tables, talk: Talk, command: string, wanted: string, before: string, after: string)
    requires Rectangular(t.preparation) && 1 <= talk.step <= 2
    ensures var (output, next) := AskStep(t, talk, command, wanted, before, after);
            output != Undefined && next.kind == talk.kind && next.step <= 2
  {
  }

  lemma FactSound(guard: Columns, list: Columns, talk: Talk, command: string, dice: nat)
    requires talk.step == 1
    requires guard == list || ("fact" in list && list["fact"] != [])
    ensures var (output, next) := FactStep(guard, list, talk, command, dice);
            output != Undefined && next.kind == talk.kind && next.step <= 1
  {
  }

  /** The places, score and fact dialogs keep to their steps, and no index is out of bounds. */
  lemma ContinueSound(t: Tables, talk: Talk, command: string, dice: nat)
    requires Rectangular(t.preparation) && SoundTalk(t, talk) && talk.step != 0
    ensures var (output, next) := Continue(t, talk, command, dice);
            output != Undefined && SoundTalk(t, next)
  {
    hide AskStep, FactStep;
    if talk.kind == "number_of_places" {
      AskSound(t, talk, command, PLACES_FIELD, PLACES_BEFORE, PLACES_AFTER);
    } else if talk.kind == "min_score" {
      AskSound(t, talk, command, SCORE_FIELD, SCORE_BEFORE, SCORE_AFTER);
    } else if talk.kind == "interesting_fact" {
      FactSound(t.university, t.interesting, talk, command, dice);
    } else {
      FactSound(t.university, t.university, talk, command, dice);
    }
  }

  lemma BeginSound(t: Tables, skill: Skill, response: string, command: string, dice: nat)
    ensures var (output, next) := Begin(t, skill, response, command, dice);
            output != Undefined && (next.Some? ==> SoundTalk(t, next.value))
  {
    hide Schedule;
  }

  lemma RespondSound(t: Tables, skill: Skill, sessions: Sessions, request: Request)
    requires Rectangular(t.preparation) && Sound(t, sessions)
    ensures var (output, next) := Respond(t, skill, sessions, request);
            output != Undefined && Sound(t, next)
  {
    hide Continue, Begin, SoundTalk;
    var talk := View(sessions, request.station);
    var command := Dequote(Quote(request.command));
    if talk.Some? {
      ContinueSound(t, talk.value, command, request.dice);
    } else {
      BeginSound(t, skill, FindVariantIn(t.phrases, command), command, request.dice);
    }
  }

  /** From sound states every trace over fixed tables stays sound and no output is undefined. */
  lemma {:induction false} ReachableSound(t: Tables, skill: Skill, sessions: Sessions, requests: seq<Request>,
    station: string)
    requires Rectangular(t.preparation) && Sound(t, sessions)
    ensures Sound(t, Play(t, skill, sessions, requests))
    ensures Undefined !in Heard(t, skill, sessions, requests, station)
    decreases |requests|
  {
    if requests != [] {
      hide Respond, Sound;
      RespondSound(t, skill, sessions, requests[0]);
      ReachableSound(t, skill, Respond(t, skill, sessions, requests[0]).1, requests[1..], station);
    }
  }

  /** The wrong table is tested for emptiness: exactly the tables and commands for which a dialog of interesting
      facts would index an empty list. No refresh leaves such tables. */
  lemma FactUndefinedExactly(t: Tables, skill: Skill, talk: Talk, request: Request)
    requires talk.kind == "interesting_fact"
    ensures Reply(t, skill, Some(talk), request).0 == Undefined <==>
              && talk.step == 1 && Contains(Dequote(Quote(request.command)), YES)
              && "fact" in t.university && t.university["fact"] != []
              && "fact" in t.interesting && t.interesting["fact"] == []
  {
  }

  // ---- Places and scores

  predicate AllQuoted(cells: seq<string>) {
    forall c <- cells :: '"' in c
  }

  predicate NoQuotes(variants: seq<Variant>) {
    forall v <- variants :: '"' !in v.response
  }

  /** A places or score question is answered exactly when the first row whose `direction` cell equals the
      direction named has something in the wanted column. */
  lemma PlacesAnsweredExactly(t: Tables, talk: Talk, command: string, wanted: string, before: string, after: string)
    requires talk.step == 1 && "direction" in t.preparation && Rectangular(t.preparation)
    ensures var direction := FindVariantIn(t.directions, command);
            AskStep(t, talk, command, wanted, before, after).1.step == 2 <==>
              direction != "" && wanted in t.preparation
              && exists i :: 0 <= i < |t.preparation[wanted]| && t.preparation["direction"][i] == direction
                             && direction !in t.preparation["direction"][..i] && t.preparation[wanted][i] != ""
  {
    var direction := FindVariantIn(t.directions, command);
    var cells := t.preparation["direction"];
    var at := FirstCell(cells, direction);
    forall i | 0 <= i < |cells| && cells[i] == direction && direction !in cells[..i]
      ensures i == at
    {
      FirstCellUnique(cells, direction, i);
    }
  }

  lemma {:induction false} FirstCellUnique(cells: seq<string>, value: string, i: nat)
    requires i < |cells| && cells[i] == value && value !in cells[..i]
    ensures FirstCell(cells, value) == i
  {
    if i > 0 {
      assert cells[..i] == [cells[0]] + cells[1..][..i - 1];
      FirstCellUnique(cells[1..], value, i - 1);
    }
  }

  /** Over the quoted cells a refresh stores, no direction is ever found: a directions' table as the
      client delivers it never lets a places or score dialog reach step 2. */
  lemma PlacesNeverAnswered(t: Tables, talk: Talk, command: string, wanted: string, before: string, after: string)
    requires talk.step == 1
    requires "direction" in t.preparation ==> AllQuoted(t.preparation["direction"])
    requires NoQuotes(t.directions)
    ensures var (output, next) := AskStep(t, talk, command, wanted, before, after);
            next.step <= 1 && (output == Said(NO_DIRECTION) || output == Said(UNKNOWN_ERROR))
  {
    FindVariantResponse(t.directions, command);
  }

  lemma {:induction false} FindVariantResponse(variants: seq<Variant>, command: string)
    ensures FindVariantIn(variants, command) != "" ==>
              exists v <- variants :: v.response == FindVariantIn(variants, command)
  {
    if variants != [] {
      assert variants[0] in variants;
      FindVariantResponse(variants[1..], command);
    }
  }

  /** Tables built by the callback from delivered maps meet both conditions. */
  lemma RefreshedTablesQuoted(data: RespData, raw: Columns)
    requires KeywordTablesEven(data) && Indexable(data)
    requires "DirectionOfPreparation" in data && data["DirectionOfPreparation"] == Stored(raw)
    ensures var t := TablesFrom(data);
            && ("direction" in t.preparation ==> AllQuoted(t.preparation["direction"]))
            && NoQuotes(t.directions)
  {
    var t := TablesFrom(data);
    if "direction" in t.preparation {
      forall c | c in t.preparation["direction"]
        ensures '"' in c
      {
        var i :| 0 <= i < |raw["direction"]| && c == Quote(raw["direction"][i]);
        assert c[0] == '"';
      }
    }
    DirectionsUnquoted(data);
  }

  lemma DirectionsUnquoted(data: RespData)
    requires KeywordTablesEven(data) && Indexable(data)
    ensures NoQuotes(TablesFrom(data).directions)
  {
    var t := TablesFrom(data);
    var responses := data["Directions"]["response"];
    forall v | v in t.directions
      ensures '"' !in v.response
    {
      var i :| 0 <= i < |t.directions| && v == t.directions[i];
      assert v.response == Without(responses[i], '"');
      WithoutAbsent(responses[i], '"');
    }
  }

  predicate EarlySteps(sessions: Sessions) {
    forall station <- sessions :: sessions[station].step <= 1
  }

  /** So, with refreshed tables, step 2 is reached in no trace. */
  lemma {:induction false} StepTwoUnreachable(t: Tables, skill: Skill, sessions: Sessions, requests: seq<Request>)
    requires "direction" in t.preparation ==> AllQuoted(t.preparation["direction"])
    requires NoQuotes(t.directions) && EarlySteps(sessions)
    ensures EarlySteps(Play(t, skill, sessions, requests))
    decreases |requests|
  {
    if requests != [] {
      hide Respond, EarlySteps;
      RespondEarly(t, skill, sessions, requests[0]);
      StepTwoUnreachable(t, skill, Respond(t, skill, sessions, requests[0]).1, requests[1..]);
    }
  }

  lemma RespondEarly(t: Tables, skill: Skill, sessions: Sessions, request: Request)
    requires "direction" in t.preparation ==> AllQuoted(t.preparation["direction"])
    requires NoQuotes(t.directions) && EarlySteps(sessions)
    ensures EarlySteps(Respond(t, skill, sessions, request).1)
  {
    AnswerEarly(t, skill, View(sessions, request.station), request);
    hide Reply, NoQuotes, AllQuoted;
  }

  lemma AnswerEarly(t: Tables, skill: Skill, talk: Option<Talk>, request: Request)
    requires "direction" in t.preparation ==> AllQuoted(t.preparation["direction"])
    requires NoQuotes(t.directions) && (talk.Some? ==> talk.value.step <= 1)
    ensures var next := Reply(t, skill, talk, request).1;
            next.Some? ==> next.value.step <= 1
  {
    var command := Dequote(Quote(request.command));
    if talk.Some? && talk.value.step == 1 {
      PlacesNeverAnswered(t, talk.value, command, PLACES_FIELD, PLACES_BEFORE, PLACES_AFTER);
      PlacesNeverAnswered(t, talk.value, command, SCORE_FIELD, SCORE_BEFORE, SCORE_AFTER);
    }
  }
}
