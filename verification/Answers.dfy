/** What a station is answered, told from the rows its words hit: the reference the dialog engine is held to. */
module Answers {
  import opened Text
  import opened Json
  import opened ClientDB
  import opened Keywords
  import opened WorkerM
  import DialogTheorems

  // ---- What a command names

  /** The first row hit calls for this text. */
  ghost predicate Names(variants: seq<Variant>, command: string, text: string) {
    text != "" && exists i: nat :: FirstHit(variants, command, i) && variants[i].response == text
  }

  /** No row is hit, or the first one calls for nothing. */
  ghost predicate NamesNothing(variants: seq<Variant>, command: string) {
    forall i: nat :: FirstHit(variants, command, i) ==> variants[i].response == ""
  }

  lemma {:induction false} FirstHitExists(variants: seq<Variant>, command: string)
    ensures FindVariantIn(variants, command) != "" ==> Names(variants, command, FindVariantIn(variants, command))
  {
    if variants != [] {
      if Hits(variants[0], command) {
        assert FirstHit(variants, command, 0);
      } else if FindVariantIn(variants[1..], command) != "" {
        FirstHitExists(variants[1..], command);
        var i: nat :| FirstHit(variants[1..], command, i)
                      && variants[1..][i].response == FindVariantIn(variants[1..], command);
        assert FirstHit(variants, command, i + 1);
      }
    }
  }

  lemma FoundExactly(variants: seq<Variant>, command: string)
    ensures forall text :: Names(variants, command, text) <==> text != "" && FindVariantIn(variants, command) == text
    ensures NamesNothing(variants, command) <==> FindVariantIn(variants, command) == ""
  {
    FirstHitExists(variants, command);
    FindVariantIsFirst(variants, command);
  }

  // ---- A station without a dialog

  /** One of the facts and the question for more. */
  predicate FactTold(list: Columns, dice: nat, output: Output) {
    "fact" in list && list["fact"] != []
    && output == Said(list["fact"][dice % |list["fact"]|] + ". Рассказать ещё?")
  }

  predicate FactBegun(list: Columns, kind: string, dice: nat, output: Output, talk: Option<Talk>) {
    if "fact" !in list then output == Threw && talk == None
    else if list["fact"] == [] then output == Said(FORGOTTEN) && talk == None
    else FactTold(list, dice, output) && talk == Some(Talk(kind, 1))
  }

  /** The schedule of the first group or professor named, for the first day named. */
  ghost predicate ScheduleTold(t: Tables, skill: Skill, targets: seq<Variant>, command: string, professor: bool,
    output: Output)
  {
    && (NamesNothing(targets, command) ==> output == Said(NO_GROUP))
    && forall target :: Names(targets, command, target) ==>
         && (NamesNothing(t.days, command) ==> output == Said(NO_DAY))
         && forall day :: Names(t.days, command, day) ==>
              output == Said(skill.schedule(target, day, Contains(command, "первая") || Contains(command, "нечетная"),
                                            professor)
                             + ". Чем я ещё могу Вам помочь?")
  }

  predicate IsPhrase(response: string) {
    response in ["presentation", "opportunities", "university_fact", "interesting_fact", "number_of_places",
                 "min_score", "group_classes_now", "group_classes_future", "professor_classes_now",
                 "professor_classes_future"]
  }

  ghost predicate Begun(t: Tables, skill: Skill, response: string, command: string, dice: nat, output: Output,
    talk: Option<Talk>)
  {
    && (response == "presentation" ==> output == Said(skill.presentation) && talk == None)
    && (response == "opportunities" ==> output == Said(skill.opportunities) && talk == None)
    && (response == "university_fact" ==> FactBegun(t.university, "university_fact", dice, output, talk))
    && (response == "interesting_fact" ==> FactBegun(t.interesting, "interesting_fact", dice, output, talk))
    && (response == "number_of_places" ==>
          output == Said(WHICH_DIRECTION) && talk == Some(Talk("number_of_places", 1)))
    && (response == "min_score" ==> output == Said(WHICH_DIRECTION) && talk == Some(Talk("min_score", 1)))
    && (response == "group_classes_now" || response == "group_classes_future" ==>
          ScheduleTold(t, skill, t.groups, command, false, output) && talk == None)
    && (response == "professor_classes_now" || response == "professor_classes_future" ==>
          ScheduleTold(t, skill, t.professors, command, true, output) && talk == None)
    && (!IsPhrase(response) ==> output == Mute && talk == None)
  }

  lemma ScheduleExactly(t: Tables, skill: Skill, targets: seq<Variant>, command: string, professor: bool)
    ensures ScheduleTold(t, skill, targets, command, professor,
                         Said(Schedule(t, skill, targets, command, professor)))
  {
    hide Names, NamesNothing, FindVariantIn, Contains;
    FoundExactly(targets, command);
    FoundExactly(t.days, command);
  }

  lemma BegunExactly(t: Tables, skill: Skill, response: string, command: string, dice: nat)
    ensures var (output, talk) := Begin(t, skill, response, command, dice);
            Begun(t, skill, response, command, dice, output, talk)
  {
    hide ScheduleTold, Schedule;
    ScheduleExactly(t, skill, t.groups, command, false);
    ScheduleExactly(t, skill, t.professors, command, true);
  }

  /** A new command is answered by the first row of the phrases it hits, and by no other table. */
  lemma NewCommandExactly(t: Tables, skill: Skill, request: Request)
    ensures var (output, talk) := Reply(t, skill, None, request);
            var command := Dequote(Quote(request.command));
            && (NamesNothing(t.phrases, command) ==> output == Said(NOT_UNDERSTOOD) && talk == None)
            && forall response :: Names(t.phrases, command, response) ==>
                 Begun(t, skill, response, command, request.dice, output, talk)
  {
    hide Begin, Begun, Names, NamesNothing, FindVariantIn;
    var command := Dequote(Quote(request.command));
    FoundExactly(t.phrases, command);
    BegunExactly(t, skill, FindVariantIn(t.phrases, command), command, request.dice);
  }

  // ---- A station in a dialog

  predicate FirstRow(table: Columns, direction: string, i: nat) {
    "direction" in table && i < |table["direction"]| && table["direction"][i] == direction
    && direction !in table["direction"][..i]
  }

  predicate Ends(talk: Talk, next: Talk) {
    next == Talk(talk.kind, 0)
  }

  /** The cell of the first row of the direction named, or why there is none. */
  ghost predicate DirectionTold(t: Tables, talk: Talk, direction: string, wanted: string, before: string,
    after: string, output: Output, next: Talk)
  {
    && ((wanted !in t.preparation || forall i: nat :: !FirstRow(t.preparation, direction, i)) ==>
          output == Said(UNKNOWN_ERROR) && Ends(talk, next))
    && forall i: nat :: FirstRow(t.preparation, direction, i) && wanted in t.preparation
                        && i < |t.preparation[wanted]| ==>
         if t.preparation[wanted][i] == "" then output == Said(UNKNOWN_ERROR) && Ends(talk, next)
         else output == Said(before + t.preparation[wanted][i] + after) && next == Talk(talk.kind, 2)
  }

  ghost predicate AskTold(t: Tables, talk: Talk, command: string, wanted: string, before: string, after: string,
    output: Output, next: Talk)
  {
    && (talk.step == 1 ==>
          && (NamesNothing(t.directions, command) ==> output == Said(NO_DIRECTION) && next == talk)
          && forall direction :: Names(t.directions, command, direction) ==>
               DirectionTold(t, talk, direction, wanted, before, after, output, next))
    && (talk.step == 2 && Contains(command, "да") ==> output == Said(WHICH_DIRECTION) && next == Talk(talk.kind, 1))
    && (talk.step == 2 && !Contains(command, "да") ==> output == Said(WHAT_ELSE) && Ends(talk, next))
  }

  /** Facts go on for as long as the station says yes; whether any are left is asked of `guard`. */
  predicate FactsTold(guard: Columns, list: Columns, talk: Talk, command: string, dice: nat, output: Output,
    next: Talk)
  {
    talk.step == 1 ==>
      if !Contains(command, "да") then output == Said(WHAT_ELSE) && Ends(talk, next)
      else if "fact" !in guard then output == Threw && next == talk
      else if guard["fact"] == [] then output == Said(FORGOTTEN) && Ends(talk, next)
      else next == talk && ("fact" in list && list["fact"] != [] ==> FactTold(list, dice, output))
  }

  ghost predicate Continued(t: Tables, talk: Talk, command: string, dice: nat, output: Output, next: Talk) {
    && (talk.kind == "number_of_places" ==>
          AskTold(t, talk, command, "number_of_budget_posiitons", "В прошлом году было ",
                  " бюджетных мест. Рассказать ещё?", output, next))
    && (talk.kind == "min_score" ==>
          AskTold(t, talk, command, "minimum_score", "В прошлом году проходной балл был равен ", ". Рассказать ещё?",
                  output, next))
    && (talk.kind == "university_fact" ==> FactsTold(t.university, t.university, talk, command, dice, output, next))
    && (talk.kind == "interesting_fact" ==> FactsTold(t.university, t.interesting, talk, command, dice, output, next))
  }

  lemma DirectionExactly(t: Tables, talk: Talk, direction: string, wanted: string, before: string, after: string)
    requires talk.step == 1
    ensures match FindDataIn(t.preparation, "direction", direction, wanted)
            case None => true
            case Some(result) =>
              if result == "" then
                DirectionTold(t, talk, direction, wanted, before, after, Said(UNKNOWN_ERROR), Talk(talk.kind, 0))
              else
                DirectionTold(t, talk, direction, wanted, before, after, Said(before + result + after),
                              Talk(talk.kind, 2))
  {
    if "direction" in t.preparation {
      var cells := t.preparation["direction"];
      var at := FirstCell(cells, direction);
      forall i: nat | FirstRow(t.preparation, direction, i)
        ensures i == at
      {
        DialogTheorems.FirstCellUnique(cells, direction, i);
      }
      assert at < |cells| ==> FirstRow(t.preparation, direction, at);
    }
  }

  lemma AskExactly(t: Tables, talk: Talk, command: string, wanted: string, before: string, after: string)
    requires DialogTheorems.Rectangular(t.preparation)
    ensures var (output, next) := AskStep(t, talk, command, wanted, before, after);
            AskTold(t, talk, command, wanted, before, after, output, next)
  {
    hide Names, NamesNothing, FindVariantIn, DirectionTold, FindDataIn;
    FoundExactly(t.directions, command);
    if talk.step == 1 {
      var direction := FindVariantIn(t.directions, command);
      DirectionExactly(t, talk, direction, wanted, before, after);
      NeverNone(t, direction, wanted);
    }
  }

  lemma NeverNone(t: Tables, direction: string, wanted: string)
    requires DialogTheorems.Rectangular(t.preparation)
    ensures FindDataIn(t.preparation, "direction", direction, wanted).Some?
  {
  }

  /** Every answer inside a dialog, and what becomes of the dialog. */
  lemma ContinuedExactly(t: Tables, skill: Skill, talk: Talk, request: Request)
    requires DialogTheorems.Rectangular(t.preparation)
    ensures var (output, next) := Reply(t, skill, Some(talk), request);
            next.Some? && Continued(t, talk, Dequote(Quote(request.command)), request.dice, output, next.value)
  {
    hide AskStep, AskTold, Contains;
    var command := Dequote(Quote(request.command));
    AskExactly(t, talk, command, PLACES_FIELD, PLACES_BEFORE, PLACES_AFTER);
    AskExactly(t, talk, command, SCORE_FIELD, SCORE_BEFORE, SCORE_AFTER);
  }

  /** What a request leaves: the speaker's dialog as answered, every other one that is not finished, nothing else. */
  lemma SessionsExactly(t: Tables, skill: Skill, sessions: Sessions, request: Request, station: string)
    ensures var next := Respond(t, skill, sessions, request).1;
            var talk := Reply(t, skill, View(sessions, request.station), request).1;
            if station == request.station then
              if talk.Some? then station in next && next[station] == talk.value else station !in next
            else (station in next <==> station in sessions && sessions[station].step != 0)
                 && (station in next ==> next[station] == sessions[station])
  {
    hide Begin, Continue, FindVariantIn, Dequote, Quote;
  }
}
