/** The dialog engine of the voice-skill worker: one lazily cleaned dialog state per station. */
module WorkerM {
  import opened Text
  import opened Json
  import opened ClientDB
  import opened Keywords

  const NOT_UNDERSTOOD := "Извините, я не знаю такой команды, пожалуйста, перефразируйте"
  const NO_DIRECTION := "Извините я не смогла найти выбранное Вами направление. Попробуем ещё?"
  const UNKNOWN_ERROR := "Неизвестная ошибка, попробуйте другие возможности скила"
  const WHICH_DIRECTION := "Какой номер направления Вас интересует?"
  const WHAT_ELSE := "Чем я ещё могу Вам помочь?"
  const FORGOTTEN := "Извините, что-то я все подзабыла"
  const MORE := ". Рассказать ещё?"
  const NO_GROUP := "Названной вами группы не существует."
  const NO_DAY := "День недели не найден. Вы уверены что назвали его правильно?"
  const YES := "да"

  // The places field is not the one the refresh asks for.
  const PLACES_FIELD := "number_of_budget_posiitons"
  const PLACES_BEFORE := "В прошлом году было "
  const PLACES_AFTER := " бюджетных мест. Рассказать ещё?"
  const SCORE_FIELD := "minimum_score"
  const SCORE_BEFORE := "В прошлом году проходной балл был равен "
  const SCORE_AFTER := ". Рассказать ещё?"

  datatype Tables = Tables(
    preparation: Columns, interesting: Columns, university: Columns,
    phrases: seq<Variant>, groups: seq<Variant>, professors: seq<Variant>, days: seq<Variant>, directions: seq<Variant>)

  /** What does not come from the database: two texts and the schedule. */
  datatype Skill = Skill(presentation: string, opportunities: string, schedule: (string, string, bool, bool) -> string)

  datatype Talk = Talk(kind: string, step: nat)

  /** `dice` is the outcome of `rand`. */
  datatype Request = Request(station: string, command: string, dice: nat)

  /** `Mute` is an empty send, `Threw` an exception that skips the send, `Undefined` a modulo
      by zero or an index out of bounds. */
  datatype Output = Said(text: string) | Mute | Threw | Undefined

  type Sessions = map<string, Talk>

  // ---- One request

  function Cleared(sessions: Sessions): Sessions {
    map station | station in sessions && sessions[station].step != 0 :: sessions[station]
  }

  /** First row of `target` equal to `value`, read in column `wanted`; `None` is out of bounds. */
  function FindDataIn(table: Columns, target: string, value: string, wanted: string): Option<string> {
    if target !in table then Some("")
    else
      var at := FirstCell(table[target], value);
      if at == |table[target]| || wanted !in table then Some("")
      else if at < |table[wanted]| then Some(table[wanted][at])
      else None
  }

  function FirstCell(cells: seq<string>, value: string): (at: nat)
    ensures at <= |cells| && value !in cells[..at] && (at < |cells| ==> cells[at] == value)
  {
    if cells == [] || cells[0] == value then 0
    else
      var at := FirstCell(cells[1..], value);
      assert cells[..at + 1] == [cells[0]] + cells[1..][..at];
      at + 1
  }

  /** Places and scores: step 1 asks for a direction, step 2 whether to go on. */
  function AskStep(t: Tables, talk: Talk, command: string, wanted: string, before: string, after: string):
    (Output, Talk)
  {
    if talk.step == 1 then
      var direction := FindVariantIn(t.directions, command);
      if direction == "" then (Said(NO_DIRECTION), talk)
      else
        match FindDataIn(t.preparation, "direction", direction, wanted)
        case None => (Undefined, talk)
        case Some(result) =>
          if result == "" then (Said(UNKNOWN_ERROR), talk.(step := 0))
          else (Said(before + result + after), talk.(step := 2))
    else if talk.step == 2 then
      if Contains(command, YES) then (Said(WHICH_DIRECTION), talk.(step := talk.step - 1))
      else (Said(WHAT_ELSE), talk.(step := 0))
    else (Mute, talk)
  }

  /** `list[rand() % list.size()]`. */
  function Fact(list: Columns, dice: nat): Output {
    if "fact" !in list then Threw
    else if list["fact"] == [] then Undefined
    else Said(list["fact"][dice % |list["fact"]|] + MORE)
  }

  /** Facts: `guard` is the table tested for emptiness, `list` the one read. */
  function FactStep(guard: Columns, list: Columns, talk: Talk, command: string, dice: nat): (Output, Talk) {
    if talk.step != 1 then (Mute, talk)
    else if !Contains(command, YES) then (Said(WHAT_ELSE), talk.(step := 0))
    else if "fact" !in guard then (Threw, talk)
    else if guard["fact"] == [] then (Said(FORGOTTEN), talk.(step := 0))
    else (Fact(list, dice), talk)
  }

  function Continue(t: Tables, talk: Talk, command: string, dice: nat): (Output, Talk) {
    if talk.kind == "number_of_places" then
      AskStep(t, talk, command, PLACES_FIELD, PLACES_BEFORE, PLACES_AFTER)
    else if talk.kind == "min_score" then
      AskStep(t, talk, command, SCORE_FIELD, SCORE_BEFORE, SCORE_AFTER)
    else if talk.kind == "university_fact" then FactStep(t.university, t.university, talk, command, dice)
    else if talk.kind == "interesting_fact" then FactStep(t.university, t.interesting, talk, command, dice)
    else (Mute, talk)
  }

  function OpenFact(list: Columns, kind: string, dice: nat): (Output, Option<Talk>) {
    if "fact" !in list then (Threw, None)
    else if list["fact"] == [] then (Said(FORGOTTEN), None)
    else (Fact(list, dice), Some(Talk(kind, 1)))
  }

  function Schedule(t: Tables, skill: Skill, targets: seq<Variant>, command: string, professor: bool): string {
    var target := FindVariantIn(targets, command);
    var day := FindVariantIn(t.days, command);
    if target == "" then NO_GROUP
    else if day == "" then NO_DAY
    else
      var firstWeek := Contains(command, "первая") || Contains(command, "нечетная");
      skill.schedule(target, day, firstWeek, professor) + ". Чем я ещё могу Вам помочь?"
  }

  /** A station without a dialog: what the phrase found calls for, and the dialog it opens. */
  function Begin(t: Tables, skill: Skill, response: string, command: string, dice: nat): (Output, Option<Talk>) {
    if response == "presentation" then (Said(skill.presentation), None)
    else if response == "opportunities" then (Said(skill.opportunities), None)
    else if response == "university_fact" then OpenFact(t.university, response, dice)
    else if response == "interesting_fact" then OpenFact(t.interesting, response, dice)
    else if response == "number_of_places" || response == "min_score" then
      (Said(WHICH_DIRECTION), Some(Talk(response, 1)))
    else if response == "group_classes_now" || response == "group_classes_future" then
      (Said(Schedule(t, skill, t.groups, command, false)), None)
    else if response == "professor_classes_now" || response == "professor_classes_future" then
      (Said(Schedule(t, skill, t.professors, command, true)), None)
    else (Mute, None)
  }

  /** One station's answer from its own dialog state alone. */
  function Reply(t: Tables, skill: Skill, talk: Option<Talk>, request: Request): (Output, Option<Talk>) {
    var command := Dequote(Quote(request.command));
    match talk
    case Some(own) =>
      var (output, next) := Continue(t, own, command, request.dice);
      (output, Some(next))
    case None =>
      var response := FindVariantIn(t.phrases, command);
      if response == "" then (Said(NOT_UNDERSTOOD), None) else Begin(t, skill, response, command, request.dice)
  }

  /** The dialog state a station is in; a finished dialog counts as none. */
  function View(sessions: Sessions, station: string): Option<Talk> {
    if station in sessions && sessions[station].step != 0 then Some(sessions[station]) else None
  }

  function Respond(t: Tables, skill: Skill, sessions: Sessions, request: Request): (Output, Sessions) {
    var live := Cleared(sessions);
    var (output, next) := Reply(t, skill, View(sessions, request.station), request);
    (output, if next.Some? then live[request.station := next.value] else live)
  }

  // ---- The class

  class WorkerM {
    const skill: Skill
    var tables: Tables
    var sessions: Sessions

    constructor (skill: Skill)
      ensures this.skill == skill && sessions == map[]
      ensures tables == Tables(map[], map[], map[], [], [], [], [], [])
    {
      this.skill := skill;
      tables := Tables(map[], map[], map[], [], [], [], [], []);
      sessions := map[];
    }

    /** Erases one finished dialog and starts over, until a scan finds none. */
    method ClearZombieSessions()
      modifies this`sessions
      ensures sessions == Cleared(old(sessions))
      decreases |sessions|
    {
      var zombies := set station | station in sessions && sessions[station].step == 0;
      if zombies != {} {
        var station :| station in zombies;
        assert sessions.Keys == (sessions - {station}).Keys + {station};
        assert |sessions - {station}| == |sessions.Keys - {station}| by {
          assert (sessions - {station}).Keys == sessions.Keys - {station};
        }
        sessions := sessions - {station};
        ClearZombieSessions();
      } else {
        assert forall station <- sessions :: station !in zombies;
      }
    }

    method FindDataInTable(table: Columns, target: string, value: string, wanted: string) returns (data: Option<string>)
      ensures data == FindDataIn(table, target, value, wanted)
    {
      if target !in table {
        return Some("");
      }
      var cells := table[target];
      for position := 0 to |cells|
        invariant value !in cells[..position]
      {
        if value == cells[position] {
          assert FirstCell(cells, value) == position;
          return if wanted !in table then Some("")
                 else if position < |table[wanted]| then Some(table[wanted][position])
                 else None;
        }
      }
      return Some("");
    }

    method AskDialog(station: string, command: string, wanted: string, before: string, after: string)
      returns (output: Output)
      requires station in sessions
      modifies this`sessions
      ensures var (said, next) := AskStep(tables, old(sessions)[station], command, wanted, before, after);
              output == said && sessions == old(sessions)[station := next]
    {
      var talk := sessions[station];
      output := Mute;
      if talk.step == 1 {
        var direction := FindVariant(tables.directions, command);
        if direction == "" {
          return Said(NO_DIRECTION);
        }
        var result := FindDataInTable(tables.preparation, "direction", direction, wanted);
        if result.None? {
          return Undefined;
        }
        if result.value == "" {
          output := Said(UNKNOWN_ERROR);
          sessions := sessions[station := talk.(step := 0)];
          return;
        }
        output := Said(before + result.value + after);
        sessions := sessions[station := talk.(step := talk.step + 1)];
      } else if talk.step == 2 {
        if Contains(command, YES) {
          output := Said(WHICH_DIRECTION);
          sessions := sessions[station := talk.(step := talk.step - 1)];
        } else {
          output := Said(WHAT_ELSE);
          sessions := sessions[station := talk.(step := 0)];
        }
      }
    }

    method FactDialog(station: string, guard: Columns, list: Columns, command: string, dice: nat)
      returns (output: Output)
      requires station in sessions
      modifies this`sessions
      ensures var (said, next) := FactStep(guard, list, old(sessions)[station], command, dice);
              output == said && sessions == old(sessions)[station := next]
    {
      var talk := sessions[station];
      output := Mute;
      if talk.step == 1 {
        if !Contains(command, YES) {
          output := Said(WHAT_ELSE);
          sessions := sessions[station := talk.(step := 0)];
        } else if "fact" !in guard {
          output := Threw;
        } else if |guard["fact"]| != 0 {
          output := Fact(list, dice);
        } else {
          output := Said(FORGOTTEN);
          sessions := sessions[station := talk.(step := 0)];
        }
      }
    }

    method DialogSessionsStep(station: string, command: string, dice: nat) returns (output: Output)
      requires station in sessions
      modifies this`sessions
      ensures var (said, next) := Continue(tables, old(sessions)[station], command, dice);
              output == said && sessions == old(sessions)[station := next]
    {
      var kind := sessions[station].kind;
      if kind == "number_of_places" {
        output := AskDialog(station, command, PLACES_FIELD, PLACES_BEFORE, PLACES_AFTER);
      } else if kind == "min_score" {
        output := AskDialog(station, command, SCORE_FIELD, SCORE_BEFORE, SCORE_AFTER);
      } else if kind == "university_fact" {
        output := FactDialog(station, tables.university, tables.university, command, dice);
      } else if kind == "interesting_fact" {
        output := FactDialog(station, tables.university, tables.interesting, command, dice);
      } else {
        output := Mute;
      }
    }

    method ResponseTypeAnalize(response: string, station: string, command: string, dice: nat) returns (output: Output)
      modifies this`sessions
      ensures var (said, next) := Begin(tables, skill, response, command, dice);
              output == said
              && sessions == if next.Some? then old(sessions)[station := next.value] else old(sessions)
    {
      if response == "presentation" {
        output := Said(skill.presentation);
      } else if response == "opportunities" {
        output := Said(skill.opportunities);
      } else if response == "university_fact" || response == "interesting_fact" {
        var list := if response == "university_fact" then tables.university else tables.interesting;
        if "fact" !in list {
          output := Threw;
        } else if |list["fact"]| != 0 {
          sessions := sessions[station := Talk(response, 1)];
          output := Fact(list, dice);
        } else {
          output := Said(FORGOTTEN);
        }
      } else if response == "number_of_places" || response == "min_score" {
        sessions := sessions[station := Talk(response, 1)];
        output := Said(WHICH_DIRECTION);
      } else if response == "group_classes_now" || response == "group_classes_future" {
        output := FindSchedule(tables.groups, command, false);
      } else if response == "professor_classes_now" || response == "professor_classes_future" {
        output := FindSchedule(tables.professors, command, true);
      } else {
        output := Mute;
      }
    }

    method FindSchedule(targets: seq<Variant>, command: string, professor: bool) returns (output: Output)
      ensures output == Said(Schedule(tables, skill, targets, command, professor))
    {
      var target := FindVariant(targets, command);
      if target == "" {
        return Said(NO_GROUP);
      }
      var day := FindVariant(tables.days, command);
      if day == "" {
        return Said(NO_DAY);
      }
      var firstWeek := Contains(command, "первая") || Contains(command, "нечетная");
      return Said(skill.schedule(target, day, firstWeek, professor) + ". Чем я ещё могу Вам помочь?");
    }

    method AnalizeRequest(request: Request) returns (output: Output)
      modifies this`sessions
      ensures (output, sessions) == Respond(tables, skill, old(sessions), request)
    {
      ClearZombieSessions();
      var command := Without(Quote(request.command), '"');
      if request.station in sessions {
        output := DialogSessionsStep(request.station, command, request.dice);
        return;
      }
      var response := FindVariant(tables.phrases, command);
      if response != "" {
        output := ResponseTypeAnalize(response, request.station, command, request.dice);
      } else {
        output := Said(NOT_UNDERSTOOD);
      }
    }

    /** The refresh callback: a table of the map without its two keyword columns throws, and the
        exception is caught nowhere. */
    method SetDbInfo(data: RespData) returns (threw: bool)
      requires KeywordTablesEven(data)
      modifies this`tables
      ensures !threw <==> Indexable(data)
      ensures !threw ==> tables == TablesFrom(data)
    {
      threw := true;
      tables := tables.(preparation := TableIn(data, "DirectionOfPreparation"),
                        interesting := TableIn(data, "InterestingFact"),
                        university := TableIn(data, "UniversityFact"));
      var phrases, e0 := ParseKeyWords(TableIn(data, "StaticPhrases"), "key_words", "response");
      tables := tables.(phrases := phrases);
      if e0 { return; }
      var professors, e1 := ParseKeyWords(TableIn(data, "ProfessorsName"), "key_words", "response");
      tables := tables.(professors := professors);
      if e1 { return; }
      var groups, e2 := ParseKeyWords(TableIn(data, "GroupsName"), "key_words", "response");
      tables := tables.(groups := groups);
      if e2 { return; }
      var days, e3 := ParseKeyWords(TableIn(data, "DaysWeek"), "key_words", "response");
      tables := tables.(days := days);
      if e3 { return; }
      var directions, e4 := ParseKeyWords(TableIn(data, "Directions"), "key_words", "response");
      tables := tables.(directions := directions);
      threw := e4;
    }
  }

  // ---- The tables a refresh leaves behind

  /** `data[name]` of a map: an absent table reads as an empty one. */
  function TableIn(data: RespData, name: string): Columns {
    if name in data then data[name] else map[]
  }

  predicate HasKeywords(table: Columns) {
    "key_words" in table && "response" in table
  }

  predicate EvenKeywords(table: Columns) {
    HasKeywords(table) ==> |table["key_words"]| <= |table["response"]|
  }

  predicate KeywordTablesEven(data: RespData) {
    && EvenKeywords(TableIn(data, "StaticPhrases")) && EvenKeywords(TableIn(data, "ProfessorsName"))
    && EvenKeywords(TableIn(data, "GroupsName")) && EvenKeywords(TableIn(data, "DaysWeek"))
    && EvenKeywords(TableIn(data, "Directions"))
  }

  predicate Indexable(data: RespData) {
    && HasKeywords(TableIn(data, "StaticPhrases")) && HasKeywords(TableIn(data, "ProfessorsName"))
    && HasKeywords(TableIn(data, "GroupsName")) && HasKeywords(TableIn(data, "DaysWeek"))
    && HasKeywords(TableIn(data, "Directions"))
  }

  function IndexIn(data: RespData, name: string): seq<Variant>
    requires HasKeywords(TableIn(data, name)) && EvenKeywords(TableIn(data, name))
  {
    IndexOf(data[name]["key_words"], data[name]["response"])
  }

  function TablesFrom(data: RespData): Tables
    requires KeywordTablesEven(data) && Indexable(data)
  {
    Tables(TableIn(data, "DirectionOfPreparation"), TableIn(data, "InterestingFact"), TableIn(data, "UniversityFact"),
           IndexIn(data, "StaticPhrases"), IndexIn(data, "GroupsName"), IndexIn(data, "ProfessorsName"),
           IndexIn(data, "DaysWeek"), IndexIn(data, "Directions"))
  }
}
