/** The configuration file: key:value lines read into a map where the first of equal keys wins. */
module Configer {
  import opened Text

  type Config = map<string, string>

  /** What one line is read as: with no ':' the whole line is both key and value. */
  function ReadLine(line: string): (string, string) {
    match Find(line, ':')
    case None => (line, DropReturn(line))
    case Some(border) => (line[..border], DropReturn(line[border + 1..]))
  }

  /** The first carriage return is erased. */
  function DropReturn(s: string): string {
    match Find(s, '\r')
    case None => s
    case Some(border) => s[..border] + s[border + 1..]
  }

  /** `insert`: an existing key keeps its value. */
  function Inserted(config: Config, entry: (string, string)): Config {
    if entry.0 in config then config else config[entry.0 := entry.1]
  }

  function ReadLines(config: Config, lines: seq<string>): Config
    decreases |lines|
  {
    if lines == [] then config else ReadLines(Inserted(config, ReadLine(lines[0])), lines[1..])
  }

  // ---- Writing a file and reading it back

  datatype Entry = Entry(key: string, value: string, crlf: bool)

  predicate Writable(e: Entry) {
    ':' !in e.key && '\n' !in e.key && '\n' !in e.value && '\r' !in e.value
  }

  function LineOf(e: Entry): string {
    e.key + ":" + e.value + if e.crlf then "\r" else ""
  }

  function LinesOf(entries: seq<Entry>): (lines: seq<string>)
    ensures |lines| == |entries| + 1
  {
    if entries == [] then [""] else [LineOf(entries[0])] + LinesOf(entries[1..])
  }

  /** Every line ended by LF or CRLF. */
  function FileOf(entries: seq<Entry>): string {
    if entries == [] then "" else LineOf(entries[0]) + "\n" + FileOf(entries[1..])
  }

  predicate FirstOf(entries: seq<Entry>, key: string, i: nat) {
    i < |entries| && entries[i].key == key && forall j :: 0 <= j < i ==> entries[j].key != key
  }

  lemma LineReadBack(e: Entry)
    requires Writable(e)
    ensures ReadLine(LineOf(e)) == (e.key, e.value)
  {
    hide Find, DropReturn;
    var ending := if e.crlf then "\r" else "";
    var line, tail := LineOf(e), e.value + ending;
    assert line == e.key + [':'] + tail;
    FindAfter(e.key, tail, ':');
    ReturnDropped(e.value, ending);
    assert line[|e.key| + 1..] == tail && line[..|e.key|] == e.key;
  }

  lemma ReturnDropped(value: string, ending: string)
    requires '\r' !in value && (ending == "" || ending == "\r")
    ensures DropReturn(value + ending) == value
  {
    if ending == "" {
      assert value + ending == value;
    } else {
      var s := value + ending;
      assert s == value + ['\r'] + "";
      FindAfter(value, "", '\r');
      assert s[..|value|] == value && s[|value| + 1..] == "";
    }
  }

  lemma {:induction false} FileSplits(entries: seq<Entry>)
    requires forall i :: 0 <= i < |entries| ==> Writable(entries[i])
    ensures Split(FileOf(entries), '\n') == LinesOf(entries)
  {
    if entries != [] {
      var line, rest := LineOf(entries[0]), FileOf(entries[1..]);
      assert Writable(entries[0]);
      assert FileOf(entries) == line + ['\n'] + rest;
      FindAfter(line, rest, '\n');
      assert FileOf(entries)[|line| + 1..] == rest && FileOf(entries)[..|line|] == line;
      FileSplits(entries[1..]);
    }
  }

  /** What reading the lines adds to a map already filled. */
  lemma {:induction false} LinesReadBack(config: Config, entries: seq<Entry>, key: string)
    requires forall i :: 0 <= i < |entries| ==> Writable(entries[i])
    ensures var result := ReadLines(config, LinesOf(entries));
            && (key in result <==> key in config || key == "" || exists i: nat :: FirstOf(entries, key, i))
            && (key in config ==> result[key] == config[key])
            && (key !in config ==> forall i: nat :: FirstOf(entries, key, i) ==> result[key] == entries[i].value)
            && (key !in config && key == "" && (forall i: nat :: !FirstOf(entries, key, i)) ==> result[key] == "")
    decreases |entries|
  {
    if entries == [] {
      assert ReadLine("") == ("", "");
    } else {
      var e, rest := entries[0], entries[1..];
      LineReadBack(e);
      var next := Inserted(config, (e.key, e.value));
      assert ReadLines(config, LinesOf(entries)) == ReadLines(next, LinesOf(rest));
      LinesReadBack(next, rest, key);
      FirstShifts(entries, key);
    }
  }

  lemma FirstShifts(entries: seq<Entry>, key: string)
    requires entries != []
    ensures entries[0].key == key ==> FirstOf(entries, key, 0) && forall i: nat :: FirstOf(entries, key, i) ==> i == 0
    ensures entries[0].key != key ==>
              (forall i: nat :: FirstOf(entries[1..], key, i) ==> FirstOf(entries, key, i + 1))
              && forall i: nat :: FirstOf(entries, key, i) ==> i > 0 && FirstOf(entries[1..], key, i - 1)
  {
  }

  /** Reading a written file gives back every key with the value of its first line, and besides only the
      empty key, with the empty value unless a line had it, for the line after the last newline. */
  lemma ConfigReadBack(entries: seq<Entry>, key: string)
    requires forall i :: 0 <= i < |entries| ==> Writable(entries[i])
    ensures var result := ReadLines(map[], Split(FileOf(entries), '\n'));
            && (key in result <==> key == "" || exists i: nat :: FirstOf(entries, key, i))
            && (forall i: nat :: FirstOf(entries, key, i) ==> result[key] == entries[i].value)
            && (key == "" && (forall i: nat :: !FirstOf(entries, key, i)) ==> result[key] == "")
  {
    FileSplits(entries);
    LinesReadBack(map[], entries, key);
  }

  // ---- The class

  class Configer {
    var configInfo: Config

    constructor ()
      ensures configInfo == map[]
    {
      configInfo := map[];
    }

    /** `getline` up to the end of file: the lines are the pieces between newlines, the last one included. */
    method ReadConfig(content: string)
      modifies this`configInfo
      ensures configInfo == ReadLines(map[], Split(content, '\n'))
    {
      var config: Config := map[];
      var rest := content;
      var eof := false;
      while !eof
        invariant ReadLines(map[], Split(content, '\n')) == if eof then config else ReadLines(config, Split(rest, '\n'))
        decreases !eof, |rest|
      {
        var line := rest;
        var end := Find(rest, '\n');
        if end.Some? {
          line := rest[..end.value];
          rest := rest[end.value + 1..];
        } else {
          eof := true;
        }
        var value := line;
        var border := Find(line, ':');
        var key := if border.Some? then line[..border.value] else line;
        if border.Some? {
          value := value[border.value + 1..];
        }
        var carriage := Find(value, '\r');
        if carriage.Some? {
          value := value[..carriage.value] + value[carriage.value + 1..];
        }
        if key !in config {
          config := config[key := value];
        }
      }
      configInfo := config;
    }
  }
}
