/** The SELECT text the client generates, and why the server cannot misread it. */
module SelectText {
  import opened Text

  /** One query of a refresh: a table, the columns wanted and an optional condition. */
  datatype Job = Job(table: string, fields: seq<string>, condition: Option<string>)

  predicate IsName(s: string) {
    ' ' !in s && ',' !in s
  }

  predicate WellNamed(job: Job) {
    job.fields != [] && IsName(job.table) && forall f <- job.fields :: IsName(f)
  }

  function QueryText(job: Job): string {
    "SELECT " + Join(job.fields, ", ") + " FROM " + job.table
    + if job.condition.Some? then " " + job.condition.value else ""
  }

  /** The loop of `__queryGenerator` that glues the text together. */
  method BuildSelect(job: Job) returns (query: string)
    requires job.fields != []
    ensures query == QueryText(job)
  {
    var fields := job.fields;
    query := "SELECT ";
    for i := 0 to |fields| - 1
      invariant query + Join(fields[i..], ", ") == "SELECT " + Join(fields, ", ")
    {
      assert fields[i..][1..] == fields[i + 1..];
      query := query + fields[i] + ", ";
    }
    query := query + fields[|fields| - 1];
    query := query + " FROM " + job.table;
    if job.condition.Some? {
      query := query + " " + job.condition.value;
    }
  }

  // ---- An independent reader of that text

  /** Length of the longest prefix holding neither a space nor a comma. */
  function NameLength(s: string): (n: nat)
    ensures n <= |s|
  {
    if s == "" || s[0] == ' ' || s[0] == ',' then 0 else 1 + NameLength(s[1..])
  }

  function ParseFields(s: string): (r: Option<(seq<string>, string)>)
    decreases |s|
  {
    var n := NameLength(s);
    var rest := s[n..];
    if ", " <= rest then
      match ParseFields(rest[2..])
      case None => None
      case Some((fields, tail)) => Some(([s[..n]] + fields, tail))
    else if " FROM " <= rest then
      Some(([s[..n]], rest[6..]))
    else
      None
  }

  function ParseSelect(s: string): Option<Job> {
    if "SELECT " <= s then
      match ParseFields(s[7..])
      case None => None
      case Some((fields, tail)) =>
        var n := NameLength(tail);
        if n == |tail| then Some(Job(tail, fields, None))
        else if tail[n] == ' ' then Some(Job(tail[..n], fields, Some(tail[n + 1..])))
        else None
    else None
  }

  lemma {:induction false} NameEnds(name: string, rest: string)
    requires IsName(name)
    requires rest == "" || rest[0] == ' ' || rest[0] == ','
    ensures NameLength(name + rest) == |name|
  {
    if name == "" {
      assert name + rest == rest;
    } else {
      assert (name + rest)[1..] == name[1..] + rest;
      NameEnds(name[1..], rest);
    }
  }

  lemma NameThen(name: string, mark: string, tail: string)
    requires IsName(name) && mark != "" && (mark[0] == ' ' || mark[0] == ',')
    ensures var s := name + mark + tail;
            NameLength(s) == |name| && s[..|name|] == name && mark <= s[|name|..] && s[|name|..][|mark|..] == tail
  {
    var s := name + mark + tail;
    assert s == name + (mark + tail);
    NameEnds(name, mark + tail);
    assert s[|name|..] == mark + tail;
  }

  lemma LastFieldRead(name: string, tail: string)
    requires IsName(name)
    ensures ParseFields(name + " FROM " + tail) == Some(([name], tail))
  {
    var s := name + " FROM " + tail;
    NameThen(name, " FROM ", tail);
    assert s[|name|..][0] == ' ';
    assert !(", " <= s[|name|..]);
  }

  lemma NextFieldRead(name: string, more: string, fields: seq<string>, tail: string)
    requires IsName(name) && ParseFields(more) == Some((fields, tail))
    ensures ParseFields(name + ", " + more) == Some(([name] + fields, tail))
  {
    NameThen(name, ", ", more);
  }

  lemma {:induction false} FieldsReadBack(fields: seq<string>, tail: string)
    requires fields != [] && forall f <- fields :: IsName(f)
    ensures ParseFields(Join(fields, ", ") + " FROM " + tail) == Some((fields, tail))
  {
    hide ParseFields;
    var rest := fields[1..];
    assert fields == [fields[0]] + rest;
    if rest == [] {
      assert fields == [fields[0]] && Join(fields, ", ") == fields[0];
      LastFieldRead(fields[0], tail);
    } else {
      var more := Join(rest, ", ") + " FROM " + tail;
      FieldsReadBack(rest, tail);
      NextFieldRead(fields[0], more, rest, tail);
      assert Join(fields, ", ") + " FROM " + tail == fields[0] + ", " + more;
    }
  }

  lemma SelectReadBack(job: Job)
    requires WellNamed(job)
    ensures ParseSelect(QueryText(job)) == Some(job)
  {
    var after := if job.condition.Some? then " " + job.condition.value else "";
    var tail := job.table + after;
    var fields := Join(job.fields, ", ") + " FROM " + tail;
    assert QueryText(job) == "SELECT " + fields;
    assert QueryText(job)[7..] == fields;
    FieldsReadBack(job.fields, tail);
    TailReadBack(job);
  }

  lemma TailReadBack(job: Job)
    requires WellNamed(job)
    ensures var after := if job.condition.Some? then " " + job.condition.value else "";
            var tail := job.table + after;
            && NameLength(tail) == |job.table|
            && tail[..|job.table|] == job.table
            && (job.condition.Some? ==> |tail| > |job.table| && tail[|job.table|] == ' '
                                        && tail[|job.table| + 1..] == job.condition.value)
            && (job.condition.None? ==> tail == job.table)
  {
    NameEnds(job.table, if job.condition.Some? then " " + job.condition.value else "");
  }

  /** Two different jobs never produce the same text. */
  lemma SelectUnambiguous(a: Job, b: Job)
    requires WellNamed(a) && WellNamed(b)
    requires QueryText(a) == QueryText(b)
    ensures a == b
  {
    SelectReadBack(a);
    SelectReadBack(b);
  }
}
