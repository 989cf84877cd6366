/** JSON values as the handlers see them, and the text Boost.JSON writes for them. */
module Json {
  import opened Text

  datatype Json =
    | Str(text: string)
    | Num(number: int)
    | Arr(items: seq<Json>)
    | Obj(members: map<string, Json>)

  /** `value.at(key)`, `None` standing for the exception. */
  function At(j: Json, key: string): Option<Json> {
    if j.Obj? && key in j.members then Some(j.members[key]) else None
  }

  function AtPath(j: Json, outer: string, inner: string): Option<Json> {
    match At(j, outer)
    case None => None
    case Some(v) => At(v, inner)
  }

  // ---- Text of a string (section 7 of RFC 8259)

  predicate IsPlain(c: char) {
    c != '"' && c != '\\' && c >= ' '
  }

  predicate Plain(s: string) {
    forall c <- s :: IsPlain(c)
  }

  function Hex(n: nat): char
    requires n < 16
  {
    "0123456789abcdef"[n]
  }

  function EscapeChar(c: char): (e: string)
    ensures |e| >= 1
    ensures |e| == 1 <==> IsPlain(c)
  {
    if c == '"' then "\\\""
    else if c == '\\' then "\\\\"
    else if c == '\n' then "\\n"
    else if c == '\r' then "\\r"
    else if c == '\t' then "\\t"
    else if c as int == 8 then "\\b"
    else if c as int == 12 then "\\f"
    else if c < ' ' then "\\u00" + [Hex(c as int / 16), Hex(c as int % 16)]
    else [c]
  }

  function Escape(s: string): string {
    if s == "" then "" else EscapeChar(s[0]) + Escape(s[1..])
  }

  /** `serialize` of a string value. */
  function Quote(s: string): string {
    "\"" + Escape(s) + "\""
  }

  /** What `remove_copy(..., '"')` leaves of a serialised string. */
  function Dequote(cell: string): string {
    Without(cell, '"')
  }

  lemma {:induction false} EscapeFixesPlain(s: string)
    ensures |Escape(s)| >= |s|
    ensures Escape(s) == s <==> Plain(s)
  {
    if s != "" {
      EscapeFixesPlain(s[1..]);
      assert s == [s[0]] + s[1..];
      assert IsPlain(s[0]) ==> Escape(s)[1..] == Escape(s[1..]);
      assert Plain(s) ==> Plain(s[1..]);
      assert IsPlain(s[0]) && Plain(s[1..]) ==> Plain(s);
    }
  }

  /** A cell comes back from quoting and stripping quotes exactly when it needed no escape. */
  lemma DequoteOfQuote(s: string)
    ensures Dequote(Quote(s)) == s <==> Plain(s)
  {
    var q := "\"";
    assert Without(q, '"') == "";
    WithoutAppend(q + Escape(s), q, '"');
    WithoutAppend(q, Escape(s), '"');
    StrippedEscape(s);
  }

  lemma {:induction false} StrippedEscape(s: string)
    ensures |Dequote(Escape(s))| >= |s|
    ensures Dequote(Escape(s)) == s <==> Plain(s)
  {
    if s != "" {
      var head, tail := Dequote(EscapeChar(s[0])), Dequote(Escape(s[1..]));
      WithoutAppend(EscapeChar(s[0]), Escape(s[1..]), '"');
      StrippedEscape(s[1..]);
      StrippedChar(s[0]);
      assert Dequote(Escape(s)) == head + tail;
      assert s == [s[0]] + s[1..];
      if head + tail == s {
        assert |head| == 1;
        assert (head + tail)[1..] == tail;
        assert (head + tail)[0] == head[0];
      }
    }
  }

  lemma StrippedChar(c: char)
    ensures |Dequote(EscapeChar(c))| >= 1
    ensures Dequote(EscapeChar(c)) == [c] <==> IsPlain(c)
  {
    var e := EscapeChar(c);
    if c == '"' {
      assert e == ['\\'] + ['"'];
      WithoutAppend(['\\'], ['"'], '"');
    } else {
      WithoutAbsent(e, '"');
    }
  }

  // ---- Text of a value

  function Digits(n: nat): (d: string)
    ensures forall c <- d :: '0' <= c <= '9'
  {
    var last := ["0123456789"[n % 10]];
    if n < 10 then last else Digits(n / 10) + last
  }

  /** Some fixed order of the members; no statement depends on which. */
  ghost function Order(keys: set<string>): seq<string> {
    if keys == {} then [] else var k :| k in keys; [k] + Order(keys - {k})
  }

  lemma {:induction false} OrderCovers(keys: set<string>)
    ensures forall k :: k in Order(keys) <==> k in keys
  {
    if keys != {} {
      var k := Order(keys)[0];
      OrderCovers(keys - {k});
    }
  }

  ghost function Render(j: Json): string
    decreases j, 1, 0
  {
    match j
    case Str(s) => Quote(s)
    case Num(n) => if n < 0 then "-" + Digits(-n) else Digits(n)
    case Arr(items) => "[" + RenderItems(j, 0) + "]"
    case Obj(members) =>
      OrderCovers(members.Keys);
      "{" + RenderMembers(j, Order(members.Keys)) + "}"
  }

  ghost function RenderItems(j: Json, from: nat): string
    requires j.Arr? && from <= |j.items|
    decreases j, 0, |j.items| - from
  {
    if from == |j.items| then ""
    else (if from == 0 then "" else ",") + Render(j.items[from]) + RenderItems(j, from + 1)
  }

  ghost function RenderMembers(j: Json, keys: seq<string>): string
    requires j.Obj? && forall k <- keys :: k in j.members
    decreases j, 0, |keys|
  {
    if keys == [] then ""
    else Quote(keys[0]) + ":" + Render(j.members[keys[0]])
         + (if |keys| == 1 then "" else ",") + RenderMembers(j, keys[1..])
  }
}
