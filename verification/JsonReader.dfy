/** A reader of JSON text by the grammar of RFC 8259, independent of the serialiser: whole numbers, no white space
    between tokens. The text of a value determines the value. */
module JsonReader {
  import opened Text
  import opened Json

  // ---- Strings (section 7 of RFC 8259)

  function HexDigit(c: char): Option<nat> {
    if '0' <= c <= '9' then Some(c as int - '0' as int)
    else if 'a' <= c <= 'f' then Some(c as int - 'a' as int + 10)
    else if 'A' <= c <= 'F' then Some(c as int - 'A' as int + 10)
    else None
  }

  /** Four hexadecimal digits; surrogates are not characters of their own. */
  function HexChar(digits: string): Option<char>
    requires |digits| == 4
  {
    match (HexDigit(digits[0]), HexDigit(digits[1]), HexDigit(digits[2]), HexDigit(digits[3]))
    case (Some(a), Some(b), Some(c), Some(d)) =>
      var code := a * 4096 + b * 256 + c * 16 + d;
      if code < 0xD800 then Some(code as char) else None
    case _ => None
  }

  /** The character a backslash and one letter stand for. */
  function ShortEscape(c: char): Option<char> {
    if c == '"' || c == '\\' || c == '/' then Some(c)
    else if c == 'b' then Some(8 as char)
    else if c == 'f' then Some(12 as char)
    else if c == 'n' then Some('\n')
    else if c == 'r' then Some('\r')
    else if c == 't' then Some('\t')
    else None
  }

  function Prepended(c: char, r: Option<(string, string)>): Option<(string, string)> {
    match r
    case None => None
    case Some((text, rest)) => Some(([c] + text, rest))
  }

  /** A string after its opening quote, and what follows its closing one. */
  function ReadText(s: string): (r: Option<(string, string)>)
    ensures r.Some? ==> |r.value.1| < |s|
    decreases |s|
  {
    if s == "" then None
    else if s[0] == '"' then Some(("", s[1..]))
    else if s[0] < ' ' then None
    else if s[0] != '\\' then Prepended(s[0], ReadText(s[1..]))
    else if |s| == 1 then None
    else if s[1] != 'u' then
      match ShortEscape(s[1])
      case None => None
      case Some(c) => Prepended(c, ReadText(s[2..]))
    else if |s| < 6 then None
    else
      match HexChar(s[2..6])
      case None => None
      case Some(c) => Prepended(c, ReadText(s[6..]))
  }

  // ---- Numbers (section 6)

  predicate IsDigit(c: char) {
    '0' <= c <= '9'
  }

  function DigitsFront(s: string): (n: nat)
    ensures n <= |s| && (forall i :: 0 <= i < n ==> IsDigit(s[i])) && (n < |s| ==> !IsDigit(s[n]))
  {
    if s == "" || !IsDigit(s[0]) then 0 else 1 + DigitsFront(s[1..])
  }

  function DigitOf(c: char): nat
    requires IsDigit(c)
  {
    c as int - '0' as int
  }

  function Decimal(digits: string): nat
    requires forall c <- digits :: IsDigit(c)
  {
    if digits == "" then 0
    else
      assert digits[|digits| - 1] in digits;
      Decimal(digits[..|digits| - 1]) * 10 + DigitOf(digits[|digits| - 1])
  }

  /** Digits, with no zero in front of others. */
  function ReadNat(s: string): (r: Option<(int, string)>)
    ensures r.Some? ==> |r.value.1| < |s|
  {
    var n := DigitsFront(s);
    if n == 0 || (n > 1 && s[0] == '0') then None else Some((Decimal(s[..n]), s[n..]))
  }

  function ReadNumber(s: string): (r: Option<(int, string)>)
    requires s != ""
    ensures r.Some? ==> |r.value.1| < |s|
  {
    if s[0] == '-' then
      match ReadNat(s[1..])
      case None => None
      case Some((n, rest)) => Some((-n, rest))
    else
      match ReadNat(s)
      case None => None
      case Some((n, rest)) => Some((n, rest))
  }

  // ---- Values (sections 3 to 5)

  function ReadValue(s: string): (r: Option<(Json, string)>)
    ensures r.Some? ==> |r.value.1| < |s|
    decreases |s|, 0
  {
    if s == "" then None
    else if s[0] == '"' then
      match ReadText(s[1..])
      case None => None
      case Some((text, rest)) => Some((Str(text), rest))
    else if s[0] == '[' then
      if |s| > 1 && s[1] == ']' then Some((Arr([]), s[2..]))
      else
        match ReadItems(s[1..])
        case None => None
        case Some((items, rest)) => Some((Arr(items), rest))
    else if s[0] == '{' then
      if |s| > 1 && s[1] == '}' then Some((Obj(map[]), s[2..]))
      else
        match ReadMembers(s[1..])
        case None => None
        case Some((members, rest)) => Some((Obj(members), rest))
    else
      match ReadNumber(s)
      case None => None
      case Some((n, rest)) => Some((Num(n), rest))
  }

  /** The items of an array, up to its closing bracket. */
  function ReadItems(s: string): (r: Option<(seq<Json>, string)>)
    ensures r.Some? ==> |r.value.1| < |s|
    decreases |s|, 1
  {
    match ReadValue(s)
    case None => None
    case Some((item, rest)) =>
      if rest == "" then None
      else if rest[0] == ']' then Some(([item], rest[1..]))
      else if rest[0] != ',' then None
      else
        match ReadItems(rest[1..])
        case None => None
        case Some((items, left)) => Some(([item] + items, left))
  }

  /** The members of an object, up to its closing bracket. */
  function ReadMembers(s: string): (r: Option<(map<string, Json>, string)>)
    ensures r.Some? ==> |r.value.1| < |s|
    decreases |s|, 1
  {
    if s == "" || s[0] != '"' then None
    else
      match ReadText(s[1..])
      case None => None
      case Some((name, named)) =>
        if named == "" || named[0] != ':' then None
        else
          match ReadValue(named[1..])
          case None => None
          case Some((value, rest)) =>
            if rest == "" then None
            else if rest[0] == '}' then Some((map[name := value], rest[1..]))
            else if rest[0] != ',' then None
            else
              match ReadMembers(rest[1..])
              case None => None
              case Some((members, left)) => Some((map[name := value] + members, left))
  }

  /** A whole text. */
  function Read(text: string): Option<Json> {
    match ReadValue(text)
    case Some((j, rest)) => if rest == "" then Some(j) else None
    case None => None
  }

  // ---- What the serialiser writes is read back

  lemma CharReadBack(c: char, tail: string)
    ensures ReadText(EscapeChar(c) + tail) == Prepended(c, ReadText(tail))
  {
    hide EscapeChar;
    var e := EscapeChar(c);
    if IsPlain(c) {
      PlainChar(c);
      assert (e + tail)[1..] == tail;
    } else if |e| == 2 {
      ShortChar(c);
      assert (e + tail)[2..] == tail;
    } else {
      LongChar(c);
      assert (e + tail)[2..6] == e[2..6] && (e + tail)[6..] == tail;
    }
  }

  lemma PlainChar(c: char)
    requires IsPlain(c)
    ensures EscapeChar(c) == [c]
  {
  }

  lemma ShortChar(c: char)
    requires |EscapeChar(c)| == 2
    ensures EscapeChar(c)[0] == '\\' && EscapeChar(c)[1] != 'u' && ShortEscape(EscapeChar(c)[1]) == Some(c)
  {
  }

  lemma LongChar(c: char)
    requires !IsPlain(c) && |EscapeChar(c)| != 2
    ensures var e := EscapeChar(c);
            |e| == 6 && e[0] == '\\' && e[1] == 'u' && HexChar(e[2..6]) == Some(c)
  {
    var e := EscapeChar(c);
    HexRead(c as int / 16);
    HexRead(c as int % 16);
    assert e[2..6] == ['0', '0', Hex(c as int / 16), Hex(c as int % 16)];
  }

  lemma HexRead(n: nat)
    requires n < 16
    ensures HexDigit(Hex(n)) == Some(n)
  {
  }

  lemma {:induction false} TextReadBack(text: string, rest: string)
    ensures ReadText(Escape(text) + "\"" + rest) == Some((text, rest))
  {
    if text == "" {
      assert (Escape(text) + "\"" + rest)[1..] == rest;
    } else {
      hide ReadText, EscapeChar;
      var tail := Escape(text[1..]) + "\"" + rest;
      assert Escape(text) + "\"" + rest == EscapeChar(text[0]) + tail;
      CharReadBack(text[0], tail);
      TextReadBack(text[1..], rest);
      assert [text[0]] + text[1..] == text;
    }
  }

  lemma QuoteReadBack(text: string, rest: string)
    ensures Quote(text) != "" && Quote(text)[0] == '"'
    ensures ReadText((Quote(text) + rest)[1..]) == Some((text, rest))
  {
    TextReadBack(text, rest);
    assert (Quote(text) + rest)[1..] == Escape(text) + "\"" + rest;
  }

  /** A number ends where its digits end. */
  predicate Ends(rest: string) {
    rest == "" || !IsDigit(rest[0])
  }

  lemma {:induction false} DigitsDecimal(n: nat)
    ensures var d := Digits(n);
            && d != "" && (forall c <- d :: IsDigit(c)) && Decimal(d) == n
            && (|d| > 1 ==> n > 0) && (n > 0 ==> d[0] != '0')
    decreases n
  {
    var last := ["0123456789"[n % 10]];
    if n >= 10 {
      DigitsDecimal(n / 10);
      assert (Digits(n / 10) + last)[..|Digits(n / 10)|] == Digits(n / 10);
    } else {
      assert last[..0] == "";
    }
  }

  lemma {:induction false} DigitsFrontOf(digits: string, rest: string)
    requires (forall c <- digits :: IsDigit(c)) && Ends(rest)
    ensures DigitsFront(digits + rest) == |digits|
  {
    if digits == "" {
      assert digits + rest == rest;
    } else {
      assert (digits + rest)[1..] == digits[1..] + rest;
      DigitsFrontOf(digits[1..], rest);
    }
  }

  lemma NatReadBack(n: nat, rest: string)
    requires Ends(rest)
    ensures ReadNat(Digits(n) + rest) == Some((n, rest))
  {
    hide Digits, Decimal, DigitsFront;
    var d := Digits(n);
    DigitsDecimal(n);
    DigitsFrontOf(d, rest);
    assert (d + rest)[..|d|] == d && (d + rest)[|d|..] == rest;
  }

  lemma SignRead(s: string, n: int, rest: string)
    requires s != "" && s[0] == '-' && ReadNat(s[1..]) == Some((n, rest))
    ensures ReadNumber(s) == Some((-n, rest))
  {
    hide ReadNat;
  }

  lemma NumberReadBack(n: int, rest: string)
    requires Ends(rest)
    ensures var text := Render(Num(n));
            text != "" && (text[0] == '-' || IsDigit(text[0])) && ReadNumber(text + rest) == Some((n, rest))
  {
    hide Digits, ReadNat;
    var text := Render(Num(n));
    DigitsDecimal(if n < 0 then -n else n);
    NatReadBack(if n < 0 then -n else n, rest);
    if n < 0 {
      assert text + rest == "-" + (Digits(-n) + rest);
      assert ("-" + (Digits(-n) + rest))[1..] == Digits(-n) + rest;
      SignRead(text + rest, -n, rest);
    } else {
      assert text == Digits(n) && (text + rest)[0] == text[0];
    }
  }

  /** Every serialised value is read back, and reading stops at its last character. */
  lemma {:induction false} ValueReadBack(j: Json, rest: string)
    requires Ends(rest)
    ensures Render(j) != "" && Render(j)[0] != ']' && Render(j)[0] != '}'
    ensures ReadValue(Render(j) + rest) == Some((j, rest))
    decreases j, 2, 0
  {
    hide Quote, Digits, ReadText, ReadNumber, ReadItems, ReadMembers;
    match j
    case Str(text) => QuoteReadBack(text, rest);
    case Num(n) => NumberReadBack(n, rest);
    case Arr(items) =>
      var body := RenderItems(j, 0);
      assert Render(j) + rest == "[" + (body + "]" + rest);
      assert ("[" + (body + "]" + rest))[1..] == body + "]" + rest;
      if items == [] {
        assert (Render(j) + rest)[2..] == rest;
      } else {
        ItemsReadBack(j, 0, rest);
        ItemsTextIs(j, 0);
        assert body == ItemsText(j, 0) && (body + "]" + rest)[0] == body[0];
        assert items[0..] == items;
      }
    case Obj(members) =>
      OrderCovers(members.Keys);
      var keys := Order(members.Keys);
      var body := RenderMembers(j, keys);
      assert Render(j) + rest == "{" + (body + "}" + rest);
      assert ("{" + (body + "}" + rest))[1..] == body + "}" + rest;
      if keys == [] {
        assert members == map[];
        assert (Render(j) + rest)[2..] == rest;
      } else {
        MembersReadBack(j, keys, rest);
        assert (body + "}" + rest)[0] == body[0];
        assert Only(members, keys) == members;
      }
  }

  lemma LastItemRead(s: string, item: Json, rest: string)
    requires ReadValue(s) == Some((item, "]" + rest))
    ensures ReadItems(s) == Some(([item], rest))
  {
    hide ReadValue;
    assert ("]" + rest)[1..] == rest;
  }

  lemma NextItemRead(s: string, item: Json, more: string, items: seq<Json>, rest: string)
    requires ReadValue(s) == Some((item, "," + more)) && ReadItems(more) == Some((items, rest))
    ensures ReadItems(s) == Some(([item] + items, rest))
  {
    hide ReadValue;
    assert ("," + more)[1..] == more;
  }

  /** The text of the items from one on, without the comma before it. */
  ghost function ItemsText(j: Json, from: nat): string
    requires j.Arr? && from < |j.items|
  {
    Render(j.items[from]) + RenderItems(j, from + 1)
  }

  lemma ItemsTextIs(j: Json, from: nat)
    requires j.Arr? && from < |j.items|
    ensures RenderItems(j, from) == (if from == 0 then "" else ",") + ItemsText(j, from)
  {
    hide Render;
  }

  lemma {:induction false} ItemsReadBack(j: Json, from: nat, rest: string)
    requires j.Arr? && from < |j.items|
    ensures ItemsText(j, from) != "" && ItemsText(j, from)[0] != ']'
    ensures ReadItems(ItemsText(j, from) + "]" + rest) == Some((j.items[from..], rest))
    decreases j, 1, |j.items| - from
  {
    hide ReadValue, ReadItems, Render;
    var item, text := Render(j.items[from]), ItemsText(j, from) + "]" + rest;
    if from + 1 == |j.items| {
      ValueReadBack(j.items[from], "]" + rest);
      assert text == item + ("]" + rest);
      LastItemRead(text, j.items[from], rest);
      assert j.items[from..] == [j.items[from]];
    } else {
      var more := ItemsText(j, from + 1) + "]" + rest;
      ItemsReadBack(j, from + 1, rest);
      ItemsTextIs(j, from + 1);
      ValueReadBack(j.items[from], "," + more);
      assert text == item + ("," + more);
      NextItemRead(text, j.items[from], more, j.items[from + 1..], rest);
      assert j.items[from..] == [j.items[from]] + j.items[from + 1..];
    }
  }

  lemma LastMemberRead(s: string, name: string, value: Json, named: string, rest: string)
    requires s != "" && s[0] == '"' && ReadText(s[1..]) == Some((name, ":" + named))
    requires ReadValue(named) == Some((value, "}" + rest))
    ensures ReadMembers(s) == Some((map[name := value], rest))
  {
    hide ReadValue, ReadText;
    assert (":" + named)[1..] == named;
    assert ("}" + rest)[1..] == rest;
  }

  lemma NextMemberRead(s: string, name: string, value: Json, named: string, more: string, members: map<string, Json>,
    rest: string)
    requires s != "" && s[0] == '"' && ReadText(s[1..]) == Some((name, ":" + named))
    requires ReadValue(named) == Some((value, "," + more)) && ReadMembers(more) == Some((members, rest))
    ensures ReadMembers(s) == Some((map[name := value] + members, rest))
  {
    hide ReadValue, ReadText;
    assert (":" + named)[1..] == named;
    assert ("," + more)[1..] == more;
  }

  function Only(members: map<string, Json>, keys: seq<string>): map<string, Json>
    requires forall k <- keys :: k in members
  {
    map k | k in keys :: members[k]
  }

  lemma OnlyNext(members: map<string, Json>, keys: seq<string>)
    requires keys != [] && forall k <- keys :: k in members
    ensures Only(members, keys) == map[keys[0] := members[keys[0]]] + Only(members, keys[1..])
  {
    assert keys == [keys[0]] + keys[1..];
  }

  lemma {:induction false} MembersReadBack(j: Json, keys: seq<string>, rest: string)
    requires j.Obj? && keys != [] && forall k <- keys :: k in j.members
    ensures RenderMembers(j, keys) != "" && RenderMembers(j, keys)[0] == '"'
    ensures ReadMembers(RenderMembers(j, keys) + "}" + rest) == Some((Only(j.members, keys), rest))
    decreases j, 1, |keys|
  {
    hide ReadValue, ReadText, ReadMembers, Quote, Render, Only;
    var name, value := Quote(keys[0]), Render(j.members[keys[0]]);
    var text := RenderMembers(j, keys) + "}" + rest;
    OnlyNext(j.members, keys);
    if |keys| == 1 {
      var named := value + ("}" + rest);
      QuoteReadBack(keys[0], ":" + named);
      ValueReadBack(j.members[keys[0]], "}" + rest);
      assert text == name + (":" + named);
      LastMemberRead(text, keys[0], j.members[keys[0]], named, rest);
      OnlyNone(j.members, keys[1..]);
      assert map[keys[0] := j.members[keys[0]]] + map[] == map[keys[0] := j.members[keys[0]]];
    } else {
      var more := RenderMembers(j, keys[1..]) + "}" + rest;
      var named := value + ("," + more);
      QuoteReadBack(keys[0], ":" + named);
      ValueReadBack(j.members[keys[0]], "," + more);
      MembersReadBack(j, keys[1..], rest);
      assert text == name + (":" + named);
      NextMemberRead(text, keys[0], j.members[keys[0]], named, more, Only(j.members, keys[1..]), rest);
    }
  }

  lemma OnlyNone(members: map<string, Json>, keys: seq<string>)
    requires keys == []
    ensures Only(members, keys) == map[]
  {
  }

  /** Serialising and reading is the identity, on every value. */
  lemma ReadBack(j: Json)
    ensures Read(Render(j)) == Some(j)
  {
    ValueReadBack(j, "");
    assert Render(j) + "" == Render(j);
  }

  /** So the text of a value is the text of no other. */
  lemma TextDetermines(a: Json, b: Json)
    ensures Render(a) == Render(b) <==> a == b
  {
    hide Read, Render;
    ReadBack(a);
    ReadBack(b);
  }

  lemma EscapeDetermines(a: string, b: string)
    ensures Escape(a) == Escape(b) <==> a == b
  {
    hide ReadText, Escape;
    TextReadBack(a, "");
    TextReadBack(b, "");
  }
}
