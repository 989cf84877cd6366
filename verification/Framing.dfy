/** The receive loop that cuts a byte stream into JSON documents, whatever the chunks it arrives in. */
module Framing {
  import opened Text
  import opened Json

  /** The incremental parser, as far as finding the end of an object goes: the bytes of the current
      document, how many brackets are open, and whether a string or an escape is being read. */
  datatype Parser = Parser(text: string, depth: nat, inString: bool, escaped: bool, done: bool)

  const FRESH := Parser("", 0, false, false, false)

  function Feed(p: Parser, c: char): Parser {
    var q := p.(text := p.text + [c]);
    if p.inString then
      if p.escaped then q.(escaped := false)
      else if c == '\\' then q.(escaped := true)
      else if c == '"' then q.(inString := false)
      else q
    else if c == '"' then q.(inString := p.depth > 0)
    else if c == '{' || c == '[' then q.(depth := p.depth + 1)
    else if c == '}' || c == ']' then
      if p.depth == 0 then q else q.(depth := p.depth - 1, done := p.depth == 1)
    else q
  }

  /** `write_some`: bytes are consumed until a document is complete or none are left. */
  function WriteSome(p: Parser, bytes: string): (r: (Parser, nat))
    requires !p.done
    ensures r.1 <= |bytes|
    ensures bytes != "" ==> r.1 > 0
    ensures !r.0.done ==> r.1 == |bytes| && (bytes != "" ==> r.0 != FRESH)
    decreases |bytes|
  {
    if bytes == "" then (p, 0)
    else
      var q := Feed(p, bytes[0]);
      if q.done then (q, 1)
      else var (end, n) := WriteSome(q, bytes[1..]); (end, n + 1)
  }

  /** The documents completed by some bytes and what the parser is left with. */
  function Decode(p: Parser, bytes: string): (seq<string>, Parser)
    decreases |bytes|
  {
    if bytes == "" then ([], p)
    else
      var q := Feed(p, bytes[0]);
      if q.done then
        var (documents, end) := Decode(FRESH, bytes[1..]);
        ([q.text] + documents, end)
      else Decode(q, bytes[1..])
  }

  /** `write_some` reaches exactly the next document boundary. */
  lemma {:induction false} WriteSomeDecodes(p: Parser, bytes: string)
    requires !p.done
    ensures var (end, n) := WriteSome(p, bytes);
            if end.done then
              var (documents, rest) := Decode(FRESH, bytes[n..]);
              Decode(p, bytes) == ([end.text] + documents, rest)
            else Decode(p, bytes) == ([], end)
    decreases |bytes|
  {
    if bytes != "" {
      var q := Feed(p, bytes[0]);
      if !q.done {
        WriteSomeDecodes(q, bytes[1..]);
        var (end, n) := WriteSome(q, bytes[1..]);
        assert bytes[1..][n..] == bytes[n + 1..];
      }
    }
  }

  /** Decoding does not depend on where the bytes are cut. */
  lemma {:induction false} DecodeAppend(p: Parser, a: string, b: string)
    ensures var (front, middle) := Decode(p, a);
            var (back, end) := Decode(middle, b);
            Decode(p, a + b) == (front + back, end)
    decreases |a|
  {
    if a == "" {
      assert a + b == b;
      assert [] + Decode(p, b).0 == Decode(p, b).0;
    } else {
      assert (a + b)[1..] == a[1..] + b;
      var q := Feed(p, a[0]);
      if q.done {
        DecodeAppend(FRESH, a[1..], b);
        var (front, middle) := Decode(FRESH, a[1..]);
        assert [q.text] + (front + Decode(middle, b).0) == ([q.text] + front) + Decode(middle, b).0;
      } else {
        DecodeAppend(q, a[1..], b);
      }
    }
  }

  /** The documents of a stream that arrives in chunks. */
  function DecodeChunks(p: Parser, chunks: seq<string>): (seq<string>, Parser)
    decreases |chunks|
  {
    if chunks == [] then ([], p)
    else
      var (found, middle) := Decode(p, chunks[0]);
      var (more, end) := DecodeChunks(middle, chunks[1..]);
      (found + more, end)
  }

  lemma {:induction false} ChunkingIndependent(p: Parser, chunks: seq<string>)
    ensures DecodeChunks(p, chunks) == Decode(p, Concat(chunks))
    decreases |chunks|
  {
    if chunks != [] {
      DecodeAppend(p, chunks[0], Concat(chunks[1..]));
      ChunkingIndependent(Decode(p, chunks[0]).1, chunks[1..]);
    }
  }

  // ---- What the serialiser writes is framed

  /** Between tokens inside an open bracket. */
  predicate Inside(p: Parser) {
    p.depth > 0 && !p.inString && !p.escaped && !p.done
  }

  /** The bytes are taken in with no document boundary among them. */
  ghost predicate Absorbs(p: Parser, bytes: string, after: Parser) {
    forall rest: string :: Decode(p, bytes + rest) == Decode(after, rest)
  }

  lemma AbsorbsByte(p: Parser, c: char)
    requires !Feed(p, c).done
    ensures Absorbs(p, [c], Feed(p, c))
  {
    forall rest: string
      ensures Decode(p, [c] + rest) == Decode(Feed(p, c), rest)
    {
      assert ([c] + rest)[1..] == rest;
    }
  }

  lemma AbsorbsBoth(p: Parser, a: string, q: Parser, b: string, r: Parser)
    requires Absorbs(p, a, q) && Absorbs(q, b, r)
    ensures Absorbs(p, a + b, r)
  {
    forall rest: string
      ensures Decode(p, a + b + rest) == Decode(r, rest)
    {
      assert a + b + rest == a + (b + rest);
    }
  }

  function Took(p: Parser, bytes: string): Parser {
    p.(text := p.text + bytes)
  }

  lemma TookBoth(p: Parser, a: string, b: string)
    ensures Took(Took(p, a), b) == Took(p, a + b)
  {
    assert p.text + a + b == p.text + (a + b);
  }

  lemma AbsorbsNothing(p: Parser)
    ensures Absorbs(p, "", Took(p, ""))
  {
    assert Took(p, "") == p by { assert p.text + "" == p.text; }
    assert forall rest: string :: "" + rest == rest;
  }

  /** Two stretches that leave the parser where it was, one after the other. */
  lemma AbsorbsStretches(p: Parser, a: string, b: string)
    requires Absorbs(p, a, Took(p, a)) && Absorbs(Took(p, a), b, Took(Took(p, a), b))
    ensures Absorbs(p, a + b, Took(p, a + b))
  {
    AbsorbsBoth(p, a, Took(p, a), b, Took(Took(p, a), b));
    TookBoth(p, a, b);
  }

  /** Bytes that mean nothing to the parser where it stands. */
  predicate Neutral(p: Parser, c: char) {
    if p.inString then !p.escaped && c != '"' && c != '\\'
    else c != '"' && c != '{' && c != '[' && c != '}' && c != ']'
  }

  lemma {:induction false} AbsorbsNeutral(p: Parser, bytes: string)
    requires !p.done && forall c <- bytes :: Neutral(p, c)
    ensures Absorbs(p, bytes, Took(p, bytes))
    decreases |bytes|
  {
    if bytes == "" {
      AbsorbsNothing(p);
    } else {
      hide Absorbs;
      assert bytes[0] in bytes && forall c <- bytes[1..] :: c in bytes;
      AbsorbsByte(p, bytes[0]);
      AbsorbsNeutral(Took(p, [bytes[0]]), bytes[1..]);
      AbsorbsStretches(p, [bytes[0]], bytes[1..]);
      assert bytes == [bytes[0]] + bytes[1..];
    }
  }

  lemma AbsorbsEscapeChar(p: Parser, c: char)
    requires p.inString && !p.escaped && !p.done
    ensures Absorbs(p, EscapeChar(c), Took(p, EscapeChar(c)))
  {
    var e := EscapeChar(c);
    if |e| == 1 {
      AbsorbsNeutral(p, e);
    } else {
      var slash, rest := e[..1], e[2..];
      var q := Feed(p, e[0]);
      AbsorbsByte(p, e[0]);
      AbsorbsByte(q, e[1]);
      AbsorbsBoth(p, [e[0]], q, [e[1]], Feed(q, e[1]));
      assert Feed(q, e[1]) == Took(p, [e[0]] + [e[1]]) by { TookBoth(p, [e[0]], [e[1]]); }
      AbsorbsNeutral(Took(p, [e[0]] + [e[1]]), rest);
      AbsorbsStretches(p, [e[0]] + [e[1]], rest);
      assert e == [e[0]] + [e[1]] + rest;
    }
  }

  lemma {:induction false} AbsorbsEscape(p: Parser, s: string)
    requires p.inString && !p.escaped && !p.done
    ensures Absorbs(p, Escape(s), Took(p, Escape(s)))
    decreases |s|
  {
    hide Absorbs;
    if s == "" {
      AbsorbsNothing(p);
    } else {
      AbsorbsEscapeChar(p, s[0]);
      AbsorbsEscape(Took(p, EscapeChar(s[0])), s[1..]);
      AbsorbsStretches(p, EscapeChar(s[0]), Escape(s[1..]));
    }
  }

  /** Something absorbed between an opening and a closing byte. */
  lemma AbsorbsBetween(p: Parser, open: char, body: string, close: char)
    requires Inside(p)
    requires var q := Feed(p, open);
             && !q.done && Absorbs(q, body, Took(q, body))
             && Feed(Took(q, body), close) == Took(p, [open] + body + [close])
    ensures Absorbs(p, [open] + body + [close], Took(p, [open] + body + [close]))
  {
    var q := Feed(p, open);
    AbsorbsByte(p, open);
    AbsorbsBoth(p, [open], q, body, Took(q, body));
    AbsorbsByte(Took(q, body), close);
    AbsorbsBoth(p, [open] + body, Took(q, body), [close], Feed(Took(q, body), close));
  }

  lemma AbsorbsQuote(p: Parser, s: string)
    requires Inside(p)
    ensures Absorbs(p, Quote(s), Took(p, Quote(s)))
  {
    hide Absorbs, Escape;
    var q := Feed(p, '"');
    AbsorbsEscape(q, s);
    assert p.text + ['"'] + Escape(s) + ['"'] == p.text + (['"'] + Escape(s) + ['"']);
    AbsorbsBetween(p, '"', Escape(s), '"');
  }

  /** Every serialised value, strings with brackets and escapes included, is absorbed inside a document. */
  lemma {:induction false} AbsorbsValue(p: Parser, j: Json)
    requires Inside(p)
    ensures Absorbs(p, Render(j), Took(p, Render(j)))
    decreases j, 1, 0
  {
    hide Absorbs, Quote, RenderItems, RenderMembers, Digits;
    match j
    case Str(s) => AbsorbsQuote(p, s);
    case Num(n) =>
      var digits := Digits(if n < 0 then -n else n);
      AbsorbsNeutral(p, Render(j));
    case Arr(_) =>
      var body := RenderItems(j, 0);
      AbsorbsItems(Feed(p, '['), j, 0);
      assert p.text + ['['] + body + [']'] == p.text + (['['] + body + [']']);
      AbsorbsBetween(p, '[', body, ']');
    case Obj(members) =>
      OrderCovers(members.Keys);
      var body := RenderMembers(j, Order(members.Keys));
      AbsorbsMembers(Feed(p, '{'), j, Order(members.Keys));
      assert p.text + ['{'] + body + ['}'] == p.text + (['{'] + body + ['}']);
      AbsorbsBetween(p, '{', body, '}');
  }

  lemma {:induction false} AbsorbsItems(p: Parser, j: Json, from: nat)
    requires Inside(p) && j.Arr? && from <= |j.items|
    ensures Absorbs(p, RenderItems(j, from), Took(p, RenderItems(j, from)))
    decreases j, 0, |j.items| - from
  {
    hide Absorbs;
    if from == |j.items| {
      AbsorbsNothing(p);
    } else {
      var comma := if from == 0 then "" else ",";
      var item := Render(j.items[from]);
      AbsorbsNeutral(p, comma);
      AbsorbsValue(Took(p, comma), j.items[from]);
      AbsorbsStretches(p, comma, item);
      AbsorbsItems(Took(p, comma + item), j, from + 1);
      AbsorbsStretches(p, comma + item, RenderItems(j, from + 1));
    }
  }

  lemma {:induction false} AbsorbsMembers(p: Parser, j: Json, keys: seq<string>)
    requires Inside(p) && j.Obj? && forall k <- keys :: k in j.members
    ensures Absorbs(p, RenderMembers(j, keys), Took(p, RenderMembers(j, keys)))
    decreases j, 0, |keys|
  {
    hide Absorbs;
    if keys == [] {
      AbsorbsNothing(p);
    } else {
      var name, value := Quote(keys[0]), Render(j.members[keys[0]]);
      var comma := if |keys| == 1 then "" else ",";
      AbsorbsQuote(p, keys[0]);
      AbsorbsNeutral(Took(p, name), ":");
      AbsorbsStretches(p, name, ":");
      AbsorbsValue(Took(p, name + ":"), j.members[keys[0]]);
      AbsorbsStretches(p, name + ":", value);
      AbsorbsNeutral(Took(p, name + ":" + value), comma);
      AbsorbsStretches(p, name + ":" + value, comma);
      AbsorbsMembers(Took(p, name + ":" + value + comma), j, keys[1..]);
      AbsorbsStretches(p, name + ":" + value + comma, RenderMembers(j, keys[1..]));
    }
  }

  /** A serialised object is one document, ending at its last byte. */
  lemma ObjectFramed(j: Json, rest: string)
    requires j.Obj?
    ensures var (documents, end) := Decode(FRESH, rest);
            Decode(FRESH, Render(j) + rest) == ([Render(j)] + documents, end)
  {
    hide RenderMembers, Absorbs;
    OrderCovers(j.members.Keys);
    var body := RenderMembers(j, Order(j.members.Keys));
    var inside := Feed(FRESH, '{');
    AbsorbsMembers(inside, j, Order(j.members.Keys));
    LastBracket(inside, body, '}', rest);
    assert Render(j) + rest == "{" + (body + "}" + rest);
    assert ("{" + (body + "}" + rest))[1..] == body + "}" + rest;
    assert inside.text + body + "}" == Render(j);
  }

  lemma LastBracket(p: Parser, body: string, close: char, rest: string)
    requires Inside(p) && p.depth == 1 && Absorbs(p, body, Took(p, body)) && (close == '}' || close == ']')
    ensures var (documents, end) := Decode(FRESH, rest);
            Decode(p, body + [close] + rest) == ([p.text + body + [close]] + documents, end)
  {
    assert body + [close] + rest == body + ([close] + rest);
    assert ([close] + rest)[1..] == rest;
    assert Decode(p, body + ([close] + rest)) == Decode(Took(p, body), [close] + rest);
  }

  /** So is a serialised array. */
  lemma ArrayFramed(j: Json, rest: string)
    requires j.Arr?
    ensures var (documents, end) := Decode(FRESH, rest);
            Decode(FRESH, Render(j) + rest) == ([Render(j)] + documents, end)
  {
    hide RenderItems, Absorbs;
    var body := RenderItems(j, 0);
    var inside := Feed(FRESH, '[');
    AbsorbsItems(inside, j, 0);
    LastBracket(inside, body, ']', rest);
    assert Render(j) + rest == "[" + (body + "]" + rest);
    assert ("[" + (body + "]" + rest))[1..] == body + "]" + rest;
    assert inside.text + body + "]" == Render(j);
  }

  ghost function RenderAll(messages: seq<Json>): seq<string> {
    if messages == [] then [] else [Render(messages[0])] + RenderAll(messages[1..])
  }

  /** Any segmentation of a stream of serialised objects yields exactly those objects' texts, in order. */
  lemma {:induction false} MessagesFramed(messages: seq<Json>)
    requires forall m <- messages :: m.Obj?
    ensures Decode(FRESH, Concat(RenderAll(messages))) == (RenderAll(messages), FRESH)
  {
    if messages != [] {
      MessagesFramed(messages[1..]);
      assert messages[0] in messages;
      ObjectFramed(messages[0], Concat(RenderAll(messages[1..])));
    }
  }

  lemma StreamDecoded(messages: seq<Json>, chunks: seq<string>)
    requires forall m <- messages :: m.Obj?
    requires Concat(chunks) == Concat(RenderAll(messages))
    ensures DecodeChunks(FRESH, chunks) == (RenderAll(messages), FRESH)
  {
    ChunkingIndependent(FRESH, chunks);
    MessagesFramed(messages);
  }

  // ---- No byte is lost or invented

  lemma {:induction false} DecodeConserves(p: Parser, bytes: string)
    ensures var (documents, end) := Decode(p, bytes);
            Concat(documents) + end.text == p.text + bytes
    decreases |bytes|
  {
    if bytes == "" {
      assert "" + p.text == p.text + "";
    } else {
      var q := Feed(p, bytes[0]);
      assert p.text + bytes == q.text + bytes[1..];
      if q.done {
        DecodeConserves(FRESH, bytes[1..]);
        var (documents, end) := Decode(FRESH, bytes[1..]);
        assert q.text + Concat(documents) + end.text == q.text + (Concat(documents) + end.text);
        assert "" + bytes[1..] == bytes[1..];
        assert ([q.text] + documents)[1..] == documents;
      } else {
        DecodeConserves(q, bytes[1..]);
      }
    }
  }

  lemma {:induction false} WriteSomeText(p: Parser, bytes: string)
    requires !p.done
    ensures var (end, n) := WriteSome(p, bytes);
            end.text == p.text + bytes[..n]
    decreases |bytes|
  {
    if bytes != "" {
      var q := Feed(p, bytes[0]);
      if !q.done {
        WriteSomeText(q, bytes[1..]);
        var (end, n) := WriteSome(q, bytes[1..]);
        assert bytes[..n + 1] == [bytes[0]] + bytes[1..][..n];
      }
    }
  }

  // ---- The loop

  datatype Status = SUCCESS | FAIL

  const BUF_RECIVE_SIZE := 2048

  /** The parser is given a NUL-terminated view of the buffer. */
  function UpToNul(bytes: string): string {
    match Find(bytes, '\0')
    case None => bytes
    case Some(i) => bytes[..i]
  }

  lemma {:induction false} NulAfter(bytes: string, k: nat)
    requires k <= |UpToNul(bytes)|
    ensures UpToNul(bytes[k..]) == UpToNul(bytes)[k..]
  {
    if k > 0 {
      NulAfter(bytes[1..], k - 1);
      assert bytes[1..][k - 1..] == bytes[k..];
      assert UpToNul(bytes)[1..] == UpToNul(bytes[1..]);
    } else {
      assert bytes[0..] == bytes;
    }
  }

  /** Everything before the first NUL, and nothing else. */
  lemma NulCuts(bytes: string)
    ensures var seen := UpToNul(bytes);
            seen <= bytes && '\0' !in seen && (seen != bytes ==> bytes[|seen|] == '\0')
  {
  }

  class Receiver {
    var parser: Parser
    var documents: seq<string>

    constructor ()
      ensures parser == FRESH && documents == []
    {
      parser, documents := FRESH, [];
    }

    /** One received chunk; FAIL asks for another receive, the documents found so far staying queued. The bytes
        after a NUL are never looked at. A chunk must leave room for the NUL that ends the buffer. */
    method ReciveCheck(chunk: string) returns (status: Status)
      requires !parser.done
      requires |chunk| < BUF_RECIVE_SIZE
      modifies this
      ensures !parser.done
      ensures var (found, end) := Decode(old(parser), UpToNul(chunk));
              documents == old(documents) + found && parser == end
      ensures status == SUCCESS <==> chunk == "" || (parser == FRESH && '\0' !in chunk)
    {
      hide Feed, WriteSome;
      ghost var seen := UpToNul(chunk);
      var written := 0;
      ghost var found: seq<string> := [];
      assert found + Decode(parser, seen).0 == Decode(parser, seen).0 && seen[0..] == seen;
      while written < |chunk|
        invariant 0 <= written <= |seen| && !parser.done
        invariant if written > 0 then parser == FRESH else parser == old(parser)
        invariant documents == old(documents) + found
        invariant var (ahead, end) := Decode(parser, seen[written..]);
                  Decode(old(parser), seen) == (found + ahead, end)
      {
        var bytes := UpToNul(chunk[written..]);
        NulAfter(chunk, written);
        WriteSomeDecodes(parser, bytes);
        var (end, count) := WriteSome(parser, bytes);
        parser := end;
        if !parser.done {
          assert found + [] == found;
          return FAIL;
        }
        assert seen[written..][count..] == seen[written + count..];
        ghost var ahead := Decode(FRESH, seen[written + count..]).0;
        assert found + ([parser.text] + ahead) == found + [parser.text] + ahead;
        documents := documents + [parser.text];
        found := found + [parser.text];
        parser := FRESH;
        written := written + count;
      }
      return SUCCESS;
    }

    /** A completed batch is handed over by its first document alone; the queue is then emptied. */
    method ReciveCommand(chunk: string) returns (handled: Option<string>)
      requires !parser.done
      requires 0 < |chunk| < BUF_RECIVE_SIZE
      modifies this
      ensures !parser.done
      ensures var (found, end) := Decode(old(parser), UpToNul(chunk));
              var batch := old(documents) + found;
              var whole := end == FRESH && '\0' !in chunk;
              && parser == end
              && (whole ==> documents == [] && handled == if batch == [] then None else Some(batch[0]))
              && (!whole ==> documents == batch && handled == None)
    {
      var status := ReciveCheck(chunk);
      handled := None;
      if status == FAIL {
        return;
      }
      if documents != [] {
        handled := Some(documents[0]);
      }
      documents := [];
    }
  }

  // ---- The refresh client's reassembly of one reply

  /** A parser kept from one receive to the next, also across connections; `failed` is a parser that was given
      bytes after the end of its document, and refuses everything from then on. */
  datatype Assembly = Assembly(parser: Parser, failed: bool)

  const START := Assembly(FRESH, false)

  function Assembled(a: Assembly, chunk: string): (r: (Option<string>, Assembly))
    requires !a.parser.done
    ensures !r.1.parser.done
  {
    if a.failed then (None, a)
    else
      var (end, n) := WriteSome(a.parser, chunk);
      if !end.done then (None, Assembly(end, false))
      else if n < |chunk| then (None, Assembly(FRESH, true))
      else (Some(end.text), START)
  }

  function AssembledAll(a: Assembly, chunks: seq<string>): (r: (seq<Option<string>>, Assembly))
    requires !a.parser.done
    ensures |r.0| == |chunks|
    decreases |chunks|
  {
    if chunks == [] then ([], a)
    else
      var (document, next) := Assembled(a, chunks[0]);
      var (documents, end) := AssembledAll(next, chunks[1..]);
      ([document] + documents, end)
  }

  /** What completes a document completes it as the first of all that follow. */
  lemma FirstDocument(p: Parser, front: string, back: string, only: string)
    requires !p.done
    ensures var end := WriteSome(p, front).0;
            end.done && Decode(p, front + back).0 == [only] ==> end.text == only
  {
    WriteSomeDecodes(p, front);
    DecodeAppend(p, front, back);
    var end := WriteSome(p, front).0;
    if end.done {
      assert Decode(p, front + back).0[0] == end.text;
    }
  }

  /** A proper front of a document leaves it unfinished, to be continued by the rest. */
  lemma FrontUnfinished(p: Parser, front: string, back: string)
    requires !p.done && back != ""
    requires Decode(p, front + back) == ([p.text + front + back], FRESH)
    ensures var end := WriteSome(p, front).0;
            !end.done && end.text == p.text + front && Decode(end, back) == ([p.text + front + back], FRESH)
  {
    var (end, n) := WriteSome(p, front);
    WriteSomeText(p, front);
    WriteSomeDecodes(p, front);
    DecodeAppend(p, front, back);
    FirstDocument(p, front, back, p.text + front + back);
    assert |end.text| < |p.text + front + back|;
    assert [] + Decode(end, back).0 == Decode(end, back).0;
    assert front[..|front|] == front;
  }

  /** The last chunk of a document finishes it, with nothing left over. */
  lemma BackFinishes(p: Parser, back: string)
    requires !p.done && Decode(p, back) == ([p.text + back], FRESH)
    ensures var (end, n) := WriteSome(p, back);
            end.done && n == |back| && end.text == p.text + back
  {
    var (end, n) := WriteSome(p, back);
    WriteSomeText(p, back);
    WriteSomeDecodes(p, back);
    DecodeConserves(FRESH, back[n..]);
    assert end.done ==> Decode(FRESH, back[n..]) == ([], FRESH);
    assert "" + back[n..] == back[n..];
    assert back[..|back|] == back;
  }

  lemma {:induction false} ChunksAssembled(p: Parser, chunks: seq<string>)
    requires !p.done && chunks != [] && forall i :: 0 <= i < |chunks| ==> chunks[i] != ""
    requires Decode(p, Concat(chunks)) == ([p.text + Concat(chunks)], FRESH)
    ensures var (documents, end) := AssembledAll(Assembly(p, false), chunks);
            && end == START
            && documents[|chunks| - 1] == Some(p.text + Concat(chunks))
            && forall i :: 0 <= i < |chunks| - 1 ==> documents[i] == None
    decreases |chunks|
  {
    var front, rest := chunks[0], chunks[1..];
    if rest == [] {
      assert Concat(chunks) == front by { assert front + "" == front; }
      BackFinishes(p, front);
      assert AssembledAll(START, rest) == ([], START);
    } else {
      var back := Concat(rest);
      assert rest[0] != "" && back != "";
      assert p.text + (front + back) == p.text + front + back;
      FrontUnfinished(p, front, back);
      ChunksAssembled(WriteSome(p, front).0, rest);
    }
  }

  /** Whatever chunks a serialised reply arrives in, every receive but the last waits for more, and the last
      hands over exactly that reply and leaves the parser ready for the next. */
  lemma ReplyAssembled(j: Json, chunks: seq<string>)
    requires j.Obj? && chunks != [] && forall i :: 0 <= i < |chunks| ==> chunks[i] != ""
    requires Concat(chunks) == Render(j)
    ensures var (documents, end) := AssembledAll(START, chunks);
            && end == START
            && documents[|chunks| - 1] == Some(Render(j))
            && forall i :: 0 <= i < |chunks| - 1 ==> documents[i] == None
  {
    ObjectFramed(j, "");
    assert Render(j) + "" == Render(j);
    assert "" + Render(j) == Render(j);
    assert [Render(j)] + [] == [Render(j)];
    ChunksAssembled(FRESH, chunks);
  }

  /** Bytes after the end of a reply, in the chunk that ends it, lose that reply and every later one. */
  lemma SurplusFails(j: Json, surplus: string, chunks: seq<string>)
    requires j.Obj? && surplus != ""
    ensures Assembled(START, Render(j) + surplus) == (None, Assembly(FRESH, true))
    ensures forall i :: 0 <= i < |chunks| ==> AssembledAll(Assembly(FRESH, true), chunks).0[i] == None
  {
    hide RenderMembers, Order;
    var bytes := Render(j) + surplus;
    ObjectFramed(j, surplus);
    WriteSomeDecodes(FRESH, bytes);
    WriteSomeText(FRESH, bytes);
    var (end, n) := WriteSome(FRESH, bytes);
    assert Decode(FRESH, bytes).0[0] == Render(j);
    assert end.done && Decode(FRESH, bytes).0[0] == end.text;
    assert |end.text| == n;
    FailedSilent(chunks);
  }

  // ---- A parser that an I/O error left in the middle of a reply

  /** Somewhere inside a document, possibly inside a string or an escape. */
  predicate Stale(p: Parser) {
    p.depth > 0 && !p.done && (p.escaped ==> p.inString)
  }

  /** Bytes that complete no document leave a stale parser stale. */
  lemma {:induction false} StaleStays(p: Parser, bytes: string)
    requires Stale(p) && Decode(p, bytes).0 == []
    ensures Stale(Decode(p, bytes).1)
    decreases |bytes|
  {
    if bytes != "" {
      StaleStays(Feed(p, bytes[0]), bytes[1..]);
    }
  }

  /** Of bytes that complete no document neither does a front, nor the rest after it. */
  lemma FrontSilent(p: Parser, bytes: string, n: nat)
    requires n <= |bytes| && Decode(p, bytes).0 == []
    ensures Decode(p, bytes[..n]).0 == [] && Decode(Decode(p, bytes[..n]).1, bytes[n..]).0 == []
  {
    assert bytes == bytes[..n] + bytes[n..];
    DecodeAppend(p, bytes[..n], bytes[n..]);
  }

  lemma SilentAssembled(p: Parser, chunk: string)
    requires !p.done && Decode(p, chunk).0 == []
    ensures Assembled(Assembly(p, false), chunk) == (None, Assembly(Decode(p, chunk).1, false))
  {
    WriteSomeDecodes(p, chunk);
  }

  /** Every proper front of a serialised object, wherever it is cut, leaves the parser stale; its first byte
      leaves it between two tokens. */
  lemma FrontStale(j: Json, n: nat)
    requires j.Obj? && 0 < n < |Render(j)|
    ensures var end := WriteSome(FRESH, Render(j)[..n]).0;
            Stale(end) && end.text == Render(j)[..n] && (n == 1 ==> Inside(end))
  {
    var front, back := Render(j)[..n], Render(j)[n..];
    assert front + back == Render(j);
    WholeDecoded(j);
    assert FRESH.text + front + back == Render(j);
    FrontUnfinished(FRESH, front, back);
    assert Render(j)[0] == '{' && Feed(FRESH, '{').depth == 1;
    WriteSomeDecodes(FRESH, front);
    StaleStays(Feed(FRESH, '{'), front[1..]);
  }

  lemma WholeDecoded(j: Json)
    requires j.Obj?
    ensures Decode(FRESH, Render(j)) == ([Render(j)], FRESH) && "" + Render(j) == Render(j)
  {
    ObjectFramed(j, "");
    assert Render(j) + "" == Render(j);
    assert [Render(j)] + [] == [Render(j)];
  }

  /** The chunks hand over this text with the last of them, and nothing before. */
  predicate HandsOver(a: Assembly, chunks: seq<string>, text: string)
    requires !a.parser.done
  {
    var documents := AssembledAll(a, chunks).0;
    chunks != [] && documents[|chunks| - 1] == Some(text) && forall i :: 0 <= i < |chunks| - 1 ==> documents[i] == None
  }

  lemma {:induction false} FailedSilent(chunks: seq<string>)
    ensures forall i :: 0 <= i < |chunks| ==> AssembledAll(Assembly(FRESH, true), chunks).0[i] == None
    decreases |chunks|
  {
    if chunks != [] {
      FailedSilent(chunks[1..]);
    }
  }

  /** What is handed over holds everything the parser was given. */
  lemma {:induction false} HandsOverAll(p: Parser, chunks: seq<string>, text: string)
    requires !p.done && HandsOver(Assembly(p, false), chunks, text)
    ensures text == p.text + Concat(chunks)
    decreases |chunks|
  {
    var front, rest := chunks[0], chunks[1..];
    var (end, n) := WriteSome(p, front);
    WriteSomeText(p, front);
    assert front[..|front|] == front;
    var documents := AssembledAll(Assembly(p, false), chunks).0;
    var next := Assembled(Assembly(p, false), front).1;
    assert documents[1..] == AssembledAll(next, rest).0;
    assert rest != [] ==> documents[0] == None && documents[|chunks| - 1] == AssembledAll(next, rest).0[|rest| - 1];
    if rest == [] {
      assert Concat(chunks) == front + "";
    } else if end.done {
      FailedSilent(rest);
    } else {
      HandsOverAll(end, rest, text);
      assert p.text + front + Concat(rest) == p.text + (front + Concat(rest));
    }
  }

  /** Whatever chunks it arrives in, a serialised reply is handed over if and only if the parser is fresh. */
  lemma HandedOverExactly(p: Parser, j: Json, chunks: seq<string>)
    requires !p.done && (p.text == "" ==> p == FRESH)
    requires j.Obj? && chunks != [] && forall i :: 0 <= i < |chunks| ==> chunks[i] != ""
    requires Concat(chunks) == Render(j)
    ensures HandsOver(Assembly(p, false), chunks, Render(j)) <==> p == FRESH
  {
    assert |p.text + Render(j)| == |p.text| + |Render(j)|;
    if p == FRESH {
      ReplyAssembled(j, chunks);
    } else if HandsOver(Assembly(p, false), chunks, Render(j)) {
      HandsOverAll(p, chunks, Render(j));
    }
  }

  /** Left between two tokens, it takes in any number of replies without ever completing a document. */
  lemma {:induction false} StaleParserSwallows(p: Parser, messages: seq<Json>)
    requires Inside(p)
    ensures var replies := Concat(RenderAll(messages));
            Decode(p, replies) == ([], Took(p, replies))
    decreases |messages|
  {
    if messages == [] {
      assert p.text + "" == p.text;
    } else {
      var reply, rest := Render(messages[0]), Concat(RenderAll(messages[1..]));
      AbsorbsValue(p, messages[0]);
      assert Decode(p, reply + rest) == Decode(Took(p, reply), rest);
      StaleParserSwallows(Took(p, reply), messages[1..]);
      TookBoth(p, reply, rest);
    }
  }

  /** Inside a string, at the start of no escape. */
  predicate InString(p: Parser) {
    p.depth > 0 && p.inString && !p.escaped && !p.done
  }

  /** Text that means nothing to the parser, whether it takes it for a string or not. */
  predicate Tame(s: string) {
    forall c <- s :: IsPlain(c) && c != '{' && c != '}' && c != '[' && c != ']'
  }

  predicate TameJson(j: Json) {
    match j
    case Str(s) => Tame(s)
    case Obj(members) => forall k <- members :: Tame(k) && TameJson(members[k])
    case _ => false
  }

  lemma AbsorbsQuoteInString(p: Parser, s: string)
    requires InString(p) && Tame(s)
    ensures Absorbs(p, Quote(s), Took(p, Quote(s)))
  {
    hide Absorbs;
    EscapeFixesPlain(s);
    var q := Feed(p, '"');
    AbsorbsByte(p, '"');
    AbsorbsNeutral(q, s);
    AbsorbsBoth(p, ['"'], q, s, Took(q, s));
    AbsorbsByte(Took(q, s), '"');
    AbsorbsBoth(p, ['"'] + s, Took(q, s), ['"'], Feed(Took(q, s), '"'));
    assert p.text + ['"'] + s + ['"'] == p.text + (['"'] + s + ['"']);
  }

  /** The parser takes its strings for what is between them, and the other way round. */
  lemma {:induction false} AbsorbsTame(p: Parser, j: Json)
    requires InString(p) && TameJson(j)
    ensures Absorbs(p, Render(j), Took(p, Render(j)))
    decreases j, 1, 0
  {
    hide Absorbs, Quote;
    match j
    case Str(s) => AbsorbsQuoteInString(p, s);
    case Obj(members) =>
      OrderCovers(members.Keys);
      var body := RenderMembers(j, Order(members.Keys));
      AbsorbsNeutral(p, "{");
      AbsorbsTameMembers(Took(p, "{"), j, Order(members.Keys));
      AbsorbsStretches(p, "{", body);
      AbsorbsNeutral(Took(p, "{" + body), "}");
      AbsorbsStretches(p, "{" + body, "}");
  }

  lemma {:induction false} AbsorbsTameMembers(p: Parser, j: Json, keys: seq<string>)
    requires InString(p) && j.Obj? && TameJson(j) && forall k <- keys :: k in j.members
    ensures Absorbs(p, RenderMembers(j, keys), Took(p, RenderMembers(j, keys)))
    decreases j, 0, |keys|
  {
    hide Absorbs, Quote;
    if keys == [] {
      AbsorbsNothing(p);
    } else {
      var name, value := Quote(keys[0]), Render(j.members[keys[0]]);
      var comma := if |keys| == 1 then "" else ",";
      AbsorbsQuoteInString(p, keys[0]);
      AbsorbsNeutral(Took(p, name), ":");
      AbsorbsStretches(p, name, ":");
      AbsorbsTame(Took(p, name + ":"), j.members[keys[0]]);
      AbsorbsStretches(p, name + ":", value);
      AbsorbsNeutral(Took(p, name + ":" + value), comma);
      AbsorbsStretches(p, name + ":" + value, comma);
      AbsorbsTameMembers(Took(p, name + ":" + value + comma), j, keys[1..]);
      AbsorbsStretches(p, name + ":" + value + comma, RenderMembers(j, keys[1..]));
    }
  }

  /** Wherever in a document a parser stands, inside a string or an escape too, a tame reply completes none. */
  lemma TameUnheard(p: Parser, j: Json)
    requires Stale(p) && j.Obj? && TameJson(j)
    ensures Decode(p, Render(j)).0 == []
  {
    var reply := Render(j);
    assert reply + "" == reply;
    if !p.inString {
      AbsorbsValue(p, j);
      assert Decode(p, reply + "") == Decode(Took(p, reply), "");
    } else {
      var q := p.(escaped := false);
      AbsorbsTame(q, j);
      assert Decode(q, reply + "") == Decode(Took(q, reply), "");
      assert reply[0] == '{' && Feed(p, '{') == Feed(q, '{');
    }
  }

  class Assembler {
    var parser: Parser
    var failed: bool

    constructor ()
      ensures View() == START
    {
      parser, failed := FRESH, false;
    }

    function View(): Assembly
      reads this
    {
      Assembly(parser, failed)
    }

    /** `write`, then `done`: a document is released only when it ends with the chunk. */
    method ReciveCommand(chunk: string) returns (document: Option<string>)
      requires !parser.done
      modifies this
      ensures !parser.done && (document, View()) == Assembled(old(View()), chunk)
    {
      document := None;
      if failed {
        return;
      }
      var (end, count) := WriteSome(parser, chunk);
      parser := end;
      if !parser.done {
        return;
      }
      if count < |chunk| {
        failed := true;
      } else {
        document := Some(parser.text);
      }
      parser := FRESH;
    }
  }
}
