/** Strings as the programs use them: cutting, joining, searching and stripping. */
module Text {

  datatype Option<+T> = None | Some(value: T)

  /** `data.find(pattern) != npos`; the empty pattern is found everywhere. */
  predicate Contains(data: string, pattern: string) {
    exists i :: 0 <= i <= |data| && OccursAt(data, pattern, i)
  }

  predicate OccursAt(data: string, pattern: string, i: nat) {
    i + |pattern| <= |data| && data[i..i + |pattern|] == pattern
  }

  lemma ContainsExactly(data: string, pattern: string)
    ensures Contains(data, pattern) <==> exists before: string, after: string :: data == before + pattern + after
  {
    if Contains(data, pattern) {
      var i :| 0 <= i <= |data| && OccursAt(data, pattern, i);
      assert data == data[..i] + pattern + data[i + |pattern|..];
    }
    forall before: string, after: string | data == before + pattern + after
      ensures Contains(data, pattern)
    {
      assert OccursAt(data, pattern, |before|);
    }
  }

  /** Position of the first `c`, `None` standing for `npos`. */
  function Find(s: string, c: char): (at: Option<nat>)
    ensures at.Some? <==> c in s
    ensures at.Some? ==> at.value < |s| && s[at.value] == c && c !in s[..at.value]
  {
    if s == "" then None
    else if s[0] == c then Some(0)
    else
      match Find(s[1..], c)
      case None => None
      case Some(i) =>
        assert s[..i + 1] == [s[0]] + s[1..][..i];
        Some(i + 1)
  }

  /** The pieces of `s` between the separators, empty ones included. */
  function Split(s: string, sep: char): (pieces: seq<string>)
    decreases |s|
  {
    match Find(s, sep)
    case None => [s]
    case Some(i) => [s[..i]] + Split(s[i + 1..], sep)
  }

  function Join(pieces: seq<string>, sep: string): string {
    if pieces == [] then ""
    else if |pieces| == 1 then pieces[0]
    else pieces[0] + sep + Join(pieces[1..], sep)
  }

  function Concat(pieces: seq<string>): string {
    if pieces == [] then "" else pieces[0] + Concat(pieces[1..])
  }

  /** `remove_copy`: every character except `c`, in order. */
  function Without(s: string, c: char): string {
    if s == "" then "" else (if s[0] == c then "" else [s[0]]) + Without(s[1..], c)
  }

  lemma {:induction false} JoinOfSplit(s: string, sep: char)
    ensures Split(s, sep) != []
    ensures Join(Split(s, sep), [sep]) == s
    ensures forall p <- Split(s, sep) :: sep !in p
    decreases |s|
  {
    match Find(s, sep)
    case None =>
    case Some(i) =>
      JoinOfSplit(s[i + 1..], sep);
      assert Split(s, sep)[1..] == Split(s[i + 1..], sep);
      assert s == s[..i] + [sep] + s[i + 1..];
  }

  lemma {:induction false} SplitOfJoin(pieces: seq<string>, sep: char)
    requires pieces != []
    requires forall p <- pieces :: sep !in p
    ensures Split(Join(pieces, [sep]), sep) == pieces
  {
    var s := Join(pieces, [sep]);
    if |pieces| == 1 {
      assert sep !in s;
    } else {
      var head, rest := pieces[0], Join(pieces[1..], [sep]);
      assert s == head + [sep] + rest;
      FindAfter(head, rest, sep);
      assert s[|head| + 1..] == rest;
      SplitOfJoin(pieces[1..], sep);
      assert s[..|head|] == head;
    }
  }

  lemma {:induction false} FindAfter(head: string, rest: string, sep: char)
    requires sep !in head
    ensures Find(head + [sep] + rest, sep) == Some(|head|)
  {
    var s := head + [sep] + rest;
    if head == "" {
      assert s[0] == sep;
    } else {
      assert s[1..] == head[1..] + [sep] + rest;
      FindAfter(head[1..], rest, sep);
    }
  }

  lemma {:induction false} WithoutAppend(a: string, b: string, c: char)
    ensures Without(a + b, c) == Without(a, c) + Without(b, c)
  {
    if a == "" {
      assert a + b == b;
    } else {
      assert (a + b)[1..] == a[1..] + b;
      WithoutAppend(a[1..], b, c);
    }
  }

  lemma {:induction false} WithoutAbsent(s: string, c: char)
    ensures c !in s ==> Without(s, c) == s
    ensures c !in Without(s, c) && |Without(s, c)| <= |s|
  {
    if s != "" {
      WithoutAbsent(s[1..], c);
    }
  }
}
