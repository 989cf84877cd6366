/** The worker's keyword index over a table of ';'-separated key words and responses. */
module Keywords {
  import opened Text
  import opened Json
  import opened ClientDB

  /** The key words of one row and the response they call for. */
  datatype Variant = Variant(pieces: seq<string>, response: string)

  function VariantOf(key: string, response: string): Variant {
    Variant(Split(Dequote(key), ';'), Dequote(response))
  }

  function IndexOf(keys: seq<string>, responses: seq<string>): seq<Variant>
    requires |keys| <= |responses|
  {
    seq(|keys|, i requires 0 <= i < |keys| => VariantOf(keys[i], responses[i]))
  }

  /** A missing column throws after the old index is gone; the caller owes a response for every key. */
  method ParseKeyWords(table: Columns, keyField: string, responseField: string)
    returns (variants: seq<Variant>, threw: bool)
    requires keyField in table && responseField in table ==> |table[keyField]| <= |table[responseField]|
    ensures threw <==> keyField !in table || responseField !in table
    ensures variants == if threw then [] else IndexOf(table[keyField], table[responseField])
  {
    variants, threw := [], false;
    if keyField !in table || responseField !in table {
      threw := true;
      return;
    }
    var keys, responses := table[keyField], table[responseField];
    for i := 0 to |keys|
      invariant variants == IndexOf(keys[..i], responses)
    {
      var allVariants := Without(keys[i], '"');
      var currentValue := Without(responses[i], '"');
      var pieces: seq<string> := [];
      var num := Find(allVariants, ';');
      while num.Some?
        invariant num == Find(allVariants, ';')
        invariant pieces + Split(allVariants, ';') == Split(Dequote(keys[i]), ';')
        decreases |allVariants|
      {
        var piece := allVariants[..num.value];
        assert pieces + [piece] + Split(allVariants[num.value + 1..], ';') == pieces + Split(allVariants, ';');
        allVariants := allVariants[|piece| + 1..];
        pieces := pieces + [piece];
        num := Find(allVariants, ';');
      }
      pieces := pieces + [allVariants];
      variants := variants + [Variant(pieces, currentValue)];
    }
    assert keys[..|keys|] == keys;
  }

  predicate Hits(v: Variant, command: string) {
    exists piece <- v.pieces :: Contains(command, piece)
  }

  /** The response of the first row hit by the command, "" when there is none. */
  function FindVariantIn(variants: seq<Variant>, command: string): string {
    if variants == [] then ""
    else if Hits(variants[0], command) then variants[0].response
    else FindVariantIn(variants[1..], command)
  }

  method FindVariant(variants: seq<Variant>, command: string) returns (response: string)
    ensures response == FindVariantIn(variants, command)
  {
    for i := 0 to |variants|
      invariant FindVariantIn(variants, command) == FindVariantIn(variants[i..], command)
    {
      var pieces := variants[i].pieces;
      for j := 0 to |pieces|
        invariant forall k :: 0 <= k < j ==> !Contains(command, pieces[k])
      {
        if Contains(command, pieces[j]) {
          assert Hits(variants[i], command);
          return variants[i].response;
        }
      }
      assert variants[i..][1..] == variants[i + 1..];
    }
    return "";
  }

  predicate FirstHit(variants: seq<Variant>, command: string, i: nat) {
    i < |variants| && Hits(variants[i], command) && forall j :: 0 <= j < i ==> !Hits(variants[j], command)
  }

  lemma {:induction false} FindVariantIsFirst(variants: seq<Variant>, command: string)
    ensures forall i: nat :: FirstHit(variants, command, i) ==> FindVariantIn(variants, command) == variants[i].response
    ensures (forall v <- variants :: !Hits(v, command)) ==> FindVariantIn(variants, command) == ""
  {
    if variants != [] && !Hits(variants[0], command) {
      FindVariantIsFirst(variants[1..], command);
      forall i: nat | FirstHit(variants, command, i)
        ensures FindVariantIn(variants, command) == variants[i].response
      {
        assert FirstHit(variants[1..], command, i - 1);
      }
    }
  }

  /** The index as the raw strings of the database would give it. */
  function DirectIndex(keys: seq<string>, responses: seq<string>): seq<Variant>
    requires |keys| == |responses|
  {
    seq(|keys|, i requires 0 <= i < |keys| => Variant(Split(keys[i], ';'), responses[i]))
  }

  /** Over the quoted cells the client stores, the index is the direct one exactly when no cell
      needed a JSON escape. */
  lemma IndexAgrees(keys: seq<string>, responses: seq<string>)
    requires |keys| == |responses|
    ensures IndexOf(QuoteAll(keys), QuoteAll(responses)) == DirectIndex(keys, responses)
       <==> forall i :: 0 <= i < |keys| ==> Plain(keys[i]) && Plain(responses[i])
  {
    var index, direct := IndexOf(QuoteAll(keys), QuoteAll(responses)), DirectIndex(keys, responses);
    forall i | 0 <= i < |keys|
      ensures index[i] == direct[i] <==> Plain(keys[i]) && Plain(responses[i])
    {
      DequoteOfQuote(keys[i]);
      DequoteOfQuote(responses[i]);
      JoinOfSplit(keys[i], ';');
      JoinOfSplit(Dequote(Quote(keys[i])), ';');
    }
    if index == direct {
      assert forall i :: 0 <= i < |keys| ==> index[i] == direct[i];
    }
  }
}
