/** The chain of partial writes: one buffer, one counter, one outstanding slice. */
module PartialSend {

  /** `sent` is the counter, `wire` what the socket has accepted of this message. `Overrun` is a
      counter past the end of the buffer: the next slice would start outside it. */
  datatype Chain =
    | Sending(sent: nat, slice: string, wire: string)
    | Complete(wire: string)
    | Overrun(wire: string)

  /** The first slice is the whole buffer, wherever the counter was left. */
  function Begun(buf: string, counter: nat): Chain {
    Sending(counter, buf, "")
  }

  /** A completion accepts part of the slice, at least a byte if there is one. */
  predicate Acceptable(c: Chain, count: nat) {
    c.Sending? && count <= |c.slice| && (count == 0 ==> c.slice == "")
  }

  function Written(buf: string, c: Chain, count: nat): Chain
    requires Acceptable(c, count)
  {
    var sent, wire := c.sent + count, c.wire + c.slice[..count];
    if sent == |buf| then Complete(wire)
    else if sent > |buf| then Overrun(wire)
    else Sending(sent, buf[sent..], wire)
  }

  /** Completions of the given sizes, as long as each fits what is outstanding. */
  function Chained(buf: string, c: Chain, counts: seq<nat>): Chain
    decreases |counts|
  {
    if counts == [] || !Acceptable(c, counts[0]) then c
    else Chained(buf, Written(buf, c, counts[0]), counts[1..])
  }

  /** Started from counter 0 the slices tile the buffer: every slice is what is left of it. */
  predicate Tiles(buf: string, c: Chain) {
    match c
    case Sending(sent, slice, wire) => sent <= |buf| && slice == buf[sent..] && wire == buf[..sent]
    case Complete(wire) => wire == buf
    case Overrun(_) => false
  }

  lemma WrittenTiles(buf: string, c: Chain, count: nat)
    requires Tiles(buf, c) && Acceptable(c, count)
    ensures Tiles(buf, Written(buf, c, count))
  {
    assert buf[..c.sent] + buf[c.sent..][..count] == buf[..c.sent + count];
    assert buf[..|buf|] == buf;
  }

  lemma {:induction false} ChainTiles(buf: string, c: Chain, counts: seq<nat>)
    requires Tiles(buf, c)
    ensures Tiles(buf, Chained(buf, c, counts))
    decreases |counts|
  {
    if counts != [] && Acceptable(c, counts[0]) {
      WrittenTiles(buf, c, counts[0]);
      ChainTiles(buf, Written(buf, c, counts[0]), counts[1..]);
    }
  }

  /** The counter runs ahead of the wire by what it started with. */
  predicate Ahead(buf: string, counter: nat, c: Chain) {
    match c
    case Sending(sent, _, wire) => sent == counter + |wire|
    case Complete(wire) => |buf| == counter + |wire|
    case Overrun(_) => true
  }

  lemma {:induction false} ChainAhead(buf: string, counter: nat, c: Chain, counts: seq<nat>)
    requires Ahead(buf, counter, c)
    ensures Ahead(buf, counter, Chained(buf, c, counts))
    decreases |counts|
  {
    if counts != [] && Acceptable(c, counts[0]) {
      ChainAhead(buf, counter, Written(buf, c, counts[0]), counts[1..]);
    }
  }

  /** A chain that ends has put exactly the message on the wire if and only if the counter was 0 when
      it began: an I/O error that leaves the counter elsewhere spoils the next message. */
  lemma SentExactly(buf: string, counter: nat, counts: seq<nat>)
    requires !Chained(buf, Begun(buf, counter), counts).Sending?
    ensures Chained(buf, Begun(buf, counter), counts) == Complete(buf) <==> counter == 0
  {
    ChainAhead(buf, counter, Begun(buf, counter), counts);
    if counter == 0 {
      ChainTiles(buf, Begun(buf, counter), counts);
    }
  }

  /** From counter 0 the slices stay inside the buffer, and a chain of acceptable completions ends after
      at most one a byte. */
  lemma {:induction false} ChainEnds(buf: string, c: Chain, counts: seq<nat>)
    requires Tiles(buf, c) && (c.Sending? ==> |counts| >= |c.slice| && |counts| > 0)
    requires forall prefix: nat :: prefix < |counts| ==>
               var at := Chained(buf, c, counts[..prefix]); at.Sending? ==> Acceptable(at, counts[prefix])
    ensures Chained(buf, c, counts) == Complete(buf)
    decreases |counts|
  {
    if c.Sending? {
      assert counts[..0] == [];
      var next := Written(buf, c, counts[0]);
      WrittenTiles(buf, c, counts[0]);
      if next.Sending? {
        forall prefix: nat | prefix < |counts[1..]|
          ensures var at := Chained(buf, next, counts[1..][..prefix]);
                  at.Sending? ==> Acceptable(at, counts[1..][prefix])
        {
          assert counts[..prefix + 1] == [counts[0]] + counts[1..][..prefix];
          assert Chained(buf, c, counts[..prefix + 1]) == Chained(buf, next, counts[1..][..prefix]);
        }
        ChainEnds(buf, next, counts[1..]);
      }
    }
  }

  // ---- The handler

  /** `wire` records what the socket accepted of the current message. */
  class Sender {
    var buf: string
    var counter: nat
    var slice: string
    var wire: string
    var busy: bool
    var overrun: bool

    constructor ()
      ensures !busy && counter == 0
    {
      buf, counter, slice, wire, busy, overrun := "", 0, "", "", false, false;
    }

    function View(): Chain
      reads this
    {
      if busy then Sending(counter, slice, wire) else if overrun then Overrun(wire) else Complete(wire)
    }

    method AsyncSend(message: string)
      modifies this
      ensures buf == message && View() == Begun(message, old(counter))
    {
      buf, slice, wire, busy, overrun := message, message, "", true, false;
    }

    /** The completion handler; on an error the counter stays where it is. */
    method SendCommand(error: bool, count: nat)
      requires Acceptable(View(), count)
      modifies this
      ensures error ==> counter == old(counter) && !busy
      ensures !error ==> View() == Written(old(buf), old(View()), count)
      ensures !error && View().Sending? ==> buf == old(buf)
      ensures !error && View().Complete? ==> counter == 0 && buf == ""
    {
      if error {
        busy := false;
        return;
      }
      wire := wire + slice[..count];
      counter := counter + count;
      if |buf| != counter {
        if counter > |buf| {
          busy, overrun := false, true;
          return;
        }
        slice := buf[counter..];
        return;
      }
      counter, buf, busy, overrun := 0, "", false, false;
    }
  }
}
