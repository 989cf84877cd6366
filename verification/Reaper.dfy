/** The reapers of both servers: a timer that removes one dead session a scan. */
module Reaper {

  const AGAIN: nat := 1

  /** A session as a scan finds it. */
  datatype Session = Session(id: int, live: bool)

  /** Index of the first dead session, the number of sessions when all live. */
  function FirstDead(sessions: seq<Session>): (at: nat)
    ensures at <= |sessions| && (forall i :: 0 <= i < at ==> sessions[i].live)
    ensures at < |sessions| ==> !sessions[at].live
  {
    if sessions == [] || !sessions[0].live then 0 else 1 + FirstDead(sessions[1..])
  }

  function Alive(sessions: seq<Session>): seq<Session> {
    if sessions == [] then [] else (if sessions[0].live then [sessions[0]] else []) + Alive(sessions[1..])
  }

  function Scanned(sessions: seq<Session>): (seq<Session>, bool) {
    var at := FirstDead(sessions);
    if at < |sessions| then (sessions[..at] + sessions[at + 1..], true) else (sessions, false)
  }

  function Scans(sessions: seq<Session>, n: nat): seq<Session> {
    if n == 0 then sessions else Scans(Scanned(sessions).0, n - 1)
  }

  lemma {:induction false} AliveAppend(a: seq<Session>, b: seq<Session>)
    ensures Alive(a + b) == Alive(a) + Alive(b)
  {
    if a == [] {
      assert a + b == b;
    } else {
      var head := if a[0].live then [a[0]] else [];
      assert (a + b)[1..] == a[1..] + b;
      AliveAppend(a[1..], b);
      var tail, rest := Alive(a[1..]), Alive(b);
      assert head + (tail + rest) == head + tail + rest;
    }
  }

  predicate NoneDead(sessions: seq<Session>) {
    forall i :: 0 <= i < |sessions| ==> sessions[i].live
  }

  /** One scan drops one dead session, never a live one, and asks for a quick rescan exactly when it did. */
  lemma ScanDropsOne(sessions: seq<Session>)
    ensures var (left, again) := Scanned(sessions);
            && Alive(left) == Alive(sessions)
            && (again <==> !NoneDead(sessions))
            && |left| == |sessions| - if again then 1 else 0
  {
    hide Alive;
    var at := FirstDead(sessions);
    if at < |sessions| {
      DropDead(sessions, at);
    }
  }

  lemma DropDead(sessions: seq<Session>, at: nat)
    requires at < |sessions| && !sessions[at].live
    ensures Alive(sessions[..at] + sessions[at + 1..]) == Alive(sessions)
  {
    var front, back := sessions[..at], sessions[at + 1..];
    assert sessions == front + ([sessions[at]] + back);
    AliveAppend(front, [sessions[at]] + back);
    AliveAppend(front, back);
    assert ([sessions[at]] + back)[1..] == back;
  }

  lemma {:induction false} AllAlive(sessions: seq<Session>)
    ensures |Alive(sessions)| <= |sessions|
    ensures |Alive(sessions)| == |sessions| <==> NoneDead(sessions)
    ensures |Alive(sessions)| == |sessions| ==> Alive(sessions) == sessions
  {
    if sessions != [] {
      AllAlive(sessions[1..]);
      assert sessions == [sessions[0]] + sessions[1..];
      assert NoneDead(sessions) <==> sessions[0].live && NoneDead(sessions[1..]) by {
        assert forall i :: 0 < i < |sessions| ==> sessions[i] == sessions[1..][i - 1];
      }
    }
  }

  /** With liveness unchanged, after as many scans as there are dead sessions exactly the live ones are left,
      in order; every scan until then asked for a quick rescan, and the next one does not. */
  lemma {:induction false} ReapedExactly(sessions: seq<Session>, n: nat)
    ensures var dead := |sessions| - |Alive(sessions)|;
            && dead >= 0
            && (n >= dead ==> Scans(sessions, n) == Alive(sessions))
            && (Scanned(Scans(sessions, n)).1 <==> n < dead)
    decreases n
  {
    AllAlive(sessions);
    ScanDropsOne(sessions);
    if n > 0 {
      ReapedExactly(Scanned(sessions).0, n - 1);
    }
  }

  class Reaper {
    const period: nat
    var sessions: seq<Session>
    var timer: nat

    constructor (period: nat)
      ensures this.period == period && sessions == [] && timer == period
    {
      this.period, sessions, timer := period, [], period;
    }

    /** `__killSession`: scan, erase the first dead session, re-arm for a second or for the long period. */
    method KillSession()
      modifies this`sessions, this`timer
      ensures sessions == Scanned(old(sessions)).0
      ensures timer == if Scanned(old(sessions)).1 then AGAIN else period
    {
      var kill := false;
      var i := 0;
      while i < |sessions|
        invariant i <= |sessions| && !kill && sessions == old(sessions)
        invariant FirstDead(sessions) == i + FirstDead(sessions[i..])
      {
        if !sessions[i].live {
          sessions := sessions[..i] + sessions[i + 1..];
          kill := true;
          break;
        }
        assert sessions[i..][1..] == sessions[i + 1..];
        i := i + 1;
      }
      timer := if kill then AGAIN else period;
    }
  }
}
