/** The heartbeat of a worker session: two deadline timers whose cancelled waits complete as aborted,
    one queue of completed waits, and a dead-ping handler that ignores its error code. */
module Heartbeat {
  import opened Text

  /** Time in microseconds. */
  const SECOND: nat := 1_000_000
  const PING_TIME: nat := 10 * SECOND

  /** A completed wait; a dead-ping wait carries the number of its ping. */
  datatype Done = PingDone(aborted: bool) | DeadDone(ping: nat, aborted: bool)

  datatype Wait = Wait(ping: nat, expiry: nat)

  /** What a receive brings: a ping reply, another document, a connect request, or an I/O error. */
  datatype Incoming = PingOk | PingBad | Other | Connect | Failed

  /** The session. `pings`, `answers` and `last` are history: pings sent, success replies processed,
      and the time of the last of these (or of the login). `sends` and `receives` are operations outstanding. */
  datatype Beat = Beat(
    live: bool, success: bool, next: bool, pingWait: Option<Wait>, deadWait: Option<Wait>, queue: seq<Done>,
    sends: nat, receives: nat, now: nat, pings: nat, answers: nat, last: nat)

  // ---- Timers

  function PingCancelled(b: Beat): Beat {
    if b.pingWait.None? then b else b.(pingWait := None, queue := b.queue + [PingDone(true)])
  }

  function DeadCancelled(b: Beat): Beat {
    if b.deadWait.None? then b
    else b.(deadWait := None, queue := b.queue + [DeadDone(b.deadWait.value.ping, true)])
  }

  /** `expires_from_now` aborts a pending wait, then `async_wait` starts the next. */
  function PingArmed(b: Beat): Beat {
    PingCancelled(b).(pingWait := Some(Wait(b.pings, b.now + PING_TIME)))
  }

  function DeadArmed(b: Beat): Beat {
    DeadCancelled(b).(deadWait := Some(Wait(b.pings, b.now + PING_TIME * 2)))
  }

  function Stopped(b: Beat): Beat {
    DeadCancelled(PingCancelled(b.(live := false)))
  }

  // ---- Handlers

  function Autorized(b: Beat): Beat {
    var armed := PingArmed(b.(live := true, last := b.now));
    armed.(sends := b.sends + 1)
  }

  function Pinged(b: Beat, aborted: bool): Beat {
    if aborted then Stopped(b)
    else if !b.live then b
    else
      var armed := DeadArmed(b.(next := true, success := false, pings := b.pings + 1));
      armed.(sends := b.sends + 1)
  }

  function DeadPinged(b: Beat): Beat {
    if b.success then b else Stopped(b.(live := false))
  }

  function Replied(b: Beat): Beat {
    PingArmed(DeadCancelled(b.(success := true, answers := b.answers + 1, last := b.now)))
  }

  /** The completion of a whole message: the next receive is posted once a ping or a request asked for it. */
  function Sent(b: Beat, error: bool): Beat {
    if error || !b.live then Stopped(b)
    else if b.next then b.(next := false, receives := b.receives + 1)
    else b
  }

  function Received(b: Beat, message: Incoming): Beat {
    match message
    case PingOk => Replied(b)
    case PingBad => Stopped(b.(live := false))
    case Other => b
    case Connect => Autorized(b)
    case Failed => Stopped(b)
  }

  /** A station's request is forwarded to a live session. */
  function Forwarded(b: Beat): Beat {
    if b.live then b.(next := true, sends := b.sends + 1) else b
  }

  // ---- The event loop

  datatype Event =
    | Elapse(time: nat)
    | PingExpires
    | DeadExpires
    | RunTimer                       // the oldest completed wait runs its handler
    | SendDone(error: bool)
    | ReceiveDone(message: Incoming)
    | StationRequest

  function Handled(b: Beat, e: Event): Beat {
    match e
    case Elapse(time) => b.(now := b.now + time)
    case PingExpires => b.(pingWait := None, queue := b.queue + [PingDone(false)])
    case DeadExpires =>
      b.(deadWait := None, queue := b.queue + [DeadDone(if b.deadWait.Some? then b.deadWait.value.ping else 0, false)])
    case RunTimer =>
      if b.queue == [] then b
      else
        var rest := b.(queue := b.queue[1..]);
        (match b.queue[0]
         case PingDone(aborted) => Pinged(rest, aborted)
         case DeadDone(_, _) => DeadPinged(rest))
    case SendDone(error) => Sent(b.(sends := if b.sends > 0 then b.sends - 1 else 0), error)
    case ReceiveDone(message) => Received(b.(receives := if b.receives > 0 then b.receives - 1 else 0), message)
    case StationRequest => Forwarded(b)
  }

  /** Timers are urgent: time does not pass a due wait, nor while a completed wait has not run. */
  predicate Possible(b: Beat, e: Event) {
    match e
    case Elapse(time) =>
      b.queue == [] && (b.pingWait.Some? ==> b.now + time <= b.pingWait.value.expiry)
      && (b.deadWait.Some? ==> b.now + time <= b.deadWait.value.expiry)
    case PingExpires => b.pingWait.Some? && b.pingWait.value.expiry <= b.now
    case DeadExpires => b.deadWait.Some? && b.deadWait.value.expiry <= b.now
    case RunTimer => b.queue != []
    case SendDone(_) => b.sends > 0
    case ReceiveDone(_) => b.receives > 0
    case StationRequest => true
  }

  /** The worker sends one success reply a ping and does not log in again. */
  predicate Solicited(b: Beat, e: Event) {
    match e
    case ReceiveDone(PingOk) => b.answers < b.pings
    case ReceiveDone(message) => message != Connect
    case _ => true
  }

  /** The reply to a ping has been processed before the dead-ping wait of that ping, if it ran out, is handled. */
  predicate Prompt(b: Beat, e: Event) {
    e == RunTimer && b.queue != [] && b.queue[0].DeadDone? && !b.queue[0].aborted ==> b.queue[0].ping <= b.answers
  }

  /** No I/O error and no failure reply. */
  predicate Faultless(e: Event) {
    match e
    case SendDone(error) => !error
    case ReceiveDone(message) => message != PingBad && message != Failed
    case _ => true
  }

  function Runs(b: Beat, events: seq<Event>): Beat {
    if events == [] then b else Handled(Runs(b, events[..|events| - 1]), events[|events| - 1])
  }

  predicate Lawful(b: Beat, events: seq<Event>) {
    if events == [] then true
    else
      var n := |events| - 1;
      Lawful(b, events[..n]) && Possible(Runs(b, events[..n]), events[n]) && Solicited(Runs(b, events[..n]), events[n])
  }

  /** Nothing in the run was a reason to give the worker up. */
  predicate AllHealthy(b: Beat, events: seq<Event>) {
    if events == [] then true
    else
      var n := |events| - 1;
      AllHealthy(b, events[..n]) && Faultless(events[n]) && Prompt(Runs(b, events[..n]), events[n])
  }

  /** The session just after its login was handled. */
  function LoggedIn(now: nat): Beat {
    Autorized(Beat(false, false, false, None, None, [], 0, 0, now, 0, 0, now))
  }

  // ---- The invariant

  /** A dead-ping completion of an answered ping may still be in the queue, but only in front. */
  predicate Leftover(b: Beat, queue: seq<Done>) {
    queue == [] || (|queue| == 1 && queue[0].DeadDone? && queue[0].ping == b.pings && b.pings > 0)
  }

  /** Answered, the next ping wait armed. */
  predicate Resting(b: Beat) {
    && b.answers == b.pings && (b.pings > 0 ==> b.success)
    && b.deadWait.None? && b.pingWait.Some?
    && b.pingWait.value.expiry == b.last + PING_TIME && b.now <= b.last + PING_TIME
    && Leftover(b, b.queue)
  }

  /** Answered, the ping wait completed: its handler runs after any leftover. */
  predicate Due(b: Beat) {
    && b.answers == b.pings && (b.pings > 0 ==> b.success)
    && b.deadWait.None? && b.pingWait.None?
    && b.now == b.last + PING_TIME
    && b.queue != [] && b.queue[|b.queue| - 1] == PingDone(false)
    && Leftover(b, b.queue[..|b.queue| - 1])
  }

  /** A ping is out, its dead-ping wait armed. */
  predicate Outstanding(b: Beat) {
    && b.pings == b.answers + 1 && !b.success
    && b.pingWait.None? && b.deadWait == Some(Wait(b.pings, b.last + 3 * PING_TIME))
    && b.now <= b.last + 3 * PING_TIME
    && b.queue == []
  }

  /** A ping is out and its dead-ping wait ran out. */
  predicate Overdue(b: Beat) {
    && b.pings == b.answers + 1 && !b.success
    && b.pingWait.None? && b.deadWait.None?
    && b.now == b.last + 3 * PING_TIME
    && b.queue == [DeadDone(b.pings, false)]
  }

  predicate Phased(b: Beat) {
    Resting(b) || Due(b) || Outstanding(b) || Overdue(b)
  }

  /** Dead, with nothing armed that could bring the session back. */
  predicate Killed(b: Beat) {
    !b.live && b.pingWait.None? && b.deadWait.None?
  }

  /** One step of a live session: it stays in phase unless the event is a fault or handles the ran-out
      dead-ping wait of an unanswered ping, and then it is dead with no timer left. */
  lemma StepPhased(b: Beat, e: Event)
    requires b.live && Phased(b) && Possible(b, e) && Solicited(b, e)
    ensures var after := Handled(b, e);
            if Prompt(b, e) && Faultless(e) then after.live && Phased(after) else Killed(after)
  {
    hide Handled, Possible, Solicited, Prompt, Faultless, Resting, Due, Outstanding, Overdue;
    if Resting(b) {
      StepResting(b, e);
    } else if Due(b) {
      StepDue(b, e);
    } else if Outstanding(b) {
      StepOutstanding(b, e);
    } else {
      StepOverdue(b, e);
    }
  }

  lemma StepResting(b: Beat, e: Event)
    requires b.live && Resting(b) && Possible(b, e) && Solicited(b, e)
    ensures var after := Handled(b, e);
            Prompt(b, e) && if Faultless(e) then after.live && (Resting(after) || Due(after)) else Killed(after)
  {
  }

  lemma StepDue(b: Beat, e: Event)
    requires b.live && Due(b) && Possible(b, e) && Solicited(b, e)
    ensures var after := Handled(b, e);
            Prompt(b, e) && if Faultless(e) then after.live && (Due(after) || Outstanding(after)) else Killed(after)
  {
  }

  lemma StepOutstanding(b: Beat, e: Event)
    requires b.live && Outstanding(b) && Possible(b, e) && Solicited(b, e)
    ensures var after := Handled(b, e);
            Prompt(b, e) && if Faultless(e) then after.live && (Outstanding(after) || Overdue(after) || Resting(after))
                            else Killed(after)
  {
  }

  lemma StepOverdue(b: Beat, e: Event)
    requires b.live && Overdue(b) && Possible(b, e) && Solicited(b, e)
    ensures var after := Handled(b, e);
            if Prompt(b, e) && Faultless(e) then after.live && (Overdue(after) || Resting(after)) else Killed(after)
  {
  }

  lemma {:induction false} RunPhased(now: nat, events: seq<Event>)
    requires Lawful(LoggedIn(now), events)
    ensures var b := Runs(LoggedIn(now), events);
            if AllHealthy(LoggedIn(now), events) then b.live && Phased(b) else !b.live
  {
    hide Handled, Possible, Solicited, Prompt, Faultless, Phased;
    if events == [] {
      StartsPhased(now);
    } else {
      var n := |events| - 1;
      var b := Runs(LoggedIn(now), events[..n]);
      RunPhased(now, events[..n]);
      if b.live {
        StepPhased(b, events[n]);
      } else {
        StepDead(b, events[n]);
      }
    }
  }

  lemma StartsPhased(now: nat)
    ensures LoggedIn(now).live && Phased(LoggedIn(now)) && AllAborted(LoggedIn(now).queue)
  {
  }

  /** Nothing but a login brings a dead session back. */
  lemma StepDead(b: Beat, e: Event)
    requires !b.live && Solicited(b, e)
    ensures !Handled(b, e).live
  {
  }

  /** Over every run, however completions, station requests and time interleave, the session is dead
      exactly when an I/O error or a failure reply was handled, or the ran-out dead-ping wait of a ping still
      unanswered: aborted waits never kill, although their handler does not look at the error code. */
  lemma KilledExactly(now: nat, events: seq<Event>)
    requires Lawful(LoggedIn(now), events)
    ensures Runs(LoggedIn(now), events).live <==> AllHealthy(LoggedIn(now), events)
  {
    RunPhased(now, events);
  }

  predicate AllAborted(queue: seq<Done>) {
    forall d <- queue :: d.DeadDone? ==> d.aborted
  }

  lemma StepAborted(b: Beat, e: Event)
    requires b.live && Phased(b) && Possible(b, e) && Solicited(b, e)
    requires AllAborted(b.queue) && e != DeadExpires && Faultless(e)
    ensures AllAborted(Handled(b, e).queue) && Prompt(b, e)
  {
  }

  lemma {:induction false} NoneRanOut(now: nat, events: seq<Event>)
    requires Lawful(LoggedIn(now), events) && DeadExpires !in events
    requires forall e <- events :: Faultless(e)
    ensures AllAborted(Runs(LoggedIn(now), events).queue) && AllHealthy(LoggedIn(now), events)
  {
    hide Handled, Prompt, AllAborted, Phased;
    if events == [] {
      StartsPhased(now);
    } else {
      var n := |events| - 1;
      NoneRanOut(now, events[..n]);
      RunPhased(now, events[..n]);
      StepAborted(Runs(LoggedIn(now), events[..n]), events[n]);
    }
  }

  /** So a worker that commits no fault and whose every reply is processed before the 20 seconds of its
      ping are over is never killed. */
  lemma NoFalseKill(now: nat, events: seq<Event>)
    requires Lawful(LoggedIn(now), events) && DeadExpires !in events
    requires forall e <- events :: Faultless(e)
    ensures Runs(LoggedIn(now), events).live
  {
    NoneRanOut(now, events);
    KilledExactly(now, events);
  }

  predicate Quiescent(b: Beat) {
    b.queue == [] && (b.pingWait.Some? ==> b.now < b.pingWait.value.expiry)
    && (b.deadWait.Some? ==> b.now < b.deadWait.value.expiry)
  }

  /** A live session is never more than 30 seconds past its last processed reply, and less than that once
      all due handlers have run: a silent peer is detected by then. With nothing queued it is in exactly
      one phase: the ping wait armed, or a ping out with its dead-ping wait armed. */
  lemma DetectedInTime(now: nat, events: seq<Event>)
    requires Lawful(LoggedIn(now), events)
    ensures var b := Runs(LoggedIn(now), events);
            b.live ==>
              && b.now <= b.last + 30 * SECOND
              && (Quiescent(b) ==> b.now < b.last + 30 * SECOND)
              && (b.queue == [] ==> (b.pingWait.Some? <==> b.deadWait.None?))
              && (b.queue == [] ==> (b.deadWait.Some? <==> b.pings == b.answers + 1))
  {
    RunPhased(now, events);
  }

  /** To the microsecond: a ping goes out 10 seconds after the login or the last processed reply, and a session
      is given up as silent 30 seconds after it, no sooner and no later. */
  lemma PunctualExactly(now: nat, events: seq<Event>)
    requires Lawful(LoggedIn(now), events)
    ensures var b := Runs(LoggedIn(now), events);
            b.live && b.queue != [] ==>
              && (b.queue[0] == PingDone(false) ==>
                    b.now == b.last + 10_000_000 && Handled(b, RunTimer).pings == b.pings + 1)
              && (!Prompt(b, RunTimer) ==> b.now == b.last + 30_000_000 && !Handled(b, RunTimer).live)
  {
    RunPhased(now, events);
  }

  /** A dead session stays dead and asks its socket for nothing more. */
  lemma DeadIsSilent(b: Beat, e: Event)
    requires !b.live && Solicited(b, e)
    ensures var after := Handled(b, e);
            !after.live && after.sends <= b.sends && after.receives <= b.receives && after.pings == b.pings
  {
    match e
    case RunTimer => DeadTimer(b);
    case _ =>
  }

  lemma DeadTimer(b: Beat)
    requires !b.live
    ensures var after := Handled(b, RunTimer);
            !after.live && after.sends == b.sends && after.receives == b.receives && after.pings == b.pings
  {
  }

  // ---- Whether the reply to a ping can be received

  predicate Waiting(b: Beat) {
    Outstanding(b) || Overdue(b)
  }

  /** A receive is outstanding, or will be when a send completes. */
  predicate CanHear(b: Beat) {
    (b.next && b.sends > 0) || b.receives > 0
  }

  /** A document for a station takes the last receive there is. */
  predicate Deafens(b: Beat, e: Event) {
    e == ReceiveDone(Other) && b.receives <= 1 && !(b.next && b.sends > 0)
  }

  /** While a ping is out, step by step: sending it, and every station request, makes the reply receivable;
      only a document for a station that takes the last receive makes it unreceivable. */
  lemma HearsExactly(b: Beat, e: Event)
    requires b.live && Phased(b) && Possible(b, e) && Solicited(b, e) && Faultless(e) && Prompt(b, e)
    ensures var after := Handled(b, e);
            Waiting(after) ==>
              (CanHear(after) <==> !Waiting(b) || e == StationRequest || (CanHear(b) && !Deafens(b, e)))
  {
    hide Resting, Due, Outstanding, Overdue, Possible, Solicited, Prompt, Faultless;
    if Resting(b) {
      StepResting(b, e);
      ApartRests(b, Handled(b, e));
    } else if Due(b) {
      DueHears(b, e);
    } else if Outstanding(b) {
      OutstandingHears(b, e);
    } else {
      OverdueHears(b, e);
    }
  }

  lemma ApartRests(b: Beat, after: Beat)
    requires Resting(after) || Due(after)
    ensures !Waiting(after)
  {
  }

  lemma DueHears(b: Beat, e: Event)
    requires b.live && Due(b) && Possible(b, e) && Solicited(b, e) && Faultless(e)
    ensures !Waiting(b) && (Waiting(Handled(b, e)) ==> CanHear(Handled(b, e)))
  {
  }

  lemma OutstandingHears(b: Beat, e: Event)
    requires b.live && Outstanding(b) && Possible(b, e) && Solicited(b, e) && Faultless(e)
    ensures Waiting(b)
    ensures var after := Handled(b, e);
            Waiting(after) ==> (CanHear(after) <==> e == StationRequest || (CanHear(b) && !Deafens(b, e)))
  {
  }

  lemma OverdueHears(b: Beat, e: Event)
    requires b.live && Overdue(b) && Possible(b, e) && Solicited(b, e) && Faultless(e) && Prompt(b, e)
    ensures Waiting(b)
    ensures var after := Handled(b, e);
            Waiting(after) ==> (CanHear(after) <==> e == StationRequest || (CanHear(b) && !Deafens(b, e)))
  {
  }

  predicate NoneDeafens(b: Beat, events: seq<Event>) {
    if events == [] then true
    else
      var n := |events| - 1;
      NoneDeafens(b, events[..n]) && !Deafens(Runs(b, events[..n]), events[n])
  }

  /** Over every healthy run in which no document for a station takes the last receive, the reply to a ping that is
      out can always be received: once the sends are through, a receive is outstanding, and the reply keeps the
      session alive. */
  lemma {:induction false} PingHeard(now: nat, events: seq<Event>)
    requires Lawful(LoggedIn(now), events) && AllHealthy(LoggedIn(now), events)
    requires NoneDeafens(LoggedIn(now), events)
    ensures var b := Runs(LoggedIn(now), events);
            Waiting(b) ==> CanHear(b) && Answerable(b)
  {
    hide Handled, Possible, Solicited, Prompt, Faultless, Phased, Waiting, CanHear, Deafens, Answerable;
    RunPhased(now, events);
    if events == [] {
      StartsRested(now);
    } else {
      var n := |events| - 1;
      PingHeard(now, events[..n]);
      RunPhased(now, events[..n]);
      HearsExactly(Runs(LoggedIn(now), events[..n]), events[n]);
    }
    var b := Runs(LoggedIn(now), events);
    if Waiting(b) {
      HeardAnswers(b);
    }
  }

  lemma StartsRested(now: nat)
    ensures !Waiting(LoggedIn(now))
  {
  }

  function SendsThrough(b: Beat, n: nat): Beat
    decreases n
  {
    if n == 0 then b else SendsThrough(Handled(b, SendDone(false)), n - 1)
  }

  /** With the sends outstanding complete, the reply can come, and it puts the session to rest. */
  predicate Answerable(b: Beat) {
    var idle := SendsThrough(b, b.sends);
    && idle.live && idle.sends == 0 && Possible(idle, ReceiveDone(PingOk)) && Solicited(idle, ReceiveDone(PingOk))
    && Handled(idle, ReceiveDone(PingOk)).live && Resting(Handled(idle, ReceiveDone(PingOk)))
  }

  lemma HeardAnswers(b: Beat)
    requires b.live && Waiting(b) && CanHear(b)
    ensures Answerable(b)
  {
    hide Outstanding, Overdue;
    SendsThroughHeard(b, b.sends);
    ReplyRests(SendsThrough(b, b.sends));
  }

  lemma {:induction false} SendsThroughHeard(b: Beat, n: nat)
    requires b.live && Waiting(b) && CanHear(b) && n <= b.sends
    ensures var idle := SendsThrough(b, n);
            idle.live && Waiting(idle) && CanHear(idle) && idle.sends == b.sends - n
    decreases n
  {
    if n > 0 {
      OneSent(b);
      hide Handled, Waiting, CanHear;
      SendsThroughHeard(Handled(b, SendDone(false)), n - 1);
    }
  }

  lemma OneSent(b: Beat)
    requires b.live && Waiting(b) && CanHear(b) && b.sends > 0
    ensures var sent := Handled(b, SendDone(false));
            sent.live && Waiting(sent) && CanHear(sent) && sent.sends == b.sends - 1
  {
  }

  lemma ReplyRests(b: Beat)
    requires b.live && Waiting(b) && CanHear(b) && b.sends == 0
    ensures Possible(b, ReceiveDone(PingOk)) && Solicited(b, ReceiveDone(PingOk))
    ensures Handled(b, ReceiveDone(PingOk)).live && Resting(Handled(b, ReceiveDone(PingOk)))
  {
  }

  // ---- A second reply to a ping, a second login

  /** The handlers of everything queued have run; three are enough below. */
  function HandlersRun(b: Beat): Beat {
    Handled(Handled(Handled(b, RunTimer), RunTimer), RunTimer)
  }

  /** Both waits armed at once, which no lawful run leads to. */
  predicate Doubled(b: Beat) {
    b.queue == [] && !b.success && b.pingWait.Some? && b.deadWait.Some?
  }

  /** In every phase: a reply to a ping already answered, or a login of a live session, stops the session
      as soon as the queued handlers have run, unless no ping wait was armed to be aborted and no dead-ping
      wait had run out. Then it lives on with both waits armed. */
  lemma UnsolicitedExactly(b: Beat, message: Incoming)
    requires b.live && Phased(b)
    requires message == Connect || (message == PingOk && b.answers == b.pings)
    ensures var after := HandlersRun(Handled(b, ReceiveDone(message)));
            && after.queue == []
            && (after.live <==> Due(b) || Outstanding(b))
            && (after.live ==> Doubled(after))
  {
    if Resting(b) {
      UnsolicitedResting(b, message);
    } else if Due(b) {
      UnsolicitedDue(b, message);
    }
  }

  lemma UnsolicitedResting(b: Beat, message: Incoming)
    requires b.live && Resting(b) && (message == Connect || message == PingOk)
    ensures var after := HandlersRun(Handled(b, ReceiveDone(message)));
            after.queue == [] && !after.live
  {
    hide HandlersRun;
    var aborted := Handled(b, ReceiveDone(message));
    assert aborted.queue == b.queue + [PingDone(true)];
    AbortedStops(aborted);
  }

  /** An aborted ping wait in the queue, after a leftover or not, stops the session with nothing queued. */
  lemma AbortedStops(b: Beat)
    requires b.deadWait.None? && b.pingWait.Some?
    requires b.queue == [PingDone(true)]
             || (|b.queue| == 2 && b.queue[0].DeadDone? && b.success && b.queue[1] == PingDone(true))
    ensures HandlersRun(b).queue == [] && !HandlersRun(b).live
  {
  }

  lemma UnsolicitedDue(b: Beat, message: Incoming)
    requires b.live && Due(b) && (message == Connect || message == PingOk)
    ensures var after := HandlersRun(Handled(b, ReceiveDone(message)));
            after.live && Doubled(after)
  {
    hide HandlersRun, Doubled;
    var kept := Handled(b, ReceiveDone(message));
    assert kept.queue == b.queue;
    assert b.queue == b.queue[..|b.queue| - 1] + [PingDone(false)];
    RanOutDoubles(kept);
  }

  /** A ping wait that ran out while another is armed leaves both waits armed. */
  lemma RanOutDoubles(b: Beat)
    requires b.live && b.deadWait.None? && b.pingWait.Some?
    requires b.queue == [PingDone(false)]
             || (|b.queue| == 2 && b.queue[0].DeadDone? && b.success && b.queue[1] == PingDone(false))
    ensures HandlersRun(b).live && Doubled(HandlersRun(b))
  {
  }

  predicate Harmless(e: Event) {
    e.Elapse? || e == ReceiveDone(Other) || e == SendDone(false) || e == StationRequest
  }

  /** A session left with both waits armed keeps them until the next reply, login, fault or expiry, whichever
      it is, and that stops it once the queued handlers have run. */
  lemma DoubledStops(b: Beat, e: Event)
    requires b.live && Doubled(b) && Possible(b, e)
    ensures if Harmless(e) then Handled(b, e).live && Doubled(Handled(b, e))
            else !HandlersRun(Handled(b, e)).live && HandlersRun(Handled(b, e)).queue == []
  {
    hide HandlersRun;
    match e
    case PingExpires => DoubledPing(b);
    case DeadExpires => DoubledDead(b);
    case SendDone(_) =>
      if !Harmless(e) {
        FaultDrained(b.(sends := b.sends - 1));
      }
    case ReceiveDone(message) =>
      if message == PingOk || message == Connect {
        DoubledReceive(b, message);
      } else if message != Other {
        FaultDrained(b.(receives := b.receives - 1));
      }
    case _ =>
  }

  lemma DoubledPing(b: Beat)
    requires b.live && Doubled(b)
    ensures var after := HandlersRun(Handled(b, PingExpires));
            !after.live && after.queue == []
  {
  }

  lemma DoubledDead(b: Beat)
    requires b.live && Doubled(b)
    ensures var after := HandlersRun(Handled(b, DeadExpires));
            !after.live && after.queue == []
  {
  }

  lemma DoubledReceive(b: Beat, message: Incoming)
    requires b.live && Doubled(b) && (message == PingOk || message == Connect)
    ensures var after := HandlersRun(Handled(b, ReceiveDone(message)));
            !after.live && after.queue == []
  {
  }

  lemma FaultDrained(b: Beat)
    requires b.live && Doubled(b)
    ensures var after := HandlersRun(Stopped(b));
            !after.live && after.queue == []
    ensures Stopped(b.(live := false)) == Stopped(b)
  {
  }

  predicate Feasible(b: Beat, events: seq<Event>) {
    if events == [] then true
    else Feasible(b, events[..|events| - 1]) && Possible(Runs(b, events[..|events| - 1]), events[|events| - 1])
  }

  lemma OneMore(b: Beat, events: seq<Event>, e: Event)
    ensures Runs(b, events + [e]) == Handled(Runs(b, events), e)
    ensures Feasible(b, events + [e]) <==> Feasible(b, events) && Possible(Runs(b, events), e)
    ensures Lawful(b, events + [e]) <==>
            Lawful(b, events) && Possible(Runs(b, events), e) && Solicited(Runs(b, events), e)
  {
    assert (events + [e])[..|events|] == events;
  }

  const READY := [StationRequest, SendDone(false)]
  const DUE := READY + [Elapse(PING_TIME)] + [PingExpires]

  lemma ReadyReached()
    ensures Feasible(LoggedIn(0), READY)
    ensures Runs(LoggedIn(0), READY)
         == Beat(true, false, false, Some(Wait(0, PING_TIME)), None, [], 1, 1, 0, 0, 0, 0)
  {
    hide Feasible, Runs;
    NoEvents(LoggedIn(0));
    OneMore(LoggedIn(0), [], StationRequest);
    OneMore(LoggedIn(0), [] + [StationRequest], SendDone(false));
    assert READY == [] + [StationRequest] + [SendDone(false)];
  }

  lemma DueReached()
    ensures Feasible(LoggedIn(0), DUE)
    ensures Runs(LoggedIn(0), DUE)
         == Beat(true, false, false, None, None, [PingDone(false)], 1, 1, PING_TIME, 0, 0, 0)
  {
    hide Feasible, Runs;
    ReadyReached();
    OneMore(LoggedIn(0), READY, Elapse(PING_TIME));
    OneMore(LoggedIn(0), READY + [Elapse(PING_TIME)], PingExpires);
  }

  /** Both outcomes happen: from a login, a possible run after which such a reply or login stops the session, and
      one, 10 seconds longer, after which it does not. */
  lemma UnsolicitedReached(message: Incoming)
    requires message == Connect || message == PingOk
    ensures var early := READY + [ReceiveDone(message)];
            Feasible(LoggedIn(0), early) && !HandlersRun(Runs(LoggedIn(0), early)).live
    ensures var late := DUE + [ReceiveDone(message)];
            Feasible(LoggedIn(0), late) && HandlersRun(Runs(LoggedIn(0), late)).live
  {
    hide Feasible, Runs, HandlersRun;
    ReadyReached();
    OneMore(LoggedIn(0), READY, ReceiveDone(message));
    UnsolicitedExactly(Runs(LoggedIn(0), READY), message);
    DueReached();
    OneMore(LoggedIn(0), DUE, ReceiveDone(message));
    UnsolicitedExactly(Runs(LoggedIn(0), DUE), message);
  }

  lemma NoEvents(b: Beat)
    ensures Runs(b, []) == b && Feasible(b, []) && Lawful(b, [])
  {
  }

  // ---- A ping and a station request that share one receive

  const SHARED := [SendDone(false), Elapse(PING_TIME)] + [StationRequest] + [PingExpires] + [RunTimer]
  const ANSWERED := SHARED + [SendDone(false)] + [SendDone(false)] + [ReceiveDone(Other)]
  const STARVED := ANSWERED + [Elapse(2 * PING_TIME)] + [DeadExpires] + [RunTimer]

  lemma SharedReached()
    ensures Lawful(LoggedIn(0), SHARED)
    ensures Runs(LoggedIn(0), SHARED) == Beat(true, false, true, None, Some(Wait(1, 3 * PING_TIME)), [], 2, 0,
                                              PING_TIME, 1, 0, 0)
  {
    hide Lawful, Runs, Feasible;
    NoEvents(LoggedIn(0));
    OneMore(LoggedIn(0), [], SendDone(false));
    OneMore(LoggedIn(0), [] + [SendDone(false)], Elapse(PING_TIME));
    assert [] + [SendDone(false)] + [Elapse(PING_TIME)] == [SendDone(false), Elapse(PING_TIME)];
    OneMore(LoggedIn(0), [SendDone(false), Elapse(PING_TIME)], StationRequest);
    OneMore(LoggedIn(0), [SendDone(false), Elapse(PING_TIME)] + [StationRequest], PingExpires);
    OneMore(LoggedIn(0), [SendDone(false), Elapse(PING_TIME)] + [StationRequest] + [PingExpires], RunTimer);
  }

  lemma AnsweredReached()
    ensures Lawful(LoggedIn(0), ANSWERED)
    ensures Runs(LoggedIn(0), ANSWERED) == Beat(true, false, false, None, Some(Wait(1, 3 * PING_TIME)), [], 0, 0,
                                                PING_TIME, 1, 0, 0)
  {
    hide Lawful, Runs, Feasible;
    SharedReached();
    OneMore(LoggedIn(0), SHARED, SendDone(false));
    OneMore(LoggedIn(0), SHARED + [SendDone(false)], SendDone(false));
    OneMore(LoggedIn(0), SHARED + [SendDone(false)] + [SendDone(false)], ReceiveDone(Other));
  }

  /** Without any fault of the worker: the request and the ping ask for one receive between them, the answer to
      the request takes it, the reply to the ping can never be received, and the session is stopped as silent. */
  lemma RequestStarvesPing()
    ensures Lawful(LoggedIn(0), STARVED) && (forall e <- STARVED :: Faultless(e))
    ensures !Runs(LoggedIn(0), STARVED).live
    ensures !CanHear(Runs(LoggedIn(0), ANSWERED)) && Outstanding(Runs(LoggedIn(0), ANSWERED))
  {
    hide Lawful, Runs, Feasible;
    AnsweredReached();
    OneMore(LoggedIn(0), ANSWERED, Elapse(2 * PING_TIME));
    OneMore(LoggedIn(0), ANSWERED + [Elapse(2 * PING_TIME)], DeadExpires);
    OneMore(LoggedIn(0), ANSWERED + [Elapse(2 * PING_TIME)] + [DeadExpires], RunTimer);
  }

  // ---- The class

  /** `completions` is what the two timers have posted to the event loop; `pings`, `answers` and `last`
      record the run and are read by no handler except to number the waits. */
  class Session {
    var isLive: bool
    var pingSuccess: bool
    var nextRecive: bool
    var pingTimer: Option<Wait>
    var deadPingTimer: Option<Wait>
    var completions: seq<Done>
    var sends: nat
    var receives: nat
    var now: nat
    var pings: nat
    var answers: nat
    var last: nat

    constructor (now: nat)
      ensures View() == Beat(false, false, false, None, None, [], 0, 0, now, 0, 0, now)
    {
      isLive, pingSuccess, nextRecive := false, false, false;
      pingTimer, deadPingTimer, completions := None, None, [];
      sends, receives, pings, answers := 0, 0, 0, 0;
      this.now, last := now, now;
    }

    function View(): Beat
      reads this
    {
      Beat(isLive, pingSuccess, nextRecive, pingTimer, deadPingTimer, completions,
           sends, receives, now, pings, answers, last)
    }

    method CancelPing()
      modifies this`pingTimer, this`completions
      ensures View() == PingCancelled(old(View()))
    {
      if pingTimer.Some? {
        completions := completions + [PingDone(true)];
        pingTimer := None;
      }
    }

    method CancelDeadPing()
      modifies this`deadPingTimer, this`completions
      ensures View() == DeadCancelled(old(View()))
    {
      if deadPingTimer.Some? {
        completions := completions + [DeadDone(deadPingTimer.value.ping, true)];
        deadPingTimer := None;
      }
    }

    method ArmPing()
      modifies this`pingTimer, this`completions
      ensures View() == PingArmed(old(View()))
    {
      CancelPing();
      pingTimer := Some(Wait(pings, now + PING_TIME));
    }

    method ArmDeadPing()
      modifies this`deadPingTimer, this`completions
      ensures View() == DeadArmed(old(View()))
    {
      CancelDeadPing();
      deadPingTimer := Some(Wait(pings, now + PING_TIME * 2));
    }

    method Stop()
      modifies this
      ensures View() == Stopped(old(View()))
    {
      isLive := false;
      CancelPing();
      CancelDeadPing();
    }

    method Autorization()
      modifies this
      ensures View() == Autorized(old(View()))
    {
      isLive := true;
      last := now;
      ArmPing();
      sends := sends + 1;
    }

    method Ping(error: bool)
      modifies this
      ensures View() == Pinged(old(View()), error)
    {
      if error {
        Stop();
        return;
      }
      if isLive {
        nextRecive := true;
        pingSuccess := false;
        pings := pings + 1;
        CancelDeadPing();
        ArmDeadPing();
        sends := sends + 1;
      }
    }

    method AnalizePing(message: Incoming)
      requires message == PingOk || message == PingBad
      modifies this
      ensures View() == Received(old(View()), message)
    {
      if message == PingOk {
        pingSuccess := true;
        answers := answers + 1;
        last := now;
        CancelDeadPing();
        ArmPing();
      } else {
        isLive := false;
        Stop();
      }
    }

    /** The error code is not looked at. */
    method DeadPing(error: bool)
      modifies this
      ensures View() == DeadPinged(old(View()))
    {
      if !pingSuccess {
        isLive := false;
        Stop();
      }
    }

    method SendCommand(error: bool)
      modifies this
      ensures View() == Sent(old(View()), error)
    {
      if error {
        Stop();
        return;
      }
      if !isLive {
        Stop();
        return;
      }
      if nextRecive {
        nextRecive := false;
        receives := receives + 1;
      }
    }

    method ReciveCommand(message: Incoming)
      modifies this
      ensures View() == Received(old(View()), message)
    {
      match message {
        case Failed => Stop();
        case PingOk => AnalizePing(message);
        case PingBad => AnalizePing(message);
        case Connect => Autorization();
        case Other =>
      }
    }

    method StartCommand()
      modifies this
      ensures View() == Forwarded(old(View()))
    {
      if isLive {
        nextRecive := true;
        sends := sends + 1;
      }
    }

    /** The event loop hands one completion to its handler. */
    method Dispatch(e: Event)
      requires Possible(View(), e)
      modifies this
      ensures View() == Handled(old(View()), e)
    {
      match e {
        case Elapse(time) => now := now + time;
        case PingExpires =>
          pingTimer := None;
          completions := completions + [PingDone(false)];
        case DeadExpires =>
          completions := completions + [DeadDone(deadPingTimer.value.ping, false)];
          deadPingTimer := None;
        case RunTimer =>
          var done := completions[0];
          completions := completions[1..];
          match done {
            case PingDone(aborted) => Ping(aborted);
            case DeadDone(_, aborted) => DeadPing(aborted);
          }
        case SendDone(error) =>
          sends := sends - 1;
          SendCommand(error);
        case ReceiveDone(message) =>
          receives := receives - 1;
          ReciveCommand(message);
        case StationRequest => StartCommand();
      }
    }
  }
}
