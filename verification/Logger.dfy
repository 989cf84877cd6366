/** The rotating log: a queue of messages flushed to the current file, with failures on the way. */
module Logger {
  const MAX_FILESIZE: nat := 1024 * 100
  const DELTA_FILESIZE: nat := 1024 * 2

  /** Files by name, each the lines written to it; `rotation` lists the names used, oldest first. */
  datatype Log = Log(
    files: map<string, seq<string>>, rotation: seq<string>, filename: string, queue: seq<string>, limit: nat)

  function SizeOf(lines: seq<string>): nat {
    if lines == [] then 0 else SizeOf(lines[..|lines| - 1]) + |lines[|lines| - 1]| + 1
  }

  /** What the file system does to one flush: the name the clock gives, whether the file opens, and how many
      lines it takes before writing fails. Asking the size of a file that is not there fails by itself. */
  datatype Weather = Weather(name: string, opens: bool, kept: nat)

  predicate TooBig(l: Log) {
    l.filename in l.files && SizeOf(l.files[l.filename]) > MAX_FILESIZE - DELTA_FILESIZE
  }

  /** The name is changed before the file is opened. */
  function Rotated(l: Log, w: Weather): Log {
    if !TooBig(l) then l
    else l.(filename := w.name, rotation := if w.name in l.rotation then l.rotation else l.rotation + [w.name])
  }

  function Front(lines: seq<string>, kept: nat): seq<string> {
    if kept < |lines| then lines[..kept] else lines
  }

  function Rest(lines: seq<string>, kept: nat): seq<string> {
    if kept < |lines| then lines[kept..] else []
  }

  lemma FrontRest(lines: seq<string>, kept: nat)
    ensures Front(lines, kept) + Rest(lines, kept) == lines
  {
  }

  /** Opening appends to a file that is there and starts one that is not. Messages are popped whether or not
      they could be written. */
  function Drained(l: Log, kept: nat): Log {
    var before := if l.filename in l.files then l.files[l.filename] else [];
    l.(files := l.files[l.filename := before + Front(l.queue, kept)], queue := [])
  }

  function Flushed(l: Log, w: Weather): Log {
    if l.filename !in l.files then l
    else
      var r := Rotated(l, w);
      if w.opens then Drained(r, w.kept) else r
  }

  function Logged(l: Log, message: string, w: Weather): Log {
    var q := l.(queue := l.queue + [message]);
    if |q.queue| >= l.limit then Flushed(q, w) else q
  }

  function Written(l: Log, messages: seq<string>, weather: seq<Weather>): Log
    requires |weather| == |messages|
  {
    if messages == [] then l
    else
      var n := |messages| - 1;
      Logged(Written(l, messages[..n], weather[..n]), messages[n], weather[n])
  }

  /** The log as `init` leaves it: one empty file, nothing queued. */
  function Opened(name: string, limit: nat): Log {
    Log(map[name := []], [name], name, [], limit)
  }

  /** Everything in the files, in the order they were used. */
  function InFiles(l: Log, names: seq<string>): seq<string> {
    if names == [] then []
    else
      var n := |names| - 1;
      InFiles(l, names[..n]) + LinesIn(l, names[n])
  }

  function LinesIn(l: Log, name: string): seq<string> {
    if name in l.files then l.files[name] else []
  }

  lemma FrontNext(lines: seq<string>, line: string, kept: nat)
    ensures Front(lines + [line], kept) == if |lines| < kept then Front(lines, kept) + [line] else Front(lines, kept)
  {
  }

  // ---- Conservation and the size bound

  /** What a flush loses: the lines of its batch that came after a write had failed. */
  function Tail(l: Log, w: Weather): seq<string> {
    if l.filename in l.files && w.opens then Rest(l.queue, w.kept) else []
  }

  /** The messages lost in a run, in order. */
  function Lost(l: Log, messages: seq<string>, weather: seq<Weather>): seq<string>
    requires |weather| == |messages|
  {
    if messages == [] then []
    else
      var n := |messages| - 1;
      var before := Written(l, messages[..n], weather[..n]);
      Lost(l, messages[..n], weather[..n])
      + if Flushes(before) then Tail(before.(queue := before.queue + [messages[n]]), weather[n]) else []
  }

  /** The messages of a run without those: every flush cuts its tail off the end. */
  function Kept(l: Log, messages: seq<string>, weather: seq<Weather>): seq<string>
    requires |weather| == |messages|
  {
    if messages == [] then []
    else
      var n := |messages| - 1;
      var before := Written(l, messages[..n], weather[..n]);
      var all := Kept(l, messages[..n], weather[..n]) + [messages[n]];
      var lost := if Flushes(before) then |Tail(before.(queue := before.queue + [messages[n]]), weather[n])| else 0;
      if lost <= |all| then all[..|all| - lost] else []
  }

  predicate Flushes(l: Log) {
    |l.queue| + 1 >= l.limit
  }

  /** A name the clock gives to a rotation has not been used before; with `again` it may also be the current
      one, as within one millisecond. */
  predicate FreshName(l: Log, w: Weather, again: bool) {
    TooBig(l) ==> w.name !in l.rotation || (again && w.name == l.filename)
  }

  predicate SmallBatch(l: Log, message: string) {
    SizeOf(l.queue + [message]) <= DELTA_FILESIZE
  }

  /** The current file is the newest, every file is listed once, and none is too long. */
  predicate Ordered(l: Log) {
    && l.rotation != [] && l.rotation[|l.rotation| - 1] == l.filename
    && (forall i, j :: 0 <= i < j < |l.rotation| ==> l.rotation[i] != l.rotation[j])
    && (forall name <- l.files :: name in l.rotation)
  }

  predicate Bounded(l: Log) {
    forall name <- l.files :: SizeOf(l.files[name]) <= 102_400
  }

  predicate AllFresh(l: Log, messages: seq<string>, weather: seq<Weather>, again: bool)
    requires |weather| == |messages|
  {
    messages == [] || (
      var n := |messages| - 1;
      var before := Written(l, messages[..n], weather[..n]);
      AllFresh(l, messages[..n], weather[..n], again) && (Flushes(before) ==> FreshName(before, weather[n], again)))
  }

  predicate AllSmall(l: Log, messages: seq<string>, weather: seq<Weather>)
    requires |weather| == |messages|
  {
    messages == [] || (
      var n := |messages| - 1;
      var before := Written(l, messages[..n], weather[..n]);
      AllSmall(l, messages[..n], weather[..n]) && (Flushes(before) ==> SmallBatch(before, messages[n])))
  }

  lemma {:induction false} SizeAppend(a: seq<string>, b: seq<string>)
    ensures SizeOf(a + b) == SizeOf(a) + SizeOf(b)
  {
    if b == [] {
      assert a + b == a;
    } else {
      var n := |b| - 1;
      assert (a + b)[..|a| + n] == a + b[..n];
      SizeAppend(a, b[..n]);
    }
  }

  /** Files not among the names do not matter. */
  lemma {:induction false} InFilesOnly(l: Log, m: Log, names: seq<string>)
    requires forall name <- names :: (name in l.files <==> name in m.files)
                                     && (name in l.files ==> l.files[name] == m.files[name])
    ensures InFiles(l, names) == InFiles(m, names)
  {
    if names != [] {
      InFilesOnly(l, m, names[..|names| - 1]);
    }
  }

  function Everything(l: Log): seq<string> {
    InFiles(l, l.rotation) + l.queue
  }

  lemma RotationKeeps(l: Log, w: Weather)
    requires Ordered(l) && FreshName(l, w, true)
    ensures var r := Rotated(l, w);
            Ordered(r) && InFiles(r, r.rotation) == InFiles(l, l.rotation)
            && (TooBig(l) && FreshName(l, w, false) ==> r.filename !in r.files)
  {
    var r := Rotated(l, w);
    if TooBig(l) && w.name !in l.rotation {
      assert r.rotation[..|l.rotation|] == l.rotation;
      InFilesOnly(l, r, l.rotation);
      assert w.name !in l.files;
    }
  }

  lemma DrainKeeps(l: Log, kept: nat)
    requires Ordered(l)
    ensures var d := Drained(l, kept);
            Ordered(d) && Everything(d) + Rest(l.queue, kept) == Everything(l)
  {
    hide Front, Rest;
    var n, d := |l.rotation| - 1, Drained(l, kept);
    var older, front, rest := InFiles(l, l.rotation[..n]), Front(l.queue, kept), Rest(l.queue, kept);
    InFilesOnly(l, d, l.rotation[..n]);
    FrontRest(l.queue, kept);
    assert Everything(d) == older + (LinesIn(l, l.filename) + front);
    assert older + (LinesIn(l, l.filename) + front) + rest == older + LinesIn(l, l.filename) + (front + rest);
  }

  lemma FlushKeeps(l: Log, w: Weather)
    requires Ordered(l) && FreshName(l, w, true)
    ensures Ordered(Flushed(l, w)) && Everything(Flushed(l, w)) + Tail(l, w) == Everything(l)
  {
    hide InFiles, Ordered;
    RotationKeeps(l, w);
    if l.filename in l.files && w.opens {
      DrainKeeps(Rotated(l, w), w.kept);
    }
  }

  /** Over any run that never rotates back to an older file, whatever opens and writes fail: the files in
      rotation order and then the queue hold exactly the messages logged, in order, but for the tails of the
      batches whose writing failed. So all are there if and only if no write failed. */
  lemma {:induction false} LostExactly(name: string, limit: nat, messages: seq<string>, weather: seq<Weather>)
    requires |weather| == |messages| && AllFresh(Opened(name, limit), messages, weather, true)
    ensures var l, lost := Written(Opened(name, limit), messages, weather),
                           Lost(Opened(name, limit), messages, weather);
            && Ordered(l) && Everything(l) == Kept(Opened(name, limit), messages, weather)
            && |Everything(l)| + |lost| == |messages|
            && (Everything(l) == messages <==> lost == [])
  {
    hide Flushed, Ordered, FreshName, Tail, Everything;
    if messages == [] {
      OpenedOrdered(name, limit);
    } else {
      var n := |messages| - 1;
      LostExactly(name, limit, messages[..n], weather[..n]);
      var l := Written(Opened(name, limit), messages[..n], weather[..n]);
      QueueKeeps(l, messages[n], weather[n]);
      if Flushes(l) {
        FlushKeeps(l.(queue := l.queue + [messages[n]]), weather[n]);
      }
      assert messages == messages[..n] + [messages[n]];
    }
  }

  lemma OpenedOrdered(name: string, limit: nat)
    ensures Ordered(Opened(name, limit)) && Everything(Opened(name, limit)) == []
  {
    var l := Opened(name, limit);
    assert l.rotation[..0] == [];
    assert InFiles(l, l.rotation) == InFiles(l, []) + [];
  }

  lemma QueueKeeps(l: Log, message: string, w: Weather)
    requires Ordered(l)
    ensures var q := l.(queue := l.queue + [message]);
            && Ordered(q) && Everything(q) == Everything(l) + [message]
            && forall again :: FreshName(l, w, again) <==> FreshName(q, w, again)
  {
    var q := l.(queue := l.queue + [message]);
    InFilesOnly(l, q, l.rotation);
  }

  lemma SizeFront(lines: seq<string>, kept: nat)
    ensures SizeOf(Front(lines, kept)) <= SizeOf(lines)
  {
    FrontRest(lines, kept);
    SizeAppend(Front(lines, kept), Rest(lines, kept));
  }

  lemma FlushBounded(l: Log, w: Weather)
    requires Ordered(l) && FreshName(l, w, false) && Bounded(l) && SizeOf(l.queue) <= DELTA_FILESIZE
    ensures Bounded(Flushed(l, w))
  {
    hide Front, Ordered, InFiles;
    if l.filename in l.files {
      RotationKeeps(l, w);
      var r := Rotated(l, w);
      SizeFront(r.queue, w.kept);
      SizeAppend(if r.filename in r.files then r.files[r.filename] else [], Front(r.queue, w.kept));
    }
  }

  lemma {:induction false} FreshIsEnough(l: Log, messages: seq<string>, weather: seq<Weather>)
    requires |weather| == |messages| && AllFresh(l, messages, weather, false)
    ensures AllFresh(l, messages, weather, true)
  {
    if messages != [] {
      FreshIsEnough(l, messages[..|messages| - 1], weather[..|messages| - 1]);
    }
  }

  /** If every rotation takes an unused name and no flushed batch is over 2048 bytes, no file ever exceeds 102400. */
  lemma {:induction false} FilesBounded(name: string, limit: nat, messages: seq<string>, weather: seq<Weather>)
    requires |weather| == |messages| && AllFresh(Opened(name, limit), messages, weather, false)
    requires AllSmall(Opened(name, limit), messages, weather)
    ensures Bounded(Written(Opened(name, limit), messages, weather))
  {
    if messages != [] {
      hide Flushed, Ordered, FreshName, SizeOf;
      var n := |messages| - 1;
      FreshIsEnough(Opened(name, limit), messages[..n], weather[..n]);
      LostExactly(name, limit, messages[..n], weather[..n]);
      FilesBounded(name, limit, messages[..n], weather[..n]);
      var l := Written(Opened(name, limit), messages[..n], weather[..n]);
      QueueKeeps(l, messages[n], weather[n]);
      if Flushes(l) {
        FlushBounded(l.(queue := l.queue + [messages[n]]), weather[n]);
      }
    }
  }

  // ---- When it rotates and when it flushes

  /** Every file before the current one is there and has more than 100352 bytes. */
  predicate OlderFull(l: Log) {
    forall i :: 0 <= i < |l.rotation| - 1 ==> l.rotation[i] in l.files && SizeOf(l.files[l.rotation[i]]) > 100_352
  }

  lemma FlushOlderFull(l: Log, w: Weather)
    requires Ordered(l) && OlderFull(l) && FreshName(l, w, true)
    ensures OlderFull(Flushed(l, w))
  {
    hide SizeOf, Front, OlderFull, Rotated;
    if l.filename in l.files {
      RotationKeeps(l, w);
      RotationOlderFull(l, w);
      DrainOlderFull(Rotated(l, w), w.kept);
    }
  }

  lemma RotationOlderFull(l: Log, w: Weather)
    requires Ordered(l) && OlderFull(l) && FreshName(l, w, true) && l.filename in l.files
    ensures OlderFull(Rotated(l, w))
  {
    hide SizeOf;
    if TooBig(l) && w.name !in l.rotation {
      assert forall i :: 0 <= i < |l.rotation| ==> (l.rotation + [w.name])[i] == l.rotation[i];
    }
  }

  lemma DrainOlderFull(l: Log, kept: nat)
    requires Ordered(l) && OlderFull(l)
    ensures OlderFull(Drained(l, kept))
  {
    hide SizeOf, Front;
    var n := |l.rotation| - 1;
    assert forall i :: 0 <= i < n ==> l.rotation[i] != l.rotation[n];
  }

  /** A flush turns to another file exactly when the current one has more than 100352 bytes. */
  lemma RotatesExactly(l: Log, w: Weather)
    requires l.filename in l.files && w.name != l.filename
    ensures Flushed(l, w).filename == w.name <==> SizeOf(l.files[l.filename]) > 100_352
    ensures Flushed(l, w).filename == w.name || Flushed(l, w).filename == l.filename
  {
    hide SizeOf, Front;
  }

  /** No file is left for a new one before it has more than 100352 bytes. */
  lemma {:induction false} RotatesWhenFull(name: string, limit: nat, messages: seq<string>, weather: seq<Weather>)
    requires |weather| == |messages| && AllFresh(Opened(name, limit), messages, weather, true)
    ensures OlderFull(Written(Opened(name, limit), messages, weather))
  {
    if messages != [] {
      hide Flushed, Ordered, FreshName, SizeOf;
      var n := |messages| - 1;
      LostExactly(name, limit, messages[..n], weather[..n]);
      RotatesWhenFull(name, limit, messages[..n], weather[..n]);
      var l := Written(Opened(name, limit), messages[..n], weather[..n]);
      QueueKeeps(l, messages[n], weather[n]);
      if Flushes(l) {
        FlushOlderFull(l.(queue := l.queue + [messages[n]]), weather[n]);
      }
    }
  }

  lemma NextRemainder(n: nat, limit: nat)
    requires limit > 0
    ensures (n + 1) % limit == if n % limit + 1 == limit then 0 else n % limit + 1
  {
    var q, r := n / limit, n % limit;
    assert n == q * limit + r;
    if r + 1 == limit {
      assert (q + 1) * limit == q * limit + limit;
      Remainder(n + 1, q + 1, 0, limit);
    } else {
      Remainder(n + 1, q, r + 1, limit);
    }
  }

  lemma Remainder(n: nat, q: nat, r: nat, limit: nat)
    requires r < limit && n == q * limit + r
    ensures n % limit == r
  {
    var d, rest := n / limit, n % limit;
    assert n == d * limit + rest;
    assert (q + 1) * limit == q * limit + limit;
    assert (d + 1) * limit == d * limit + limit;
    if d > q {
      Times(q + 1, d, limit);
    } else if d < q {
      Times(d + 1, q, limit);
    }
  }

  lemma Times(a: nat, b: nat, c: nat)
    requires a <= b
    ensures a * c <= b * c
  {
  }

  /** As long as files open, a flush comes with every message that fills the queue, and empties it. */
  lemma {:induction false} FlushesWhenFull(name: string, limit: nat, messages: seq<string>, weather: seq<Weather>)
    requires |weather| == |messages| && limit > 0 && forall i :: 0 <= i < |weather| ==> weather[i].opens
    ensures var l := Written(Opened(name, limit), messages, weather);
            |l.queue| == |messages| % limit && l.filename in l.files && l.limit == limit
  {
    if messages != [] {
      hide SizeOf, Front;
      var n := |messages| - 1;
      FlushesWhenFull(name, limit, messages[..n], weather[..n]);
      NextRemainder(n, limit);
    }
  }

  // ---- Any names at all

  /** Every file is listed once, the current one included. */
  predicate Listed(l: Log) {
    l.filename in l.rotation && (forall name <- l.files :: name in l.rotation) && NoRepeat(l.rotation)
  }

  predicate NoRepeat(names: seq<string>) {
    names == [] || (names[|names| - 1] !in names[..|names| - 1] && NoRepeat(names[..|names| - 1]))
  }

  lemma {:induction false} OneFileGrows(l: Log, m: Log, names: seq<string>, lines: seq<string>)
    requires NoRepeat(names)
    requires m.files == l.files[l.filename := LinesIn(l, l.filename) + lines]
    ensures multiset(InFiles(m, names))
         == multiset(InFiles(l, names)) + if l.filename in names then multiset(lines) else multiset{}
  {
    if names != [] {
      hide LinesIn;
      var n := |names| - 1;
      var init, last := names[..n], names[n];
      OneFileGrows(l, m, init, lines);
      LastFileGrows(l, m, last, lines);
      assert names == init + [last];
      assert InFiles(m, names) == InFiles(m, init) + LinesIn(m, last);
      assert InFiles(l, names) == InFiles(l, init) + LinesIn(l, last);
    }
  }

  lemma LastFileGrows(l: Log, m: Log, name: string, lines: seq<string>)
    requires m.files == l.files[l.filename := LinesIn(l, l.filename) + lines]
    ensures LinesIn(m, name) == if name == l.filename then LinesIn(l, name) + lines else LinesIn(l, name)
  {
  }

  lemma RotatedListed(l: Log, w: Weather)
    requires Listed(l)
    ensures Listed(Rotated(l, w)) && Everything(Rotated(l, w)) == Everything(l)
  {
    var r := Rotated(l, w);
    if TooBig(l) && w.name !in l.rotation {
      assert r.rotation[..|l.rotation|] == l.rotation;
      InFilesOnly(l, r, l.rotation);
    } else {
      InFilesOnly(l, r, r.rotation);
    }
  }

  lemma DrainedListed(l: Log, kept: nat)
    requires Listed(l)
    ensures var d := Drained(l, kept);
            && Listed(d)
            && multiset(Everything(d)) + multiset(Rest(l.queue, kept)) == multiset(Everything(l))
  {
    hide InFiles, Front, Rest;
    OneFileGrows(l, Drained(l, kept), l.rotation, Front(l.queue, kept));
    FrontRest(l.queue, kept);
  }

  lemma ListedFlush(l: Log, w: Weather)
    requires Listed(l)
    ensures Listed(Flushed(l, w))
    ensures multiset(Everything(Flushed(l, w))) + multiset(Tail(l, w)) == multiset(Everything(l))
  {
    hide Drained, Listed, Everything;
    RotatedListed(l, w);
    DrainedListed(Rotated(l, w), w.kept);
  }

  lemma LoggedListed(l: Log, message: string, w: Weather)
    requires Listed(l)
    ensures var q := l.(queue := l.queue + [message]);
            var tail := if Flushes(l) then Tail(q, w) else [];
            && Listed(Logged(l, message, w))
            && multiset(Everything(Logged(l, message, w))) + multiset(tail)
               == multiset(Everything(l)) + multiset{message}
  {
    hide Flushed, Listed, Tail, Everything;
    var q := l.(queue := l.queue + [message]);
    QueueListed(l, message);
    ListedFlush(q, w);
  }

  lemma Moved<T>(
    here: multiset<T>, next: multiset<T>, lost: multiset<T>, tail: multiset<T>, all: multiset<T>, one: multiset<T>)
    requires here + lost == all && next + tail == here + one
    ensures next + (lost + tail) == all + one
  {
    assert next + (lost + tail) == (next + tail) + lost;
    assert (here + one) + lost == (here + lost) + one;
  }

  /** Over any run, whatever names the clock gives and whatever fails: each message logged is in the files, in
      the queue or among the lost, as often as it was logged. */
  lemma {:induction false} NoneMislaid(name: string, limit: nat, messages: seq<string>, weather: seq<Weather>)
    requires |weather| == |messages|
    ensures var l := Written(Opened(name, limit), messages, weather);
            && Listed(l)
            && multiset(Everything(l)) + multiset(Lost(Opened(name, limit), messages, weather)) == multiset(messages)
  {
    hide Logged, Listed, Tail, Everything;
    if messages == [] {
      OpenedOrdered(name, limit);
      assert Listed(Opened(name, limit)) by { OpenedListed(name, limit); }
    } else {
      var n := |messages| - 1;
      NoneMislaid(name, limit, messages[..n], weather[..n]);
      var l := Written(Opened(name, limit), messages[..n], weather[..n]);
      var lost := Lost(Opened(name, limit), messages[..n], weather[..n]);
      var tail := if Flushes(l) then Tail(l.(queue := l.queue + [messages[n]]), weather[n]) else [];
      LoggedListed(l, messages[n], weather[n]);
      assert multiset(lost + tail) == multiset(lost) + multiset(tail);
      assert messages == messages[..n] + [messages[n]];
      Moved(multiset(Everything(l)), multiset(Everything(Logged(l, messages[n], weather[n]))), multiset(lost),
            multiset(tail), multiset(messages[..n]), multiset{messages[n]});
    }
  }

  lemma OpenedListed(name: string, limit: nat)
    ensures Listed(Opened(name, limit))
  {
  }

  lemma QueueListed(l: Log, message: string)
    requires Listed(l)
    ensures var q := l.(queue := l.queue + [message]);
            Listed(q) && Everything(q) == Everything(l) + [message]
  {
    InFilesOnly(l, l.(queue := l.queue + [message]), l.rotation);
  }

  // ---- The rotation that fails

  /** The log never recovers from a rotation whose new file fails to open: from then on every flush
      fails on the size of the missing file, and messages only pile up. */
  lemma {:induction false} RotationFailureIsFinal(l: Log, messages: seq<string>, weather: seq<Weather>)
    requires |weather| == |messages| && l.filename !in l.files
    ensures var after := Written(l, messages, weather);
            after.files == l.files && after.filename == l.filename && after.queue == l.queue + messages
  {
    if messages != [] {
      var n := |messages| - 1;
      RotationFailureIsFinal(l, messages[..n], weather[..n]);
    }
  }

  /** A flush leaves the log in that state exactly when it rotates to an unused name and cannot open it. */
  lemma RotationFailureExactly(l: Log, w: Weather)
    requires l.filename in l.files
    ensures Flushed(l, w).filename !in Flushed(l, w).files <==> TooBig(l) && !w.opens && w.name !in l.files
  {
  }

  // ---- The class

  class Logger {
    const maxQueueSize: nat
    var files: map<string, seq<string>>
    var filename: string
    var messageQueue: seq<string>
    ghost var rotation: seq<string>

    constructor (name: string, maxQueueSize: nat)
      ensures View() == Opened(name, maxQueueSize)
    {
      this.maxQueueSize := maxQueueSize;
      files, filename, messageQueue := map[name := []], name, [];
      rotation := [name];
    }

    ghost function View(): Log
      reads this
    {
      Log(files, rotation, filename, messageQueue, maxQueueSize)
    }

    method WriteLog(message: string, w: Weather)
      modifies this
      ensures View() == Logged(old(View()), message, w)
    {
      messageQueue := messageQueue + [message];
      if |messageQueue| >= maxQueueSize {
        WriteLogQueue(w);
      }
    }

    static method FileSize(lines: seq<string>) returns (size: nat)
      ensures size == SizeOf(lines)
    {
      size := 0;
      for i := 0 to |lines|
        invariant size == SizeOf(lines[..i])
      {
        assert lines[..i + 1][..i] == lines[..i];
        size := size + |lines[i]| + 1;
      }
      assert lines[..|lines|] == lines;
    }

    method WriteLogQueue(w: Weather)
      modifies this
      ensures View() == Flushed(old(View()), w)
    {
      if filename !in files {
        return;
      }
      var size := FileSize(files[filename]);
      if size > MAX_FILESIZE - DELTA_FILESIZE {
        filename := w.name;
        rotation := if w.name in rotation then rotation else rotation + [w.name];
      }
      if !w.opens {
        return;
      }
      if filename !in files {
        files := files[filename := []];
      }
      DrainQueue(w.kept);
    }

    /** A line after a failed write is popped all the same. */
    method DrainQueue(kept: nat)
      requires filename in files
      modifies this`files, this`messageQueue
      ensures messageQueue == []
      ensures files == old(files)[filename := old(files)[filename] + Front(old(messageQueue), kept)]
    {
      ghost var done: seq<string> := [];
      ghost var was := messageQueue;
      assert files[filename] + done == files[filename];
      var written := 0;
      while messageQueue != []
        invariant done + messageQueue == was && written == |Front(done, kept)|
        invariant files == old(files)[filename := old(files)[filename] + Front(done, kept)]
        decreases |messageQueue|
      {
        var message := messageQueue[0];
        FrontNext(done, message, kept);
        if written < kept {
          ghost var front := Front(done, kept);
          assert old(files)[filename] + front + [message] == old(files)[filename] + (front + [message]);
          files := files[filename := files[filename] + [message]];
          written := written + 1;
        }
        messageQueue := messageQueue[1..];
        done := done + [message];
      }
      assert done == was;
    }
  }
}
