/** The probe page (web/pages/probe.html): sixteen cooperative workers opening short
    streams, a windowed writer on one stream, and the stall watchdog. */
module Probe {
  import opened Wrappers
  import opened Sums

  const MIB := 0x10_0000
  const STREAMS_IN_FLIGHT := 16
  const STALL_MS := 8000

  // --- echoStreams: workers that interleave at their awaits ---

  /** Where a worker is suspended, with the number of its stream. A throw leaves its
      stream unfinished, or comes from the watchdog just after one was finished. */
  datatype Worker =
    | Looping
    | Opening(n: nat)
    | Writing(n: nat)
    | Echoing(n: nat)
    | Closing(n: nat)
    | Finishing(n: nat)
    | Returned
    | Threw(unfinished: Option<nat>)

  datatype Pool = Pool(count: nat, started: nat, closed: nat, stopped: bool,
                       workers: seq<Worker>,
                       finished: seq<nat>)   // the numbers of the streams closed, in order

  datatype Move = Check(w: nat) | Resume(w: nat) | Fail(w: nat) | Finish(w: nat, stalled: bool) | PressStop

  function StartPool(count: nat): Pool {
    Pool(count, 0, 0, false, seq(STREAMS_IN_FLIGHT, _ => Looping), [])
  }

  /** The stream a worker has opened and not closed. */
  function Holding(w: Worker): Option<nat> {
    match w
    case Looping => None
    case Returned => None
    case Threw(unfinished) => unfinished
    case _ => Some(w.n)
  }

  predicate Suspended(w: Worker) {
    w.Opening? || w.Writing? || w.Echoing? || w.Closing? || w.Finishing?
  }

  predicate CanMove(p: Pool, m: Move) {
    match m
    case Check(w) => w < |p.workers| && p.workers[w].Looping?
    case Resume(w) => w < |p.workers| && Suspended(p.workers[w]) && !p.workers[w].Finishing?
    case Fail(w) => w < |p.workers| && Suspended(p.workers[w])
    case Finish(w, _) => w < |p.workers| && p.workers[w].Finishing?
    case PressStop => true
  }

  function Resumed(w: Worker): Worker
    requires Suspended(w) && !w.Finishing?
  {
    match w
    case Opening(n) => Writing(n)
    case Writing(n) => Echoing(n)
    case Echoing(n) => Closing(n)
    case Closing(n) => Finishing(n)
  }

  function Moved(p: Pool, m: Move): Pool
    requires CanMove(p, m)
  {
    match m
    case Check(w) =>
      if p.started < p.count && !p.stopped
      then p.(started := p.started + 1, workers := p.workers[w := Opening(p.started + 1)])
      else p.(workers := p.workers[w := Returned])
    case Resume(w) => p.(workers := p.workers[w := Resumed(p.workers[w])])
    case Fail(w) => p.(workers := p.workers[w := Threw(Some(p.workers[w].n))])
    case Finish(w, stalled) =>
      p.(closed := p.closed + 1, finished := p.finished + [p.workers[w].n],
         workers := p.workers[w := if stalled then Threw(None) else Looping])
    case PressStop => p.(stopped := true)
  }

  predicate Moves(p: Pool, moves: seq<Move>)
    decreases |moves|
  {
    moves == [] || (CanMove(p, moves[0]) && Moves(Moved(p, moves[0]), moves[1..]))
  }

  function PoolAfter(p: Pool, moves: seq<Move>): Pool
    requires Moves(p, moves)
    decreases |moves|
  {
    if moves == [] then p else PoolAfter(Moved(p, moves[0]), moves[1..])
  }

  function Busy(): Worker -> nat {
    (w: Worker) => if Holding(w).Some? then 1 else 0
  }

  ghost predicate Numbered(p: Pool) {
    // the streams held and the streams finished are numbered 1..started, each once
    && (forall w :: 0 <= w < |p.workers| && Holding(p.workers[w]).Some?
          ==> 1 <= Holding(p.workers[w]).value <= p.started && Holding(p.workers[w]).value !in p.finished)
    && (forall v, w :: 0 <= v < w < |p.workers| && Holding(p.workers[v]).Some?
          ==> Holding(p.workers[v]) != Holding(p.workers[w]))
    && (forall i :: 0 <= i < |p.finished| ==> 1 <= p.finished[i] <= p.started)
    && (forall i, j :: 0 <= i < j < |p.finished| ==> p.finished[i] != p.finished[j])
    && (forall n :: 1 <= n <= p.started && n !in p.finished
          ==> exists w :: 0 <= w < |p.workers| && Holding(p.workers[w]) == Some(n))
  }

  ghost predicate Counted(p: Pool) {
    && |p.workers| == STREAMS_IN_FLIGHT
    && |p.finished| == p.closed
    && p.started == p.closed + Sum(p.workers, Busy())
    && p.started <= p.count
    && (forall w :: 0 <= w < |p.workers| && p.workers[w].Returned? ==> p.started == p.count || p.stopped)
  }

  lemma MovedKeepsCounts(p: Pool, m: Move)
    requires CanMove(p, m) && Counted(p)
    ensures Counted(Moved(p, m))
  {
    if m != PressStop {
      SumUpdate(p.workers, m.w, Moved(p, m).workers[m.w], Busy());
    }
  }

  // a worker that keeps the stream it holds, or holds none before and after
  lemma SameHolderKeepsNumbers(p: Pool, w: nat, to: Worker)
    requires w < |p.workers| && Numbered(p) && Holding(to) == Holding(p.workers[w])
    ensures Numbered(p.(workers := p.workers[w := to]))
  {
    var q := p.(workers := p.workers[w := to]);
    assert forall v :: 0 <= v < |p.workers| ==> Holding(q.workers[v]) == Holding(p.workers[v]);
    forall n | 1 <= n <= q.started && n !in q.finished
      ensures exists v :: 0 <= v < |q.workers| && Holding(q.workers[v]) == Some(n)
    {
      var v :| 0 <= v < |p.workers| && Holding(p.workers[v]) == Some(n);
      assert Holding(q.workers[v]) == Some(n);
    }
  }

  lemma OpeningKeepsNumbers(p: Pool, w: nat)
    requires w < |p.workers| && p.workers[w].Looping? && Numbered(p)
    ensures Numbered(p.(started := p.started + 1, workers := p.workers[w := Opening(p.started + 1)]))
  {
    var q := p.(started := p.started + 1, workers := p.workers[w := Opening(p.started + 1)]);
    assert p.started + 1 !in p.finished;
    forall n | 1 <= n <= q.started && n !in q.finished
      ensures exists v :: 0 <= v < |q.workers| && Holding(q.workers[v]) == Some(n)
    {
      if n == q.started {
        assert Holding(q.workers[w]) == Some(n);
      } else {
        var v :| 0 <= v < |p.workers| && Holding(p.workers[v]) == Some(n);
        assert Holding(q.workers[v]) == Some(n);
      }
    }
  }

  lemma FinishingKeepsNumbers(p: Pool, w: nat, to: Worker)
    requires w < |p.workers| && p.workers[w].Finishing? && Holding(to).None? && Numbered(p)
    ensures Numbered(p.(closed := p.closed + 1, finished := p.finished + [p.workers[w].n],
                        workers := p.workers[w := to]))
  {
    var done := p.workers[w].n;
    var q := p.(closed := p.closed + 1, finished := p.finished + [done], workers := p.workers[w := to]);
    assert Holding(p.workers[w]) == Some(done);
    forall v | 0 <= v < |q.workers| && Holding(q.workers[v]).Some?
      ensures Holding(q.workers[v]).value !in q.finished
    {
      assert v != w;
      assert if v < w then Holding(p.workers[v]) != Holding(p.workers[w])
             else Holding(p.workers[w]) != Holding(p.workers[v]);
    }
    forall n | 1 <= n <= q.started && n !in q.finished
      ensures exists v :: 0 <= v < |q.workers| && Holding(q.workers[v]) == Some(n)
    {
      assert q.finished[|p.finished|] == done;
      assert n !in p.finished && n != done;
      var v :| 0 <= v < |p.workers| && Holding(p.workers[v]) == Some(n);
      assert Holding(q.workers[v]) == Some(n);
    }
  }

  lemma CheckKeepsNumbers(p: Pool, m: Move)
    requires m.Check? && CanMove(p, m) && Numbered(p)
    ensures Numbered(Moved(p, m))
  {
    if p.started < p.count && !p.stopped {
      OpeningKeepsNumbers(p, m.w);
      assert Moved(p, m) == p.(started := p.started + 1, workers := p.workers[m.w := Opening(p.started + 1)]);
    } else {
      SameHolderKeepsNumbers(p, m.w, Returned);
      assert Moved(p, m) == p.(workers := p.workers[m.w := Returned]);
    }
  }

  lemma SuspendedMoveKeepsNumbers(p: Pool, m: Move)
    requires (m.Resume? || m.Fail?) && CanMove(p, m) && Numbered(p)
    ensures Numbered(Moved(p, m))
  {
    SameHolderKeepsNumbers(p, m.w, if m.Resume? then Resumed(p.workers[m.w]) else Threw(Some(p.workers[m.w].n)));
  }

  lemma StopKeepsNumbers(p: Pool)
    requires Numbered(p)
    ensures Numbered(p.(stopped := true))
  {
    var q := p.(stopped := true);
    assert q.workers == p.workers && q.finished == p.finished && q.started == p.started;
  }

  lemma MovedKeepsNumbers(p: Pool, m: Move)
    requires CanMove(p, m) && Numbered(p)
    ensures Numbered(Moved(p, m))
  {
    match m
    case Check(_) => CheckKeepsNumbers(p, m);
    case Resume(_) => SuspendedMoveKeepsNumbers(p, m);
    case Fail(_) => SuspendedMoveKeepsNumbers(p, m);
    case Finish(w, stalled) => FinishingKeepsNumbers(p, w, if stalled then Threw(None) else Looping);
    case PressStop => StopKeepsNumbers(p);
  }

  lemma {:induction false} MovesKeepPool(p: Pool, moves: seq<Move>)
    requires Moves(p, moves) && Counted(p) && Numbered(p)
    ensures Counted(PoolAfter(p, moves)) && Numbered(PoolAfter(p, moves))
    ensures PoolAfter(p, moves).count == p.count
    decreases |moves|
  {
    if moves != [] {
      MovedKeepsCounts(p, moves[0]);
      MovedKeepsNumbers(p, moves[0]);
      MovesKeepPool(Moved(p, moves[0]), moves[1..]);
    }
  }

  lemma StartPoolHolds(count: nat)
    ensures Counted(StartPool(count)) && Numbered(StartPool(count))
  {
    SumZero(StartPool(count).workers, Busy());
  }

  predicate AllReturned(p: Pool) {
    forall w :: 0 <= w < |p.workers| ==> p.workers[w].Returned?
  }

  /** At every await point of every schedule: no more streams are closed than opened or
      opened than asked for, and at most sixteen are open at once. No number is used
      twice: the streams held and those closed are all different, and are together
      exactly the ones opened. When every worker returns without a stop exactly the
      streams 1..count have been opened and closed, each once. */
  lemma StreamsInFlightBounded(count: nat, moves: seq<Move>)
    requires Moves(StartPool(count), moves)
    ensures var p := PoolAfter(StartPool(count), moves);
      && p.closed <= p.started <= count
      && |p.workers| == 16 && p.started - p.closed <= 16
      && (forall v, w :: 0 <= v < w < |p.workers| && Holding(p.workers[v]).Some?
            ==> Holding(p.workers[v]) != Holding(p.workers[w]))
      && (forall w :: 0 <= w < |p.workers| && Holding(p.workers[w]).Some?
            ==> Holding(p.workers[w]).value !in p.finished)
      && (forall i, j :: 0 <= i < j < |p.finished| ==> p.finished[i] != p.finished[j])
      && (forall n :: 1 <= n <= p.started <==>
            n in p.finished || exists w :: 0 <= w < |p.workers| && Holding(p.workers[w]) == Some(n))
      && (AllReturned(p) && !p.stopped ==>
            p.closed == count && |p.finished| == count && (forall n :: 1 <= n <= count ==> n in p.finished))
  {
    StartPoolHolds(count);
    MovesKeepPool(StartPool(count), moves);
    var p := PoolAfter(StartPool(count), moves);
    SumBounded(p.workers, Busy(), 1);
    if AllReturned(p) && !p.stopped {
      SumZero(p.workers, Busy());
      assert p.workers[0].Returned?;
    }
  }

  /** Once the page is stopped no stream is opened any more. */
  lemma {:induction false} StopOpensNothing(p: Pool, moves: seq<Move>)
    requires Moves(p, moves) && p.stopped
    ensures PoolAfter(p, moves).stopped && PoolAfter(p, moves).started == p.started
    decreases |moves|
  {
    if moves != [] {
      StopOpensNothing(Moved(p, moves[0]), moves[1..]);
    }
  }

  // --- echoBytes: the windowed writer ---

  datatype Place = Head | InWrite | CatchingUp | Draining | Over | Thrown

  /** handed is what has been given to the stream to write, sent what the page counts. */
  datatype Writer = Writer(target: nat, sent: nat, handed: nat, received: nat, stopped: bool, at: Place)

  datatype Event =
    | BeginWrite | WriteDone | WriteFails
    | KeepWaiting | CaughtUp | StallCalled
    | LeaveLoop | CloseStream
    | Receive(k: nat) | Stop

  function StartWriter(target: nat): Writer {
    Writer(target, 0, 0, 0, false, Head)
  }

  predicate Behind(w: Writer) {
    w.received < w.sent - 4 * MIB && !w.stopped
  }

  predicate CanHappen(w: Writer, e: Event) {
    match e
    case BeginWrite => w.at == Head && w.sent < w.target && !w.stopped
    case WriteDone => w.at == InWrite
    case WriteFails => w.at == InWrite
    case KeepWaiting => (w.at == CatchingUp && Behind(w)) || w.at == Draining
    case StallCalled => (w.at == CatchingUp && Behind(w)) || w.at == Draining
    case CaughtUp => w.at == CatchingUp && !Behind(w)
    case LeaveLoop => w.at == Head && !(w.sent < w.target && !w.stopped)
    case CloseStream => w.at == Draining
    // the server only echoes what it was sent
    case Receive(k) => w.received + k <= w.handed
    case Stop => true
  }

  function Happens(w: Writer, e: Event): Writer
    requires CanHappen(w, e)
  {
    match e
    case BeginWrite => w.(handed := w.handed + MIB, at := InWrite)
    case WriteDone => w.(sent := w.sent + MIB, at := CatchingUp)
    case WriteFails => w.(at := Thrown)
    case KeepWaiting => w
    case StallCalled => w.(at := Thrown)
    case CaughtUp => w.(at := Head)
    case LeaveLoop => w.(at := Draining)
    case CloseStream => w.(at := Over)
    case Receive(k) => w.(received := w.received + k)
    case Stop => w.(stopped := true)
  }

  predicate Occur(w: Writer, events: seq<Event>)
    decreases |events|
  {
    events == [] || (CanHappen(w, events[0]) && Occur(Happens(w, events[0]), events[1..]))
  }

  function WriterAfter(w: Writer, events: seq<Event>): Writer
    requires Occur(w, events)
    decreases |events|
  {
    if events == [] then w else WriterAfter(Happens(w, events[0]), events[1..])
  }

  function RoundedUp(target: nat): nat {
    (target + MIB - 1) / MIB * MIB
  }

  ghost predicate WindowHolds(w: Writer) {
    && w.sent % MIB == 0
    && w.handed == (if w.at == InWrite then w.sent + MIB else if w.at == Thrown then w.handed else w.sent)
    && w.sent <= w.handed <= RoundedUp(w.target)
    && w.received <= w.handed <= w.received + 5 * MIB
    && (w.at == Head && !w.stopped ==> w.sent <= w.received + 4 * MIB)
    && (w.at in {Draining, Over} && !w.stopped ==> w.sent >= w.target)
  }

  lemma WholeMibsRoundUp(sent: nat, target: nat)
    requires sent % MIB == 0
    ensures sent < target ==> sent + MIB <= RoundedUp(target)
    ensures sent >= target ==> sent >= RoundedUp(target)
  {
    var k := sent / MIB;
    assert sent == k * MIB;
    if sent < target {
      assert (target + MIB - 1) / MIB >= k + 1;
    } else {
      assert (target + MIB - 1) / MIB <= k;
    }
  }

  lemma HappensKeepsWindow(w: Writer, e: Event)
    requires CanHappen(w, e) && WindowHolds(w)
    ensures WindowHolds(Happens(w, e))
  {
    WholeMibsRoundUp(w.sent, w.target);
  }

  lemma {:induction false} OccurKeepsWindow(w: Writer, events: seq<Event>)
    requires Occur(w, events) && WindowHolds(w)
    ensures WindowHolds(WriterAfter(w, events)) && WriterAfter(w, events).target == w.target
    decreases |events|
  {
    if events != [] {
      HappensKeepsWindow(w, events[0]);
      OccurKeepsWindow(Happens(w, events[0]), events[1..]);
    }
  }

  /** At every point, for every way the echo comes back: at most five MiB are written
      and not echoed, never more than the target rounded up to a MiB is written, and a
      writer that leaves its loop without a stop has written exactly that. */
  lemma WriterStaysInWindow(target: nat, events: seq<Event>)
    requires Occur(StartWriter(target), events)
    ensures var w := WriterAfter(StartWriter(target), events);
      && w.handed - w.received <= 5 * 1_048_576
      && w.handed <= RoundedUp(target)
      && (w.at in {Draining, Over} && !w.stopped ==> w.sent == RoundedUp(target))
  {
    OccurKeepsWindow(StartWriter(target), events);
    var w := WriterAfter(StartWriter(target), events);
    WholeMibsRoundUp(w.sent, target);
  }

  /** The writer goes on exactly when what it counts as written is no more than four MiB
      past the echo, or the page is stopped. */
  lemma GoesOnExactly(w: Writer)
    requires w.at == CatchingUp
    ensures CanHappen(w, CaughtUp) <==> w.stopped || w.sent <= w.received + 4_194_304
    ensures CanHappen(w, KeepWaiting) <==> !CanHappen(w, CaughtUp)
  {
  }

  /** Nor is anything more written. */
  lemma {:induction false} StopWritesNothing(w: Writer, events: seq<Event>)
    requires Occur(w, events) && w.stopped
    ensures WriterAfter(w, events).stopped && WriterAfter(w, events).handed == w.handed
    decreases |events|
  {
    if events != [] {
      StopWritesNothing(Happens(w, events[0]), events[1..]);
    }
  }

  // --- the watchdog ---

  datatype Reading = Reading(value: nat, at: int)

  // the readings from the j-th on are all the last one's value
  predicate FlatSince(readings: seq<Reading>, j: nat) {
    j < |readings| && forall i :: j <= i < |readings| ==> readings[i].value == readings[|readings| - 1].value
  }

  lemma FlatNoEarlier(readings: seq<Reading>, since: nat, j: nat)
    requires since < |readings|
    requires since > 0 ==> readings[since - 1].value != readings[|readings| - 1].value
    ensures FlatSince(readings, j) ==> since <= j
  {
  }

  class StallWatch {
    var last: nat
    var lastAt: int
    ghost var readings: seq<Reading>
    ghost var since: nat

    ghost predicate Valid()
      reads this
    {
      && FlatSince(readings, since)
      && last == readings[since].value && lastAt == readings[since].at
      && (since > 0 ==> readings[since - 1].value != last)
      && (forall i, j :: 0 <= i < j < |readings| ==> readings[i].at <= readings[j].at)
    }

    constructor (value: nat, now: int)
      ensures Valid() && readings == [Reading(value, now)]
    {
      last, lastAt, readings, since := value, now, [Reading(value, now)], 0;
    }

    /** A stall is called exactly when the value has read the same for more than eight
        seconds of readings: slow progress never is, a flat line always is. */
    method Stalled(value: nat, now: int) returns (stalled: bool)
      requires Valid() && now >= readings[|readings| - 1].at
      modifies this
      ensures Valid() && readings == old(readings) + [Reading(value, now)]
      ensures stalled <==> exists j: nat :: FlatSince(readings, j) && now - readings[j].at > 8_000
    {
      readings := readings + [Reading(value, now)];
      if value != last {
        last, lastAt, since := value, now, |readings| - 1;
        forall j: nat ensures FlatSince(readings, j) ==> since <= j {
          FlatNoEarlier(readings, since, j);
        }
        return false;
      }
      stalled := now - lastAt > STALL_MS;
      assert FlatSince(readings, since);
      forall j: nat ensures FlatSince(readings, j) ==> since <= j {
        FlatNoEarlier(readings, since, j);
      }
    }
  }
}
