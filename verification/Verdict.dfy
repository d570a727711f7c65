/** The listeners' trace against the page's verdict: the handlers of main.go record
    events as they go, and verdictFor of web/assets/wt.js classifies the set of kinds
    it is shown. */
module Verdict {
  import opened Wrappers
  import opened Sums
  import opened Observation

  // --- the page ---

  datatype Verdict = Established | Declines | UpgradeFailed | GaveUp | Unknown | Unmatched | NoUdp

  function Kinds(events: seq<Seen>): set<Kind> {
    set i | 0 <= i < |events| :: events[i].kind
  }

  function VerdictFor(events: seq<Seen>, ready: bool): Verdict {
    if events == [] then (if ready then Unmatched else NoUdp)
    else
      var kinds := Kinds(events);
      if Session in kinds then Established
      else if Declined in kinds then Declines
      else if Refused in kinds || Connect in kinds then UpgradeFailed
      else if Quic in kinds then GaveUp
      else Unknown
  }

  // the port filter of renderObservation: zero, or no port, passes everything
  predicate PortPasses(port: nat, asked: nat) {
    asked == 0 || port == asked
  }

  function OnPort(events: seq<Seen>, port: nat): seq<Seen> {
    if events == [] then []
    else (if PortPasses(events[0].port, port) then [events[0]] else []) + OnPort(events[1..], port)
  }

  // --- stages: how far a kind shows a client to have come ---

  function Rank(k: Kind): nat {
    match k
    case Closed => 0
    case Quic => 1
    case Connect => 2
    case Refused => 2
    case Declined => 3
    case Session => 4
  }

  function AtRank(rank: nat): Verdict {
    if rank >= 4 then Established
    else if rank == 3 then Declines
    else if rank == 2 then UpgradeFailed
    else if rank == 1 then GaveUp
    else Unknown
  }

  function MaxOf<T>(s: seq<T>, f: T -> nat): nat {
    if s == [] then 0 else Max(MaxOf(s[..|s| - 1], f), f(s[|s| - 1]))
  }

  lemma {:induction false} MaxIsReached<T>(s: seq<T>, f: T -> nat)
    ensures forall i :: 0 <= i < |s| ==> f(s[i]) <= MaxOf(s, f)
    ensures s == [] || exists i :: 0 <= i < |s| && f(s[i]) == MaxOf(s, f)
    ensures s == [] ==> MaxOf(s, f) == 0
  {
    if s != [] {
      var last := |s| - 1;
      MaxIsReached(s[..last], f);
      if f(s[last]) == MaxOf(s, f) {
        assert f(s[last]) == MaxOf(s, f);
      } else {
        var i :| 0 <= i < last && f(s[..last][i]) == MaxOf(s[..last], f);
        assert f(s[i]) == MaxOf(s, f);
      }
    }
  }

  lemma MaxAppend<T>(s: seq<T>, x: T, f: T -> nat)
    ensures MaxOf(s + [x], f) == Max(MaxOf(s, f), f(x))
  {
    assert (s + [x])[..|s|] == s;
  }

  /** Raising one element raises the maximum to it, or leaves it. */
  lemma {:induction false} MaxRaise<T>(s: seq<T>, i: nat, x: T, f: T -> nat)
    requires i < |s| && f(s[i]) <= f(x)
    ensures MaxOf(s[i := x], f) == Max(MaxOf(s, f), f(x))
  {
    var last := |s| - 1;
    if i == last {
      assert s[i := x][..last] == s[..last];
    } else {
      assert s[i := x][..last] == s[..last][i := x];
      MaxRaise(s[..last], i, x, f);
    }
  }

  function SeenRank(): Seen -> nat {
    (e: Seen) => Rank(e.kind)
  }

  function HighestRank(events: seq<Seen>): nat {
    MaxOf(events, SeenRank())
  }

  /** On any non-empty record the verdict is the one of the highest stage in it. */
  lemma VerdictIsHighestStage(events: seq<Seen>, ready: bool)
    requires events != []
    ensures VerdictFor(events, ready) == AtRank(HighestRank(events))
  {
    MaxIsReached(events, SeenRank());
    var top :| 0 <= top < |events| && SeenRank()(events[top]) == HighestRank(events);
    assert events[top].kind in Kinds(events);
    forall k | k in Kinds(events) ensures Rank(k) <= HighestRank(events) {
      var i :| 0 <= i < |events| && events[i].kind == k;
      assert SeenRank()(events[i]) <= HighestRank(events);
    }
  }

  // the order in which a handler passes them: a refused upgrade has held a slot, a
  // declined one never did
  function HandlerRank(k: Kind): nat {
    match k
    case Closed => 0
    case Quic => 1
    case Connect => 2
    case Declined => 3
    case Refused => 4
    case Session => 5
  }

  function AtHandlerRank(rank: nat): Verdict {
    if rank >= 5 then Established
    else if rank == 4 then UpgradeFailed
    else if rank == 3 then Declines
    else if rank == 2 then UpgradeFailed
    else if rank == 1 then GaveUp
    else Unknown
  }

  function SeenHandlerRank(): Seen -> nat {
    (e: Seen) => HandlerRank(e.kind)
  }

  function HighestHandlerRank(events: seq<Seen>): nat {
    MaxOf(events, SeenHandlerRank())
  }

  /** The page names the stage the handler came furthest to exactly unless the record
      has both a refusal and a decline and no session. */
  lemma HandlerOrderFollowedExactly(events: seq<Seen>, ready: bool)
    requires events != []
    ensures VerdictFor(events, ready) == AtHandlerRank(HighestHandlerRank(events))
      <==> !(Refused in Kinds(events) && Declined in Kinds(events) && Session !in Kinds(events))
  {
    MaxIsReached(events, SeenHandlerRank());
    var top :| 0 <= top < |events| && SeenHandlerRank()(events[top]) == HighestHandlerRank(events);
    assert events[top].kind in Kinds(events);
    forall k | k in Kinds(events) ensures HandlerRank(k) <= HighestHandlerRank(events) {
      var i :| 0 <= i < |events| && events[i].kind == k;
      assert SeenHandlerRank()(events[i]) <= HighestHandlerRank(events);
    }
  }

  /** "unknown" is shown exactly for a record of closings alone. */
  lemma UnknownExactlyForClosings(events: seq<Seen>, ready: bool)
    ensures VerdictFor(events, ready) == Unknown
      <==> events != [] && forall i :: 0 <= i < |events| ==> events[i].kind == Closed
  {
    if events != [] {
      VerdictIsHighestStage(events, ready);
      MaxIsReached(events, SeenRank());
      if HighestRank(events) == 0 {
        forall i | 0 <= i < |events| ensures events[i].kind == Closed {
          assert SeenRank()(events[i]) == 0;
        }
      }
    }
  }

  /** Losing events, in any way that leaves one, never raises the stage shown. */
  lemma DroppingNeverRaises(all: seq<Seen>, some: seq<Seen>)
    requires some != [] && forall e :: e in some ==> e in all
    ensures HighestRank(some) <= HighestRank(all)
    ensures forall ready :: VerdictFor(some, ready) == AtRank(HighestRank(some))
    ensures forall ready :: VerdictFor(all, ready) == AtRank(HighestRank(all))
  {
    MaxIsReached(some, SeenRank());
    MaxIsReached(all, SeenRank());
    var i :| 0 <= i < |some| && SeenRank()(some[i]) == HighestRank(some);
    assert some[i] in all;
    var j :| 0 <= j < |all| && all[j] == some[i];
    assert SeenRank()(all[j]) <= HighestRank(all);
    forall ready ensures VerdictFor(some, ready) == AtRank(HighestRank(some)) {
      VerdictIsHighestStage(some, ready);
    }
    forall ready ensures VerdictFor(all, ready) == AtRank(HighestRank(all)) {
      VerdictIsHighestStage(all, ready);
    }
  }

  // --- the listener ---

  /** How far one /echo request has come, as recorded. */
  datatype Progress = Arrived | TurnedAway | Broken | Opened

  datatype Conn = Conn(address: string, port: nat, requests: seq<Progress>, closed: bool)

  /** What a recorded event is stamped with. */
  datatype Stamp = Stamp(at: int, detail: string)

  datatype Step =
    | Handshake(address: string, port: nat, stamp: Stamp)
    | Request(c: nat, stamp: Stamp)
    | Turn(c: nat, r: nat, to: Progress, stamp: Stamp)
    | Close(c: nat, stamp: Stamp)

  datatype Listener = Listener(conns: seq<Conn>, log: seq<Event>)

  predicate Possible(l: Listener, s: Step) {
    match s
    case Handshake(_, _, _) => true
    case Request(c, _) => c < |l.conns|
    case Turn(c, r, to, _) =>
      c < |l.conns| && r < |l.conns[c].requests| && l.conns[c].requests[r] == Arrived && to != Arrived
    case Close(c, _) => c < |l.conns| && !l.conns[c].closed
  }

  function KindOf(p: Progress): Kind {
    match p case Arrived => Connect case TurnedAway => Declined case Broken => Refused case Opened => Session
  }

  function Recorded(l: Listener, c: Conn, k: Kind, stamp: Stamp): seq<Event> {
    l.log + [Event(stamp.at, c.address, c.port, k, stamp.detail)]
  }

  function Advance(l: Listener, s: Step): Listener
    requires Possible(l, s)
  {
    match s
    case Handshake(address, port, stamp) =>
      var c := Conn(address, port, [], false);
      Listener(l.conns + [c], Recorded(l, c, Quic, stamp))
    case Request(c, stamp) =>
      var conn := l.conns[c];
      Listener(l.conns[c := conn.(requests := conn.requests + [Arrived])], Recorded(l, conn, Connect, stamp))
    case Turn(c, r, to, stamp) =>
      var conn := l.conns[c];
      Listener(l.conns[c := conn.(requests := conn.requests[r := to])], Recorded(l, conn, KindOf(to), stamp))
    case Close(c, stamp) =>
      Listener(l.conns[c := l.conns[c].(closed := true)], Recorded(l, l.conns[c], Closed, stamp))
  }

  predicate Reaches(l: Listener, steps: seq<Step>)
    decreases |steps|
  {
    steps == [] || (Possible(l, steps[0]) && Reaches(Advance(l, steps[0]), steps[1..]))
  }

  function After(l: Listener, steps: seq<Step>): Listener
    requires Reaches(l, steps)
    decreases |steps|
  {
    if steps == [] then l else After(Advance(l, steps[0]), steps[1..])
  }

  const NOBODY := Listener([], [])

  // how far a request, a connection, and a client on a port have come
  function ProgressRank(): Progress -> nat {
    (p: Progress) => Rank(KindOf(p))
  }

  function ConnRank(address: string, port: nat): Conn -> nat {
    (c: Conn) =>
      if c.address == address && PortPasses(c.port, port) then Max(1, MaxOf(c.requests, ProgressRank())) else 0
  }

  function Furthest(l: Listener, address: string, port: nat): nat {
    MaxOf(l.conns, ConnRank(address, port))
  }

  function EventRank(address: string, port: nat): Event -> nat {
    (e: Event) => if e.address == address && PortPasses(e.port, port) then Rank(e.kind) else 0
  }

  function Logged(l: Listener, address: string, port: nat): nat {
    MaxOf(l.log, EventRank(address, port))
  }

  // the log shows how far each client has come, and mentions only clients that came
  ghost predicate LogAgrees(l: Listener, address: string, port: nat) {
    && Logged(l, address, port) == Furthest(l, address, port)
    && (forall i :: 0 <= i < |l.log| && l.log[i].address == address && PortPasses(l.log[i].port, port)
          ==> Furthest(l, address, port) > 0)
  }

  // raising one connection's rank raises the client's to match
  lemma ConnRaised(l: Listener, c: nat, conn: Conn, address: string, port: nat, rank: nat)
    requires c < |l.conns|
    requires ConnRank(address, port)(conn) == Max(ConnRank(address, port)(l.conns[c]), rank)
    ensures MaxOf(l.conns[c := conn], ConnRank(address, port)) == Max(Furthest(l, address, port), rank)
  {
    MaxRaise(l.conns, c, conn, ConnRank(address, port));
    MaxIsReached(l.conns, ConnRank(address, port));
  }

  // a new request, and a request that moves on, raise their connection
  lemma RequestRaises(conn: Conn, address: string, port: nat)
    ensures ConnRank(address, port)(conn.(requests := conn.requests + [Arrived]))
      == Max(ConnRank(address, port)(conn),
             if conn.address == address && PortPasses(conn.port, port) then Rank(Connect) else 0)
  {
    MaxAppend(conn.requests, Arrived, ProgressRank());
  }

  lemma TurnRaises(conn: Conn, r: nat, to: Progress, address: string, port: nat)
    requires r < |conn.requests| && conn.requests[r].Arrived?
    ensures ConnRank(address, port)(conn.(requests := conn.requests[r := to]))
      == Max(ConnRank(address, port)(conn),
             if conn.address == address && PortPasses(conn.port, port) then Rank(KindOf(to)) else 0)
  {
    MaxRaise(conn.requests, r, to, ProgressRank());
  }

  // a closing is no further than the connection already was
  lemma CloseRaisesNothing(l: Listener, c: nat, address: string, port: nat)
    requires c < |l.conns|
    ensures MaxOf(l.conns[c := l.conns[c].(closed := true)], ConnRank(address, port)) == Furthest(l, address, port)
    ensures l.conns[c].address == address && PortPasses(l.conns[c].port, port) ==> Furthest(l, address, port) >= 1
  {
    ConnRaised(l, c, l.conns[c].(closed := true), address, port, 0);
    MaxIsReached(l.conns, ConnRank(address, port));
    assert ConnRank(address, port)(l.conns[c]) <= Furthest(l, address, port);
  }

  lemma FurthestFollowsTheEvent(l: Listener, s: Step, address: string, port: nat)
    requires Possible(l, s)
    ensures var next := Advance(l, s);
      var e := next.log[|l.log|];
      && Furthest(next, address, port) == Max(Furthest(l, address, port), EventRank(address, port)(e))
      && (e.address == address && PortPasses(e.port, port) ==> Furthest(next, address, port) > 0)
  {
    var next := Advance(l, s);
    var e := next.log[|l.log|];
    match s
    case Handshake(_, _, _) =>
      MaxAppend(l.conns, next.conns[|l.conns|], ConnRank(address, port));
    case Request(c, _) =>
      RequestRaises(l.conns[c], address, port);
      ConnRaised(l, c, next.conns[c], address, port, EventRank(address, port)(e));
    case Turn(c, r, to, _) =>
      TurnRaises(l.conns[c], r, to, address, port);
      ConnRaised(l, c, next.conns[c], address, port, EventRank(address, port)(e));
    case Close(c, _) =>
      CloseRaisesNothing(l, c, address, port);
  }

  /** What each step of a handler records: one event more, of the connection it is on,
      with the kind and the stamp of what happened. */
  lemma StepIsRecorded(l: Listener, s: Step)
    requires Possible(l, s)
    ensures Advance(l, s).log == l.log + [match s
      case Handshake(address, port, stamp) => Event(stamp.at, address, port, Quic, stamp.detail)
      case Request(c, stamp) => Event(stamp.at, l.conns[c].address, l.conns[c].port, Connect, stamp.detail)
      case Close(c, stamp) => Event(stamp.at, l.conns[c].address, l.conns[c].port, Closed, stamp.detail)
      case Turn(c, _, to, stamp) =>
        Event(stamp.at, l.conns[c].address, l.conns[c].port,
              if to == TurnedAway then Declined else if to == Broken then Refused else Session, stamp.detail)]
  {
  }

  lemma AdvanceLogsOneEvent(l: Listener, s: Step)
    requires Possible(l, s)
    ensures |Advance(l, s).log| == |l.log| + 1 && Advance(l, s).log == l.log + [Advance(l, s).log[|l.log|]]
  {
  }

  lemma AdvanceKeepsLog(l: Listener, s: Step, address: string, port: nat)
    requires Possible(l, s) && LogAgrees(l, address, port)
    ensures LogAgrees(Advance(l, s), address, port)
  {
    var next := Advance(l, s);
    AdvanceLogsOneEvent(l, s);
    MaxAppend(l.log, next.log[|l.log|], EventRank(address, port));
    FurthestFollowsTheEvent(l, s, address, port);
    forall i | 0 <= i < |next.log| && next.log[i].address == address && PortPasses(next.log[i].port, port)
      ensures Furthest(next, address, port) > 0
    {
      if i < |l.log| {
        assert next.log[i] == l.log[i];
      }
    }
  }

  lemma {:induction false} RunKeepsLog(l: Listener, steps: seq<Step>, address: string, port: nat)
    requires Reaches(l, steps) && LogAgrees(l, address, port)
    ensures LogAgrees(After(l, steps), address, port)
    decreases |steps|
  {
    if steps != [] {
      AdvanceKeepsLog(l, steps[0], address, port);
      RunKeepsLog(Advance(l, steps[0]), steps[1..], address, port);
    }
  }

  // --- the page's answer about a listener ---

  lemma {:induction false} OnPortKeeps(events: seq<Seen>, port: nat, e: Seen)
    ensures e in OnPort(events, port) <==> e in events && PortPasses(e.port, port)
  {
    if events != [] {
      OnPortKeeps(events[1..], port, e);
      assert events == [events[0]] + events[1..];
    }
  }

  /** Asked about a port the page keeps exactly the events of that port, as often as they
      are there, and asked about none, all of them. */
  lemma {:induction false} OnPortExactly(events: seq<Seen>, port: nat, e: Seen)
    ensures multiset(OnPort(events, port))[e] == if port == 0 || e.port == port then multiset(events)[e] else 0
  {
    if events != [] {
      OnPortExactly(events[1..], port, e);
      assert events == [events[0]] + events[1..];
    }
  }

  /** So what the record holds of other ports never changes the verdict. */
  lemma OtherPortsNeverMatter(a: seq<Seen>, b: seq<Seen>, port: nat, ready: bool)
    requires port != 0 && forall e :: e in a && e.port == port <==> e in b && e.port == port
    ensures VerdictFor(OnPort(a, port), ready) == VerdictFor(OnPort(b, port), ready)
  {
    var left, right := OnPort(a, port), OnPort(b, port);
    forall e ensures e in left <==> e in right {
      OnPortKeeps(a, port, e);
      OnPortKeeps(b, port, e);
    }
    SameVerdict(left, right, ready);
  }

  lemma SameVerdict(a: seq<Seen>, b: seq<Seen>, ready: bool)
    requires forall e :: e in a <==> e in b
    ensures VerdictFor(a, ready) == VerdictFor(b, ready)
  {
    SomeMember(a);
    SomeMember(b);
    SameKinds(a, b);
  }

  lemma SameKinds(a: seq<Seen>, b: seq<Seen>)
    requires forall e :: e in a <==> e in b
    ensures Kinds(a) == Kinds(b)
  {
    forall k | k in Kinds(a) ensures k in Kinds(b) {
      var i :| 0 <= i < |a| && a[i].kind == k;
      assert a[i] in b;
    }
    forall k | k in Kinds(b) ensures k in Kinds(a) {
      var i :| 0 <= i < |b| && b[i].kind == k;
      assert b[i] in a;
    }
  }

  lemma HighestIs(events: seq<Seen>, top: Seen)
    requires top in events && forall e :: e in events ==> Rank(e.kind) <= Rank(top.kind)
    ensures HighestRank(events) == Rank(top.kind)
  {
    MaxIsReached(events, SeenRank());
    var j :| 0 <= j < |events| && events[j] == top;
    assert SeenRank()(events[j]) == Rank(top.kind);
    var i :| 0 <= i < |events| && SeenRank()(events[i]) == HighestRank(events);
    assert events[i] in events;
  }

  // a record whose highest stage on the port is known has that verdict
  lemma VerdictFromBounds(shown: seq<Seen>, port: nat, rank: nat, ready: bool)
    requires forall s :: s in shown && PortPasses(s.port, port) ==> 0 < rank && Rank(s.kind) <= rank
    requires rank > 0 ==> exists s :: s in shown && PortPasses(s.port, port) && Rank(s.kind) == rank
    ensures var events := OnPort(shown, port);
      && (events == [] <==> rank == 0)
      && (rank > 0 ==> VerdictFor(events, ready) == AtRank(rank))
      && VerdictFor(events, ready) != Unknown
  {
    var events := OnPort(shown, port);
    forall e ensures e in events <==> e in shown && PortPasses(e.port, port) {
      OnPortKeeps(shown, port, e);
    }
    if rank > 0 {
      var top :| top in shown && PortPasses(top.port, port) && Rank(top.kind) == rank;
      HighestIs(events, top);
      VerdictIsHighestStage(events, ready);
    } else {
      SomeMember(events);
    }
  }

  lemma SomeMember(events: seq<Seen>)
    ensures events != [] ==> exists e :: e in events
  {
    if events != [] {
      assert events[0] in events;
    }
  }

  lemma {:induction false} AnsweringHolds(events: seq<Event>, address: string, cutoff: int, e: Event)
    ensures e in Answering(events, address, cutoff) <==> e in events && Asked(e, address, cutoff)
  {
    if events != [] {
      AnsweringHolds(events[1..], address, cutoff, e);
      assert events == [events[0]] + events[1..];
    }
  }

  /** What the page shows is the log's events for the address, in any arrangement. */
  ghost predicate Shows(shown: seq<Seen>, log: seq<Event>, address: string, cutoff: int) {
    forall s :: s in shown <==> exists e :: e in log && Asked(e, address, cutoff) && Shown(e) == s
  }

  // nothing shown on the port ranks above the client's furthest stage
  lemma NothingShownBeyond(l: Listener, address: string, port: nat, cutoff: int, shown: seq<Seen>, s: Seen)
    requires LogAgrees(l, address, port) && Shows(shown, l.log, address, cutoff)
    requires s in shown && PortPasses(s.port, port)
    ensures 0 < Furthest(l, address, port) && Rank(s.kind) <= Furthest(l, address, port)
  {
    var e :| e in l.log && Asked(e, address, cutoff) && Shown(e) == s;
    var k :| 0 <= k < |l.log| && l.log[k] == e;
    MaxIsReached(l.log, EventRank(address, port));
    assert EventRank(address, port)(l.log[k]) <= Logged(l, address, port);
  }

  // and the furthest stage itself is shown
  lemma FurthestIsShown(l: Listener, address: string, port: nat, cutoff: int, shown: seq<Seen>)
    requires LogAgrees(l, address, port) && Shows(shown, l.log, address, cutoff)
    requires Fresh(l, address, port, cutoff) && Furthest(l, address, port) > 0
    ensures exists s :: s in shown && PortPasses(s.port, port) && Rank(s.kind) == Furthest(l, address, port)
  {
    MaxIsReached(l.log, EventRank(address, port));
    var k :| 0 <= k < |l.log| && EventRank(address, port)(l.log[k]) == Logged(l, address, port);
    var s := Shown(l.log[k]);
    assert l.log[k] in l.log && Asked(l.log[k], address, cutoff);
    assert s in shown;
  }

  // nothing of the client's on the port has aged out of the window
  predicate Fresh(l: Listener, address: string, port: nat, cutoff: int) {
    forall i :: 0 <= i < |l.log| && l.log[i].address == address && PortPasses(l.log[i].port, port)
      ==> l.log[i].at >= cutoff
  }

  /** For every interleaving of every client's connections and requests: asked about
      one address on one port, with nothing aged out or dropped, the page's verdict is
      the furthest stage any of that client's connections has reached, "unknown" is
      never shown, and no record is shown exactly when no connection has come. */
  lemma VerdictIsFurthestStage(steps: seq<Step>, address: string, port: nat, cutoff: int, shown: seq<Seen>, ready: bool)
    requires Reaches(NOBODY, steps) && Fresh(After(NOBODY, steps), address, port, cutoff)
    requires Shows(shown, After(NOBODY, steps).log, address, cutoff)
    ensures var rank := Furthest(After(NOBODY, steps), address, port);
      var events := OnPort(shown, port);
      && (events == [] <==> rank == 0)
      && (rank > 0 ==> VerdictFor(events, ready) == AtRank(rank))
      && VerdictFor(events, ready) != Unknown
  {
    var l := After(NOBODY, steps);
    RunKeepsLog(NOBODY, steps, address, port);
    var rank := Furthest(l, address, port);
    forall s | s in shown && PortPasses(s.port, port) ensures 0 < rank && Rank(s.kind) <= rank {
      NothingShownBeyond(l, address, port, cutoff, shown, s);
    }
    if rank > 0 {
      FurthestIsShown(l, address, port, cutoff, shown);
    }
    VerdictFromBounds(shown, port, rank, ready);
  }

  // one of the client's connections to the port (zero for any) has come
  ghost predicate Came(l: Listener, address: string, port: nat) {
    exists c :: 0 <= c < |l.conns| && l.conns[c].address == address && (port == 0 || l.conns[c].port == port)
  }

  // and one of the requests on them has come this far
  ghost predicate CameTo(l: Listener, address: string, port: nat, p: Progress) {
    exists c :: 0 <= c < |l.conns| && l.conns[c].address == address && (port == 0 || l.conns[c].port == port)
      && p in l.conns[c].requests
  }

  lemma RequestRanks(conn: Conn, p: Progress)
    requires p in conn.requests
    ensures Rank(KindOf(p)) <= MaxOf(conn.requests, ProgressRank())
  {
    MaxIsReached(conn.requests, ProgressRank());
    var r :| 0 <= r < |conn.requests| && conn.requests[r] == p;
    assert ProgressRank()(conn.requests[r]) <= MaxOf(conn.requests, ProgressRank());
  }

  lemma TopRequest(conn: Conn) returns (p: Progress)
    requires MaxOf(conn.requests, ProgressRank()) > 0
    ensures p in conn.requests && Rank(KindOf(p)) == MaxOf(conn.requests, ProgressRank())
  {
    MaxIsReached(conn.requests, ProgressRank());
    var r :| 0 <= r < |conn.requests| && ProgressRank()(conn.requests[r]) == MaxOf(conn.requests, ProgressRank());
    p := conn.requests[r];
  }

  // a connection, and a request on it, come no further than the furthest stage
  lemma CameRanks(l: Listener, address: string, port: nat)
    ensures Came(l, address, port) ==> Furthest(l, address, port) > 0
    ensures forall p {:trigger CameTo(l, address, port, p)} ::
      CameTo(l, address, port, p) ==> Rank(KindOf(p)) <= Furthest(l, address, port)
  {
    MaxIsReached(l.conns, ConnRank(address, port));
    if Came(l, address, port) {
      var c :| 0 <= c < |l.conns| && l.conns[c].address == address && (port == 0 || l.conns[c].port == port);
      assert ConnRank(address, port)(l.conns[c]) <= Furthest(l, address, port);
    }
    forall p | CameTo(l, address, port, p) ensures Rank(KindOf(p)) <= Furthest(l, address, port) {
      var c :| 0 <= c < |l.conns| && l.conns[c].address == address && (port == 0 || l.conns[c].port == port)
        && p in l.conns[c].requests;
      RequestRanks(l.conns[c], p);
      assert ConnRank(address, port)(l.conns[c]) <= Furthest(l, address, port);
    }
  }

  // and the furthest stage is that of one of them
  lemma FurthestCame(l: Listener, address: string, port: nat) returns (p: Progress)
    requires Furthest(l, address, port) > 0
    ensures Came(l, address, port)
    ensures Furthest(l, address, port) > 1 ==>
      CameTo(l, address, port, p) && Rank(KindOf(p)) == Furthest(l, address, port)
  {
    p := Arrived;
    MaxIsReached(l.conns, ConnRank(address, port));
    var c :| 0 <= c < |l.conns| && ConnRank(address, port)(l.conns[c]) == Furthest(l, address, port);
    if Furthest(l, address, port) > 1 {
      p := TopRequest(l.conns[c]);
    }
  }

  /** The verdict as the client's own connections to the port have it: a session that
      opened, else a request turned away, else any request, else any connection, else
      none. */
  ghost function WhatCame(l: Listener, address: string, port: nat, ready: bool): Verdict {
    if CameTo(l, address, port, Opened) then Established
    else if CameTo(l, address, port, TurnedAway) then Declines
    else if CameTo(l, address, port, Broken) || CameTo(l, address, port, Arrived) then UpgradeFailed
    else if Came(l, address, port) then GaveUp
    else if ready then Unmatched else NoUdp
  }

  lemma RankOfWhatCame(l: Listener, address: string, port: nat, ready: bool)
    ensures WhatCame(l, address, port, ready)
      == if Furthest(l, address, port) > 0 then AtRank(Furthest(l, address, port))
         else if ready then Unmatched else NoUdp
  {
    CameRanks(l, address, port);
    NothingWithoutAConnection(l, address, port);
    if Furthest(l, address, port) > 0 {
      var p := FurthestCame(l, address, port);
    }
  }

  lemma NothingWithoutAConnection(l: Listener, address: string, port: nat)
    ensures forall p :: CameTo(l, address, port, p) ==> Came(l, address, port)
  {
  }

  /** What the page says is what came. */
  lemma VerdictTellsWhatCame(steps: seq<Step>, address: string, port: nat, cutoff: int, shown: seq<Seen>, ready: bool)
    requires Reaches(NOBODY, steps) && Fresh(After(NOBODY, steps), address, port, cutoff)
    requires Shows(shown, After(NOBODY, steps).log, address, cutoff)
    ensures VerdictFor(OnPort(shown, port), ready) == WhatCame(After(NOBODY, steps), address, port, ready)
  {
    VerdictIsFurthestStage(steps, address, port, cutoff, shown, ready);
    RankOfWhatCame(After(NOBODY, steps), address, port, ready);
  }

  /** The same through the files, one for each process: while what each recorded fits
      under the ceiling, reading them whole gives the page that verdict. */
  lemma VerdictThroughTheFiles(c: Codec, shards: seq<Shard>, steps: seq<Step>, address: string, port: nat,
                               cutoff: int, shown: seq<Seen>, ready: bool)
    requires Reaches(NOBODY, steps)
    ensures var l := After(NOBODY, steps);
      Fresh(l, address, port, cutoff) && ReadWhole(c, shards, l, address, cutoff, shown) ==>
        var rank := Furthest(l, address, port);
        VerdictFor(OnPort(shown, port), ready)
        == if rank > 0 then AtRank(rank) else if ready then Unmatched else NoUdp
  {
    var l := After(NOBODY, steps);
    if Fresh(l, address, port, cutoff) && ReadWhole(c, shards, l, address, cutoff, shown) {
      WholeReadShowsTheLog(c, shards, l, address, cutoff, shown);
      VerdictIsFurthestStage(steps, address, port, cutoff, shown, ready);
    }
  }

  // what is shown comes from the log, whatever is missing
  ghost predicate ShowsPart(shown: seq<Seen>, log: seq<Event>, address: string) {
    forall s :: s in shown ==> exists e :: e in log && e.address == address && Shown(e) == s
  }

  /** The page never overstates: whatever has aged out, been dropped, or been cut short,
      the verdict's stage is one the client has reached. */
  lemma PartNeverOverstates(steps: seq<Step>, address: string, port: nat, shown: seq<Seen>)
    requires Reaches(NOBODY, steps) && ShowsPart(shown, After(NOBODY, steps).log, address)
    ensures HighestRank(OnPort(shown, port)) <= Furthest(After(NOBODY, steps), address, port)
    ensures OnPort(shown, port) != [] ==> Furthest(After(NOBODY, steps), address, port) > 0
  {
    var l, events := After(NOBODY, steps), OnPort(shown, port);
    RunKeepsLog(NOBODY, steps, address, port);
    MaxIsReached(events, SeenRank());
    forall i | 0 <= i < |events|
      ensures Rank(events[i].kind) <= Furthest(l, address, port) && Furthest(l, address, port) > 0
    {
      assert events[i] in events;
      OnPortKeeps(shown, port, events[i]);
      var e :| e in l.log && e.address == address && Shown(e) == events[i];
      var k :| 0 <= k < |l.log| && l.log[k] == e;
      MaxIsReached(l.log, EventRank(address, port));
      assert EventRank(address, port)(l.log[k]) <= Logged(l, address, port);
    }
  }

  // a file nothing has been dropped from, read to its end
  predicate WhollyRead(c: Codec, s: Shard) {
    |File(c, s.recorded)| <= OBSERVATION_CEILING && s.len == Some(|File(c, s.recorded)|)
  }

  // between them the files hold the log, and what is shown is what was found there
  ghost predicate ReadWhole(c: Codec, shards: seq<Shard>, l: Listener, address: string, cutoff: int, shown: seq<Seen>) {
    && Lawful(c)
    && (forall s :: s in shards ==> Readable(c, s) && WhollyRead(c, s))
    && (forall e :: e in l.log <==> exists s :: s in shards && e in s.recorded)
    && multiset(shown) == multiset(ShownAll(Found(c, AllBytes(c, shards), address, cutoff)))
  }

  lemma {:induction false} WholeFilesAreComplete(c: Codec, shards: seq<Shard>, e: Event)
    requires Lawful(c) && forall s :: s in shards ==> WhollyRead(c, s)
    ensures e in AllComplete(c, shards) <==> exists s :: s in shards && e in s.recorded
  {
    if shards != [] {
      var s := shards[0];
      assert s in shards && shards == [s] + shards[1..];
      NothingDroppedExactlyUnderCeiling(c, s.recorded);
      assert Kept(c, s.recorded) == s.recorded;
      WholeFileIsComplete(c, s.recorded);
      assert CompleteEvents(c, s) == s.recorded;
      WholeFilesAreComplete(c, shards[1..], e);
    }
  }

  lemma WholeReadShowsTheLog(c: Codec, shards: seq<Shard>, l: Listener, address: string, cutoff: int, shown: seq<Seen>)
    requires ReadWhole(c, shards, l, address, cutoff, shown)
    ensures Shows(shown, l.log, address, cutoff)
  {
    ReadersFindWhatIsComplete(c, shards, address, cutoff);
    var found := Found(c, AllBytes(c, shards), address, cutoff);
    forall e ensures e in found <==> e in l.log && Asked(e, address, cutoff) {
      AnsweringHolds(AllComplete(c, shards), address, cutoff, e);
      WholeFilesAreComplete(c, shards, e);
    }
    forall s ensures s in shown <==> exists e :: e in l.log && Asked(e, address, cutoff) && Shown(e) == s {
      ShownOf(shown, found, s);
    }
  }

  lemma ShownOf(shown: seq<Seen>, found: seq<Event>, s: Seen)
    requires multiset(shown) == multiset(ShownAll(found))
    ensures s in shown <==> exists e :: e in found && Shown(e) == s
  {
    assert s in shown <==> s in multiset(shown);
    assert s in ShownAll(found) <==> s in multiset(ShownAll(found));
    if s in shown {
      var i :| 0 <= i < |ShownAll(found)| && ShownAll(found)[i] == s;
      assert found[i] in found && Shown(found[i]) == s;
    }
    if e :| e in found && Shown(e) == s {
      var i :| 0 <= i < |found| && found[i] == e;
      assert ShownAll(found)[i] == s;
    }
  }

  lemma {:induction false} WholeFileIsComplete(c: Codec, events: seq<Event>)
    requires Lawful(c)
    ensures Complete(c, events, |File(c, events)|) == |events|
  {
    if events != [] {
      WholeFileIsComplete(c, events[1..]);
    }
  }

  // files of any part of the log, restarted at their ceilings and cut anywhere
  ghost predicate ReadPart(c: Codec, shards: seq<Shard>, l: Listener, address: string, cutoff: int, shown: seq<Seen>) {
    && Lawful(c)
    && (forall s :: s in shards ==> Readable(c, s))
    && (forall s, e :: s in shards && e in s.recorded ==> e in l.log)
    && multiset(shown) == multiset(ShownAll(Found(c, AllBytes(c, shards), address, cutoff)))
  }

  lemma {:induction false} CompleteWasRecorded(c: Codec, shards: seq<Shard>, e: Event)
    requires e in AllComplete(c, shards)
    ensures exists s :: s in shards && e in s.recorded
  {
    var s := shards[0];
    assert s in shards;
    if e !in CompleteEvents(c, s) {
      CompleteWasRecorded(c, shards[1..], e);
    }
  }

  /** The same through the files, however torn, rotated or aged: the verdict on what is
      found there is that of a stage the client has reached. */
  lemma FilesNeverOverstate(c: Codec, shards: seq<Shard>, steps: seq<Step>, address: string, port: nat,
                            cutoff: int, shown: seq<Seen>, ready: bool)
    requires Reaches(NOBODY, steps) && ReadPart(c, shards, After(NOBODY, steps), address, cutoff, shown)
    ensures var events := OnPort(shown, port);
      events != [] ==>
        && VerdictFor(events, ready) == AtRank(HighestRank(events))
        && HighestRank(events) <= Furthest(After(NOBODY, steps), address, port)
  {
    var l := After(NOBODY, steps);
    ReadersFindWhatIsComplete(c, shards, address, cutoff);
    var found := Found(c, AllBytes(c, shards), address, cutoff);
    forall s | s in shown ensures exists e :: e in l.log && e.address == address && Shown(e) == s {
      ShownOf(shown, found, s);
      var e :| e in found && Shown(e) == s;
      AnsweringHolds(AllComplete(c, shards), address, cutoff, e);
      CompleteWasRecorded(c, shards, e);
    }
    PartNeverOverstates(steps, address, port, shown);
    if OnPort(shown, port) != [] {
      VerdictIsHighestStage(OnPort(shown, port), ready);
    }
  }

  // a client declined once and refused once, on one connection
  const DECLINED_THEN_REFUSED := [
    Handshake("a", 443, Stamp(1, "")),
    Request(0, Stamp(2, "")), Turn(0, 0, TurnedAway, Stamp(3, "")),
    Request(0, Stamp(4, "")), Turn(0, 1, Broken, Stamp(5, ""))]

  lemma StepThenRest(l: Listener, step: Step, rest: seq<Step>)
    requires Possible(l, step) && Reaches(Advance(l, step), rest)
    ensures Reaches(l, [step] + rest) && After(l, [step] + rest) == After(Advance(l, step), rest)
  {
    assert ([step] + rest)[1..] == rest;
  }

  lemma DeclinedThenRefusedRuns() returns (l: Listener)
    ensures Reaches(NOBODY, DECLINED_THEN_REFUSED) && l == After(NOBODY, DECLINED_THEN_REFUSED)
    ensures |l.log| == 5 && forall i :: 0 <= i < 5 ==> l.log[i].address == "a" && l.log[i].port == 443
    ensures l.log[0].kind == Quic && l.log[1].kind == Connect && l.log[2].kind == Declined
    ensures l.log[3].kind == Connect && l.log[4].kind == Refused
  {
    var s := DECLINED_THEN_REFUSED;
    var l1 := Advance(NOBODY, s[0]);
    var l2 := Advance(l1, s[1]);
    assert l2.conns[0].requests == [Arrived];
    var l3 := Advance(l2, s[2]);
    assert l3.conns[0].requests == [TurnedAway];
    var l4 := Advance(l3, s[3]);
    assert l4.conns[0].requests == [TurnedAway, Arrived];
    l := Advance(l4, s[4]);
    StepThenRest(l4, s[4], []);
    StepThenRest(l3, s[3], [s[4]] + []);
    StepThenRest(l2, s[2], [s[3]] + ([s[4]] + []));
    StepThenRest(l1, s[1], [s[2]] + ([s[3]] + ([s[4]] + [])));
    StepThenRest(NOBODY, s[0], [s[1]] + ([s[2]] + ([s[3]] + ([s[4]] + []))));
    assert s == [s[0]] + ([s[1]] + ([s[2]] + ([s[3]] + ([s[4]] + []))));
  }

  /** A run of the listener after which the page says the server declined, though the
      client's last request was admitted and then refused. */
  lemma DeclineHidesTheRefusal(ready: bool)
    ensures Reaches(NOBODY, DECLINED_THEN_REFUSED)
    ensures var shown := ShownAll(After(NOBODY, DECLINED_THEN_REFUSED).log);
      && shown != []
      && VerdictFor(shown, ready) == Declines
      && AtHandlerRank(HighestHandlerRank(shown)) == UpgradeFailed
  {
    var l := DeclinedThenRefusedRuns();
    var shown := ShownAll(l.log);
    assert shown[2].kind == Declined && shown[4].kind == Refused;
    assert Declined in Kinds(shown) && Refused in Kinds(shown);
    assert Session !in Kinds(shown);
    MaxIsReached(shown, SeenHandlerRank());
    assert SeenHandlerRank()(shown[4]) == 4;
  }

  /** The freshness window can leave the closing alone, and then the page says it has
      no record of a client it watched arrive. */
  lemma AgedOutIsUnknown(address: string, port: nat, ready: bool)
    ensures var steps := [Handshake(address, port, Stamp(0, "")), Close(0, Stamp(31, ""))];
      && Reaches(NOBODY, steps)
      && Answering(After(NOBODY, steps).log, address, 1) == [Event(31, address, port, Closed, "")]
      && VerdictFor([Seen(31, port, Closed, "")], ready) == Unknown
  {
    var first := Handshake(address, port, Stamp(0, ""));
    var second := Close(0, Stamp(31, ""));
    var steps := [first, second];
    var mid := Advance(NOBODY, first);
    assert steps[1..] == [second] && [second][1..] == [];
    assert Reaches(mid, [second]);
    assert After(mid, [second]) == Advance(mid, second);
    var log := Advance(mid, second).log;
    var e0, e1 := Event(0, address, port, Quic, ""), Event(31, address, port, Closed, "");
    assert log == [e0, e1];
    assert log[1..] == [e1];
    assert |[e1][1..]| == 0;
    assert Answering([e1], address, 1) == [e1];
  }
}
