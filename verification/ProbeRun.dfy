/** A run of the probe page and the server it runs against, as one state machine: the
    page hands over datagrams, one long stream and many short ones, and the loops of its
    session on the server read no more of each than has been handed over. */
module ProbeRun {
  import opened Wrappers
  import opened Sums
  import opened Probe
  import EchoMachine
  import EchoCharges
  import EchoLifecycle

  const NORMAL_BYTES := 4 * MIB
  const NORMAL_STREAMS := 200
  const NORMAL_DATAGRAMS := 100
  const DATAGRAM_BYTES := 64
  const BYTES_TARGET := 24 * MIB
  const STREAMS_TARGET := 8000

  datatype Run = NormalUse | BytesRun | StreamsRun

  function BytesAsked(r: Run): nat {
    match r case NormalUse => NORMAL_BYTES case BytesRun => BYTES_TARGET case StreamsRun => 0
  }

  function StreamsAsked(r: Run): nat {
    match r case NormalUse => NORMAL_STREAMS case BytesRun => 0 case StreamsRun => STREAMS_TARGET
  }

  function DatagramsAsked(r: Run): nat {
    match r case NormalUse => NORMAL_DATAGRAMS case BytesRun => 0 case StreamsRun => 0
  }

  /** What one echo loop of the server reads: the session's datagrams, or one stream. */
  datatype Source = Datagrams | Long | Short(n: nat)

  /** The page's run, every session of the server, which of them is the page's, and what
      each server loop reads if it is a loop of that session. */
  datatype Joint = Joint(run: Run, datagrams: nat, writer: Writer, pool: Pool,
                         server: EchoMachine.State, mine: nat, sources: seq<Option<Source>>)

  datatype Step =
    | SendDatagram
    | OnLongStream(e: Event)
    | OnShortStreams(m: Move)
    | Accept(source: Source)              // the server starts a loop for the page
    | Serve(a: EchoMachine.Action)        // any other step of the server

  function StartJoint(r: Run, now: int, mine: nat): Joint {
    Joint(r, 0, StartWriter(BytesAsked(r)), StartPool(StreamsAsked(r)),
          EchoMachine.Start(EchoMachine.Go, now), mine, [])
  }

  /** The bytes the page has handed over on one source. */
  function HandedOn(g: Joint, source: Source): nat {
    match source
    case Datagrams => g.datagrams * DATAGRAM_BYTES
    case Long => g.writer.handed
    case Short(n) => if n <= g.pool.started then 1 else 0
  }

  function Given(g: Joint): nat {
    g.datagrams * DATAGRAM_BYTES + g.writer.handed + g.pool.started
  }

  /** All a loop has read, whatever became of it. */
  function Read(l: EchoMachine.Loop): nat {
    l.permitted + l.bounced + l.rejected + (if l.at.Charged? then l.at.n else 0)
  }

  predicate CanStep(g: Joint, s: Step) {
    match s
    case SendDatagram => g.datagrams < DatagramsAsked(g.run)
    case OnLongStream(e) => CanHappen(g.writer, e)
    case OnShortStreams(m) => CanMove(g.pool, m)
    // a stream is accepted once, after it was opened, and there is one datagram loop
    case Accept(source) =>
      EchoMachine.Enabled(g.server, EchoMachine.OpenLoop(g.mine, source.Datagrams?))
      && Some(source) !in g.sources && (source.Short? ==> 1 <= source.n <= g.pool.started)
    case Serve(a) =>
      EchoMachine.Enabled(g.server, a)
      && (a.OpenLoop? ==> a.i != g.mine)
      && (a.ChargeSession? && g.server.loops[a.j].session == g.mine ==>
            a.j < |g.sources| && g.sources[a.j].Some?
            && Read(g.server.loops[a.j]) + a.n <= HandedOn(g, g.sources[a.j].value))
  }

  function Stepped(g: Joint, s: Step): Joint
    requires CanStep(g, s)
  {
    match s
    case SendDatagram => g.(datagrams := g.datagrams + 1)
    case OnLongStream(e) => g.(writer := Happens(g.writer, e))
    case OnShortStreams(m) => g.(pool := Moved(g.pool, m))
    case Accept(source) =>
      g.(server := EchoMachine.Next(g.server, EchoMachine.OpenLoop(g.mine, source.Datagrams?)),
         sources := g.sources + [Some(source)])
    case Serve(a) =>
      g.(server := EchoMachine.Next(g.server, a), sources := if a.OpenLoop? then g.sources + [None] else g.sources)
  }

  predicate Steps(g: Joint, steps: seq<Step>)
    decreases |steps|
  {
    steps == [] || (CanStep(g, steps[0]) && Steps(Stepped(g, steps[0]), steps[1..]))
  }

  function JointAfter(g: Joint, steps: seq<Step>): Joint
    requires Steps(g, steps)
    decreases |steps|
  {
    if steps == [] then g else JointAfter(Stepped(g, steps[0]), steps[1..])
  }

  ghost predicate PageHolds(g: Joint) {
    && g.datagrams <= DatagramsAsked(g.run)
    && WindowHolds(g.writer) && g.writer.target == BytesAsked(g.run)
    && Counted(g.pool) && g.pool.count == StreamsAsked(g.run)
  }

  ghost predicate ServerHolds(g: Joint) {
    && g.server.server.Go? && EchoCharges.Charges(g.server) && EchoLifecycle.Truthful(g.server)
  }

  // every loop of the page's session reads a source of its own, and no more than was handed over
  ghost predicate SourcesHold(g: Joint) {
    && |g.sources| == |g.server.loops|
    && (forall j :: 0 <= j < |g.sources| ==> (g.server.loops[j].session == g.mine <==> g.sources[j].Some?))
    && (forall j :: 0 <= j < |g.sources| && g.sources[j].Some? ==>
          Read(g.server.loops[j]) <= HandedOn(g, g.sources[j].value))
    && Separate(g.sources, g.pool.started)
  }

  ghost predicate Separate(sources: seq<Option<Source>>, started: nat) {
    && (forall j, k :: 0 <= j < k < |sources| && sources[j].Some? ==> sources[j] != sources[k])
    && (forall n: nat :: Some(Short(n)) in sources ==> 1 <= n <= started)
  }

  ghost predicate Holds(g: Joint) {
    PageHolds(g) && ServerHolds(g) && SourcesHold(g)
  }

  // --- every step keeps it ---

  lemma ServerReads(st: EchoMachine.State, a: EchoMachine.Action)
    requires EchoMachine.Enabled(st, a)
    ensures var next := EchoMachine.Next(st, a);
      && |next.loops| == |st.loops| + (if a.OpenLoop? then 1 else 0)
      && forall j :: 0 <= j < |st.loops| ==>
           && next.loops[j].session == st.loops[j].session
           && Read(next.loops[j]) == Read(st.loops[j]) + (if a.ChargeSession? && a.j == j then a.n else 0)
  {
  }

  lemma PageStepHolds(g: Joint, s: Step)
    requires s.SendDatagram? || s.OnLongStream? || s.OnShortStreams?
    requires CanStep(g, s) && PageHolds(g)
    ensures PageHolds(Stepped(g, s))
    ensures g.pool.started <= Stepped(g, s).pool.started
    ensures forall source :: HandedOn(g, source) <= HandedOn(Stepped(g, s), source)
  {
    match s
    case SendDatagram =>
    case OnLongStream(e) => HappensKeepsWindow(g.writer, e);
    case OnShortStreams(m) => MovedKeepsCounts(g.pool, m);
  }

  // the sources stay good while more is handed over
  lemma MoreHandedHolds(g: Joint, next: Joint)
    requires SourcesHold(g)
    requires next.server == g.server && next.mine == g.mine && next.sources == g.sources
    requires g.pool.started <= next.pool.started
    requires forall source :: HandedOn(g, source) <= HandedOn(next, source)
    ensures SourcesHold(next)
  {
    forall j | 0 <= j < |g.sources| && g.sources[j].Some?
      ensures Read(next.server.loops[j]) <= HandedOn(next, next.sources[j].value)
    {
      assert HandedOn(g, g.sources[j].value) <= HandedOn(next, g.sources[j].value);
    }
  }

  lemma ServerStepHolds(g: Joint, a: EchoMachine.Action)
    requires EchoMachine.Enabled(g.server, a) && ServerHolds(g)
    ensures ServerHolds(g.(server := EchoMachine.Next(g.server, a)))
  {
    EchoCharges.NextKeepsCharges(g.server, a);
    EchoLifecycle.NextKeepsTruth(g.server, a);
  }

  lemma AcceptHolds(g: Joint, source: Source)
    requires CanStep(g, Accept(source)) && SourcesHold(g)
    ensures SourcesHold(Stepped(g, Accept(source)))
  {
    var next := Stepped(g, Accept(source));
    ServerReads(g.server, EchoMachine.OpenLoop(g.mine, source.Datagrams?));
    forall n: nat | Some(Short(n)) in next.sources ensures 1 <= n <= next.pool.started {
      assert Some(Short(n)) in g.sources || source == Short(n);
    }
  }

  lemma ServeHolds(g: Joint, a: EchoMachine.Action)
    requires CanStep(g, Serve(a)) && SourcesHold(g)
    ensures SourcesHold(Stepped(g, Serve(a)))
  {
    var next := Stepped(g, Serve(a));
    ServerReads(g.server, a);
    forall n: nat | Some(Short(n)) in next.sources ensures 1 <= n <= next.pool.started {
      assert Some(Short(n)) in g.sources;
    }
  }

  lemma SteppedHolds(g: Joint, s: Step)
    requires CanStep(g, s) && Holds(g)
    ensures Holds(Stepped(g, s))
  {
    match s
    case Accept(source) =>
      AcceptHolds(g, source);
      ServerStepHolds(g, EchoMachine.OpenLoop(g.mine, source.Datagrams?));
    case Serve(a) =>
      ServeHolds(g, a);
      ServerStepHolds(g, a);
    case _ =>
      PageStepHolds(g, s);
      MoreHandedHolds(g, Stepped(g, s));
  }

  lemma {:induction false} StepsHold(g: Joint, steps: seq<Step>)
    requires Steps(g, steps) && Holds(g)
    ensures Holds(JointAfter(g, steps)) && JointAfter(g, steps).mine == g.mine && JointAfter(g, steps).run == g.run
    decreases |steps|
  {
    if steps != [] {
      SteppedHolds(g, steps[0]);
      StepsHold(Stepped(g, steps[0]), steps[1..]);
    }
  }

  lemma RunHolds(r: Run, now: int, mine: nat, steps: seq<Step>)
    requires Steps(StartJoint(r, now, mine), steps)
    ensures Holds(JointAfter(StartJoint(r, now, mine), steps))
    ensures JointAfter(StartJoint(r, now, mine), steps).mine == mine
  {
    StartPoolHolds(StreamsAsked(r));
    StepsHold(StartJoint(r, now, mine), steps);
  }

  // --- what different sources can have been handed in all ---

  function Handed(g: Joint): Option<Source> -> nat {
    (s: Option<Source>) => if s.Some? then HandedOn(g, s.value) else 0
  }

  function Shorts(sources: seq<Option<Source>>): set<nat> {
    if sources == [] then {}
    else
      var last := sources[|sources| - 1];
      Shorts(sources[..|sources| - 1]) + (if last.Some? && last.value.Short? then {last.value.n} else {})
  }

  lemma {:induction false} ShortsAreListed(sources: seq<Option<Source>>, n: nat)
    requires n in Shorts(sources)
    ensures Some(Short(n)) in sources
  {
    if n in Shorts(sources[..|sources| - 1]) {
      ShortsAreListed(sources[..|sources| - 1], n);
    }
  }

  lemma {:induction false} NumbersUpTo(numbers: set<nat>, k: nat)
    requires forall n :: n in numbers ==> 1 <= n <= k
    ensures |numbers| <= k
  {
    if k == 0 {
      assert numbers == {};
    } else {
      NumbersUpTo(numbers - {k}, k - 1);
    }
  }

  // each source counts once: the datagrams, the long stream, and as many as there are short ones
  lemma {:induction false} EachSourceOnce(g: Joint, sources: seq<Option<Source>>)
    requires Separate(sources, g.pool.started)
    ensures Sum(sources, Handed(g))
      == (if Some(Datagrams) in sources then HandedOn(g, Datagrams) else 0)
       + (if Some(Long) in sources then HandedOn(g, Long) else 0) + |Shorts(sources)|
  {
    if sources != [] {
      var rest, last := sources[..|sources| - 1], sources[|sources| - 1];
      assert sources == rest + [last];
      EachSourceOnce(g, rest);
      if last.Some? {
        assert last !in rest;
        if last.value.Short? && last.value.n in Shorts(rest) {
          ShortsAreListed(rest, last.value.n);
        }
      }
    }
  }

  lemma HandedIsGiven(g: Joint)
    requires Separate(g.sources, g.pool.started)
    ensures Sum(g.sources, Handed(g)) <= Given(g)
  {
    EachSourceOnce(g, g.sources);
    forall n | n in Shorts(g.sources) ensures 1 <= n <= g.pool.started {
      ShortsAreListed(g.sources, n);
    }
    NumbersUpTo(Shorts(g.sources), g.pool.started);
  }

  // loop by loop, what was read is what was passed and rejected, and at most what was handed over
  lemma {:induction false} ReadIsHanded(g: Joint, loops: seq<EchoMachine.Loop>, sources: seq<Option<Source>>)
    requires |loops| == |sources|
    requires forall j :: 0 <= j < |sources| ==> (loops[j].session == g.mine <==> sources[j].Some?)
    requires forall j :: 0 <= j < |sources| && sources[j].Some? ==> Read(loops[j]) <= HandedOn(g, sources[j].value)
    ensures Sum(loops, EchoMachine.PassedOf(g.mine)) + Sum(loops, EchoMachine.RejectedOf(g.mine))
      <= Sum(sources, Handed(g))
  {
    if loops != [] {
      ReadIsHanded(g, loops[..|loops| - 1], sources[..|sources| - 1]);
    }
  }

  lemma GivenIsWithinTheBudget(g: Joint)
    requires PageHolds(g)
    ensures Given(g) <= EchoMachine.PROBE_ECHO_BUDGET
  {
    assert RoundedUp(NORMAL_BYTES) == NORMAL_BYTES && RoundedUp(BYTES_TARGET) == BYTES_TARGET && RoundedUp(0) == 0;
  }

  lemma ChargedForWhatWasGiven(g: Joint)
    requires EchoCharges.Charges(g.server) && SourcesHold(g) && g.mine < |g.server.sessions|
    ensures g.server.sessions[g.mine].counter <= Given(g)
  {
    ReadIsHanded(g, g.server.loops, g.sources);
    HandedIsGiven(g);
    assert EchoCharges.Balanced(g.server, g.mine);
  }

  // a session within its budget has had nothing refused by it
  lemma NothingOverBudget(st: EchoMachine.State, i: nat)
    requires EchoLifecycle.Truthful(st) && i < |st.sessions|
    requires st.sessions[i].counter <= EchoMachine.BudgetOf(st.sessions[i].probe)
    ensures st.sessions[i].firstReport != Some(EchoMachine.EchoBudget)
    ensures EchoMachine.EchoBudget !in st.sessions[i].closes
    ensures forall j :: 0 <= j < |st.loops| && st.loops[j].session == i ==>
      st.loops[j].rejected == 0 && st.loops[j].at != EchoMachine.Stopping(EchoMachine.EchoBudget)
  {
    assert EchoLifecycle.SessionTruthful(st.sessions[i], st.server, st.now, st.peak);
    forall j | 0 <= j < |st.loops| && st.loops[j].session == i
      ensures st.loops[j].rejected == 0 && st.loops[j].at != EchoMachine.Stopping(EchoMachine.EchoBudget)
    {
      assert EchoLifecycle.LoopTruthful(st.loops[j], st.sessions, st.peak);
    }
  }

  /** No run can trip the probe budget. At any point of any run, in any interleaving of
      the page, its session's loops and every other session, and however the server
      chunks what it reads: the page's session has been charged no more than the page
      has given, none of its bytes has been rejected, and no loop reports, nor does the
      server close it for, its budget. */
  lemma RunsStayWithinTheBudget(r: Run, now: int, mine: nat, steps: seq<Step>)
    requires Steps(StartJoint(r, now, mine), steps)
    requires mine < |JointAfter(StartJoint(r, now, mine), steps).server.sessions|
    requires JointAfter(StartJoint(r, now, mine), steps).server.sessions[mine].probe
    ensures var g := JointAfter(StartJoint(r, now, mine), steps);
      var s := g.server.sessions[mine];
      && s.counter <= Given(g) <= EchoMachine.PROBE_ECHO_BUDGET
      && s.firstReport != Some(EchoMachine.EchoBudget)
      && EchoMachine.EchoBudget !in s.closes
      && forall j :: 0 <= j < |g.server.loops| && g.server.loops[j].session == mine ==>
           g.server.loops[j].rejected == 0 && g.server.loops[j].at != EchoMachine.Stopping(EchoMachine.EchoBudget)
  {
    RunHolds(r, now, mine, steps);
    var g := JointAfter(StartJoint(r, now, mine), steps);
    ChargedForWhatWasGiven(g);
    GivenIsWithinTheBudget(g);
    NothingOverBudget(g.server, mine);
  }

  /** What comes back is what went out. Each loop of the page's session is permitted no
      more than the page handed over on that loop's own source; so a byte echoed on the
      long stream is one the page wrote, which is the writer's own rule for receiving. */
  lemma EchoWasHandedOver(r: Run, now: int, mine: nat, steps: seq<Step>, j: nat)
    requires Steps(StartJoint(r, now, mine), steps)
    requires j < |JointAfter(StartJoint(r, now, mine), steps).server.loops|
    requires JointAfter(StartJoint(r, now, mine), steps).server.loops[j].session == mine
    ensures var g := JointAfter(StartJoint(r, now, mine), steps);
      && j < |g.sources| && g.sources[j].Some?
      && (forall k :: 0 <= k < |g.sources| && k != j ==> g.sources[k] != g.sources[j])
      && g.server.loops[j].permitted <= HandedOn(g, g.sources[j].value)
      && (g.sources[j] == Some(Long) ==>
            forall k: nat :: g.writer.received + k <= g.server.loops[j].permitted ==> CanHappen(g.writer, Receive(k)))
  {
    RunHolds(r, now, mine, steps);
  }
}
