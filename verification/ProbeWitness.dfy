/** Each run of the probe page carried through to its end: admitted as a probe, and all
    it was made to send permitted and echoed. The bound on what a run is charged is met
    by the runs themselves. */
module ProbeWitness {
  import opened Wrappers
  import opened Sums
  import opened Probe
  import opened ProbeRun
  import EchoMachine
  import Ledger

  // holds of every state: a run is unfolded only in a proof that says this
  predicate Unfolded(g: Joint) {
    true
  }

  /** These steps can be taken, and lead there. */
  ghost predicate Leads(g: Joint, steps: seq<Step>, end: Joint) {
    forall x {:trigger Unfolded(x)} :: Unfolded(x) && x == g ==> Steps(g, steps) && JointAfter(g, steps) == end
  }

  lemma FirstStep(g: Joint, steps: seq<Step>, end: Joint) returns (next: Joint)
    requires Leads(g, steps, end) && steps != []
    ensures CanStep(g, steps[0]) && next == Stepped(g, steps[0]) && Leads(next, steps[1..], end)
  {
    assert Unfolded(g);
    next := Stepped(g, steps[0]);
  }

  lemma StepFirst(g: Joint, s: Step, next: Joint, steps: seq<Step>, end: Joint)
    requires CanStep(g, s) && next == Stepped(g, s) && Leads(next, steps, end)
    ensures Leads(g, [s] + steps, end)
  {
    assert Unfolded(next);
    assert ([s] + steps)[1..] == steps;
  }

  lemma NoStep(g: Joint, end: Joint)
    ensures Leads(g, [], end) <==> end == g
  {
    assert Unfolded(g);
  }

  lemma {:induction false} InTurn(g: Joint, steps: seq<Step>, mid: Joint, more: seq<Step>, end: Joint)
    returns (all: seq<Step>)
    requires Leads(g, steps, mid) && Leads(mid, more, end)
    ensures Leads(g, all, end)
    decreases |steps|
  {
    if steps == [] {
      NoStep(g, mid);
      all := more;
    } else {
      var next := FirstStep(g, steps, mid);
      all := InTurn(next, steps[1..], mid, more, end);
      StepFirst(g, steps[0], next, all, end);
      all := [steps[0]] + all;
    }
  }

  lemma Then(g: Joint, s: Step, mid: Joint, more: seq<Step>, end: Joint) returns (steps: seq<Step>)
    requires CanStep(g, s) && mid == Stepped(g, s) && Leads(mid, more, end)
    ensures Leads(g, steps, end)
  {
    StepFirst(g, s, mid, more, end);
    steps := [s] + more;
  }

  lemma TwoSteps(g: Joint, mid: Joint, end: Joint, a: Step, b: Step) returns (steps: seq<Step>)
    requires CanStep(g, a) && mid == Stepped(g, a) && CanStep(mid, b) && end == Stepped(mid, b)
    ensures Leads(g, steps, end)
  {
    NoStep(end, end);
    steps := Then(mid, b, end, [], end);
    steps := Then(g, a, mid, steps, end);
  }

  /** The page's session is the only one, live, and everything it was charged, m bytes,
      was permitted. */
  predicate Steady(g: Joint, m: nat) {
    && g.mine == 0 && g.server.server.Go? && |g.server.sessions| == 1 && |g.sources| == |g.server.loops|
    && g.server.sessions[0].phase == EchoMachine.Live && g.server.sessions[0].probe
    && g.server.sessions[0].counter == m && g.server.sessions[0].closes == []
    && g.server.ledger.echoed == m && g.server.now - g.server.ledger.windowAt < Ledger.DAY
    && Sum(g.server.loops, EchoMachine.PermittedOf(0)) == m
  }

  predicate SamePage(g: Joint, end: Joint) {
    && end.run == g.run && end.datagrams == g.datagrams && end.writer == g.writer && end.pool == g.pool
    && end.mine == g.mine && end.sources == g.sources
  }

  // loop j waits to read its source, which holds n bytes more
  predicate HasMore(g: Joint, j: nat, n: nat) {
    && j < |g.server.loops| && j < |g.sources| && g.sources[j].Some?
    && g.server.loops[j].session == 0 && g.server.loops[j].at.Reading?
    && Read(g.server.loops[j]) + n <= HandedOn(g, g.sources[j].value)
  }

  predicate Echoed(g: Joint, end: Joint, j: nat, n: nat) {
    && SamePage(g, end) && j < |g.server.loops|
    && end.server.loops == g.server.loops[j := g.server.loops[j].(permitted := g.server.loops[j].permitted + n)]
  }

  // the session's check passes the n bytes just read
  lemma SessionPasses(g: Joint, j: nat, n: nat, m: nat) returns (mid: Joint)
    requires Steady(g, m) && HasMore(g, j, n) && n <= EchoMachine.STREAM_BUFFER && m + n <= 0x400_0000
    ensures CanStep(g, Serve(EchoMachine.ChargeSession(j, n)))
    ensures mid == Stepped(g, Serve(EchoMachine.ChargeSession(j, n)))
    ensures SamePage(g, mid)
    ensures mid.server.loops == g.server.loops[j := g.server.loops[j].(at := EchoMachine.Charged(n))]
    ensures var s := g.server.sessions[0];
      mid.server.sessions == [s.(counter := m + n, accepted := s.accepted + n)]
    ensures mid.server.server == g.server.server && mid.server.now == g.server.now
    ensures mid.server.ledger == g.server.ledger
  {
    mid := Stepped(g, Serve(EchoMachine.ChargeSession(j, n)));
  }

  // and the shared budget lets them go
  lemma ProcessPasses(g: Joint, mid: Joint, j: nat, n: nat, m: nat) returns (end: Joint)
    requires Steady(g, m) && m + n <= 0x400_0000 && j < |g.server.loops| && SamePage(g, mid)
    requires g.server.loops[j].at.Reading?
    requires mid.server.loops == g.server.loops[j := g.server.loops[j].(at := EchoMachine.Charged(n))]
    requires mid.server.server.Go? && mid.server.now == g.server.now && mid.server.ledger == g.server.ledger
    ensures CanStep(mid, Serve(EchoMachine.ChargeProcess(j)))
    ensures end == Stepped(mid, Serve(EchoMachine.ChargeProcess(j))) && Echoed(g, end, j, n)
    ensures end.server.sessions == mid.server.sessions && end.server.now == mid.server.now
    ensures end.server.server.Go? && end.server.ledger == g.server.ledger.(echoed := m + n)
  {
    end := Stepped(mid, Serve(EchoMachine.ChargeProcess(j)));
    assert end.server.loops == g.server.loops[j := end.server.loops[j]];
  }

  lemma SteadyAgain(g: Joint, end: Joint, j: nat, n: nat, m: nat)
    requires Steady(g, m) && Echoed(g, end, j, n) && g.server.loops[j].session == 0
    requires end.server.sessions
      == [g.server.sessions[0].(counter := m + n, accepted := g.server.sessions[0].accepted + n)]
    requires end.server.now == g.server.now && end.server.server.Go?
    requires end.server.ledger == g.server.ledger.(echoed := m + n)
    ensures Steady(end, m + n)
  {
    var l := g.server.loops[j];
    SumUpdate(g.server.loops, j, l.(permitted := l.permitted + n), EchoMachine.PermittedOf(0));
  }

  lemma ReadOne(g: Joint, j: nat, n: nat, m: nat) returns (steps: seq<Step>, end: Joint)
    requires Steady(g, m) && HasMore(g, j, n) && n <= EchoMachine.STREAM_BUFFER && m + n <= 0x400_0000
    ensures Leads(g, steps, end) && Steady(end, m + n) && Echoed(g, end, j, n)
  {
    var mid := SessionPasses(g, j, n, m);
    end := ProcessPasses(g, mid, j, n, m);
    steps := TwoSteps(g, mid, end, Serve(EchoMachine.ChargeSession(j, n)), Serve(EchoMachine.ChargeProcess(j)));
    SteadyAgain(g, end, j, n, m);
  }

  lemma EchoedInTurn(g: Joint, mid: Joint, end: Joint, j: nat, m: nat, n: nat)
    requires Echoed(g, mid, j, m) && Echoed(mid, end, j, n)
    ensures Echoed(g, end, j, m + n)
  {
  }

  lemma MoreLeft(g: Joint, mid: Joint, j: nat, m: nat, n: nat)
    requires HasMore(g, j, m + n) && Echoed(g, mid, j, m)
    ensures HasMore(mid, j, n)
  {
  }

  lemma EchoedNothing(g: Joint, j: nat)
    requires j < |g.server.loops|
    ensures Echoed(g, g, j, 0)
  {
    assert g.server.loops[j := g.server.loops[j]] == g.server.loops;
  }

  /** What a source holds, read in chunks of at most n bytes. */
  lemma {:induction false} ReadAll(g: Joint, j: nat, n: nat, total: nat, m: nat)
    returns (steps: seq<Step>, end: Joint)
    requires Steady(g, m) && HasMore(g, j, total) && 0 < n <= EchoMachine.STREAM_BUFFER && m + total <= 0x400_0000
    ensures Leads(g, steps, end) && Steady(end, m + total) && Echoed(g, end, j, total)
    decreases total
  {
    if total == 0 {
      steps, end := [], g;
      NoStep(g, g);
      EchoedNothing(g, j);
    } else {
      var chunk := if total < n then total else n;
      var first, mid := ReadOne(g, j, chunk, m);
      MoreLeft(g, mid, j, chunk, total - chunk);
      steps, end := ReadAll(mid, j, n, total - chunk, m + chunk);
      EchoedInTurn(g, mid, end, j, chunk, total - chunk);
      steps := InTurn(g, first, mid, steps, end);
    }
  }

  // --- the parts of a run ---

  lemma ComeAsAProbe(r: Run, now: int, address: Ledger.Address) returns (steps: seq<Step>, end: Joint)
    ensures Leads(StartJoint(r, now, 0), steps, end)
    ensures Steady(end, 0) && end.server.loops == [] && SamePage(StartJoint(r, now, 0), end)
  {
    var g := StartJoint(r, now, 0);
    var a, b := Serve(EchoMachine.Admit(address, true)), Serve(EchoMachine.UpgradeSucceeds(0));
    end := Stepped(Stepped(g, a), b);
    steps := TwoSteps(g, Stepped(g, a), end, a, b);
  }

  lemma AcceptOne(g: Joint, source: Source, m: nat)
    requires Steady(g, m) && CanStep(g, Accept(source))
    ensures var end := Stepped(g, Accept(source));
      && Steady(end, m)
      && end.server.loops == g.server.loops + [EchoMachine.Loop(0, source.Datagrams?, EchoMachine.Reading, 0, 0, 0, 0)]
  {
    SumAppend(g.server.loops, EchoMachine.Loop(0, source.Datagrams?, EchoMachine.Reading, 0, 0, 0, 0),
              EchoMachine.PermittedOf(0));
  }

  lemma {:induction false} SendDatagrams(g: Joint, k: nat) returns (steps: seq<Step>)
    requires g.datagrams + k <= DatagramsAsked(g.run)
    ensures Leads(g, steps, g.(datagrams := g.datagrams + k))
    decreases k
  {
    if k == 0 {
      steps := [];
      NoStep(g, g);
    } else {
      steps := SendDatagrams(Stepped(g, SendDatagram), k - 1);
      steps := Then(g, SendDatagram, Stepped(g, SendDatagram), steps, g.(datagrams := g.datagrams + k));
    }
  }

  // every datagram is sent, then read
  lemma DatagramPart(g: Joint) returns (steps: seq<Step>, end: Joint)
    requires Steady(g, 0) && g.server.loops == [] && g.datagrams == 0
    ensures Leads(g, steps, end) && Steady(end, DatagramsAsked(g.run) * DATAGRAM_BYTES)
    ensures end.run == g.run && end.writer == g.writer && end.pool == g.pool
    ensures end.datagrams == DatagramsAsked(g.run) && end.sources == [Some(Datagrams)]
  {
    var sending := SendDatagrams(g, DatagramsAsked(g.run));
    var a := g.(datagrams := DatagramsAsked(g.run));
    AcceptOne(a, Datagrams, 0);
    var b := Stepped(a, Accept(Datagrams));
    steps, end := ReadAll(b, 0, DATAGRAM_BYTES, DatagramsAsked(g.run) * DATAGRAM_BYTES, 0);
    steps := Then(a, Accept(Datagrams), b, steps, end);
    steps := InTurn(g, sending, a, steps, end);
  }

  // the writer has caught up, and loop 1 has read all it wrote
  predicate LongStreamAt(g: Joint, sent: nat) {
    && g.sources == [Some(Datagrams), Some(Long)] && |g.server.loops| == 2
    && g.server.loops[1] == EchoMachine.Loop(0, false, EchoMachine.Reading, sent, 0, 0, 0)
    && g.writer == Writer(g.writer.target, sent, sent, sent, false, Head)
  }

  lemma OneMib(g: Joint, sent: nat, m: nat) returns (steps: seq<Step>, end: Joint)
    requires Steady(g, m) && LongStreamAt(g, sent) && sent + MIB <= g.writer.target && m + MIB <= 0x400_0000
    ensures Leads(g, steps, end) && Steady(end, m + MIB) && LongStreamAt(end, sent + MIB)
    ensures end == g.(server := end.server, writer := end.writer) && end.writer.target == g.writer.target
  {
    var a := Stepped(g, OnLongStream(BeginWrite));
    var reading, b := ReadAll(a, 1, EchoMachine.STREAM_BUFFER, MIB, m);
    var c := Stepped(b, OnLongStream(WriteDone));
    var d := Stepped(c, OnLongStream(Receive(MIB)));
    end := Stepped(d, OnLongStream(CaughtUp));
    steps := TwoSteps(c, d, end, OnLongStream(Receive(MIB)), OnLongStream(CaughtUp));
    steps := Then(b, OnLongStream(WriteDone), c, steps, end);
    steps := InTurn(a, reading, b, steps, end);
    steps := Then(g, OnLongStream(BeginWrite), a, steps, end);
  }

  lemma {:induction false} ManyMib(g: Joint, k: nat, sent: nat, m: nat) returns (steps: seq<Step>, end: Joint)
    requires Steady(g, m) && LongStreamAt(g, sent) && sent + k * MIB <= g.writer.target && m + k * MIB <= 0x400_0000
    ensures Leads(g, steps, end) && Steady(end, m + k * MIB) && LongStreamAt(end, sent + k * MIB)
    ensures end == g.(server := end.server, writer := end.writer) && end.writer.target == g.writer.target
    decreases k
  {
    if k == 0 {
      steps, end := [], g;
      NoStep(g, g);
    } else {
      var first, mid := OneMib(g, sent, m);
      steps, end := ManyMib(mid, k - 1, sent + MIB, m + MIB);
      steps := InTurn(g, first, mid, steps, end);
    }
  }

  // streams 1 to n have been opened, echoed and closed, by the first worker
  ghost predicate ShortStreamsAt(g: Joint, n: nat) {
    && g.pool.started == g.pool.closed == n && !g.pool.stopped
    && |g.pool.workers| > 0 && g.pool.workers[0] == Looping
    && (forall k: nat :: Some(Short(k)) in g.sources ==> k <= n)
  }

  lemma StreamIsAccepted(g: Joint, n: nat, m: nat) returns (steps: seq<Step>, end: Joint)
    requires Steady(g, m) && ShortStreamsAt(g, n) && n < g.pool.count
    ensures Leads(g, steps, end)
    ensures Steady(end, m) && HasMore(end, |g.sources|, 1) && end.sources == g.sources + [Some(Short(n + 1))]
    ensures end.pool == g.pool.(started := n + 1, workers := g.pool.workers[0 := Opening(n + 1)])
    ensures end == g.(server := end.server, pool := end.pool, sources := end.sources)
  {
    var a := Stepped(g, OnShortStreams(Check(0)));
    AcceptOne(a, Short(n + 1), m);
    end := Stepped(a, Accept(Short(n + 1)));
    steps := TwoSteps(g, a, end, OnShortStreams(Check(0)), Accept(Short(n + 1)));
  }

  lemma StreamOpens(g: Joint, n: nat, m: nat) returns (steps: seq<Step>, end: Joint)
    requires Steady(g, m) && ShortStreamsAt(g, n) && n < g.pool.count && m + 1 <= 0x400_0000
    ensures Leads(g, steps, end) && Steady(end, m + 1) && end.sources == g.sources + [Some(Short(n + 1))]
    ensures end.pool == g.pool.(started := n + 1, workers := g.pool.workers[0 := Opening(n + 1)])
    ensures end == g.(server := end.server, pool := end.pool, sources := end.sources)
  {
    var first, mid := StreamIsAccepted(g, n, m);
    steps, end := ReadOne(mid, |g.sources|, 1, m);
    steps := InTurn(g, first, mid, steps, end);
  }

  lemma StreamCloses(g: Joint, n: nat) returns (steps: seq<Step>, end: Joint)
    requires |g.pool.workers| > 0 && g.pool.workers[0] == Opening(n)
    ensures Leads(g, steps, end) && end == g.(pool := end.pool)
    ensures end.pool == g.pool.(closed := g.pool.closed + 1, finished := g.pool.finished + [n],
                                workers := g.pool.workers[0 := Looping])
  {
    var go, finish := OnShortStreams(Resume(0)), OnShortStreams(Finish(0, false));
    var a := Stepped(g, go);
    var b := Stepped(a, go);
    var c := Stepped(b, go);
    var d := Stepped(c, go);
    end := Stepped(d, finish);
    steps := TwoSteps(c, d, end, go, finish);
    steps := Then(b, go, c, steps, end);
    steps := Then(a, go, b, steps, end);
    steps := Then(g, go, a, steps, end);
    assert end.pool.workers == g.pool.workers[0 := Looping];
  }

  lemma {:induction false} ManyStreams(g: Joint, k: nat, n: nat, m: nat) returns (steps: seq<Step>, end: Joint)
    requires Steady(g, m) && ShortStreamsAt(g, n) && n + k <= g.pool.count && m + k <= 0x400_0000
    ensures Leads(g, steps, end)
    ensures Steady(end, m + k) && ShortStreamsAt(end, n + k) && |end.sources| == |g.sources| + k
    ensures end == g.(server := end.server, pool := end.pool, sources := end.sources)
    decreases k
  {
    if k == 0 {
      steps, end := [], g;
      NoStep(g, g);
    } else {
      var opening, a := StreamOpens(g, n, m);
      var closing, b := StreamCloses(a, n + 1);
      forall s: nat | Some(Short(s)) in b.sources ensures s <= n + 1 {
        assert Some(Short(s)) in g.sources || s == n + 1;
      }
      steps, end := ManyStreams(b, k - 1, n + 1, m + 1);
      steps := InTurn(a, closing, b, steps, end);
      steps := InTurn(g, opening, a, steps, end);
    }
  }

  lemma LongPart(g: Joint, k: nat, m: nat) returns (steps: seq<Step>, end: Joint)
    requires Steady(g, m) && g.sources == [Some(Datagrams)] && m + k * MIB <= 0x400_0000
    requires g.writer == StartWriter(k * MIB)
    ensures Leads(g, steps, end) && Steady(end, m + k * MIB) && LongStreamAt(end, k * MIB)
    ensures end == g.(server := end.server, writer := end.writer, sources := end.sources)
  {
    AcceptOne(g, Long, m);
    var a := Stepped(g, Accept(Long));
    steps, end := ManyMib(a, k, 0, m);
    steps := Then(g, Accept(Long), a, steps, end);
  }

  // the datagrams, k MiB on the long stream, and the short streams, one after the other
  lemma AllParts(g: Joint, k: nat, total: nat) returns (steps: seq<Step>, end: Joint)
    requires Steady(g, 0) && g.server.loops == [] && g.datagrams == 0
    requires g.writer == StartWriter(k * MIB) && g.pool == StartPool(StreamsAsked(g.run))
    requires total == DatagramsAsked(g.run) * DATAGRAM_BYTES + k * MIB + StreamsAsked(g.run) <= 0x400_0000
    ensures Leads(g, steps, end)
    ensures Steady(end, total) && Given(end) == total && |end.sources| == 2 + StreamsAsked(g.run)
    ensures end.writer.received == end.writer.sent == k * MIB && end.pool.closed == StreamsAsked(g.run)
  {
    var m := DatagramsAsked(g.run) * DATAGRAM_BYTES;
    var datagrams, a := DatagramPart(g);
    var long, b := LongPart(a, k, m);
    steps, end := ManyStreams(b, StreamsAsked(g.run), 0, m + k * MIB);
    steps := InTurn(a, long, b, steps, end);
    steps := InTurn(g, datagrams, a, steps, end);
  }

  /** Every run can end as it is meant to, on a fresh server and from any address: the
      session is a probe's and still live, one loop a source has been opened for it, all
      the page was to send has been sent, charged, permitted and, on the long stream,
      received back, and every short stream closed. */
  lemma TargetIsEchoed(r: Run, now: int, address: Ledger.Address) returns (steps: seq<Step>)
    ensures Steps(StartJoint(r, now, 0), steps)
    ensures var g := JointAfter(StartJoint(r, now, 0), steps);
      var total := (match r
                    case NormalUse => 6_400 + 4_194_304 + 200
                    case BytesRun => 25_165_824
                    case StreamsRun => 8_000);
      && |g.server.sessions| == 1 && g.server.sessions[0].probe
      && g.server.sessions[0].phase == EchoMachine.Live && g.server.sessions[0].closes == []
      && g.server.sessions[0].counter == Sum(g.server.loops, EchoMachine.PermittedOf(0)) == Given(g) == total
      && |g.server.loops| == 2 + StreamsAsked(r)
      && g.writer.received == g.writer.sent == BytesAsked(r) && g.pool.closed == StreamsAsked(r)
  {
    var coming, a := ComeAsAProbe(r, now, address);
    var k, total := BytesAsked(r) / MIB, DatagramsAsked(r) * DATAGRAM_BYTES + BytesAsked(r) + StreamsAsked(r);
    var parts, end := AllParts(a, k, total);
    steps := InTurn(StartJoint(r, now, 0), coming, a, parts, end);
    assert Unfolded(StartJoint(r, now, 0));
  }
}
