/** Runs of the machine that reach the corner cases of a session's end: a reason that
    waits while the session is live, and a datagram's refusal that overtakes one. */
module EchoWitness {
  import opened Wrappers
  import opened Ledger
  import opened EchoMachine
  import opened EchoRuns
  import EchoMeter

  // a stream that has used its session's whole budget is refused one byte more and reports it
  lemma OneByteTooMany(st: State, j: nat) returns (run: seq<Action>)
    requires j < |st.loops| && st.loops[j].at.Reading? && !st.loops[j].datagram && st.loops[j].session < |st.sessions|
    requires st.sessions[st.loops[j].session].counter == BudgetOf(st.sessions[st.loops[j].session].probe)
    requires st.sessions[st.loops[j].session].stopped.None? && st.sessions[st.loops[j].session].firstReport.None?
    ensures Runs(st, run)
    ensures var end := Final(st, run);
      var i := st.loops[j].session;
      && end.server == st.server && end.now == st.now && end.ledger == st.ledger
      && |end.loops| == |st.loops| && |end.sessions| == |st.sessions|
      && (forall d :: 0 <= d < |st.loops| && d != j ==> end.loops[d] == st.loops[d])
      && end.sessions[i].phase == st.sessions[i].phase
      && end.sessions[i].stopped == end.sessions[i].firstReport == Some(EchoBudget)
      && end.sessions[i].closes == st.sessions[i].closes
  {
    EchoMeter.RunOfTwo(st, ChargeSession(j, 1), Report(j));
    run := [ChargeSession(j, 1), Report(j)];
  }

  /** A live session with a reason waiting: its one stream is echoed its whole budget
      and then asks for a byte more. If the peer leaves now, the reason is never given. */
  lemma ReasonCanWait(server: Server, now: int, address: Address) returns (run: seq<Action>, i: nat)
    ensures Runs(Start(server, now), run)
    ensures var st := Final(Start(server, now), run);
      && i < |st.sessions| && st.sessions[i].phase == Live && st.sessions[i].stopped == Some(EchoBudget)
      && Enabled(st, PeerLeaves(i))
      && Next(st, PeerLeaves(i)).sessions[i].firstReport == Some(EchoBudget)
      && Next(st, PeerLeaves(i)).sessions[i].closes == []
  {
    var st := Start(server, now);
    var opening := OpenOne(st, address);
    var a := Final(st, opening);
    assert 31 * STREAM_BUFFER + STREAM_BUFFER == SESSION_ECHO_BUDGET;
    var charging := ManyCharges(a, 0, 31, STREAM_BUFFER, now, now + 1);
    var b := Final(a, charging);
    var refused := OneByteTooMany(b, 0);
    RunsAppend(a, charging, refused);
    RunsAppend(st, opening, charging + refused);
    run, i := opening + (charging + refused), 0;
  }

  // what one QUIC packet carries without fragmentation
  const DATAGRAM := 1024

  // one datagram short of the ceiling, and of the session's budget, with that datagram read
  predicate Poised(st: State, s: nat, d: nat) {
    && s < |st.loops| && d < |st.loops| && s != d && st.loops[s].session == st.loops[d].session < |st.sessions|
    && st.server.Rust? && st.ledger.windowAt == st.now && st.ledger.echoed + DATAGRAM == CEILING
    && st.loops[s].at.Reading? && !st.loops[s].datagram
    && st.loops[d].at == At.Charged(DATAGRAM) && st.loops[d].datagram
    && var session := st.sessions[st.loops[s].session];
       session.counter == BudgetOf(session.probe)
       && session.phase == Live && session.stopped.None? && session.firstReport.None? && session.closes == []
  }

  lemma PoisedRun(now: int, address: Address) returns (run: seq<Action>, s: nat, d: nat)
    ensures Runs(Start(Rust, now), run) && Poised(Final(Start(Rust, now), run), s, d)
  {
    assert 2047 * SESSION_ECHO_BUDGET + 31 * STREAM_BUFFER + (STREAM_BUFFER - DATAGRAM) + DATAGRAM == CEILING;
    var start := Start(Rust, now);
    var filling := SessionsEcho(start, address, 2047, now, now + 1);
    var st := Final(start, filling);
    var i := |st.sessions|;
    s, d := |st.loops|, |st.loops| + 1;
    var opening := OpenOne(st, address);
    var a := Final(st, opening);
    EchoMeter.RunOfOne(a, OpenLoop(i, true));
    var b := Next(a, OpenLoop(i, true));
    var charging := ManyCharges(b, s, 31, STREAM_BUFFER - DATAGRAM, now, now + 1);
    var c := Final(b, charging);
    EchoMeter.RunOfOne(c, ChargeSession(d, DATAGRAM));
    RunsAppend(b, charging, [ChargeSession(d, DATAGRAM)]);
    RunsAppend(a, [OpenLoop(i, true)], charging + [ChargeSession(d, DATAGRAM)]);
    run := [OpenLoop(i, true)] + (charging + [ChargeSession(d, DATAGRAM)]);
    RunsAppend(st, opening, run);
    run := opening + run;
    RunsAppend(start, filling, run);
    run := filling + run;
  }

  /** A datagram's refusal overtakes a report, from a fresh process: 2047 sessions fill
      the window but for one budget; the next session's stream is refused by the budget
      and says so, while a datagram of one packet that budget still covered is refused by the ceiling
      and ends the session. */
  lemma RefusedDatagramCanOvertake(now: int, address: Address) returns (run: seq<Action>, j: nat)
    ensures Runs(Start(Rust, now), run)
    ensures Enabled(Final(Start(Rust, now), run), BreakOff(j))
    ensures var st := Final(Start(Rust, now), run);
      var s := Next(st, BreakOff(j)).sessions[st.loops[j].session];
      && s.closes == [Ceiling]
      && s.stopped == s.firstReport == Some(EchoBudget)
  {
    var start := Start(Rust, now);
    var before, s, d := PoisedRun(now, address);
    var st := Final(start, before);
    var refused := OneByteTooMany(st, s);
    var mid := Final(st, refused);
    EchoMeter.RunOfOne(mid, ChargeProcess(d));
    RunsAppend(st, refused, [ChargeProcess(d)]);
    RunsAppend(start, before, refused + [ChargeProcess(d)]);
    run, j := before + (refused + [ChargeProcess(d)]), d;
  }
}
