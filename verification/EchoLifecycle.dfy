/** The life of a session under every interleaving: how often it is closed and
    released, and that the reason it is closed with is true. */
module EchoLifecycle {
  import opened Wrappers
  import opened Ledger
  import opened EchoMachine
  import EchoCharges
  import EchoIdentity
  import EchoSlots
  import Sums

  predicate SessionTruthful(s: Session, server: Server, now: int, peak: nat) {
    && (!Served(s) ==> s.closes == [] && s.stopped.None? && s.firstReport.None?)
    && (s.phase == Live ==> s.closes == [] && s.stopped == s.firstReport)
    && |s.closes| <= 1
    && s.releases == (if s.phase in {GivenUp, Ended} then 1 else 0)
    && s.liveAt <= now
    && (s.closes != [] && s.closes[0] == Lifetime ==> now - s.liveAt >= LifetimeOf(s.probe))
    && (s.closes != [] && s.closes[0] != Lifetime ==> ReportTruthful(Some(s.closes[0]), s, peak))
    && (s.closes != [] && s.closes[0] != Lifetime && server.Go? ==> s.firstReport == Some(s.closes[0]))
    && ReportTruthful(s.firstReport, s, peak)
  }

  // a loop reports its session's budget only past it, and the ceiling only reached
  predicate ReportTruthful(report: Option<Reason>, s: Session, peak: nat) {
    match report
    case None => true
    case Some(EchoBudget) => s.counter > BudgetOf(s.probe)
    case Some(Ceiling) => peak >= CEILING
    case Some(Lifetime) => false
  }

  predicate LoopTruthful(l: Loop, sessions: seq<Session>, peak: nat) {
    && l.session < |sessions|
    && Served(sessions[l.session])
    && (l.at.Stopping? ==> ReportTruthful(Some(l.at.why), sessions[l.session], peak))
    && (l.rejected > 0 ==> sessions[l.session].counter > BudgetOf(sessions[l.session].probe))
  }

  ghost predicate Truthful(st: State) {
    && (forall i :: 0 <= i < |st.sessions| ==> SessionTruthful(st.sessions[i], st.server, st.now, st.peak))
    && (forall j :: 0 <= j < |st.loops| ==> LoopTruthful(st.loops[j], st.sessions, st.peak))
  }

  // the reports already made stay true while counters, clock and peak only grow
  lemma SessionSet(st: State, i: nat, s: Session)
    requires i < |st.sessions| && Truthful(st)
    requires SessionTruthful(s, st.server, st.now, st.peak)
    requires Served(st.sessions[i]) ==> Served(s)
    requires s.probe == st.sessions[i].probe && s.counter >= st.sessions[i].counter
    ensures Truthful(SetSession(st, i, s))
  {
    var next := SetSession(st, i, s);
    forall j | 0 <= j < |next.loops| ensures LoopTruthful(next.loops[j], next.sessions, next.peak) {
      assert LoopTruthful(st.loops[j], st.sessions, st.peak);
    }
  }

  lemma LoopSet(st: State, j: nat, l: Loop)
    requires j < |st.loops| && Truthful(st)
    requires LoopTruthful(l, st.sessions, st.peak)
    ensures Truthful(SetLoop(st, j, l))
  {
  }

  lemma PeakGrows(st: State, ledger: Ledger, spent: nat, peak: nat, permits: seq<Permit>)
    requires Truthful(st) && peak >= st.peak
    ensures Truthful(st.(ledger := ledger, spent := spent, peak := peak, permits := permits))
  {
    var next := st.(ledger := ledger, spent := spent, peak := peak, permits := permits);
    forall i | 0 <= i < |next.sessions| ensures SessionTruthful(next.sessions[i], next.server, next.now, next.peak) {
      assert SessionTruthful(st.sessions[i], st.server, st.now, st.peak);
    }
    forall j | 0 <= j < |next.loops| ensures LoopTruthful(next.loops[j], next.sessions, next.peak) {
      assert LoopTruthful(st.loops[j], st.sessions, st.peak);
    }
  }

  lemma ChargeProcessKeepsTruth(st: State, a: Action)
    requires a.ChargeProcess? && Enabled(st, a) && Truthful(st)
    ensures Truthful(Next(st, a))
  {
    var next := Next(st, a);
    assert LoopTruthful(st.loops[a.j], st.sessions, st.peak);
    PeakGrows(st, next.ledger, next.spent, next.peak, next.permits);
    LoopSet(st.(ledger := next.ledger, spent := next.spent, peak := next.peak, permits := next.permits),
            a.j, next.loops[a.j]);
  }

  lemma ChargeSessionKeepsTruth(st: State, a: Action)
    requires a.ChargeSession? && Enabled(st, a) && Truthful(st)
    ensures Truthful(Next(st, a))
  {
    var i := st.loops[a.j].session;
    var (s, _) := Counted(st.sessions[i], a.n);
    assert LoopTruthful(st.loops[a.j], st.sessions, st.peak);
    assert SessionTruthful(st.sessions[i], st.server, st.now, st.peak);
    SessionSet(st, i, s);
    LoopSet(SetSession(st, i, s), a.j, Next(st, a).loops[a.j]);
  }

  lemma ReportKeepsTruth(st: State, a: Action)
    requires a.Report? && Enabled(st, a) && Truthful(st)
    ensures Truthful(Next(st, a))
  {
    var l := st.loops[a.j];
    var s := Offered(st.sessions[l.session], l.at.why);
    assert LoopTruthful(l, st.sessions, st.peak);
    assert SessionTruthful(st.sessions[l.session], st.server, st.now, st.peak);
    SessionSet(st, l.session, s);
    assert LoopTruthful(l, SetSession(st, l.session, s).sessions, st.peak);
    LoopSet(SetSession(st, l.session, s), a.j, l.(at := Done));
  }

  lemma BreakOffKeepsTruth(st: State, a: Action)
    requires a.BreakOff? && Enabled(st, a) && Truthful(st)
    ensures Truthful(Next(st, a))
  {
    var l := st.loops[a.j];
    var s := BrokenOff(st.sessions[l.session], l.at.why);
    assert LoopTruthful(l, st.sessions, st.peak);
    assert SessionTruthful(st.sessions[l.session], st.server, st.now, st.peak);
    assert s.closes == [l.at.why];
    SessionSet(st, l.session, s);
    assert LoopTruthful(l, SetSession(st, l.session, s).sessions, st.peak);
    LoopSet(SetSession(st, l.session, s), a.j, l.(at := Done));
  }

  lemma LoopEndsKeepsTruth(st: State, a: Action)
    requires a.LoopEnds? && Enabled(st, a) && Truthful(st)
    ensures Truthful(Next(st, a))
  {
    assert LoopTruthful(st.loops[a.j], st.sessions, st.peak);
    LoopSet(st, a.j, Next(st, a).loops[a.j]);
  }

  lemma SessionStepKeepsTruth(st: State, a: Action)
    requires a.UpgradeFails? || a.ReleaseFailed? || a.UpgradeSucceeds? || a.TakeReason? || a.LifetimeExpires?
      || a.PeerLeaves? || a.WatcherReleases?
    requires Enabled(st, a) && Truthful(st)
    ensures Truthful(Next(st, a))
  {
    assert SessionTruthful(st.sessions[a.i], st.server, st.now, st.peak);
    var next := Next(st, a);
    if a.TakeReason? {
      assert next.sessions[a.i].closes[0] == st.sessions[a.i].stopped.value;
    }
    SessionSet(st, a.i, next.sessions[a.i]);
    PeakGrows(SetSession(st, a.i, next.sessions[a.i]), next.ledger, next.spent, next.peak, next.permits);
  }

  lemma TickKeepsTruth(st: State, d: nat)
    requires Truthful(st)
    ensures Truthful(st.(now := st.now + d))
  {
    forall i | 0 <= i < |st.sessions| ensures SessionTruthful(st.sessions[i], st.server, st.now + d, st.peak) {
      assert SessionTruthful(st.sessions[i], st.server, st.now, st.peak);
    }
  }

  lemma AdmitKeepsTruth(st: State, a: Action)
    requires a.Admit? && Enabled(st, a) && Truthful(st)
    ensures Truthful(Next(st, a))
  {
    var next := Next(st, a);
    forall j | 0 <= j < |next.loops| ensures LoopTruthful(next.loops[j], next.sessions, next.peak) {
      assert LoopTruthful(st.loops[j], st.sessions, st.peak);
    }
  }

  lemma NextKeepsTruth(st: State, a: Action)
    requires Enabled(st, a) && Truthful(st)
    ensures Truthful(Next(st, a))
  {
    match a
    case Tick(d) => TickKeepsTruth(st, d);
    case Admit(_, _) => AdmitKeepsTruth(st, a);
    case OpenLoop(_, _) =>
    case ChargeSession(_, _) => ChargeSessionKeepsTruth(st, a);
    case ChargeProcess(_) => ChargeProcessKeepsTruth(st, a);
    case Report(_) => ReportKeepsTruth(st, a);
    case BreakOff(_) => BreakOffKeepsTruth(st, a);
    case LoopEnds(_) => LoopEndsKeepsTruth(st, a);
    case _ => SessionStepKeepsTruth(st, a);
  }

  lemma {:induction false} RunKeepsTruth(st: State, run: seq<Action>)
    requires Runs(st, run) && Truthful(st)
    ensures Truthful(Final(st, run))
    decreases |run|
  {
    if run != [] {
      NextKeepsTruth(st, run[0]);
      RunKeepsTruth(Next(st, run[0]), run[1..]);
    }
  }

  /** In every reachable state the server has closed a session at most once and
      released its slot at most once, exactly once when its watcher has finished; a
      close for any reason but the lifetime carries the first reason a loop reported;
      and each reason is true of the session or the process. */
  lemma ClosedOnceAndTruthfully(server: Server, now: int, run: seq<Action>, i: nat)
    requires Runs(Start(server, now), run)
    requires i < |Final(Start(server, now), run).sessions|
    ensures var st := Final(Start(server, now), run);
      var s := st.sessions[i];
      && |s.closes| <= 1
      && s.releases <= 1
      && (s.phase == Ended ==> s.releases == 1)
      && (HoldsSlot(s) <==> s.releases == 0)
      && (s.closes == [Lifetime] ==> st.now - s.liveAt >= LifetimeOf(s.probe))
      && (server.Go? && s.closes != [] && s.closes != [Lifetime] ==> s.firstReport == Some(s.closes[0]))
      && (s.closes == [EchoBudget] ==> s.counter > BudgetOf(s.probe))
      && (s.closes == [Ceiling] ==> st.peak >= CEILING)
  {
    RunKeepsTruth(Start(server, now), run);
    ServerStays(Start(server, now), run);
    var st := Final(Start(server, now), run);
    assert SessionTruthful(st.sessions[i], st.server, st.now, st.peak);
  }

  /** The lifetime: a session that was upgraded, and is still live after any run, can be
      closed for its lifetime exactly from 120 seconds after its upgrade on, a probe
      from 600, and is then closed with that and nothing else, whether or not a reason
      is waiting for it. */
  lemma LifetimeClosesExactly(server: Server, now: int, before: seq<Action>, i: nat, after: seq<Action>)
    requires Runs(Start(server, now), before) && Enabled(Final(Start(server, now), before), UpgradeSucceeds(i))
    requires Runs(Next(Final(Start(server, now), before), UpgradeSucceeds(i)), after)
    ensures var upgraded := Final(Start(server, now), before);
      var st := Final(Next(upgraded, UpgradeSucceeds(i)), after);
      var limit := if upgraded.sessions[i].probe then 600_000_000_000 else 120_000_000_000;
      && i < |st.sessions|
      && (Enabled(st, LifetimeExpires(i)) <==> st.sessions[i].phase == Live && st.now >= upgraded.now + limit)
      && (Enabled(st, LifetimeExpires(i)) ==>
            Next(st, LifetimeExpires(i)).sessions[i].phase == Leaving
            && Next(st, LifetimeExpires(i)).sessions[i].closes == [Lifetime])
  {
    RunKeepsTruth(Start(server, now), before);
    var upgraded := Final(Start(server, now), before);
    var next := Next(upgraded, UpgradeSucceeds(i));
    NextKeepsTruth(upgraded, UpgradeSucceeds(i));
    RunKeepsTruth(next, after);
    EchoIdentity.RunKeepsSession(next, after, i);
    var st := Final(next, after);
    assert SessionTruthful(st.sessions[i], st.server, st.now, st.peak);
  }

  /** An upgrade ends one way or the other from every reachable state. If it fails, the
      session gives its slot back once, and is never served or closed. */
  lemma FailedUpgradeGivesBack(server: Server, now: int, run: seq<Action>, i: nat)
    requires Runs(Start(server, now), run)
    requires i < |Final(Start(server, now), run).sessions|
    requires Final(Start(server, now), run).sessions[i].phase == Upgrading
    ensures var st := Final(Start(server, now), run);
      && Enabled(st, UpgradeSucceeds(i)) && Enabled(st, UpgradeFails(i))
      && Next(st, UpgradeSucceeds(i)).sessions[i] == st.sessions[i].(phase := Live, liveAt := st.now)
      && var failed := Next(st, UpgradeFails(i));
      && Enabled(failed, ReleaseFailed(i)) && failed.ledger == st.ledger
      && var over := Next(failed, ReleaseFailed(i));
      && over.sessions[i].phase == GivenUp && over.sessions[i].releases == 1 && over.sessions[i].closes == []
      && Held(over.ledger, st.sessions[i].address) + 1 == Held(st.ledger, st.sessions[i].address)
  {
    RunKeepsTruth(Start(server, now), run);
    EchoSlots.RunKeepsSlots(Start(server, now), run);
    var st := Final(Start(server, now), run);
    assert SessionTruthful(st.sessions[i], st.server, st.now, st.peak);
    Sums.SumAtLeastOne(st.sessions, i, SlotAt(st.sessions[i].address));
    assert Held(st.ledger, st.sessions[i].address) == Sums.Sum(st.sessions, SlotAt(st.sessions[i].address));
  }

  /** The watcher's three exits and the Rust break are the only ways out of a live
      session. Each closes it once, with its own reason, but for the departed peer. */
  lemma EveryExitCloses(server: Server, now: int, run: seq<Action>, a: Action, i: nat)
    requires Runs(Start(server, now), run) && Enabled(Final(Start(server, now), run), a)
    requires i < |Final(Start(server, now), run).sessions|
    requires Final(Start(server, now), run).sessions[i].phase == Live
    ensures var st := Final(Start(server, now), run);
      var s := Next(st, a).sessions[i];
      match a
      case PeerLeaves(k) =>
        if k == i then s == st.sessions[i].(phase := Leaving) && s.closes == []
        else s.phase == Live && s.closes == []
      case TakeReason(k) =>
        if k == i then
          && s.phase == Leaving && s.stopped.None? && |s.closes| == 1
          && st.sessions[i].stopped == st.sessions[i].firstReport == Some(s.closes[0])
        else s.phase == Live && s.closes == []
      case LifetimeExpires(k) =>
        if k == i then s.phase == Leaving && s.closes == [Lifetime] else s.phase == Live && s.closes == []
      case BreakOff(j) =>
        if st.loops[j].session == i then s.phase == Leaving && s.closes == [st.loops[j].at.why]
        else s.phase == Live && s.closes == []
      case _ => s.phase == Live && s.closes == []
  {
    RunKeepsTruth(Start(server, now), run);
    var st := Final(Start(server, now), run);
    assert SessionTruthful(st.sessions[i], st.server, st.now, st.peak);
  }

  /** The budget refuses nothing early: while all a session's loops have read stays
      within it, none of their chunks has been rejected and none reports it. */
  lemma NothingRejectedWithinBudget(server: Server, now: int, run: seq<Action>, i: nat)
    requires Runs(Start(server, now), run)
    requires i < |Final(Start(server, now), run).sessions|
    requires var s := Final(Start(server, now), run).sessions[i];
      s.counter <= BudgetOf(s.probe)
    ensures var st := Final(Start(server, now), run);
      && st.sessions[i].accepted == st.sessions[i].counter
      && st.sessions[i].firstReport != Some(EchoBudget)
      && forall j :: 0 <= j < |st.loops| && st.loops[j].session == i ==>
           st.loops[j].rejected == 0 && st.loops[j].at != Stopping(EchoBudget)
  {
    RunKeepsTruth(Start(server, now), run);
    EchoCharges.RunKeepsCharges(Start(server, now), run);
    var st := Final(Start(server, now), run);
    assert SessionTruthful(st.sessions[i], st.server, st.now, st.peak);
    forall j | 0 <= j < |st.loops| && st.loops[j].session == i
      ensures st.loops[j].rejected == 0 && st.loops[j].at != Stopping(EchoBudget)
    {
      assert LoopTruthful(st.loops[j], st.sessions, st.peak);
    }
    assert EchoCharges.Balanced(st, i);
    Sums.SumZero(st.loops, RejectedOf(i));
  }

  /** The watcher's select is free: with a reason waiting in the channel, the session
      can still be closed by its lifetime or left to the departed peer instead. */
  lemma FirstReasonNeedNotClose(server: Server, now: int, run: seq<Action>, i: nat)
    requires Runs(Start(server, now), run)
    requires i < |Final(Start(server, now), run).sessions|
    requires Final(Start(server, now), run).sessions[i].phase == Live
    requires Final(Start(server, now), run).sessions[i].stopped.Some?
    ensures var st := Final(Start(server, now), run);
      var waited := Next(st, Tick(LifetimeOf(st.sessions[i].probe)));
      && Enabled(st, TakeReason(i))
      && st.sessions[i].stopped == st.sessions[i].firstReport
      && Next(st, TakeReason(i)).sessions[i].closes == [st.sessions[i].stopped.value]
      && Enabled(waited, LifetimeExpires(i))
      && Next(waited, LifetimeExpires(i)).sessions[i].closes == [Lifetime]
      && st.sessions[i].firstReport != Some(Lifetime)
      && Enabled(st, PeerLeaves(i))
      && Next(st, PeerLeaves(i)).sessions[i].closes == []
  {
    RunKeepsTruth(Start(server, now), run);
    var st := Final(Start(server, now), run);
    assert SessionTruthful(st.sessions[i], st.server, st.now, st.peak);
  }

  /** A Rust session that breaks off closes with the refusal of its datagram, and the
      channel keeps what it held. The close carries the first reason reported exactly
      when nothing was waiting there, or the same reason was. */
  lemma RefusalOvertakesExactly(now: int, run: seq<Action>, j: nat)
    requires Runs(Start(Rust, now), run)
    requires Enabled(Final(Start(Rust, now), run), BreakOff(j))
    ensures var st := Final(Start(Rust, now), run);
      var i, why := st.loops[j].session, st.loops[j].at.why;
      var s := Next(st, BreakOff(j)).sessions[i];
      && s.closes == [why]
      && s.stopped == st.sessions[i].stopped == st.sessions[i].firstReport
      && (s.firstReport == Some(s.closes[0]) <==> st.sessions[i].stopped in {None, Some(why)})
  {
    RunKeepsTruth(Start(Rust, now), run);
    var st := Final(Start(Rust, now), run);
    assert SessionTruthful(st.sessions[st.loops[j].session], st.server, st.now, st.peak);
  }
}
