/** Nothing gets stuck: what every loop and every session of a reachable state can do
    next, and what it cannot. */
module EchoProgress {
  import opened Wrappers
  import opened EchoMachine
  import EchoCharges
  import EchoLifecycle

  /** A loop that reads can be given any chunk that fits its buffer, and no other, or
      end; one between the two checks can go on; one that was refused can say so, or,
      for a Rust datagram, end its session while that lives; one that is over does
      nothing. */
  lemma LoopCanAlwaysStep(server: Server, now: int, run: seq<Action>, j: nat, n: nat)
    requires Runs(Start(server, now), run)
    requires j < |Final(Start(server, now), run).loops|
    ensures var st := Final(Start(server, now), run);
      var l := st.loops[j];
      var breaks := server.Rust? && l.datagram;
      && l.session < |st.sessions|
      && (Enabled(st, ChargeSession(j, n)) <==> l.at.Reading? && n <= (if l.datagram then 65_535 else 32_768))
      && (Enabled(st, LoopEnds(j)) <==> l.at.Reading?)
      && (Enabled(st, ChargeProcess(j)) <==> l.at.Charged?)
      && (Enabled(st, Report(j)) <==> l.at.Stopping? && !breaks)
      && (Enabled(st, BreakOff(j)) <==> l.at.Stopping? && breaks && st.sessions[l.session].phase == Live)
  {
    EchoCharges.RunKeepsCharges(Start(server, now), run);
    ServerStays(Start(server, now), run);
    assert EchoCharges.OneRefusal(Final(Start(server, now), run).loops[j]);
  }

  /** A session that waits for its upgrade can go either way; a served one can be sent
      more streams and datagrams in any phase; a live one can always lose its peer, and
      can be closed for a reason exactly when one waits; and every slot can be given
      back once its holder is done. */
  lemma SessionCanAlwaysStep(server: Server, now: int, run: seq<Action>, i: nat, datagram: bool)
    requires Runs(Start(server, now), run)
    requires i < |Final(Start(server, now), run).sessions|
    ensures var st := Final(Start(server, now), run);
      var s := st.sessions[i];
      && (Enabled(st, UpgradeSucceeds(i)) <==> s.phase == Upgrading)
      && (Enabled(st, UpgradeFails(i)) <==> s.phase == Upgrading)
      && (Enabled(st, ReleaseFailed(i)) <==> s.phase == Failing)
      && (Enabled(st, OpenLoop(i, datagram)) <==> s.phase in {Live, Leaving, Ended})
      && (Enabled(st, PeerLeaves(i)) <==> s.phase == Live)
      && (Enabled(st, TakeReason(i)) <==> s.phase == Live && s.firstReport.Some?)
      && (Enabled(st, WatcherReleases(i)) <==> s.phase == Leaving)
      && (HoldsSlot(s) <==> s.releases == 0)
  {
    EchoLifecycle.RunKeepsTruth(Start(server, now), run);
    var st := Final(Start(server, now), run);
    assert EchoLifecycle.SessionTruthful(st.sessions[i], st.server, st.now, st.peak);
  }

  // the Rust server knows no probes
  lemma {:induction false} RustHasNoProbes(st: State, run: seq<Action>)
    requires Runs(st, run) && st.server.Rust? && forall i :: 0 <= i < |st.sessions| ==> !st.sessions[i].probe
    ensures forall i :: 0 <= i < |Final(st, run).sessions| ==> !Final(st, run).sessions[i].probe
    decreases |run|
  {
    if run != [] {
      RustHasNoProbes(Next(st, run[0]), run[1..]);
    }
  }
}
