/** Two-level charging under every interleaving: no byte is lost or counted twice
    between the session counters and the shared counter. */
module EchoCharges {
  import opened Sums
  import opened Ledger
  import opened EchoMachine
  import EchoIdentity
  import RustTwin

  /** A loop stops at its first refusal, so only one chunk of it is ever refused. */
  predicate OneRefusal(l: Loop) {
    && l.refusals <= 1
    && (l.at.Reading? || l.at.Charged? ==> l.refusals == 0)
    && (l.at.Charged? ==> l.at.n <= MAX_CHUNK)
    && (l.at.Stopping? ==> l.refusals == 1)
    && l.rejected + l.bounced <= l.refusals * MAX_CHUNK
  }

  ghost predicate LoopsOK(st: State) {
    forall j :: 0 <= j < |st.loops| ==> st.loops[j].session < |st.sessions| && OneRefusal(st.loops[j])
  }

  // one session's counter is what it accepted and what it rejected, loop by loop
  predicate Balanced(st: State, i: nat)
    requires i < |st.sessions|
  {
    && st.sessions[i].accepted == Sum(st.loops, PassedOf(i))
    && st.sessions[i].counter == st.sessions[i].accepted + Sum(st.loops, RejectedOf(i))
    && st.sessions[i].accepted <= BudgetOf(st.sessions[i].probe)
  }

  ghost predicate SessionBalances(st: State) {
    forall i :: 0 <= i < |st.sessions| ==> Balanced(st, i)
  }

  ghost predicate ProcessBalances(st: State) {
    && st.spent == Sum(st.loops, Settled())
    && Sum(st.sessions, Accepted()) == st.spent + Sum(st.loops, InFlight())
    && Sum(st.permits, Size()) == Sum(st.loops, Permitted())
    && st.ledger.echoed < CEILING + Sum(st.loops, Bounced())
  }

  ghost predicate Charges(st: State) {
    LoopsOK(st) && SessionBalances(st) && ProcessBalances(st)
  }

  lemma LoopChanged(loops: seq<Loop>, j: nat, l: Loop)
    requires j < |loops|
    ensures Sum(loops[j := l], Settled()) + Settled()(loops[j]) == Sum(loops, Settled()) + Settled()(l)
    ensures Sum(loops[j := l], InFlight()) + InFlight()(loops[j]) == Sum(loops, InFlight()) + InFlight()(l)
    ensures Sum(loops[j := l], Permitted()) + Permitted()(loops[j]) == Sum(loops, Permitted()) + Permitted()(l)
    ensures Sum(loops[j := l], Bounced()) + Bounced()(loops[j]) == Sum(loops, Bounced()) + Bounced()(l)
  {
    SumUpdate(loops, j, l, Settled());
    SumUpdate(loops, j, l, InFlight());
    SumUpdate(loops, j, l, Permitted());
    SumUpdate(loops, j, l, Bounced());
  }

  // the same for what one session's loops passed and rejected
  lemma LoopChangedFor(loops: seq<Loop>, j: nat, l: Loop, i: nat)
    requires j < |loops|
    ensures Sum(loops[j := l], PassedOf(i)) + PassedOf(i)(loops[j]) == Sum(loops, PassedOf(i)) + PassedOf(i)(l)
    ensures Sum(loops[j := l], RejectedOf(i)) + RejectedOf(i)(loops[j]) == Sum(loops, RejectedOf(i)) + RejectedOf(i)(l)
  {
    SumUpdate(loops, j, l, PassedOf(i));
    SumUpdate(loops, j, l, RejectedOf(i));
  }

  // a new loop has moved nothing
  lemma OpenLoopKeepsSessions(st: State, l: Loop)
    requires SessionBalances(st) && l.at.Reading? && l.permitted == l.rejected == l.bounced == 0
    ensures SessionBalances(st.(loops := st.loops + [l]))
  {
    var next := st.(loops := st.loops + [l]);
    forall i | 0 <= i < |next.sessions| ensures Balanced(next, i) {
      assert Balanced(st, i);
      SumAppend(st.loops, l, PassedOf(i));
      SumAppend(st.loops, l, RejectedOf(i));
    }
  }

  lemma OpenLoopKeepsProcess(st: State, l: Loop)
    requires ProcessBalances(st) && l.at.Reading? && l.permitted == l.bounced == 0
    ensures ProcessBalances(st.(loops := st.loops + [l]))
  {
    SumAppend(st.loops, l, Settled());
    SumAppend(st.loops, l, InFlight());
    SumAppend(st.loops, l, Permitted());
    SumAppend(st.loops, l, Bounced());
  }

  lemma OpenLoopKeepsCharges(st: State, a: Action)
    requires a.OpenLoop? && Enabled(st, a) && Charges(st)
    ensures Charges(Next(st, a))
  {
    var l := Loop(a.i, a.datagram, Reading, 0, 0, 0, 0);
    OpenLoopKeepsSessions(st, l);
    OpenLoopKeepsProcess(st, l);
  }

  lemma TickKeepsCharges(st: State, d: nat)
    requires Charges(st)
    ensures Charges(st.(now := st.now + d))
  {
    var next := st.(now := st.now + d);
    forall i | 0 <= i < |next.sessions| ensures Balanced(next, i) {
      assert Balanced(st, i);
    }
  }

  // a new session has charged nothing, and no loop is its
  lemma SessionAddedKeepsSessions(st: State, s: Session)
    requires LoopsOK(st) && SessionBalances(st) && s.counter == s.accepted == 0
    ensures SessionBalances(st.(sessions := st.sessions + [s]))
  {
    var next := st.(sessions := st.sessions + [s]);
    SumZero(st.loops, PassedOf(|st.sessions|));
    SumZero(st.loops, RejectedOf(|st.sessions|));
    forall i | 0 <= i < |next.sessions| ensures Balanced(next, i) {
      if i < |st.sessions| {
        assert Balanced(st, i);
      }
    }
  }

  lemma LedgerKeepsCharges(st: State, l: Ledger)
    requires Charges(st) && l.echoed <= st.ledger.echoed
    ensures Charges(st.(ledger := l))
  {
    var next := st.(ledger := l);
    forall i | 0 <= i < |next.sessions| ensures Balanced(next, i) {
      assert Balanced(st, i);
    }
  }

  lemma AdmitKeepsCharges(st: State, a: Action)
    requires a.Admit? && Enabled(st, a) && Charges(st)
    ensures Charges(Next(st, a))
  {
    var s := Admitted(a.address, a.probe, st.now);
    var grown := st.(sessions := st.sessions + [s]);
    SumAppend(st.sessions, s, Accepted());
    SessionAddedKeepsSessions(st, s);
    assert Charges(grown);
    LedgerKeepsCharges(grown, Next(st, a).ledger);
    LedgerKeepsCharges(st, Next(st, a).ledger);
  }

  lemma ChargeKeepsLoops(st: State, a: Action)
    requires a.ChargeSession? || a.ChargeProcess?
    requires Enabled(st, a) && LoopsOK(st)
    ensures LoopsOK(Next(st, a))
  {
  }

  // the session charged: its counter moves with the loop's passed or rejected bytes
  lemma ChargedSessionBalances(st: State, next: State, j: nat, n: nat)
    requires j < |st.loops| && st.loops[j].at.Reading? && st.loops[j].session < |st.sessions|
    requires Balanced(st, st.loops[j].session)
    requires var (s, ok) := Counted(st.sessions[st.loops[j].session], n);
      var l := st.loops[j];
      && next.sessions == st.sessions[l.session := s]
      && next.loops == st.loops[j := if ok then l.(at := At.Charged(n))
           else l.(at := Stopping(EchoBudget), rejected := l.rejected + n, refusals := l.refusals + 1)]
    ensures Balanced(next, st.loops[j].session)
  {
    LoopChangedFor(st.loops, j, next.loops[j], st.loops[j].session);
  }

  // any other session: none of its loops changed
  lemma OtherSessionBalances(st: State, next: State, j: nat, i: nat)
    requires j < |st.loops| && i < |st.sessions| == |next.sessions| && st.loops[j].session != i
    requires Balanced(st, i) && next.sessions[i] == st.sessions[i]
    requires |next.loops| == |st.loops| && next.loops == st.loops[j := next.loops[j]]
    requires next.loops[j].session == st.loops[j].session
    ensures Balanced(next, i)
  {
    LoopChangedFor(st.loops, j, next.loops[j], i);
  }

  lemma ChargeSessionKeepsSessions(st: State, a: Action)
    requires a.ChargeSession? && Enabled(st, a) && LoopsOK(st) && SessionBalances(st)
    ensures SessionBalances(Next(st, a))
  {
    var next := Next(st, a);
    assert Balanced(st, st.loops[a.j].session);
    ChargedSessionBalances(st, next, a.j, a.n);
    forall i | 0 <= i < |next.sessions| ensures Balanced(next, i) {
      if i != st.loops[a.j].session {
        assert Balanced(st, i);
        OtherSessionBalances(st, next, a.j, i);
      }
    }
  }

  lemma ChargeSessionKeepsProcess(st: State, a: Action)
    requires a.ChargeSession? && Enabled(st, a) && LoopsOK(st) && ProcessBalances(st)
    ensures ProcessBalances(Next(st, a))
  {
    var l := st.loops[a.j];
    var (s, _) := Counted(st.sessions[l.session], a.n);
    SumUpdate(st.sessions, l.session, s, Accepted());
    LoopChanged(st.loops, a.j, Next(st, a).loops[a.j]);
  }

  lemma ChargeProcessKeepsSessions(st: State, a: Action)
    requires a.ChargeProcess? && Enabled(st, a) && SessionBalances(st)
    ensures SessionBalances(Next(st, a))
  {
    var next := Next(st, a);
    forall i | 0 <= i < |next.sessions| ensures Balanced(next, i) {
      assert Balanced(st, i);
      LoopChangedFor(st.loops, a.j, next.loops[a.j], i);
    }
  }

  lemma GrantKeepsProcess(st: State, next: State, j: nat)
    requires j < |st.loops| && st.loops[j].at.Charged? && ProcessBalances(st)
    requires var l := st.loops[j];
      next.loops == st.loops[j := l.(at := Reading, permitted := l.permitted + l.at.n)]
    requires next.sessions == st.sessions && next.spent == st.spent + st.loops[j].at.n
    requires next.permits == st.permits + [Permit(st.now, st.loops[j].at.n)]
    requires next.ledger.echoed < CEILING
    ensures ProcessBalances(next)
  {
    LoopChanged(st.loops, j, next.loops[j]);
    SumAppend(st.permits, Permit(st.now, st.loops[j].at.n), Size());
  }

  lemma BounceKeepsProcess(st: State, next: State, j: nat)
    requires j < |st.loops| && st.loops[j].at.Charged? && ProcessBalances(st)
    requires var l := st.loops[j];
      next.loops == st.loops[j := l.(at := Stopping(Ceiling), bounced := l.bounced + l.at.n,
                                     refusals := l.refusals + 1)]
    requires next.sessions == st.sessions && next.spent == st.spent + st.loops[j].at.n
    requires next.permits == st.permits
    requires next.ledger.echoed <= st.ledger.echoed + st.loops[j].at.n
    ensures ProcessBalances(next)
  {
    LoopChanged(st.loops, j, next.loops[j]);
  }

  lemma ChargeProcessKeepsProcess(st: State, a: Action)
    requires a.ChargeProcess? && Enabled(st, a) && ProcessBalances(st)
    ensures ProcessBalances(Next(st, a))
  {
    if Spent(st.ledger, st.loops[a.j].at.n, st.now).1 {
      GrantKeepsProcess(st, Next(st, a), a.j);
    } else {
      BounceKeepsProcess(st, Next(st, a), a.j);
    }
  }

  lemma ChargeKeepsCharges(st: State, a: Action)
    requires a.ChargeSession? || a.ChargeProcess?
    requires Enabled(st, a) && Charges(st)
    ensures Charges(Next(st, a))
  {
    ChargeKeepsLoops(st, a);
    if a.ChargeSession? {
      ChargeSessionKeepsSessions(st, a);
      ChargeSessionKeepsProcess(st, a);
    } else {
      ChargeProcessKeepsSessions(st, a);
      ChargeProcessKeepsProcess(st, a);
    }
  }

  // changing a session but not its money
  lemma SetSessionKeepsCharges(st: State, i: nat, s: Session)
    requires i < |st.sessions| && Charges(st)
    requires s.accepted == st.sessions[i].accepted && s.counter == st.sessions[i].counter
    requires s.probe == st.sessions[i].probe
    ensures Charges(SetSession(st, i, s))
  {
    var next := SetSession(st, i, s);
    SumUpdate(st.sessions, i, s, Accepted());
    forall k | 0 <= k < |next.sessions| ensures Balanced(next, k) {
      assert Balanced(st, k);
    }
  }

  // ending a loop that has nothing in flight
  lemma EndLoopKeepsCharges(st: State, j: nat)
    requires j < |st.loops| && !st.loops[j].at.Charged? && Charges(st)
    ensures Charges(SetLoop(st, j, st.loops[j].(at := Done)))
  {
    var next := SetLoop(st, j, st.loops[j].(at := Done));
    LoopChanged(st.loops, j, next.loops[j]);
    forall i | 0 <= i < |next.sessions| ensures Balanced(next, i) {
      assert Balanced(st, i);
      LoopChangedFor(st.loops, j, next.loops[j], i);
    }
  }

  lemma LoopStopsKeepsCharges(st: State, a: Action)
    requires (a.Report? || a.BreakOff? || a.LoopEnds?) && Enabled(st, a) && Charges(st)
    ensures Charges(Next(st, a))
  {
    if a.Report? || a.BreakOff? {
      var l := st.loops[a.j];
      var s := if a.Report? then Offered(st.sessions[l.session], l.at.why)
               else BrokenOff(st.sessions[l.session], l.at.why);
      SetSessionKeepsCharges(st, l.session, s);
      EndLoopKeepsCharges(SetSession(st, l.session, s), a.j);
    } else {
      EndLoopKeepsCharges(st, a.j);
    }
  }

  // a step of a handler or a watcher moves no bytes
  lemma SessionStepKeepsCharges(st: State, a: Action)
    requires a.UpgradeFails? || a.ReleaseFailed? || a.UpgradeSucceeds? || a.TakeReason? || a.LifetimeExpires?
      || a.PeerLeaves? || a.WatcherReleases?
    requires Enabled(st, a) && Charges(st)
    ensures Charges(Next(st, a))
  {
    var next := Next(st, a);
    SetSessionKeepsCharges(st, a.i, next.sessions[a.i]);
    var moved := SetSession(st, a.i, next.sessions[a.i]);
    LedgerKeepsCharges(moved, next.ledger);
    assert next == moved.(ledger := next.ledger);
  }

  lemma NextKeepsCharges(st: State, a: Action)
    requires Enabled(st, a) && Charges(st)
    ensures Charges(Next(st, a))
  {
    match a
    case Tick(d) => TickKeepsCharges(st, d);
    case Admit(_, _) => AdmitKeepsCharges(st, a);
    case OpenLoop(_, _) => OpenLoopKeepsCharges(st, a);
    case ChargeSession(_, _) => ChargeKeepsCharges(st, a);
    case ChargeProcess(_) => ChargeKeepsCharges(st, a);
    case Report(_) => LoopStopsKeepsCharges(st, a);
    case BreakOff(_) => LoopStopsKeepsCharges(st, a);
    case LoopEnds(_) => LoopStopsKeepsCharges(st, a);
    case _ => SessionStepKeepsCharges(st, a);
  }

  lemma {:induction false} RunKeepsCharges(st: State, run: seq<Action>)
    requires Runs(st, run) && Charges(st)
    ensures Charges(Final(st, run))
    decreases |run|
  {
    if run != [] {
      NextKeepsCharges(st, run[0]);
      RunKeepsCharges(Next(st, run[0]), run[1..]);
    }
  }

  /** In every reachable state the bytes all sessions accepted are the bytes ever
      added to the process counter, over all windows, plus those caught between the
      two steps; and what was added is what was permitted or bounced. */
  lemma ChargesConserved(server: Server, now: int, run: seq<Action>)
    requires Runs(Start(server, now), run)
    ensures var st := Final(Start(server, now), run);
      && Sum(st.sessions, Accepted()) == st.spent + Sum(st.loops, InFlight())
      && st.spent == Sum(st.permits, Size()) + Sum(st.loops, Bounced())
  {
    RunKeepsCharges(Start(server, now), run);
    SettledSplits(Final(Start(server, now), run).loops);
  }

  lemma {:induction false} SettledSplits(loops: seq<Loop>)
    ensures Sum(loops, Settled()) == Sum(loops, Permitted()) + Sum(loops, Bounced())
  {
    if loops != [] {
      SettledSplits(loops[..|loops| - 1]);
    }
  }

  /** A session that was admitted as a probe is charged as one for good: 64 MiB, where
      any other has one. In whatever state its loops then read, a chunk passes the
      session's check exactly while all they have read stays within that. */
  lemma PassedExactlyWithinTheBudget(server: Server, now: int, before: seq<Action>, address: Address, probe: bool,
                                     after: seq<Action>, j: nat, n: nat)
    requires Runs(Start(server, now), before) && Enabled(Final(Start(server, now), before), Admit(address, probe))
    requires Acquired(Final(Start(server, now), before).ledger, address, probe,
                      Final(Start(server, now), before).now).1.None?
    requires Runs(Next(Final(Start(server, now), before), Admit(address, probe)), after)
    requires Enabled(Final(Next(Final(Start(server, now), before), Admit(address, probe)), after), ChargeSession(j, n))
    requires Final(Next(Final(Start(server, now), before), Admit(address, probe)), after).loops[j].session
      == |Final(Start(server, now), before).sessions|
    ensures var i := |Final(Start(server, now), before).sessions|;
      var st := Final(Next(Final(Start(server, now), before), Admit(address, probe)), after);
      var total := st.sessions[i].counter + n;
      var next := Next(st, ChargeSession(j, n));
      && st.sessions[i].address == address && st.sessions[i].probe == probe
      && next.sessions[i].counter == total
      && next.loops[j].at == (if total <= (if probe then 0x400_0000 else 0x10_0000) then At.Charged(n)
                              else Stopping(EchoBudget))
  {
    var admitted := Next(Final(Start(server, now), before), Admit(address, probe));
    EchoIdentity.RunKeepsSession(admitted, after, |admitted.sessions| - 1);
  }

  /** In every reachable state a session's loops have been permitted no more than its
      budget, and each loop has had at most one charge refused. */
  lemma PermittedWithinBudget(server: Server, now: int, run: seq<Action>, i: nat)
    requires Runs(Start(server, now), run)
    requires i < |Final(Start(server, now), run).sessions|
    ensures var st := Final(Start(server, now), run);
      && Sum(st.loops, PermittedOf(i)) <= BudgetOf(st.sessions[i].probe)
      && forall j :: 0 <= j < |st.loops| ==> st.loops[j].refusals <= 1
  {
    RunKeepsCharges(Start(server, now), run);
    var st := Final(Start(server, now), run);
    assert Balanced(st, i);
    SumAtMost(st.loops, PermittedOf(i), PassedOf(i));
  }

  function Chunks(i: nat): Loop -> nat {
    (l: Loop) => if l.session == i then MAX_CHUNK else 0
  }

  lemma {:induction false} ChunksPerLoop(loops: seq<Loop>, i: nat)
    ensures Sum(loops, Chunks(i)) == MAX_CHUNK * Sum(loops, LoopOf(i))
  {
    if loops != [] {
      ChunksPerLoop(loops[..|loops| - 1], i);
    }
  }

  /** Refused charges still count, but the counters overshoot by at most one chunk a
      loop: a session counter its budget, the process counter the ceiling. */
  lemma OvershootBounded(server: Server, now: int, run: seq<Action>, i: nat)
    requires Runs(Start(server, now), run)
    requires i < |Final(Start(server, now), run).sessions|
    ensures var st := Final(Start(server, now), run);
      && st.sessions[i].counter <= BudgetOf(st.sessions[i].probe) + MAX_CHUNK * Sum(st.loops, LoopOf(i))
      && st.ledger.echoed < CEILING + MAX_CHUNK * |st.loops|
  {
    RunKeepsCharges(Start(server, now), run);
    var st := Final(Start(server, now), run);
    assert Balanced(st, i);
    SumAtMost(st.loops, RejectedOf(i), Chunks(i));
    ChunksPerLoop(st.loops, i);
    SumBounded(st.loops, Bounced(), MAX_CHUNK);
  }

  lemma {:induction false} LoopsOfOne(loops: seq<Loop>, i: nat)
    ensures Sum(loops, LoopOf(i)) <= |loops|
  {
    if loops != [] {
      LoopsOfOne(loops[..|loops| - 1], i);
    }
  }

  /** Until a process has started 2^47 loops, neither counter leaves an int64, the next
      charge included: the additions of both servers are the unbounded one. */
  lemma CountersFitInt64(server: Server, now: int, run: seq<Action>, i: nat, n: nat)
    requires Runs(Start(server, now), run)
    requires i < |Final(Start(server, now), run).sessions| && n <= MAX_CHUNK
    requires |Final(Start(server, now), run).loops| <= 0x8000_0000_0000
    ensures var st := Final(Start(server, now), run);
      var counter, echoed := st.sessions[i].counter, st.ledger.echoed;
      && RustTwin.AddInt64(counter, n) == RustTwin.AddU64(counter, n) == counter + n < RustTwin.TWO_63
      && RustTwin.AddInt64(echoed, n) == RustTwin.AddU64(echoed, n) == echoed + n < RustTwin.TWO_63
  {
    OvershootBounded(server, now, run, i);
    LoopsOfOne(Final(Start(server, now), run).loops, i);
  }
}
