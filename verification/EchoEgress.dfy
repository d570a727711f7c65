/** The machine's calls on the shared budget form one run of it, so whatever the
    budget guarantees over runs holds of the process: the loops of all sessions
    together echo no more than the window allows. */
module EchoEgress {
  import opened Sums
  import opened Ledger
  import opened EchoMachine
  import EchoCharges
  import Window

  /** The call an action makes on the shared budget, at most one. */
  function CallOf(st: State, a: Action): seq<Call>
    requires Enabled(st, a)
  {
    match a
    case Admit(address, probe) => [Acquire(address, probe, st.now)]
    case ReleaseFailed(i) => [Release(st.sessions[i].address, st.now)]
    case WatcherReleases(i) => [Release(st.sessions[i].address, st.now)]
    case ChargeProcess(j) => [Spend(st.loops[j].at.n, st.now)]
    case _ => []
  }

  function CallsOf(st: State, run: seq<Action>): seq<Call>
    requires Runs(st, run)
    decreases |run|
  {
    if run == [] then [] else CallOf(st, run[0]) + CallsOf(Next(st, run[0]), run[1..])
  }

  function Within(lo: int, hi: int): Permit -> nat {
    (p: Permit) => if lo <= p.at < hi then p.n else 0
  }

  lemma EarlierStart(earlier: int, from: int, calls: seq<Call>)
    requires earlier <= from && Monotone(from, calls)
    ensures Monotone(earlier, calls)
  {
  }

  lemma RunOfOneCall(l: Ledger, c: Call, lo: int, hi: int)
    ensures AfterAll(l, [c]) == After(l, c) && Monotone(c.at, [c])
    ensures Window.PermittedIn(l, [c], lo, hi)
      == if c.Spend? && ReplyTo(l, c).Granted? && lo <= c.at < hi then c.n else 0
  {
    assert [c][1..] == [];
  }

  // a charge is a spend, and its permit is recorded just when the spend is granted
  lemma ChargeMakesItsCall(st: State, j: nat, lo: int, hi: int)
    requires Enabled(st, ChargeProcess(j))
    ensures var next := Next(st, ChargeProcess(j));
      var spend := Spend(st.loops[j].at.n, st.now);
      && next.now == st.now && next.ledger == After(st.ledger, spend)
      && Sum(next.permits, Within(lo, hi)) == Sum(st.permits, Within(lo, hi))
         + if ReplyTo(st.ledger, spend).Granted? && lo <= st.now < hi then spend.n else 0
  {
    SumAppend(st.permits, Permit(st.now, st.loops[j].at.n), Within(lo, hi));
  }

  lemma OtherActionsPermitNothing(st: State, a: Action)
    requires Enabled(st, a) && !a.ChargeProcess?
    ensures Next(st, a).permits == st.permits && st.now <= Next(st, a).now
    ensures forall c :: c in CallOf(st, a) ==> !c.Spend? && c.at == st.now
    ensures Next(st, a).ledger == if CallOf(st, a) == [] then st.ledger else After(st.ledger, CallOf(st, a)[0])
  {
  }

  /** One action is its call: it leaves the ledger the call leaves, and records the
      bytes the call permits at the call's time. */
  lemma ActionMakesItsCall(st: State, a: Action, lo: int, hi: int)
    requires Enabled(st, a)
    ensures var next := Next(st, a);
      && st.now <= next.now
      && next.ledger == AfterAll(st.ledger, CallOf(st, a))
      && Monotone(st.now, CallOf(st, a))
      && Sum(next.permits, Within(lo, hi))
         == Sum(st.permits, Within(lo, hi)) + Window.PermittedIn(st.ledger, CallOf(st, a), lo, hi)
  {
    if a.ChargeProcess? {
      ChargeMakesItsCall(st, a.j, lo, hi);
    } else {
      OtherActionsPermitNothing(st, a);
    }
    var call := CallOf(st, a);
    if call != [] {
      RunOfOneCall(st.ledger, call[0], lo, hi);
    }
  }

  // a run of at most one call, then the rest
  lemma OneThenRest(l: Ledger, call: seq<Call>, rest: seq<Call>, from: int, next: int, lo: int, hi: int)
    requires |call| <= 1 && from <= next
    requires call != [] ==> call[0].at == from
    requires Monotone(next, rest)
    ensures Monotone(from, call + rest)
    ensures AfterAll(l, call + rest) == AfterAll(AfterAll(l, call), rest)
    ensures Window.PermittedIn(l, call + rest, lo, hi)
         == Window.PermittedIn(l, call, lo, hi) + Window.PermittedIn(AfterAll(l, call), rest, lo, hi)
  {
    if call == [] {
      assert call + rest == rest;
    } else {
      assert (call + rest)[1..] == rest;
      assert call[1..] == [];
    }
    EarlierStart(from, next, rest);
  }

  /** One run of the machine is one run of the ledger, call by call and permit by
      permit, on a monotone clock. */
  lemma {:induction false} MachineRunsTheLedger(st: State, run: seq<Action>, lo: int, hi: int)
    requires Runs(st, run)
    ensures var calls := CallsOf(st, run);
      && Monotone(st.now, calls)
      && Final(st, run).ledger == AfterAll(st.ledger, calls)
      && Sum(Final(st, run).permits, Within(lo, hi))
         == Sum(st.permits, Within(lo, hi)) + Window.PermittedIn(st.ledger, calls, lo, hi)
    decreases |run|
  {
    if run != [] {
      var next := Next(st, run[0]);
      MachineRunsTheLedger(next, run[1..], lo, hi);
      ActionMakesItsCall(st, run[0], lo, hi);
      OneThenRest(st.ledger, CallOf(st, run[0]), CallsOf(next, run[1..]), st.now, next.now, lo, hi);
    }
  }

  /** Over any run of the process, under every interleaving of any number of
      sessions and loops, the bytes echoed in any half-open k-day interval are at
      most k + 1 windows' worth, below the ceiling each. */
  lemma ProcessEgressInAnyDays(server: Server, now: int, run: seq<Action>, lo: int, k: nat)
    requires Runs(Start(server, now), run)
    ensures Sum(Final(Start(server, now), run).permits, Within(lo, lo + k * DAY)) <= (k + 1) * (CEILING - 1)
  {
    var hi := lo + k * DAY;
    var calls := CallsOf(Start(server, now), run);
    MachineRunsTheLedger(Start(server, now), run, lo, hi);
    assert Sum(Final(Start(server, now), run).permits, Within(lo, hi)) == Window.PermittedIn(Fresh(now), calls, lo, hi);
    Window.EgressInAnyDays(Fresh(now), calls, now, lo, k);
  }

  lemma ChargedInTurn(call: seq<Call>, rest: seq<Call>)
    requires |call| <= 1
    ensures Window.Charged(call + rest) == Window.Charged(call) + Window.Charged(rest)
  {
    if call == [] {
      assert call + rest == rest;
    } else {
      assert (call + rest)[1..] == rest && call[1..] == [];
    }
  }

  lemma {:induction false} SpentIsCharged(st: State, run: seq<Action>)
    requires Runs(st, run)
    ensures Final(st, run).spent == st.spent + Window.Charged(CallsOf(st, run))
    decreases |run|
  {
    if run != [] {
      SpentIsCharged(Next(st, run[0]), run[1..]);
      ChargedInTurn(CallOf(st, run[0]), CallsOf(Next(st, run[0]), run[1..]));
      if run[0].ChargeProcess? {
        assert CallOf(st, run[0])[1..] == [];
      }
    }
  }

  /** No byte is lost between windows: what the open window counts, and what each closed
      one had counted when it was rolled off, is every byte the sessions accepted but
      for those between the two steps of a charge. */
  lemma WindowsHoldAllCharges(server: Server, now: int, run: seq<Action>)
    requires Runs(Start(server, now), run)
    ensures var st := Final(Start(server, now), run);
      var rolledOff := Window.RolledOff(Fresh(now), CallsOf(Start(server, now), run));
      && st.ledger.echoed + rolledOff == st.spent
      && st.ledger.echoed + rolledOff + Sum(st.loops, InFlight()) == Sum(st.sessions, Accepted())
  {
    SpentIsCharged(Start(server, now), run);
    MachineRunsTheLedger(Start(server, now), run, 0, 0);
    Window.WindowsAccountForAll(Fresh(now), CallsOf(Start(server, now), run));
    EchoCharges.ChargesConserved(server, now, run);
  }

  /** The permits the bound counts are all that the loops were ever permitted. */
  lemma PermitsAreAllTheEcho(server: Server, now: int, run: seq<Action>)
    requires Runs(Start(server, now), run)
    ensures var st := Final(Start(server, now), run);
      Sum(st.permits, Size()) == Sum(st.loops, Permitted())
  {
    EchoCharges.RunKeepsCharges(Start(server, now), run);
  }
}
