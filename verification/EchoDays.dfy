/** How much a day can see, by runs of the whole process: sessions that are admitted, echo
    what a stream and a budget allow, and leave. The bounds proved of the shared budget
    are met by what the echo loops can really do. */
module EchoDays {
  import opened Sums
  import opened Ledger
  import opened EchoMachine
  import opened EchoRuns
  import EchoEgress
  import EchoMeter
  import Window

  /** A whole window in one moment: 2047 sessions' budgets, and all but a byte of one more. */
  lemma FillWindow(st: State, address: Address, lo: int, hi: int) returns (run: seq<Action>)
    requires address !in st.ledger.sessions && Rolled(st.ledger, st.now).echoed == 0 && lo <= st.now < hi
    ensures Runs(st, run) && Passed(st, Final(st, run), CEILING - 1, lo, hi)
  {
    assert 2047 * SESSION_ECHO_BUDGET + 31 * STREAM_BUFFER + (STREAM_BUFFER - 1) == CEILING - 1;
    var most := SessionsEcho(st, address, 2047, lo, hi);
    var last := SessionEchoes(Final(st, most), address, 31, STREAM_BUFFER - 1, lo, hi);
    RunsAppend(st, most, last);
    run := most + last;
  }

  lemma WaitThen(st: State, d: nat, rest: seq<Action>)
    requires Runs(Next(st, Tick(d)), rest)
    ensures Runs(st, [Tick(d)] + rest) && Final(st, [Tick(d)] + rest) == Final(Next(st, Tick(d)), rest)
  {
    assert ([Tick(d)] + rest)[1..] == rest;
  }

  // a window as each of the days begins
  lemma {:induction false} FillDaily(st: State, address: Address, days: nat, lo: int, hi: int)
    returns (run: seq<Action>)
    requires address !in st.ledger.sessions && st.now - st.ledger.windowAt >= DAY
    requires lo <= st.now && st.now + days * DAY < hi + DAY
    ensures Runs(st, run)
    ensures SeenIn(Final(st, run), lo, hi) == SeenIn(st, lo, hi) + days * (CEILING - 1)
    decreases days
  {
    run := [];
    if days > 0 {
      var today := FillWindow(st, address, lo, hi);
      var evening := Final(st, today);
      var rest := FillDaily(Next(evening, Tick(DAY)), address, days - 1, lo, hi);
      WaitThen(evening, DAY, rest);
      RunsAppend(st, today, [Tick(DAY)] + rest);
      run := today + ([Tick(DAY)] + rest);
    }
  }

  /** The bound on any k days is exact: a run of a fresh process of either kind fills its
      window a nanosecond before it ends, and each of the k following ones as it opens. */
  lemma EgressBoundIsAttained(server: Server, now: int, address: Address, k: nat) returns (run: seq<Action>)
    requires k > 0
    ensures var lo, st := now + DAY - 1, Start(server, now);
      && Runs(st, run)
      && SeenIn(Final(st, run), lo, lo + k * DAY) == (k + 1) * (CEILING - 1)
      && Window.PermittedIn(Fresh(now), EchoEgress.CallsOf(st, run), lo, lo + k * DAY) == (k + 1) * (CEILING - 1)
  {
    var st, lo := Start(server, now), now + DAY - 1;
    var hi := lo + k * DAY;
    var eve := Next(st, Tick(DAY - 1));
    var first := FillWindow(eve, address, lo, hi);
    var mid := Final(eve, first);
    var rest := FillDaily(Next(mid, Tick(1)), address, k, lo, hi);
    WaitThen(mid, 1, rest);
    RunsAppend(eve, first, [Tick(1)] + rest);
    run := first + ([Tick(1)] + rest);
    WaitThen(st, DAY - 1, run);
    run := [Tick(DAY - 1)] + run;
    EchoEgress.MachineRunsTheLedger(st, run, lo, hi);
  }

  /** Whatever the process does next, the day that begins now sees less than the ceiling
      the documentation promises for a day. */
  ghost predicate DayIsSafe(st: State) {
    forall run :: Runs(st, run) ==>
      SeenIn(Final(st, run), st.now, st.now + DAY) < SeenIn(st, st.now, st.now + DAY) + CEILING
  }

  // no address of a finite map is longer than this one
  lemma {:induction false} UnusedAddress(addresses: set<Address>) returns (a: Address)
    ensures forall b :: b in addresses ==> |b| < |a|
  {
    if addresses == {} {
      a := "a";
    } else {
      var b :| b in addresses;
      a := UnusedAddress(addresses - {b});
      a := a + b;
      a := a + "a";
    }
  }

  // a byte now, and a whole window when the open one has run out
  lemma DayCanSeeTheCeiling(st: State) returns (run: seq<Action>)
    requires st.ledger.windowAt < st.now < st.ledger.windowAt + DAY && st.ledger.echoed < CEILING - 1
    ensures Runs(st, run)
    ensures SeenIn(Final(st, run), st.now, st.now + DAY) == SeenIn(st, st.now, st.now + DAY) + CEILING
  {
    var lo, hi := st.now, st.now + DAY;
    var address := UnusedAddress(st.ledger.sessions.Keys);
    var one := SessionEchoes(st, address, 0, 1, lo, hi);
    var mid := Final(st, one);
    var wait := st.ledger.windowAt + DAY - st.now;
    var window := FillWindow(Next(mid, Tick(wait)), address, lo, hi);
    WaitThen(mid, wait, window);
    RunsAppend(st, one, [Tick(wait)] + window);
    run := one + ([Tick(wait)] + window);
  }

  // what the next result asks of a state holds in all that are reachable
  lemma {:induction false} WindowIsNotAhead(st: State, run: seq<Action>)
    requires Runs(st, run) && st.ledger.windowAt <= st.now
    ensures Final(st, run).ledger.windowAt <= Final(st, run).now
    decreases |run|
  {
    if run != [] {
      WindowIsNotAhead(Next(st, run[0]), run[1..]);
    }
  }

  /** When the process keeps that promise: exactly when the day begins with the open
      window, or after it has run out, or when that window has nothing left to permit. */
  lemma DayIsSafeExactly(st: State)
    requires st.ledger.windowAt <= st.now
    ensures DayIsSafe(st) <==>
      st.now == st.ledger.windowAt || st.now >= st.ledger.windowAt + DAY || st.ledger.echoed >= CEILING - 1
  {
    var lo, hi := st.now, st.now + DAY;
    if lo == st.ledger.windowAt || lo >= st.ledger.windowAt + DAY || st.ledger.echoed >= CEILING - 1 {
      forall run | Runs(st, run) ensures SeenIn(Final(st, run), lo, hi) < SeenIn(st, lo, hi) + CEILING {
        EchoEgress.MachineRunsTheLedger(st, run, lo, hi);
        Window.SafeDay(st.ledger, EchoEgress.CallsOf(st, run), lo);
      }
    } else {
      var run := DayCanSeeTheCeiling(st);
      assert !(SeenIn(Final(st, run), lo, hi) < SeenIn(st, lo, hi) + CEILING);
    }
  }
}
