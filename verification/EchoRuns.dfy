/** Pieces that runs of the machine are built from: a session that is admitted, echoes so
    many bytes on one stream, and leaves; and so many of those one after the other. */
module EchoRuns {
  import opened Sums
  import opened Ledger
  import opened EchoMachine
  import EchoEgress
  import EchoMeter

  lemma {:induction false} RunsAppend(st: State, run: seq<Action>, more: seq<Action>)
    requires Runs(st, run) && Runs(Final(st, run), more)
    ensures Runs(st, run + more) && Final(st, run + more) == Final(Final(st, run), more)
    decreases |run|
  {
    if run == [] {
      assert run + more == more;
    } else {
      RunsAppend(Next(st, run[0]), run[1..], more);
      assert (run + more)[1..] == run[1..] + more;
    }
  }

  function SeenIn(st: State, lo: int, hi: int): nat {
    Sum(st.permits, EchoEgress.Within(lo, hi))
  }

  // what a loop's permitted charges change: its own numbers, its session's, the window's
  predicate Echoed(st: State, end: State, j: nat, n: nat) {
    && j < |st.loops| && |end.loops| == |st.loops| && st.loops[j].session < |st.sessions|
    && end.server == st.server && end.now == st.now
    && end.ledger == st.ledger.(echoed := st.ledger.echoed + n)
    && end.loops == st.loops[j := end.loops[j]]
    && end.loops[j] == st.loops[j].(permitted := st.loops[j].permitted + n)
    && var i := st.loops[j].session;
       end.sessions == st.sessions[i := st.sessions[i].(counter := st.sessions[i].counter + n,
                                                         accepted := st.sessions[i].accepted + n)]
  }

  // room for n more bytes of a stream, in its session and in the open window
  predicate HasRoom(st: State, j: nat, n: nat) {
    && j < |st.loops| && st.loops[j].at.Reading? && !st.loops[j].datagram
    && st.loops[j].session < |st.sessions|
    && st.sessions[st.loops[j].session].counter + n <= BudgetOf(st.sessions[st.loops[j].session].probe)
    && st.now - st.ledger.windowAt < DAY && st.ledger.echoed + n < CEILING
  }

  lemma OneCharge(st: State, j: nat, n: nat, lo: int, hi: int) returns (run: seq<Action>)
    requires HasRoom(st, j, n) && n <= STREAM_BUFFER && lo <= st.now < hi
    ensures Runs(st, run) && Echoed(st, Final(st, run), j, n)
    ensures SeenIn(Final(st, run), lo, hi) == SeenIn(st, lo, hi) + n
  {
    var mid := Next(st, ChargeSession(j, n));
    EchoMeter.RunOfTwo(st, ChargeSession(j, n), ChargeProcess(j));
    var end := Next(mid, ChargeProcess(j));
    assert end.loops == st.loops[j := end.loops[j]];
    SumAppend(st.permits, Permit(st.now, n), EchoEgress.Within(lo, hi));
    run := [ChargeSession(j, n), ChargeProcess(j)];
  }

  lemma EchoedInTurn(st: State, mid: State, end: State, j: nat, m: nat, n: nat)
    requires Echoed(st, mid, j, m) && Echoed(mid, end, j, n)
    ensures Echoed(st, end, j, m + n)
  {
  }

  lemma RoomLeft(st: State, mid: State, j: nat, m: nat, n: nat)
    requires HasRoom(st, j, m + n) && Echoed(st, mid, j, m)
    ensures HasRoom(mid, j, n)
  {
  }

  /** m full buffers, then n bytes more. */
  lemma {:induction false} ManyCharges(st: State, j: nat, m: nat, n: nat, lo: int, hi: int) returns (run: seq<Action>)
    requires HasRoom(st, j, m * STREAM_BUFFER + n) && n <= STREAM_BUFFER && lo <= st.now < hi
    ensures Runs(st, run) && Echoed(st, Final(st, run), j, m * STREAM_BUFFER + n)
    ensures SeenIn(Final(st, run), lo, hi) == SeenIn(st, lo, hi) + m * STREAM_BUFFER + n
    decreases m
  {
    if m == 0 {
      run := OneCharge(st, j, n, lo, hi);
    } else {
      var left := (m - 1) * STREAM_BUFFER + n;
      var first := OneCharge(st, j, STREAM_BUFFER, lo, hi);
      var mid := Final(st, first);
      RoomLeft(st, mid, j, STREAM_BUFFER, left);
      var rest := ManyCharges(mid, j, m - 1, n, lo, hi);
      EchoedInTurn(st, mid, Final(mid, rest), j, STREAM_BUFFER, left);
      RunsAppend(st, first, rest);
      run := first + rest;
    }
  }

  // a session with one stream open, nothing charged
  predicate Opened(st: State, end: State, address: Address) {
    && |end.sessions| == |st.sessions| + 1 && |end.loops| == |st.loops| + 1
    && end.server == st.server && end.now == st.now && end.permits == st.permits
    && end.ledger == Rolled(st.ledger, st.now).(sessions := st.ledger.sessions[address := 1])
    && end.sessions[|st.sessions|] == Admitted(address, false, st.now).(phase := Live, liveAt := st.now)
    && end.loops[|st.loops|] == Loop(|st.sessions|, false, Reading, 0, 0, 0, 0)
  }

  // the address holds no slot, and the window, rolled if it is due, has room for n bytes
  predicate CanEcho(st: State, address: Address, n: nat) {
    address !in st.ledger.sessions && Rolled(st.ledger, st.now).echoed + n < CEILING
  }

  lemma OpenOne(st: State, address: Address) returns (run: seq<Action>)
    requires CanEcho(st, address, 0)
    ensures Runs(st, run) && Opened(st, Final(st, run), address)
  {
    var i := |st.sessions|;
    EchoMeter.RunOfThree(st, Admit(address, false), UpgradeSucceeds(i), OpenLoop(i, false));
    run := [Admit(address, false), UpgradeSucceeds(i), OpenLoop(i, false)];
  }

  lemma CloseOne(st: State, i: nat, others: map<Address, nat>) returns (run: seq<Action>)
    requires i < |st.sessions| && st.sessions[i].phase == Live && st.sessions[i].address !in others
    requires st.ledger.sessions == others[st.sessions[i].address := 1]
    ensures Runs(st, run)
    ensures var end := Final(st, run);
      && end.server == st.server && end.now == st.now && end.permits == st.permits
      && end.ledger == st.ledger.(sessions := others)
  {
    EchoMeter.RunOfTwo(st, PeerLeaves(i), WatcherReleases(i));
    run := [PeerLeaves(i), WatcherReleases(i)];
    assert others[st.sessions[i].address := 1] - {st.sessions[i].address} == others;
  }

  // n more bytes in the window, and in an interval that holds this moment
  predicate Passed(st: State, end: State, n: nat, lo: int, hi: int) {
    && end.server == st.server && end.now == st.now
    && Rolled(end.ledger, end.now) == Rolled(st.ledger, st.now).(echoed := Rolled(st.ledger, st.now).echoed + n)
    && SeenIn(end, lo, hi) == SeenIn(st, lo, hi) + n
  }

  /** One session echoes m buffers and n bytes, within its budget, and leaves. */
  lemma SessionEchoes(st: State, address: Address, m: nat, n: nat, lo: int, hi: int) returns (run: seq<Action>)
    requires CanEcho(st, address, m * STREAM_BUFFER + n)
    requires m * STREAM_BUFFER + n <= SESSION_ECHO_BUDGET && n <= STREAM_BUFFER && lo <= st.now < hi
    ensures Runs(st, run) && Passed(st, Final(st, run), m * STREAM_BUFFER + n, lo, hi)
  {
    var opening := OpenOne(st, address);
    var a := Final(st, opening);
    var charging := ManyCharges(a, |st.loops|, m, n, lo, hi);
    var b := Final(a, charging);
    var closing := CloseOne(b, |st.sessions|, st.ledger.sessions);
    RunsAppend(a, charging, closing);
    RunsAppend(st, opening, charging + closing);
    run := opening + (charging + closing);
  }

  /** k sessions, each of which echoes its whole budget. */
  lemma {:induction false} SessionsEcho(st: State, address: Address, k: nat, lo: int, hi: int)
    returns (run: seq<Action>)
    requires CanEcho(st, address, k * SESSION_ECHO_BUDGET) && lo <= st.now < hi
    ensures Runs(st, run) && Passed(st, Final(st, run), k * SESSION_ECHO_BUDGET, lo, hi)
    decreases k
  {
    run := [];
    if k > 0 {
      assert 31 * STREAM_BUFFER + STREAM_BUFFER == SESSION_ECHO_BUDGET;
      var first := SessionEchoes(st, address, 31, STREAM_BUFFER, lo, hi);
      var rest := SessionsEcho(Final(st, first), address, k - 1, lo, hi);
      RunsAppend(st, first, rest);
      run := first + rest;
    }
  }
}
