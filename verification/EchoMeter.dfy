/** The spend closure of serveEcho and the Rust charge: the session's atomic counter
    and one-slot channel, then the shared budget. Run without interruption it is
    exactly the machine's ChargeSession, ChargeProcess and Report in a row. */
module EchoMeter {
  import opened Wrappers
  import opened Ledger
  import opened EchoMachine
  import RustTwin

  /** What one whole charge leaves: the counter, the channel, the ledger, the answer. */
  datatype Outcome = Outcome(counter: nat, stopped: Option<Reason>, ledger: Ledger, ok: bool)

  function Put(channel: Option<Reason>, why: Reason): Option<Reason> {
    if channel.None? then Some(why) else channel
  }

  function AfterCharge(counter: nat, stopped: Option<Reason>, l: Ledger, probe: bool, n: nat, now: int): Outcome {
    if counter + n > BudgetOf(probe) then Outcome(counter + n, Put(stopped, EchoBudget), l, false)
    else
      var (l', ok) := Spent(l, n, now);
      Outcome(counter + n, if ok then stopped else Put(stopped, Ceiling), l', ok)
  }

  class Meter {
    const probe: bool
    const limits: Budgets
    var echoed: nat
    var stopped: Option<Reason>

    constructor (limits: Budgets, probe: bool)
      ensures this.limits == limits && this.probe == probe
      ensures echoed == 0 && stopped.None?
    {
      this.limits, this.probe, echoed, stopped := limits, probe, 0, None;
    }

    method Stop(why: Reason)
      modifies `stopped
      ensures stopped == Put(old(stopped), why)
    {
      if stopped.None? {
        stopped := Some(why);
      }
    }

    method Spend(n: nat, now: int) returns (ok: bool)
      modifies this, limits
      ensures Outcome(echoed, stopped, limits.Value(), ok)
           == AfterCharge(old(echoed), old(stopped), old(limits.Value()), probe, n, now)
    {
      echoed := echoed + n;
      if echoed > BudgetOf(probe) {
        Stop(EchoBudget);
        return false;
      }
      var under := limits.TrySpend(n, now);
      if !under {
        Stop(Ceiling);
        return false;
      }
      return true;
    }
  }

  /** The Rust twin, which names the refusal instead of reporting it. */
  class RustMeter {
    const limits: RustTwin.RustBudgets
    var echoed: nat

    constructor (limits: RustTwin.RustBudgets)
      ensures this.limits == limits && echoed == 0
    {
      this.limits, echoed := limits, 0;
    }

    method Charge(n: nat, now: int) returns (refusal: Option<Reason>)
      requires limits.Valid()
      modifies this, limits
      ensures limits.Valid()
      ensures Outcome(echoed, refusal, limits.Value(), refusal.None?)
           == AfterCharge(old(echoed), None, old(limits.Value()), false, n, now)
    {
      echoed := echoed + n;
      if echoed > SESSION_ECHO_BUDGET {
        return Some(EchoBudget);
      }
      var under := limits.TrySpend(n, now);
      if !under {
        return Some(Ceiling);
      }
      return None;
    }
  }

  /** The actions one loop takes when nothing interrupts its charge. */
  function ChargeRun(st: State, j: nat, n: nat): seq<Action>
    requires j < |st.loops| && st.loops[j].session < |st.sessions|
  {
    var s := st.sessions[st.loops[j].session];
    if s.counter + n > BudgetOf(s.probe) then [ChargeSession(j, n), Report(j)]
    else if Spent(st.ledger, n, st.now).1 then [ChargeSession(j, n), ChargeProcess(j)]
    else [ChargeSession(j, n), ChargeProcess(j), Report(j)]
  }

  lemma RunOfOne(st: State, a: Action)
    requires Enabled(st, a)
    ensures Runs(st, [a]) && Final(st, [a]) == Next(st, a)
  {
    assert [a][1..] == [];
  }

  lemma RunOfTwo(st: State, a: Action, b: Action)
    requires Enabled(st, a) && Enabled(Next(st, a), b)
    ensures Runs(st, [a, b]) && Final(st, [a, b]) == Next(Next(st, a), b)
  {
    RunOfOne(Next(st, a), b);
    assert [a, b][1..] == [b];
  }

  lemma RunOfThree(st: State, a: Action, b: Action, c: Action)
    requires Enabled(st, a) && Enabled(Next(st, a), b) && Enabled(Next(Next(st, a), b), c)
    ensures Runs(st, [a, b, c]) && Final(st, [a, b, c]) == Next(Next(Next(st, a), b), c)
  {
    RunOfTwo(Next(st, a), b, c);
    assert [a, b, c][1..] == [b, c];
  }

  lemma SessionSpeaksFirst(st: State, j: nat, n: nat)
    requires Enabled(st, ChargeSession(j, n))
    ensures var i := st.loops[j].session;
      var s := st.sessions[i];
      var next := Next(st, ChargeSession(j, n));
      && |next.sessions| == |st.sessions| && |next.loops| == |st.loops|
      && next.server == st.server && next.now == st.now && next.ledger == st.ledger
      && next.loops[j].session == i && next.loops[j].datagram == st.loops[j].datagram
      && next.sessions[i].counter == s.counter + n && next.sessions[i].stopped == s.stopped
      && next.loops[j].at == if s.counter + n > BudgetOf(s.probe) then Stopping(EchoBudget) else At.Charged(n)
  {
  }

  lemma ProcessSpeaksNext(st: State, j: nat)
    requires Enabled(st, ChargeProcess(j))
    ensures var next := Next(st, ChargeProcess(j));
      && next.server == st.server && next.sessions == st.sessions && |next.loops| == |st.loops|
      && next.loops[j].session == st.loops[j].session && next.loops[j].datagram == st.loops[j].datagram
      && next.ledger == Spent(st.ledger, st.loops[j].at.n, st.now).0
      && next.loops[j].at == if Spent(st.ledger, st.loops[j].at.n, st.now).1 then Reading else Stopping(Ceiling)
  {
  }

  lemma ReportSpeaksLast(st: State, j: nat)
    requires Enabled(st, Report(j))
    ensures var i := st.loops[j].session;
      var next := Next(st, Report(j));
      && |next.sessions| == |st.sessions| && |next.loops| == |st.loops| && next.ledger == st.ledger
      && next.sessions[i].counter == st.sessions[i].counter
      && next.sessions[i].stopped == Put(st.sessions[i].stopped, st.loops[j].at.why)
      && next.loops[j].at == Done
  {
  }

  /** The uninterrupted charge is a run of the machine and leaves what Spend leaves. */
  lemma UninterruptedCharge(st: State, j: nat, n: nat)
    requires Enabled(st, ChargeSession(j, n)) && (st.server.Go? || !st.loops[j].datagram)
    ensures Runs(st, ChargeRun(st, j, n))
    ensures var i := st.loops[j].session;
      var s := st.sessions[i];
      var end := Final(st, ChargeRun(st, j, n));
      && i < |end.sessions| && j < |end.loops|
      && Outcome(end.sessions[i].counter, end.sessions[i].stopped, end.ledger, end.loops[j].at.Reading?)
         == AfterCharge(s.counter, s.stopped, st.ledger, s.probe, n, st.now)
  {
    var s := st.sessions[st.loops[j].session];
    var a, b := ChargeSession(j, n), ChargeProcess(j);
    SessionSpeaksFirst(st, j, n);
    if s.counter + n > BudgetOf(s.probe) {
      ReportSpeaksLast(Next(st, a), j);
      RunOfTwo(st, a, Report(j));
    } else {
      ProcessSpeaksNext(Next(st, a), j);
      if Spent(st.ledger, n, st.now).1 {
        RunOfTwo(st, a, b);
      } else {
        ReportSpeaksLast(Next(Next(st, a), b), j);
        RunOfThree(st, a, b, Report(j));
      }
    }
  }
}
