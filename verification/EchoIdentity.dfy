/** What no step of the machine changes about a session, or about a loop that is over. */
module EchoIdentity {
  import opened EchoMachine

  // what a session is never changes, nor, once it is served, since when it has been
  predicate SameSession(s: Session, t: Session) {
    t.address == s.address && t.probe == s.probe && (Served(s) ==> Served(t) && t.liveAt == s.liveAt)
  }

  lemma NextKeepsSession(st: State, a: Action, i: nat)
    requires Enabled(st, a) && i < |st.sessions|
    ensures i < |Next(st, a).sessions| && SameSession(st.sessions[i], Next(st, a).sessions[i])
  {
  }

  lemma {:induction false} RunKeepsSession(st: State, run: seq<Action>, i: nat)
    requires Runs(st, run) && i < |st.sessions|
    ensures i < |Final(st, run).sessions| && SameSession(st.sessions[i], Final(st, run).sessions[i])
    decreases |run|
  {
    if run != [] {
      NextKeepsSession(st, run[0], i);
      RunKeepsSession(Next(st, run[0]), run[1..], i);
    }
  }

  lemma {:induction false} DoneStaysDone(st: State, run: seq<Action>, j: nat)
    requires Runs(st, run) && j < |st.loops| && st.loops[j].at.Done?
    ensures j < |Final(st, run).loops| && Final(st, run).loops[j] == st.loops[j]
    decreases |run|
  {
    if run != [] {
      DoneStaysDone(Next(st, run[0]), run[1..], j);
    }
  }

  /** A loop that returns, reports or breaks off is over: no run moves it again, and what
      it had counted stays. */
  lemma LoopsEndForGood(st: State, a: Action, run: seq<Action>)
    requires (a.LoopEnds? || a.Report? || a.BreakOff?) && Enabled(st, a) && Runs(Next(st, a), run)
    ensures a.j < |Final(Next(st, a), run).loops|
    ensures Final(Next(st, a), run).loops[a.j] == st.loops[a.j].(at := Done)
  {
    DoneStaysDone(Next(st, a), run, a.j);
  }
}
