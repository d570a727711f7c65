/** The bytes that go out. A loop writes a chunk only after both budgets let it through,
    and reads again only after that write, so what all loops write is bounded as what
    they are permitted is, but for a chunk a loop that an interval finds waiting. */
module EchoWrites {
  import opened Sums
  import opened Ledger
  import opened EchoMachine
  import EchoCharges
  import EchoEgress

  /** One loop's permits, and its writes in answer to them. */
  datatype Sender = Sender(grants: seq<Permit>, writes: seq<Permit>)

  datatype Process = Process(base: State, senders: seq<Sender>)

  /** A step of the machine, or the write of what a loop was last permitted. */
  datatype Step =
    | Base(a: Action)
    | Write(j: nat, n: nat, failed: bool)

  function Begin(server: Server, now: int): Process {
    Process(Start(server, now), [])
  }

  predicate Waiting(s: Sender) {
    |s.grants| > |s.writes|
  }

  predicate CanStep(p: Process, s: Step) {
    match s
    // a loop with a chunk in hand writes it before it reads or returns
    case Base(a) =>
      Enabled(p.base, a)
      && ((a.ChargeSession? || a.LoopEnds?) && a.j < |p.senders| ==> !Waiting(p.senders[a.j]))
    case Write(j, n, failed) =>
      j < |p.senders| && j < |p.base.loops| && Waiting(p.senders[j]) && p.base.loops[j].at.Reading?
      && n <= p.senders[j].grants[|p.senders[j].writes|].n
      && (!failed ==> n == p.senders[j].grants[|p.senders[j].writes|].n)
  }

  predicate Grants(st: State, a: Action)
    requires Enabled(st, a)
  {
    a.ChargeProcess? && Spent(st.ledger, st.loops[a.j].at.n, st.now).1
  }

  function Told(senders: seq<Sender>, j: nat, p: Permit): seq<Sender> {
    if j < |senders| then senders[j := senders[j].(grants := senders[j].grants + [p])] else senders
  }

  function Stepped(p: Process, s: Step): Process
    requires CanStep(p, s)
  {
    match s
    case Base(a) =>
      Process(Next(p.base, a),
              if a.OpenLoop? then p.senders + [Sender([], [])]
              else if Grants(p.base, a) then Told(p.senders, a.j, Permit(p.base.now, p.base.loops[a.j].at.n))
              else p.senders)
    case Write(j, n, failed) =>
      var sender := p.senders[j];
      Process(
        // a failed write ends a stream's loop; a datagram that cannot be sent is dropped
        if failed && !p.base.loops[j].datagram then Next(p.base, LoopEnds(j)) else p.base,
        p.senders[j := sender.(writes := sender.writes + [Permit(p.base.now, n)])])
  }

  predicate Steps(p: Process, steps: seq<Step>)
    decreases |steps|
  {
    steps == [] || (CanStep(p, steps[0]) && Steps(Stepped(p, steps[0]), steps[1..]))
  }

  function After(p: Process, steps: seq<Step>): Process
    requires Steps(p, steps)
    decreases |steps|
  {
    if steps == [] then p else After(Stepped(p, steps[0]), steps[1..])
  }

  /** The machine's own actions in a run of this process. */
  function Actions(p: Process, steps: seq<Step>): seq<Action>
    requires Steps(p, steps)
    decreases |steps|
  {
    if steps == [] then []
    else
      (match steps[0]
       case Base(a) => [a]
       case Write(j, _, failed) => if failed && !p.base.loops[j].datagram then [LoopEnds(j)] else [])
      + Actions(Stepped(p, steps[0]), steps[1..])
  }

  lemma {:induction false} StepsAreARun(p: Process, steps: seq<Step>)
    requires Steps(p, steps)
    ensures Runs(p.base, Actions(p, steps)) && Final(p.base, Actions(p, steps)) == After(p, steps).base
    decreases |steps|
  {
    if steps != [] {
      var rest := Actions(Stepped(p, steps[0]), steps[1..]);
      StepsAreARun(Stepped(p, steps[0]), steps[1..]);
      if Actions(p, steps) != rest {
        assert Actions(p, steps)[1..] == rest;
      } else {
        assert [] + rest == rest;
      }
    }
  }

  // --- one loop: its writes follow its permits one by one ---

  ghost predicate InTurn(s: Sender, now: int) {
    && |s.writes| <= |s.grants| <= |s.writes| + 1
    && (forall m :: 0 <= m < |s.grants| ==> s.grants[m].n <= MAX_CHUNK && s.grants[m].at <= now)
    && (forall m :: 0 <= m < |s.writes| ==>
          s.writes[m].n <= s.grants[m].n && s.grants[m].at <= s.writes[m].at <= now)
    && (forall l, m :: 0 <= l < m < |s.grants| ==> s.writes[l].at <= s.grants[m].at)
  }

  function PermittedIn(lo: int, hi: int): Sender -> nat {
    (s: Sender) => Sum(s.grants, EchoEgress.Within(lo, hi))
  }

  function WrittenIn(lo: int, hi: int): Sender -> nat {
    (s: Sender) => Sum(s.writes, EchoEgress.Within(lo, hi))
  }

  /** A chunk permitted before the interval and written in it. */
  predicate IsLate(s: Sender, k: nat, lo: int, hi: int) {
    k < |s.grants| && k < |s.writes| && s.grants[k].at < lo <= s.writes[k].at < hi
  }

  predicate Late(s: Sender, lo: int, hi: int) {
    exists k :: 0 <= k < |s.writes| && IsLate(s, k, lo, hi)
  }

  function LateChunk(lo: int, hi: int): Sender -> nat {
    (s: Sender) => if Late(s, lo, hi) then MAX_CHUNK else 0
  }

  // the first m writes against the permits they answer; before a late one none counts
  lemma {:induction false} FirstWrites(s: Sender, now: int, lo: int, hi: int, m: nat)
    requires InTurn(s, now) && m <= |s.writes|
    ensures Sum(s.writes[..m], EchoEgress.Within(lo, hi))
      <= Sum(s.grants[..m], EchoEgress.Within(lo, hi)) + LateChunk(lo, hi)(s)
  {
    if m > 0 {
      assert s.writes[..m][..m - 1] == s.writes[..m - 1] && s.grants[..m][..m - 1] == s.grants[..m - 1];
      if IsLate(s, m - 1, lo, hi) {
        SumZero(s.writes[..m - 1], EchoEgress.Within(lo, hi));
      } else {
        FirstWrites(s, now, lo, hi, m - 1);
      }
    }
  }

  lemma {:induction false} PrefixSum<T>(s: seq<T>, m: nat, f: T -> nat)
    requires m <= |s|
    ensures Sum(s[..m], f) <= Sum(s, f)
  {
    if m < |s| {
      PrefixSum(s[..|s| - 1], m, f);
      assert s[..|s| - 1][..m] == s[..m];
    } else {
      assert s[..m] == s;
    }
  }

  lemma OneLoopWrites(s: Sender, now: int, lo: int, hi: int)
    requires InTurn(s, now)
    ensures WrittenIn(lo, hi)(s) <= PermittedIn(lo, hi)(s) + LateChunk(lo, hi)(s)
  {
    FirstWrites(s, now, lo, hi, |s.writes|);
    assert s.writes[..|s.writes|] == s.writes;
    PrefixSum(s.grants, |s.writes|, EchoEgress.Within(lo, hi));
  }

  lemma {:induction false} AllLoopsWrite(senders: seq<Sender>, now: int, lo: int, hi: int)
    requires forall j :: 0 <= j < |senders| ==> InTurn(senders[j], now)
    ensures Sum(senders, WrittenIn(lo, hi)) <= Sum(senders, PermittedIn(lo, hi)) + Sum(senders, LateChunk(lo, hi))
  {
    if senders != [] {
      AllLoopsWrite(senders[..|senders| - 1], now, lo, hi);
      OneLoopWrites(senders[|senders| - 1], now, lo, hi);
    }
  }

  // --- all of them: the senders' permits are the machine's ---

  // one loop and what it has been told and has written
  ghost predicate Fits(s: Sender, l: Loop, now: int) {
    InTurn(s, now) && (Waiting(s) ==> l.at.Reading?) && Sum(s.grants, Size()) == l.permitted
  }

  ghost predicate SendersFit(p: Process) {
    && |p.senders| == |p.base.loops|
    && forall j :: 0 <= j < |p.senders| ==> Fits(p.senders[j], p.base.loops[j], p.base.now)
  }

  ghost predicate PermitsAgree(p: Process, lo: int, hi: int) {
    Sum(p.base.permits, EchoEgress.Within(lo, hi)) == Sum(p.senders, PermittedIn(lo, hi))
  }

  lemma LoopsMove(st: State, a: Action)
    requires Enabled(st, a)
    ensures var next := Next(st, a);
      && st.now <= next.now
      && next.permits == (if Grants(st, a) then st.permits + [Permit(st.now, st.loops[a.j].at.n)] else st.permits)
      && |next.loops| == |st.loops| + (if a.OpenLoop? then 1 else 0)
      && (a.OpenLoop? ==> next.loops[|st.loops|].permitted == 0)
      && forall j :: 0 <= j < |st.loops| ==>
           && next.loops[j].permitted
              == st.loops[j].permitted + (if Grants(st, a) && a.j == j then st.loops[j].at.n else 0)
           && (Grants(st, a) && a.j == j ==> next.loops[j].at.Reading?)
           && (st.loops[j].at.Reading? && !((a.ChargeSession? || a.LoopEnds?) && a.j == j) ==>
                 next.loops[j].at.Reading?)
  {
  }

  lemma LaterInTurn(s: Sender, now: int, later: int)
    requires InTurn(s, now) && now <= later
    ensures InTurn(s, later)
  {
  }

  lemma GrantInTurn(s: Sender, now: int, n: nat)
    requires InTurn(s, now) && !Waiting(s) && n <= MAX_CHUNK
    ensures InTurn(s.(grants := s.grants + [Permit(now, n)]), now)
    ensures Sum(s.grants + [Permit(now, n)], Size()) == Sum(s.grants, Size()) + n
  {
    SumAppend(s.grants, Permit(now, n), Size());
  }

  lemma WriteInTurn(s: Sender, now: int, n: nat)
    requires InTurn(s, now) && Waiting(s) && n <= s.grants[|s.writes|].n
    ensures InTurn(s.(writes := s.writes + [Permit(now, n)]), now)
    ensures !Waiting(s.(writes := s.writes + [Permit(now, n)]))
  {
  }

  lemma BaseKeepsSender(p: Process, a: Action, j: nat)
    requires CanStep(p, Base(a)) && EchoCharges.LoopsOK(p.base)
    requires j < |p.senders| == |p.base.loops| && Fits(p.senders[j], p.base.loops[j], p.base.now)
    ensures j < |Next(p.base, a).loops| && j < |Stepped(p, Base(a)).senders|
    ensures Fits(Stepped(p, Base(a)).senders[j], Next(p.base, a).loops[j], Next(p.base, a).now)
  {
    LoopsMove(p.base, a);
    if Grants(p.base, a) && a.j == j {
      assert EchoCharges.OneRefusal(p.base.loops[j]);
      GrantInTurn(p.senders[j], p.base.now, p.base.loops[j].at.n);
    } else {
      LaterInTurn(p.senders[j], p.base.now, Next(p.base, a).now);
      assert Stepped(p, Base(a)).senders[j] == p.senders[j];
    }
  }

  lemma BaseKeepsSenders(p: Process, a: Action)
    requires CanStep(p, Base(a)) && SendersFit(p) && EchoCharges.LoopsOK(p.base)
    ensures SendersFit(Stepped(p, Base(a)))
  {
    var next := Stepped(p, Base(a));
    LoopsMove(p.base, a);
    forall j | 0 <= j < |next.senders| ensures Fits(next.senders[j], next.base.loops[j], next.base.now) {
      if j < |p.senders| {
        BaseKeepsSender(p, a, j);
      }
    }
  }

  lemma ToldPermits(senders: seq<Sender>, j: nat, permit: Permit, lo: int, hi: int)
    requires j < |senders|
    ensures Sum(Told(senders, j, permit), PermittedIn(lo, hi))
      == Sum(senders, PermittedIn(lo, hi)) + EchoEgress.Within(lo, hi)(permit)
  {
    SumAppend(senders[j].grants, permit, EchoEgress.Within(lo, hi));
    SumUpdate(senders, j, senders[j].(grants := senders[j].grants + [permit]), PermittedIn(lo, hi));
  }

  lemma GrantKeepsPermits(p: Process, next: Process, j: nat, permit: Permit, lo: int, hi: int)
    requires PermitsAgree(p, lo, hi) && j < |p.senders|
    requires next.base.permits == p.base.permits + [permit] && next.senders == Told(p.senders, j, permit)
    ensures PermitsAgree(next, lo, hi)
  {
    SumAppend(p.base.permits, permit, EchoEgress.Within(lo, hi));
    ToldPermits(p.senders, j, permit, lo, hi);
  }

  lemma BaseKeepsPermits(p: Process, a: Action, lo: int, hi: int)
    requires CanStep(p, Base(a)) && SendersFit(p) && PermitsAgree(p, lo, hi)
    ensures PermitsAgree(Stepped(p, Base(a)), lo, hi)
  {
    LoopsMove(p.base, a);
    if a.OpenLoop? {
      SumAppend(p.senders, Sender([], []), PermittedIn(lo, hi));
    } else if Grants(p.base, a) {
      GrantKeepsPermits(p, Stepped(p, Base(a)), a.j, Permit(p.base.now, p.base.loops[a.j].at.n), lo, hi);
    }
  }

  lemma WriteKeepsSenders(p: Process, j: nat, n: nat, failed: bool)
    requires CanStep(p, Write(j, n, failed)) && SendersFit(p)
    ensures SendersFit(Stepped(p, Write(j, n, failed)))
  {
    var next := Stepped(p, Write(j, n, failed));
    WriteInTurn(p.senders[j], p.base.now, n);
    forall k | 0 <= k < |next.senders| ensures Fits(next.senders[k], next.base.loops[k], next.base.now) {
      assert Fits(p.senders[k], p.base.loops[k], p.base.now);
    }
  }

  lemma WriteKeepsPermits(p: Process, j: nat, n: nat, failed: bool, lo: int, hi: int)
    requires CanStep(p, Write(j, n, failed)) && PermitsAgree(p, lo, hi)
    ensures PermitsAgree(Stepped(p, Write(j, n, failed)), lo, hi)
  {
    var sender := p.senders[j];
    SumUpdate(p.senders, j, sender.(writes := sender.writes + [Permit(p.base.now, n)]), PermittedIn(lo, hi));
  }

  lemma {:induction false} StepsKeepSenders(p: Process, steps: seq<Step>, lo: int, hi: int)
    requires Steps(p, steps)
    requires SendersFit(p) && PermitsAgree(p, lo, hi) && EchoCharges.Charges(p.base)
    ensures SendersFit(After(p, steps)) && PermitsAgree(After(p, steps), lo, hi)
    decreases |steps|
  {
    if steps != [] {
      match steps[0] {
        case Base(a) =>
          BaseKeepsSenders(p, a);
          BaseKeepsPermits(p, a, lo, hi);
          EchoCharges.NextKeepsCharges(p.base, a);
        case Write(j, n, failed) =>
          WriteKeepsSenders(p, j, n, failed);
          WriteKeepsPermits(p, j, n, failed, lo, hi);
          if failed && !p.base.loops[j].datagram {
            EchoCharges.NextKeepsCharges(p.base, LoopEnds(j));
          }
      }
      StepsKeepSenders(Stepped(p, steps[0]), steps[1..], lo, hi);
    }
  }

  lemma BeginFits(server: Server, now: int, lo: int, hi: int)
    ensures var p := Begin(server, now);
      SendersFit(p) && PermitsAgree(p, lo, hi) && EchoCharges.Charges(p.base)
  {
  }

  lemma WrittenWithinPermits(server: Server, now: int, steps: seq<Step>, lo: int, hi: int)
    requires Steps(Begin(server, now), steps)
    ensures var p := After(Begin(server, now), steps);
      Sum(p.senders, WrittenIn(lo, hi))
      <= Sum(p.base.permits, EchoEgress.Within(lo, hi)) + Sum(p.senders, LateChunk(lo, hi))
  {
    BeginFits(server, now, lo, hi);
    StepsKeepSenders(Begin(server, now), steps, lo, hi);
    var p := After(Begin(server, now), steps);
    forall j | 0 <= j < |p.senders| ensures InTurn(p.senders[j], p.base.now) {
      assert Fits(p.senders[j], p.base.loops[j], p.base.now);
    }
    AllLoopsWrite(p.senders, p.base.now, lo, hi);
  }

  /** Over any run of the process, what all loops of all sessions write in any half-open
      k-day interval is at most k + 1 windows' worth, and one chunk for each loop that
      was permitted it before the interval and wrote it inside. */
  lemma WrittenInAnyDays(server: Server, now: int, steps: seq<Step>, lo: int, k: nat)
    requires Steps(Begin(server, now), steps)
    ensures var p := After(Begin(server, now), steps);
      Sum(p.senders, WrittenIn(lo, lo + k * DAY))
      <= (k + 1) * (CEILING - 1) + Sum(p.senders, LateChunk(lo, lo + k * DAY))
  {
    var actions := Actions(Begin(server, now), steps);
    StepsAreARun(Begin(server, now), steps);
    EchoEgress.ProcessEgressInAnyDays(server, now, actions, lo, k);
    WrittenWithinPermits(server, now, steps, lo, lo + k * DAY);
  }

  /** What the loops of session i have written. */
  function SentTo(loops: seq<Loop>, senders: seq<Sender>, i: nat): nat
    requires |loops| == |senders|
  {
    if loops == [] then 0
    else
      var last := |loops| - 1;
      SentTo(loops[..last], senders[..last], i)
      + (if loops[last].session == i then Sum(senders[last].writes, Size()) else 0)
  }

  lemma {:induction false} WritesWithinGrants(s: Sender, now: int, m: nat)
    requires InTurn(s, now) && m <= |s.writes|
    ensures Sum(s.writes[..m], Size()) <= Sum(s.grants[..m], Size())
  {
    if m > 0 {
      WritesWithinGrants(s, now, m - 1);
      assert s.writes[..m][..m - 1] == s.writes[..m - 1] && s.grants[..m][..m - 1] == s.grants[..m - 1];
    }
  }

  lemma {:induction false} SentIsPermitted(loops: seq<Loop>, senders: seq<Sender>, now: int, i: nat)
    requires |loops| == |senders|
    requires forall j :: 0 <= j < |senders| ==>
      InTurn(senders[j], now) && Sum(senders[j].grants, Size()) == loops[j].permitted
    ensures SentTo(loops, senders, i) <= Sum(loops, PermittedOf(i))
  {
    if loops != [] {
      var s := senders[|senders| - 1];
      SentIsPermitted(loops[..|loops| - 1], senders[..|senders| - 1], now, i);
      WritesWithinGrants(s, now, |s.writes|);
      assert s.writes[..|s.writes|] == s.writes;
      PrefixSum(s.grants, |s.writes|, Size());
    }
  }

  /** No client is sent more than its session's budget, on all its streams and in all
      its datagrams together. */
  lemma SentWithinBudget(server: Server, now: int, steps: seq<Step>, i: nat)
    requires Steps(Begin(server, now), steps)
    requires i < |After(Begin(server, now), steps).base.sessions|
    ensures var p := After(Begin(server, now), steps);
      |p.senders| == |p.base.loops| && SentTo(p.base.loops, p.senders, i) <= BudgetOf(p.base.sessions[i].probe)
  {
    var start := Begin(server, now);
    BeginFits(server, now, 0, 0);
    StepsKeepSenders(start, steps, 0, 0);
    StepsAreARun(start, steps);
    var p := After(start, steps);
    SentIsPermitted(p.base.loops, p.senders, p.base.now, i);
    EchoCharges.PermittedWithinBudget(server, now, Actions(start, steps), i);
  }

  // while no write has failed, each write is the whole of its permit
  ghost predicate Whole(s: Sender) {
    |s.writes| <= |s.grants| && forall m :: 0 <= m < |s.writes| ==> s.writes[m].n == s.grants[m].n
  }

  ghost predicate WholeWrites(p: Process) {
    forall j :: 0 <= j < |p.senders| ==> Whole(p.senders[j])
  }

  lemma BaseKeepsWholeWrites(p: Process, a: Action)
    requires CanStep(p, Base(a)) && WholeWrites(p)
    ensures WholeWrites(Stepped(p, Base(a)))
  {
    var next := Stepped(p, Base(a));
    forall j | 0 <= j < |next.senders| ensures Whole(next.senders[j]) {
      if j < |p.senders| {
        assert Whole(p.senders[j]);
      }
    }
  }

  lemma WriteKeepsWholeWrites(p: Process, j: nat, n: nat)
    requires CanStep(p, Write(j, n, false)) && WholeWrites(p)
    ensures WholeWrites(Stepped(p, Write(j, n, false)))
  {
    assert Whole(p.senders[j]);
  }

  lemma StepKeepsFit(p: Process, s: Step)
    requires CanStep(p, s) && SendersFit(p) && EchoCharges.Charges(p.base)
    ensures SendersFit(Stepped(p, s)) && EchoCharges.Charges(Stepped(p, s).base)
  {
    match s
    case Base(a) =>
      BaseKeepsSenders(p, a);
      EchoCharges.NextKeepsCharges(p.base, a);
    case Write(j, n, failed) =>
      WriteKeepsSenders(p, j, n, failed);
      if failed && !p.base.loops[j].datagram {
        EchoCharges.NextKeepsCharges(p.base, LoopEnds(j));
      }
  }

  lemma {:induction false} StepsKeepWholeWrites(p: Process, steps: seq<Step>)
    requires Steps(p, steps) && SendersFit(p) && WholeWrites(p) && EchoCharges.Charges(p.base)
    requires forall s :: s in steps && s.Write? ==> !s.failed
    ensures SendersFit(After(p, steps)) && WholeWrites(After(p, steps))
    decreases |steps|
  {
    if steps != [] {
      match steps[0] {
        case Base(a) => BaseKeepsWholeWrites(p, a);
        case Write(j, n, _) => WriteKeepsWholeWrites(p, j, n);
      }
      StepKeepsFit(p, steps[0]);
      StepsKeepWholeWrites(Stepped(p, steps[0]), steps[1..]);
    }
  }

  lemma {:induction false} SameSizes(a: seq<Permit>, b: seq<Permit>)
    requires |a| == |b| && forall m :: 0 <= m < |a| ==> a[m].n == b[m].n
    ensures Sum(a, Size()) == Sum(b, Size())
  {
    if a != [] {
      SameSizes(a[..|a| - 1], b[..|b| - 1]);
    }
  }

  /** What is permitted is written: over any run in which no write fails, a loop that has
      no chunk in hand has written exactly what it was permitted. */
  lemma PermittedIsWritten(server: Server, now: int, steps: seq<Step>, j: nat)
    requires Steps(Begin(server, now), steps) && forall s :: s in steps && s.Write? ==> !s.failed
    requires j < |After(Begin(server, now), steps).senders|
    requires !Waiting(After(Begin(server, now), steps).senders[j])
    ensures var p := After(Begin(server, now), steps);
      j < |p.base.loops| && Sum(p.senders[j].writes, Size()) == p.base.loops[j].permitted
  {
    BeginFits(server, now, 0, 0);
    StepsKeepWholeWrites(Begin(server, now), steps);
    var p := After(Begin(server, now), steps);
    assert Fits(p.senders[j], p.base.loops[j], p.base.now);
    SameSizes(p.senders[j].writes, p.senders[j].grants);
  }

  /** A stream's loop ends with its first failed write; a lost datagram ends nothing. */
  lemma FailedWriteEndsTheStream(p: Process, j: nat, n: nat)
    requires CanStep(p, Write(j, n, true))
    ensures Stepped(p, Write(j, n, true)).base.loops[j]
      == if p.base.loops[j].datagram then p.base.loops[j] else p.base.loops[j].(at := Done)
  {
  }
}
