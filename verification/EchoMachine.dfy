/** Every session and echo loop of one server process as a labelled transition system.
    main.go is the machine in which no session is a probe session; legacy/main.go
    adds them; rust/src/main.rs has none, and one way more to end a session. One action
    is one atomic step of one goroutine or task: a charge is two of them, first the
    session's counter and then the shared budget, so any other action can fall
    between. */
module EchoMachine {
  import opened Wrappers
  import opened Sums
  import opened Ledger

  const SESSION_ECHO_BUDGET := 0x10_0000
  const PROBE_ECHO_BUDGET := 0x400_0000
  const SESSION_LIFETIME := 120 * 1_000_000_000
  const PROBE_LIFETIME := 600 * 1_000_000_000
  // the largest datagram, and the buffer a stream is read through
  const MAX_CHUNK := 0xFFFF
  const STREAM_BUFFER := 0x8000

  function BudgetOf(probe: bool): nat {
    if probe then PROBE_ECHO_BUDGET else SESSION_ECHO_BUDGET
  }

  function LifetimeOf(probe: bool): nat {
    if probe then PROBE_LIFETIME else SESSION_LIFETIME
  }

  /** Why the server closed a session, or why a loop asked for that: "echo budget
      reached", "daily egress ceiling reached", "session lifetime reached". */
  datatype Reason = EchoBudget | Ceiling | Lifetime

  /** Upgrading and Failing hold the slot before any watcher exists; a watcher is
      waiting while Live, has left its select while Leaving, and has run its
      deferred release once Ended. GivenUp is a failed upgrade after its release. */
  datatype Phase = Upgrading | Failing | GivenUp | Live | Leaving | Ended

  datatype Session = Session(
    address: Address, probe: bool, phase: Phase,
    counter: nat,                  // the atomic echoed counter
    accepted: nat,                 // what passed the session's own check
    stopped: Option<Reason>,       // the one-slot channel
    firstReport: Option<Reason>,   // the first reason any loop offered it
    liveAt: int,
    closes: seq<Reason>,           // CloseWithError calls
    releases: nat)

  /** A loop reads; a chunk that passed the session check is Charged until the
      shared budget has been asked; a refused loop still has to report. */
  datatype At = Reading | Charged(n: nat) | Stopping(why: Reason) | Done

  datatype Loop = Loop(
    session: nat,
    datagram: bool,   // the session's datagram loop, or one of its streams
    at: At,
    permitted: nat,   // bytes both checks let through
    rejected: nat,    // bytes the session check refused
    bounced: nat,     // bytes the shared budget refused
    refusals: nat)

  datatype Permit = Permit(at: int, n: nat)

  datatype Server = Go | Rust

  datatype State = State(
    server: Server, now: int, ledger: Ledger,
    sessions: seq<Session>, loops: seq<Loop>,
    spent: nat,             // everything ever added to the process counter
    peak: nat,              // the highest the process counter has been
    permits: seq<Permit>)

  datatype Action =
    | Tick(d: nat)
    | Admit(address: Address, probe: bool)
    | UpgradeFails(i: nat)
    | ReleaseFailed(i: nat)
    | UpgradeSucceeds(i: nat)
    | OpenLoop(i: nat, datagram: bool)
    | ChargeSession(j: nat, n: nat)
    | ChargeProcess(j: nat)
    | Report(j: nat)
    | LoopEnds(j: nat)
    | TakeReason(i: nat)
    | LifetimeExpires(i: nat)
    | PeerLeaves(i: nat)
    | WatcherReleases(i: nat)
    | BreakOff(j: nat)       // Rust: a refused datagram ends the session task itself

  function Start(server: Server, now: int): State {
    State(server, now, Fresh(now), [], [], 0, 0, [])
  }

  predicate HoldsSlot(s: Session) {
    s.phase in {Upgrading, Failing, Live, Leaving}
  }

  predicate Served(s: Session) {
    s.phase in {Live, Leaving, Ended}
  }

  predicate Enabled(st: State, a: Action) {
    match a
    case Tick(_) => true
    case Admit(_, probe) => st.server.Go? || !probe
    case UpgradeFails(i) => i < |st.sessions| && st.sessions[i].phase == Upgrading
    case ReleaseFailed(i) => i < |st.sessions| && st.sessions[i].phase == Failing
    case UpgradeSucceeds(i) => i < |st.sessions| && st.sessions[i].phase == Upgrading
    case OpenLoop(i, _) => i < |st.sessions| && Served(st.sessions[i])
    case ChargeSession(j, n) =>
      j < |st.loops| && st.loops[j].at.Reading? && st.loops[j].session < |st.sessions|
      && n <= (if st.loops[j].datagram then MAX_CHUNK else STREAM_BUFFER)
    case ChargeProcess(j) => j < |st.loops| && st.loops[j].at.Charged?
    case Report(j) =>
      j < |st.loops| && st.loops[j].at.Stopping? && st.loops[j].session < |st.sessions|
      && (st.server.Go? || !st.loops[j].datagram)
    case LoopEnds(j) => j < |st.loops| && st.loops[j].at.Reading?
    case TakeReason(i) => i < |st.sessions| && st.sessions[i].phase == Live && st.sessions[i].stopped.Some?
    case LifetimeExpires(i) =>
      i < |st.sessions| && st.sessions[i].phase == Live
      && st.now - st.sessions[i].liveAt >= LifetimeOf(st.sessions[i].probe)
    case PeerLeaves(i) => i < |st.sessions| && st.sessions[i].phase == Live
    case WatcherReleases(i) => i < |st.sessions| && st.sessions[i].phase == Leaving
    case BreakOff(j) =>
      st.server.Rust? && j < |st.loops| && st.loops[j].at.Stopping? && st.loops[j].datagram
      && st.loops[j].session < |st.sessions| && st.sessions[st.loops[j].session].phase == Live
  }

  function Admitted(address: Address, probe: bool, now: int): Session {
    Session(address, probe, Upgrading, 0, 0, None, None, now, [], 0)
  }

  // echoed.Add, and whether the session budget lets the chunk through
  function Counted(s: Session, n: nat): (Session, bool) {
    if s.counter + n > BudgetOf(s.probe) then (s.(counter := s.counter + n), false)
    else (s.(counter := s.counter + n, accepted := s.accepted + n), true)
  }

  // the non-blocking send into the one-slot channel
  function Offered(s: Session, why: Reason): Session {
    s.(stopped := if s.stopped.None? then Some(why) else s.stopped,
       firstReport := if s.firstReport.None? then Some(why) else s.firstReport)
  }

  // the session closes with the refusal at hand, whatever is waiting in the channel
  function BrokenOff(s: Session, why: Reason): Session {
    s.(phase := Leaving, closes := s.closes + [why],
       firstReport := if s.firstReport.None? then Some(why) else s.firstReport)
  }

  function SetSession(st: State, i: nat, s: Session): State
    requires i < |st.sessions|
  {
    st.(sessions := st.sessions[i := s])
  }

  function SetLoop(st: State, j: nat, l: Loop): State
    requires j < |st.loops|
  {
    st.(loops := st.loops[j := l])
  }

  // the slot goes back and the session is over
  function GiveBack(st: State, i: nat, phase: Phase): State
    requires i < |st.sessions|
  {
    var s := st.sessions[i];
    SetSession(st, i, s.(phase := phase, releases := s.releases + 1))
      .(ledger := Released(st.ledger, s.address))
  }

  function Next(st: State, a: Action): State
    requires Enabled(st, a)
  {
    match a
    case Tick(d) => st.(now := st.now + d)
    case Admit(address, probe) =>
      var (l, refusal) := Acquired(st.ledger, address, probe, st.now);
      if refusal.None? then st.(ledger := l, sessions := st.sessions + [Admitted(address, probe, st.now)])
      else st.(ledger := l)
    case UpgradeFails(i) => SetSession(st, i, st.sessions[i].(phase := Failing))
    case ReleaseFailed(i) => GiveBack(st, i, GivenUp)
    case UpgradeSucceeds(i) => SetSession(st, i, st.sessions[i].(phase := Live, liveAt := st.now))
    case OpenLoop(i, datagram) => st.(loops := st.loops + [Loop(i, datagram, Reading, 0, 0, 0, 0)])
    case ChargeSession(j, n) =>
      var l := st.loops[j];
      var (s, ok) := Counted(st.sessions[l.session], n);
      var l' := if ok then l.(at := Charged(n))
                else l.(at := Stopping(EchoBudget), rejected := l.rejected + n, refusals := l.refusals + 1);
      SetLoop(SetSession(st, l.session, s), j, l')
    case ChargeProcess(j) =>
      var l := st.loops[j];
      var n := l.at.n;
      var (ledger, ok) := Spent(st.ledger, n, st.now);
      var st' := st.(ledger := ledger, spent := st.spent + n, peak := Max(st.peak, ledger.echoed));
      if ok then SetLoop(st', j, l.(at := Reading, permitted := l.permitted + n))
                   .(permits := st.permits + [Permit(st.now, n)])
      else SetLoop(st', j, l.(at := Stopping(Ceiling), bounced := l.bounced + n, refusals := l.refusals + 1))
    case Report(j) =>
      var l := st.loops[j];
      SetLoop(SetSession(st, l.session, Offered(st.sessions[l.session], l.at.why)), j, l.(at := Done))
    case LoopEnds(j) => SetLoop(st, j, st.loops[j].(at := Done))
    case TakeReason(i) =>
      var s := st.sessions[i];
      SetSession(st, i, s.(phase := Leaving, stopped := None, closes := s.closes + [s.stopped.value]))
    case LifetimeExpires(i) =>
      var s := st.sessions[i];
      SetSession(st, i, s.(phase := Leaving, closes := s.closes + [Lifetime]))
    case PeerLeaves(i) => SetSession(st, i, st.sessions[i].(phase := Leaving))
    case WatcherReleases(i) => GiveBack(st, i, Ended)
    case BreakOff(j) =>
      var l := st.loops[j];
      SetLoop(SetSession(st, l.session, BrokenOff(st.sessions[l.session], l.at.why)), j, l.(at := Done))
  }

  /** A run is a sequence of actions, each enabled where it is taken. */
  predicate Runs(st: State, run: seq<Action>)
    decreases |run|
  {
    run == [] || (Enabled(st, run[0]) && Runs(Next(st, run[0]), run[1..]))
  }

  function Final(st: State, run: seq<Action>): State
    requires Runs(st, run)
    decreases |run|
  {
    if run == [] then st else Final(Next(st, run[0]), run[1..])
  }

  lemma {:induction false} ServerStays(st: State, run: seq<Action>)
    requires Runs(st, run)
    ensures Final(st, run).server == st.server
    decreases |run|
  {
    if run != [] {
      ServerStays(Next(st, run[0]), run[1..]);
    }
  }

  // --- the measures that are summed over sessions and over loops ---

  function SlotAt(address: Address): Session -> nat {
    (s: Session) => if HoldsSlot(s) && s.address == address then 1 else 0
  }

  function ProbeSlotAt(address: Address): Session -> nat {
    (s: Session) => if HoldsSlot(s) && s.address == address && s.probe then 1 else 0
  }

  function Accepted(): Session -> nat {
    (s: Session) => s.accepted
  }

  function InFlight(): Loop -> nat {
    (l: Loop) => if l.at.Charged? then l.at.n else 0
  }

  function Permitted(): Loop -> nat {
    (l: Loop) => l.permitted
  }

  function Bounced(): Loop -> nat {
    (l: Loop) => l.bounced
  }

  function Settled(): Loop -> nat {
    (l: Loop) => l.permitted + l.bounced
  }

  function PermittedOf(i: nat): Loop -> nat {
    (l: Loop) => if l.session == i then l.permitted else 0
  }

  function PassedOf(i: nat): Loop -> nat {
    (l: Loop) => if l.session == i then l.permitted + l.bounced + (if l.at.Charged? then l.at.n else 0) else 0
  }

  function RejectedOf(i: nat): Loop -> nat {
    (l: Loop) => if l.session == i then l.rejected else 0
  }

  function LoopOf(i: nat): Loop -> nat {
    (l: Loop) => if l.session == i then 1 else 0
  }

  function Size(): Permit -> nat {
    (p: Permit) => p.n
  }
}
