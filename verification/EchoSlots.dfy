/** Slots over whole runs: the shared map counts exactly the slots held, mixed caps
    hold on it, and it is empty again when nothing holds one. */
module EchoSlots {
  import opened Wrappers
  import opened Sums
  import opened Ledger
  import opened EchoMachine

  ghost predicate SlotsAgree(st: State) {
    && NoZeroEntries(st.ledger)
    && forall a: Address :: Held(st.ledger, a) == Sum(st.sessions, SlotAt(a))
  }

  ghost predicate CapsHold(st: State) {
    forall a: Address {:trigger Sum(st.sessions, SlotAt(a))} {:trigger Sum(st.sessions, ProbeSlotAt(a))} ::
      Sum(st.sessions, SlotAt(a)) <= PER_ADDRESS_SESSIONS && Sum(st.sessions, ProbeSlotAt(a)) <= PROBE_SESSIONS
  }

  /** Changing one session moves an address's counts by what that session adds. */
  lemma SessionChanged(st: State, i: nat, s: Session)
    requires i < |st.sessions|
    ensures forall a: Address {:trigger Sum(st.sessions[i := s], SlotAt(a))} ::
      Sum(st.sessions[i := s], SlotAt(a)) + SlotAt(a)(st.sessions[i]) == Sum(st.sessions, SlotAt(a)) + SlotAt(a)(s)
    ensures forall a: Address {:trigger Sum(st.sessions[i := s], ProbeSlotAt(a))} ::
      Sum(st.sessions[i := s], ProbeSlotAt(a)) + ProbeSlotAt(a)(st.sessions[i])
      == Sum(st.sessions, ProbeSlotAt(a)) + ProbeSlotAt(a)(s)
  {
    forall a: Address
      ensures Sum(st.sessions[i := s], SlotAt(a)) + SlotAt(a)(st.sessions[i])
           == Sum(st.sessions, SlotAt(a)) + SlotAt(a)(s)
    {
      SumUpdate(st.sessions, i, s, SlotAt(a));
    }
    forall a: Address
      ensures Sum(st.sessions[i := s], ProbeSlotAt(a)) + ProbeSlotAt(a)(st.sessions[i])
           == Sum(st.sessions, ProbeSlotAt(a)) + ProbeSlotAt(a)(s)
    {
      SumUpdate(st.sessions, i, s, ProbeSlotAt(a));
    }
  }

  lemma SessionAdded(st: State, s: Session)
    ensures forall a: Address {:trigger Sum(st.sessions + [s], SlotAt(a))} ::
      Sum(st.sessions + [s], SlotAt(a)) == Sum(st.sessions, SlotAt(a)) + SlotAt(a)(s)
    ensures forall a: Address {:trigger Sum(st.sessions + [s], ProbeSlotAt(a))} ::
      Sum(st.sessions + [s], ProbeSlotAt(a)) == Sum(st.sessions, ProbeSlotAt(a)) + ProbeSlotAt(a)(s)
  {
    forall a: Address
      ensures Sum(st.sessions + [s], SlotAt(a)) == Sum(st.sessions, SlotAt(a)) + SlotAt(a)(s)
    {
      SumAppend(st.sessions, s, SlotAt(a));
    }
    forall a: Address
      ensures Sum(st.sessions + [s], ProbeSlotAt(a)) == Sum(st.sessions, ProbeSlotAt(a)) + ProbeSlotAt(a)(s)
    {
      SumAppend(st.sessions, s, ProbeSlotAt(a));
    }
  }

  lemma ProbesAreSlots(st: State)
    ensures forall a: Address :: Sum(st.sessions, ProbeSlotAt(a)) <= Sum(st.sessions, SlotAt(a))
  {
    forall a: Address {
      SumAtMost(st.sessions, ProbeSlotAt(a), SlotAt(a));
    }
  }

  // a step that touches one session without changing whether or where it holds a slot
  lemma SlotKept(st: State, i: nat, s: Session)
    requires i < |st.sessions|
    requires s.address == st.sessions[i].address && s.probe == st.sessions[i].probe
    requires HoldsSlot(s) == HoldsSlot(st.sessions[i])
    ensures forall a: Address {:trigger Sum(st.sessions[i := s], SlotAt(a))} ::
      Sum(st.sessions[i := s], SlotAt(a)) == Sum(st.sessions, SlotAt(a))
    ensures forall a: Address {:trigger Sum(st.sessions[i := s], ProbeSlotAt(a))} ::
      Sum(st.sessions[i := s], ProbeSlotAt(a)) == Sum(st.sessions, ProbeSlotAt(a))
  {
    SessionChanged(st, i, s);
  }

  lemma AdmitKeepsAgreement(st: State, a: Action)
    requires a.Admit? && Enabled(st, a) && SlotsAgree(st)
    ensures SlotsAgree(Next(st, a))
  {
    SessionAdded(st, Admitted(a.address, a.probe, st.now));
  }

  lemma AdmitKeepsCaps(st: State, a: Action)
    requires a.Admit? && Enabled(st, a) && SlotsAgree(st) && CapsHold(st)
    ensures CapsHold(Next(st, a))
  {
    SessionAdded(st, Admitted(a.address, a.probe, st.now));
    ProbesAreSlots(st);
    assert Held(st.ledger, a.address) == Sum(st.sessions, SlotAt(a.address));
  }

  lemma GiveBackKeepsSlots(st: State, i: nat, phase: Phase)
    requires i < |st.sessions| && HoldsSlot(st.sessions[i]) && phase in {GivenUp, Ended}
    requires SlotsAgree(st) && CapsHold(st)
    ensures SlotsAgree(GiveBack(st, i, phase)) && CapsHold(GiveBack(st, i, phase))
  {
    var s := st.sessions[i];
    SessionChanged(st, i, s.(phase := phase, releases := s.releases + 1));
    SumAtLeastOne(st.sessions, i, SlotAt(s.address));
  }

  lemma NextKeepsSlots(st: State, a: Action)
    requires Enabled(st, a) && SlotsAgree(st) && CapsHold(st)
    ensures SlotsAgree(Next(st, a)) && CapsHold(Next(st, a))
  {
    match a
    case Admit(_, _) =>
      AdmitKeepsAgreement(st, a);
      AdmitKeepsCaps(st, a);
    case ReleaseFailed(i) => GiveBackKeepsSlots(st, i, GivenUp);
    case WatcherReleases(i) => GiveBackKeepsSlots(st, i, Ended);
    case UpgradeFails(i) => SlotKept(st, i, Next(st, a).sessions[i]);
    case UpgradeSucceeds(i) => SlotKept(st, i, Next(st, a).sessions[i]);
    case TakeReason(i) => SlotKept(st, i, Next(st, a).sessions[i]);
    case LifetimeExpires(i) => SlotKept(st, i, Next(st, a).sessions[i]);
    case PeerLeaves(i) => SlotKept(st, i, Next(st, a).sessions[i]);
    case ChargeSession(j, _) => SlotKept(st, st.loops[j].session, Next(st, a).sessions[st.loops[j].session]);
    case Report(j) => SlotKept(st, st.loops[j].session, Next(st, a).sessions[st.loops[j].session]);
    case BreakOff(j) => SlotKept(st, st.loops[j].session, Next(st, a).sessions[st.loops[j].session]);
    case Tick(_) =>
    case OpenLoop(_, _) =>
    case ChargeProcess(_) =>
    case LoopEnds(_) =>
  }

  lemma {:induction false} RunKeepsSlots(st: State, run: seq<Action>)
    requires Runs(st, run) && SlotsAgree(st) && CapsHold(st)
    ensures SlotsAgree(Final(st, run)) && CapsHold(Final(st, run))
    decreases |run|
  {
    if run != [] {
      NextKeepsSlots(st, run[0]);
      RunKeepsSlots(Next(st, run[0]), run[1..]);
    }
  }

  /** In every reachable state the map holds, for each address, the number of slots
      held for it (upgrading, failing, live or leaving), with no zero entries; an
      address holds at most four, at most one of them a probe's; and the map is
      empty when no session holds a slot. */
  lemma SlotsConserved(server: Server, now: int, run: seq<Action>)
    requires Runs(Start(server, now), run)
    ensures var st := Final(Start(server, now), run);
      && SlotsAgree(st)
      && CapsHold(st)
      && ((forall i :: 0 <= i < |st.sessions| ==> !HoldsSlot(st.sessions[i])) ==> st.ledger.sessions == map[])
  {
    RunKeepsSlots(Start(server, now), run);
    var st := Final(Start(server, now), run);
    if forall i :: 0 <= i < |st.sessions| ==> !HoldsSlot(st.sessions[i]) {
      forall a: Address ensures a !in st.ledger.sessions {
        SumZero(st.sessions, SlotAt(a));
        assert Held(st.ledger, a) == 0;
      }
    }
  }

  /** In every reachable state an address is admitted exactly when the window (rolled
      at this clock reading) is under the ceiling and the address holds fewer slots
      than the cap: none at all for a probe, three or fewer otherwise. It is then one
      session more, of that address and kind, with nothing charged; otherwise none. */
  lemma AdmittedExactlyUnderTheCap(server: Server, now: int, run: seq<Action>, address: Address, probe: bool)
    requires Runs(Start(server, now), run) && (server.Go? || !probe)
    ensures var st := Final(Start(server, now), run);
      && Enabled(st, Admit(address, probe))
      && var next := Next(st, Admit(address, probe));
      if Rolled(st.ledger, st.now).echoed < 0x8000_0000 && Sum(st.sessions, SlotAt(address)) < (if probe then 1 else 4)
      then next.sessions == st.sessions + [Session(address, probe, Upgrading, 0, 0, None, None, st.now, [], 0)]
      else next.sessions == st.sessions
  {
    RunKeepsSlots(Start(server, now), run);
    ServerStays(Start(server, now), run);
    var st := Final(Start(server, now), run);
    assert Held(st.ledger, address) == Sum(st.sessions, SlotAt(address));
    assert Held(Rolled(st.ledger, st.now), address) == Held(st.ledger, address);
  }

  /** Why one is refused, for both kinds: for the ceiling whenever the window has reached
      it, and otherwise for the cap. */
  lemma RefusedForExactly(server: Server, now: int, run: seq<Action>, address: Address, probe: bool)
    requires Runs(Start(server, now), run)
    ensures var st := Final(Start(server, now), run);
      var why := Acquired(st.ledger, address, probe, st.now).1;
      && (why == Some(DailyCeiling) <==> Rolled(st.ledger, st.now).echoed >= 0x8000_0000)
      && (why == Some(AddressCap) <==>
            && Rolled(st.ledger, st.now).echoed < 0x8000_0000
            && Sum(st.sessions, SlotAt(address)) >= (if probe then 1 else 4))
  {
    RunKeepsSlots(Start(server, now), run);
    var st := Final(Start(server, now), run);
    assert Held(st.ledger, address) == Sum(st.sessions, SlotAt(address));
    assert Held(Rolled(st.ledger, st.now), address) == Held(st.ledger, address);
  }
}
