/** The process-wide budget: slots per address, bytes echoed in the current
    24-hour window, and the warning latch (main.go and legacy/main.go). The pure
    operations below are the specification; class Budgets is the mutated object
    the listeners share. Times are nanoseconds on a monotone clock, read once per
    critical section. */
module Ledger {
  import opened Wrappers

  type Address = string

  const DAY := 24 * 60 * 60 * 1_000_000_000
  const CEILING := 0x8000_0000
  const PER_ADDRESS_SESSIONS := 4
  const PROBE_SESSIONS := 1

  // "daily egress ceiling" and "per-address session cap" in the source
  datatype Why = DailyCeiling | AddressCap

  datatype Ledger = Ledger(sessions: map<Address, nat>, echoed: nat, windowAt: int, warned: bool)

  function Fresh(now: int): Ledger {
    Ledger(map[], 0, now, false)
  }

  function CapOf(probe: bool): nat {
    if probe then PROBE_SESSIONS else PER_ADDRESS_SESSIONS
  }

  function Held(l: Ledger, address: Address): nat {
    if address in l.sessions then l.sessions[address] else 0
  }

  function Rolled(l: Ledger, now: int): Ledger {
    if now - l.windowAt >= DAY then l.(echoed := 0, windowAt := now, warned := false) else l
  }

  // the refusal, if any, is the second component
  function Acquired(l: Ledger, address: Address, probe: bool, now: int): (Ledger, Option<Why>) {
    var r := Rolled(l, now);
    if r.echoed >= CEILING then (r, Some(DailyCeiling))
    else if Held(r, address) >= CapOf(probe) then (r, Some(AddressCap))
    else (r.(sessions := r.sessions[address := Held(r, address) + 1]), None)
  }

  function Released(l: Ledger, address: Address): Ledger {
    if Held(l, address) <= 1 then l.(sessions := l.sessions - {address})
    else l.(sessions := l.sessions[address := l.sessions[address] - 1])
  }

  // whether the process may keep echoing is the second component
  function Spent(l: Ledger, n: nat, now: int): (Ledger, bool) {
    var r := Rolled(l, now);
    var counted := r.(echoed := r.echoed + n);
    if counted.echoed < CEILING then (counted, true) else (counted.(warned := true), false)
  }

  predicate NoZeroEntries(l: Ledger) {
    forall a :: a in l.sessions ==> l.sessions[a] > 0
  }

  /** One call on the shared budget, at the clock reading its critical section took. */
  datatype Call =
    | Acquire(address: Address, probe: bool, at: int)
    | Release(address: Address, at: int)
    | Spend(n: nat, at: int)

  datatype Reply = Granted | Refused(why: Why)

  function After(l: Ledger, c: Call): Ledger {
    match c
    case Acquire(address, probe, at) => Acquired(l, address, probe, at).0
    case Release(address, _) => Released(l, address)
    case Spend(n, at) => Spent(l, n, at).0
  }

  function ReplyTo(l: Ledger, c: Call): Reply {
    match c
    case Acquire(address, probe, at) =>
      (match Acquired(l, address, probe, at).1 case None => Granted case Some(why) => Refused(why))
    case Release(_, _) => Granted
    case Spend(n, at) => if Spent(l, n, at).1 then Granted else Refused(DailyCeiling)
  }

  function AfterAll(l: Ledger, calls: seq<Call>): Ledger
    decreases |calls|
  {
    if calls == [] then l else AfterAll(After(l, calls[0]), calls[1..])
  }

  predicate Monotone(from: int, calls: seq<Call>)
    decreases |calls|
  {
    calls == [] || (from <= calls[0].at && Monotone(calls[0].at, calls[1..]))
  }

  /** The object every echo loop of every session shares. */
  class Budgets {
    var sessions: map<Address, nat>
    var echoed: nat
    var windowAt: int
    var warned: bool
    // the log lines written when the ceiling is first passed in a window
    var warnings: nat

    function Value(): Ledger
      reads this
    {
      Ledger(sessions, echoed, windowAt, warned)
    }

    constructor (now: int)
      ensures Value() == Fresh(now) && warnings == 0
    {
      sessions, echoed, windowAt, warned, warnings := map[], 0, now, false, 0;
    }

    method Roll(now: int)
      modifies `echoed, `windowAt, `warned
      ensures Value() == Rolled(old(Value()), now)
      ensures Value() == if now - old(windowAt) >= 86_400_000_000_000 then Ledger(sessions, 0, now, false)
                         else old(Value())
    {
      if now - windowAt >= DAY {
        echoed := 0;
        windowAt := now;
        warned := false;
      }
    }

    method TryAcquire(address: Address, probe: bool, now: int) returns (ok: bool, why: Option<Why>)
      modifies `sessions, `echoed, `windowAt, `warned
      ensures (Value(), why) == Acquired(old(Value()), address, probe, now)
      ensures ok == why.None?
    {
      Roll(now);
      if echoed >= CEILING {
        return false, Some(DailyCeiling);
      }
      var cap := PER_ADDRESS_SESSIONS;
      if probe {
        cap := PROBE_SESSIONS;
      }
      var held := if address in sessions then sessions[address] else 0;
      if held >= cap {
        return false, Some(AddressCap);
      }
      sessions := sessions[address := held + 1];
      return true, None;
    }

    method Free(address: Address)
      modifies `sessions
      ensures Value() == Released(old(Value()), address)
    {
      if (if address in sessions then sessions[address] else 0) <= 1 {
        sessions := sessions - {address};
        return;
      }
      sessions := sessions[address := sessions[address] - 1];
    }

    method TrySpend(n: nat, now: int) returns (ok: bool)
      modifies `echoed, `windowAt, `warned, `warnings
      ensures (Value(), ok) == Spent(old(Value()), n, now)
      ensures warnings == old(warnings) + (if !ok && !Rolled(old(Value()), now).warned then 1 else 0)
    {
      Roll(now);
      echoed := echoed + n;
      if echoed < CEILING {
        return true;
      }
      if !warned {
        warned := true;
        warnings := warnings + 1;
      }
      return false;
    }
  }
}
