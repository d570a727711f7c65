/** The independent budget of the Rust server (rust/src/main.rs), and its
    simulation by the Go budget: the same calls at the same clock readings get the
    same replies for the same reasons. */
module RustTwin {
  import opened Wrappers
  import opened Ledger

  /** A call returns a new state, or the usize subtraction in release underflows. */
  datatype Step<+T> = Returns(value: T) | Underflows

  function RustSpent(l: Ledger, n: nat, now: int): (Ledger, bool) {
    var r := Rolled(l, now);
    var counted := r.(echoed := r.echoed + n);
    if counted.echoed < CEILING then (counted, true)
    else (if counted.warned then counted else counted.(warned := true), false)
  }

  // the entry is created before the cap is checked
  function RustAcquired(l: Ledger, address: Address, now: int): (Ledger, Option<Why>) {
    var r := Rolled(l, now);
    if r.echoed >= CEILING then (r, Some(DailyCeiling))
    else
      var e := if address in r.sessions then r else r.(sessions := r.sessions[address := 0]);
      if e.sessions[address] >= PER_ADDRESS_SESSIONS then (e, Some(AddressCap))
      else (e.(sessions := e.sessions[address := e.sessions[address] + 1]), None)
  }

  function RustReleased(l: Ledger, address: Address): Step<Ledger> {
    if address !in l.sessions then Returns(l)
    else if l.sessions[address] == 0 then Underflows
    else if l.sessions[address] == 1 then Returns(l.(sessions := l.sessions - {address}))
    else Returns(l.(sessions := l.sessions[address := l.sessions[address] - 1]))
  }

  /** The Rust server has one cap, so it only ever sees calls without the probe flag. */
  predicate Plain(c: Call) {
    c.Acquire? ==> !c.probe
  }

  function RustAfter(l: Ledger, c: Call): Step<Ledger> {
    match c
    case Acquire(address, _, at) => Returns(RustAcquired(l, address, at).0)
    case Release(address, _) => RustReleased(l, address)
    case Spend(n, at) => Returns(RustSpent(l, n, at).0)
  }

  function RustReplyTo(l: Ledger, c: Call): Reply {
    match c
    case Acquire(address, _, at) =>
      (match RustAcquired(l, address, at).1 case None => Granted case Some(why) => Refused(why))
    case Release(_, _) => Granted
    case Spend(n, at) => if RustSpent(l, n, at).1 then Granted else Refused(DailyCeiling)
  }

  /** The replies to a whole run and its last state. */
  function GoRun(l: Ledger, calls: seq<Call>): (seq<Reply>, Ledger)
    decreases |calls|
  {
    if calls == [] then ([], l)
    else
      var (replies, end) := GoRun(After(l, calls[0]), calls[1..]);
      ([ReplyTo(l, calls[0])] + replies, end)
  }

  function RustRun(l: Ledger, calls: seq<Call>): Step<(seq<Reply>, Ledger)>
    decreases |calls|
  {
    if calls == [] then Returns(([], l))
    else
      match RustAfter(l, calls[0])
      case Underflows => Underflows
      case Returns(next) =>
        match RustRun(next, calls[1..])
        case Underflows => Underflows
        case Returns((replies, end)) => Returns(([RustReplyTo(l, calls[0])] + replies, end))
  }

  /** No zero entry survives a call, in Go. */
  lemma NoZeroEntriesKept(l: Ledger, c: Call)
    requires NoZeroEntries(l)
    ensures NoZeroEntries(After(l, c))
  {
  }

  /** Without zero entries one Rust call is one Go call, and cannot underflow. */
  lemma OneCallAgrees(l: Ledger, c: Call)
    requires NoZeroEntries(l) && Plain(c)
    ensures RustAfter(l, c) == Returns(After(l, c))
    ensures RustReplyTo(l, c) == ReplyTo(l, c)
  {
    match c
    case Acquire(address, _, at) =>
      var r := Rolled(l, at);
      if address !in r.sessions {
        assert r.sessions[address := 0][address := 1] == r.sessions[address := 1];
      }
    case Release(address, _) =>
      if address !in l.sessions {
        assert l.sessions - {address} == l.sessions;
      }
    case Spend(_, _) =>
  }

  /** Over any run from any ledger without zero entries, the two servers give the
      same replies for the same reasons, end in the same state, and the Rust
      subtraction never underflows. */
  lemma {:induction false} RustSimulatesGo(l: Ledger, calls: seq<Call>)
    requires NoZeroEntries(l)
    requires forall c :: c in calls ==> Plain(c)
    ensures RustRun(l, calls) == Returns(GoRun(l, calls))
    ensures NoZeroEntries(GoRun(l, calls).1)
    decreases |calls|
  {
    if calls != [] {
      OneCallAgrees(l, calls[0]);
      NoZeroEntriesKept(l, calls[0]);
      RustSimulatesGo(After(l, calls[0]), calls[1..]);
    }
  }

  // a zero entry is the one way to underflow in one call
  lemma UnderflowsOnlyOnAZeroEntry(l: Ledger, c: Call)
    ensures RustAfter(l, c) == Underflows <==>
      c.Release? && c.address in l.sessions && l.sessions[c.address] == 0
  {
  }

  /** An entry that is zero at the start is released before the address has been
      granted a session. */
  ghost predicate ReleasesAZero(l: Ledger, calls: seq<Call>) {
    exists k :: 0 <= k < |calls| && ZeroReleasedAt(l, calls, k)
  }

  predicate ZeroReleasedAt(l: Ledger, calls: seq<Call>, k: nat)
    requires k < |calls|
  {
    && calls[k].Release?
    && calls[k].address in l.sessions && l.sessions[calls[k].address] == 0
    && forall j :: 0 <= j < k ==> !GrantedTo(calls[j], GoReply(l, calls, j), calls[k].address)
  }

  predicate GrantedTo(c: Call, reply: Reply, address: Address) {
    c.Acquire? && c.address == address && reply.Granted?
  }

  function GoReply(l: Ledger, calls: seq<Call>, j: nat): Reply
    requires j < |calls|
    decreases |calls|
  {
    if j == 0 then ReplyTo(l, calls[0]) else GoReply(After(l, calls[0]), calls[1..], j - 1)
  }

  // a call that does not underflow is the Go call, whatever zeros there are, and only
  // a granted session or a release changes a zero
  lemma ZeroStays(l: Ledger, c: Call, a: Address)
    requires Plain(c) && !RustAfter(l, c).Underflows?
    ensures RustAfter(l, c) == Returns(After(l, c)) && RustReplyTo(l, c) == ReplyTo(l, c)
    ensures (a in After(l, c).sessions && After(l, c).sessions[a] == 0)
      <==> (a in l.sessions && l.sessions[a] == 0 && !GrantedTo(c, ReplyTo(l, c), a))
  {
    match c
    case Acquire(address, _, at) =>
      var r := Rolled(l, at);
      if address !in r.sessions {
        assert r.sessions[address := 0][address := 1] == r.sessions[address := 1];
      }
    case Release(address, _) =>
      if address !in l.sessions {
        assert l.sessions - {address} == l.sessions;
      }
    case Spend(_, _) =>
  }

  lemma ZeroReleasedLater(l: Ledger, calls: seq<Call>)
    requires calls != [] && Plain(calls[0]) && !RustAfter(l, calls[0]).Underflows?
    ensures ReleasesAZero(l, calls) <==> ReleasesAZero(After(l, calls[0]), calls[1..])
  {
    var next, rest := After(l, calls[0]), calls[1..];
    if ReleasesAZero(l, calls) {
      var k :| 0 <= k < |calls| && ZeroReleasedAt(l, calls, k);
      UnderflowsOnlyOnAZeroEntry(l, calls[0]);
      ZeroStays(l, calls[0], calls[k].address);
      assert !GrantedTo(calls[0], GoReply(l, calls, 0), calls[k].address);
      forall j | 0 <= j < k - 1 ensures !GrantedTo(rest[j], GoReply(next, rest, j), calls[k].address) {
        assert !GrantedTo(calls[j + 1], GoReply(l, calls, j + 1), calls[k].address);
      }
      assert ZeroReleasedAt(next, rest, k - 1);
    }
    if ReleasesAZero(next, rest) {
      var k :| 0 <= k < |rest| && ZeroReleasedAt(next, rest, k);
      ZeroStays(l, calls[0], rest[k].address);
      forall j | 0 <= j < k + 1 ensures !GrantedTo(calls[j], GoReply(l, calls, j), rest[k].address) {
        if j > 0 {
          assert !GrantedTo(rest[j - 1], GoReply(next, rest, j - 1), rest[k].address);
        }
      }
      assert ZeroReleasedAt(l, calls, k + 1);
    }
  }

  /** From any ledger at all, the Rust run underflows exactly when some zero entry of it
      is released before its address is granted a session; otherwise it is the Go run.
      So without a zero entry at the start nothing can go wrong. */
  lemma {:induction false} RustRunUnderflowsExactly(l: Ledger, calls: seq<Call>)
    requires forall c :: c in calls ==> Plain(c)
    ensures RustRun(l, calls) == Underflows <==> ReleasesAZero(l, calls)
    ensures !ReleasesAZero(l, calls) ==> RustRun(l, calls) == Returns(GoRun(l, calls))
    decreases |calls|
  {
    if calls != [] {
      UnderflowsOnlyOnAZeroEntry(l, calls[0]);
      if RustAfter(l, calls[0]).Underflows? {
        assert ZeroReleasedAt(l, calls, 0);
      } else {
        ZeroReleasedLater(l, calls);
        ZeroStays(l, calls[0], "");
        RustRunUnderflowsExactly(After(l, calls[0]), calls[1..]);
      }
    }
  }

  // the counters' real widths: Go adds in int64, Rust in u64
  const TWO_63 := 0x8000_0000_0000_0000
  const TWO_64 := 0x1_0000_0000_0000_0000

  function AddInt64(a: int, b: int): int {
    if a + b >= TWO_63 then a + b - TWO_64 else a + b
  }

  function AddU64(a: int, b: int): int {
    if a + b >= TWO_64 then a + b - TWO_64 else a + b
  }

  /** On counters both types can hold, the two widths decide a spend alike exactly
      when the sum still fits an int64; past it Go goes negative and permits. */
  lemma WidthsAgreeExactlyBelowTwo63(echoed: int, n: int)
    requires 0 <= echoed < TWO_63 && 0 <= n < TWO_63
    ensures (AddInt64(echoed, n) < CEILING <==> AddU64(echoed, n) < CEILING) <==> echoed + n < TWO_63
  {
  }

  class RustBudgets {
    var sessions: map<Address, nat>
    var echoed: nat
    var window: int
    var warned: bool

    function Value(): Ledger
      reads this
    {
      Ledger(sessions, echoed, window, warned)
    }

    ghost predicate Valid()
      reads this
    {
      NoZeroEntries(Value())
    }

    constructor (now: int)
      ensures Valid() && Value() == Fresh(now)
    {
      sessions, echoed, window, warned := map[], 0, now, false;
    }

    method Roll(now: int)
      modifies `echoed, `window, `warned
      ensures Value() == Rolled(old(Value()), now)
    {
      if now - window >= DAY {
        echoed, window, warned := 0, now, false;
      }
    }

    method TryAcquire(address: Address, now: int) returns (refusal: Option<Why>)
      requires Valid()
      modifies this
      ensures Valid()
      ensures (Value(), refusal) == RustAcquired(old(Value()), address, now)
    {
      Roll(now);
      if echoed >= CEILING {
        return Some(DailyCeiling);
      }
      ghost var rolled := sessions;
      if address !in sessions {
        sessions := sessions[address := 0];
      }
      if sessions[address] >= PER_ADDRESS_SESSIONS {
        return Some(AddressCap);
      }
      sessions := sessions[address := sessions[address] + 1];
      assert sessions == rolled[address := sessions[address]];
      return None;
    }

    method Free(address: Address)
      requires Valid()
      modifies `sessions
      ensures Valid()
      ensures RustReleased(old(Value()), address) == Returns(Value())
    {
      if address in sessions {
        ghost var before := sessions;
        sessions := sessions[address := sessions[address] - 1];
        if sessions[address] == 0 {
          sessions := sessions - {address};
          assert sessions == before - {address};
        }
      } else {
        assert sessions - {address} == sessions;
      }
    }

    method TrySpend(n: nat, now: int) returns (ok: bool)
      requires Valid()
      modifies `echoed, `window, `warned
      ensures Valid()
      ensures (Value(), ok) == RustSpent(old(Value()), n, now)
    {
      Roll(now);
      echoed := echoed + n;
      if echoed < CEILING {
        return true;
      }
      if !warned {
        warned := true;
      }
      return false;
    }
  }
}
