/** What the lazily rolled 24-hour window guarantees over whole runs of calls on
    the shared budget, under a monotone clock. */
module Window {
  import opened Ledger

  /** Bytes that were permitted by the spends taken at a time in [lo, hi). */
  function PermittedIn(l: Ledger, calls: seq<Call>, lo: int, hi: int): nat
    decreases |calls|
  {
    if calls == [] then 0
    else
      var c := calls[0];
      (if c.Spend? && ReplyTo(l, c).Granted? && lo <= c.at < hi then c.n else 0)
      + PermittedIn(After(l, c), calls[1..], lo, hi)
  }

  /** How many windows the calls open. */
  function Opens(l: Ledger, calls: seq<Call>): nat
    decreases |calls|
  {
    if calls == [] then 0
    else
      (if !calls[0].Release? && calls[0].at - l.windowAt >= DAY then 1 else 0)
      + Opens(After(l, calls[0]), calls[1..])
  }

  /** What the windows had counted that the calls close. */
  function RolledOff(l: Ledger, calls: seq<Call>): nat
    decreases |calls|
  {
    if calls == [] then 0
    else
      (if !calls[0].Release? && calls[0].at - l.windowAt >= DAY then l.echoed else 0)
      + RolledOff(After(l, calls[0]), calls[1..])
  }

  /** All bytes the calls charge, permitted or not. */
  function Charged(calls: seq<Call>): nat
    decreases |calls|
  {
    if calls == [] then 0 else (if calls[0].Spend? then calls[0].n else 0) + Charged(calls[1..])
  }

  /** The windows account for every byte: what the open one counts and what the closed
      ones had counted is what was there and what was charged. */
  lemma {:induction false} WindowsAccountForAll(l: Ledger, calls: seq<Call>)
    ensures AfterAll(l, calls).echoed + RolledOff(l, calls) == l.echoed + Charged(calls)
    decreases |calls|
  {
    if calls != [] {
      WindowsAccountForAll(After(l, calls[0]), calls[1..]);
    }
  }

  /** How many ceiling warnings the calls log: a spend that finds the latch down
      and ends at or past the ceiling. */
  function Warnings(l: Ledger, calls: seq<Call>): nat
    decreases |calls|
  {
    if calls == [] then 0
    else
      var c := calls[0];
      (if c.Spend? && ReplyTo(l, c).Refused? && !Rolled(l, c.at).warned then 1 else 0)
      + Warnings(After(l, c), calls[1..])
  }

  // what a window that has counted l.echoed can still permit
  function Room(l: Ledger): nat {
    if l.echoed < CEILING then CEILING - 1 - l.echoed else 0
  }

  lemma {:induction false} NothingAfterTheInterval(l: Ledger, calls: seq<Call>, from: int, lo: int, hi: int)
    requires Monotone(from, calls) && hi <= from
    ensures PermittedIn(l, calls, lo, hi) == 0
    decreases |calls|
  {
    if calls != [] {
      NothingAfterTheInterval(After(l, calls[0]), calls[1..], calls[0].at, lo, hi);
    }
  }

  /** Once the interval has begun, or when at most k windows can still open before
      it ends, it permits what is left of the open window and k further ones. */
  lemma {:induction false} PermittedFromHere(l: Ledger, calls: seq<Call>, from: int, lo: int, hi: int, k: nat)
    requires Monotone(from, calls)
    requires (lo <= from && hi <= lo + k * DAY) || hi <= l.windowAt + (k + 1) * DAY
    ensures PermittedIn(l, calls, lo, hi) <= Room(l) + k * (CEILING - 1)
    decreases |calls|
  {
    if calls != [] {
      var c := calls[0];
      if c.at >= hi {
        NothingAfterTheInterval(After(l, c), calls[1..], c.at, lo, hi);
      } else if !c.Release? && c.at - l.windowAt >= DAY {
        // a window opens inside the interval, so one fewer can follow it
        assert k > 0;
        PermittedFromHere(After(l, c), calls[1..], c.at, lo, hi, k - 1);
      } else {
        PermittedFromHere(After(l, c), calls[1..], c.at, lo, hi, k);
      }
    }
  }

  /** No half-open interval of k days sees more than k + 1 windows' worth. */
  lemma {:induction false} EgressInAnyDays(l: Ledger, calls: seq<Call>, from: int, lo: int, k: nat)
    requires Monotone(from, calls)
    ensures PermittedIn(l, calls, lo, lo + k * DAY) <= (k + 1) * (CEILING - 1)
    decreases |calls|
  {
    if calls != [] {
      if calls[0].at < lo {
        EgressInAnyDays(After(l, calls[0]), calls[1..], calls[0].at, lo, k);
      } else {
        PermittedFromHere(l, calls, calls[0].at, lo, lo + k * DAY, k);
      }
    }
  }

  predicate InChunks(calls: seq<Call>, chunk: nat) {
    forall c :: c in calls && c.Spend? ==> c.n <= chunk
  }

  /** However the process is used from lo on, in spends of a chunk at most, one day from
      lo permits less than the ceiling the documentation promises for a day. */
  ghost predicate DayIsSafe(l: Ledger, lo: int, chunk: nat) {
    forall calls :: Monotone(lo, calls) && InChunks(calls, chunk) ==> PermittedIn(l, calls, lo, lo + DAY) < CEILING
  }

  // the first call to look at the clock opens a window that outlasts the interval
  lemma {:induction false} OverdueWindowOpensAnew(l: Ledger, calls: seq<Call>, from: int, lo: int)
    requires Monotone(from, calls) && lo <= from && lo >= l.windowAt + DAY
    ensures PermittedIn(l, calls, lo, lo + DAY) < CEILING
    decreases |calls|
  {
    if calls != [] {
      var c := calls[0];
      if c.Release? {
        OverdueWindowOpensAnew(After(l, c), calls[1..], c.at, lo);
      } else {
        PermittedFromHere(After(l, c), calls[1..], c.at, lo, lo + DAY, 0);
      }
    }
  }

  // such days are safe
  lemma SafeDay(l: Ledger, calls: seq<Call>, lo: int)
    requires Monotone(lo, calls) && l.windowAt <= lo
    requires lo == l.windowAt || lo >= l.windowAt + DAY || l.echoed >= CEILING - 1
    ensures PermittedIn(l, calls, lo, lo + DAY) < CEILING
  {
    if lo >= l.windowAt + DAY {
      OverdueWindowOpensAnew(l, calls, lo, lo);
    } else {
      PermittedFromHere(l, calls, lo, lo, lo + DAY, if lo == l.windowAt then 0 else 1);
    }
  }

  // a byte at a time
  function Bytewise(n: nat, at: int): seq<Call> {
    if n == 0 then [] else [Spend(1, at)] + Bytewise(n - 1, at)
  }

  lemma {:induction false} BytewisePermits(l: Ledger, n: nat, at: int, lo: int, hi: int)
    requires Rolled(l, at).echoed + n < CEILING && lo <= at < hi
    ensures Monotone(at, Bytewise(n, at)) && InChunks(Bytewise(n, at), 1)
    ensures PermittedIn(l, Bytewise(n, at), lo, hi) == n
    decreases n
  {
    if n > 0 {
      var calls := Bytewise(n, at);
      assert calls[1..] == Bytewise(n - 1, at);
      BytewisePermits(After(l, calls[0]), n - 1, at, lo, hi);
    }
  }

  // a byte of the open window, then n of the next, byte by byte, as it opens
  lemma BytesOfTwoWindows(l: Ledger, lo: int, n: nat)
    requires l.windowAt < lo < l.windowAt + DAY && l.echoed < CEILING - 1 && n < CEILING
    ensures var calls := [Spend(1, lo)] + Bytewise(n, l.windowAt + DAY);
      Monotone(lo, calls) && InChunks(calls, 1) && PermittedIn(l, calls, lo, lo + DAY) == 1 + n
  {
    var rest := Bytewise(n, l.windowAt + DAY);
    BytewisePermits(After(l, Spend(1, lo)), n, l.windowAt + DAY, lo, lo + DAY);
    assert ([Spend(1, lo)] + rest)[1..] == rest;
  }

  /** When a day is safe, whatever the size of a chunk: exactly when it starts with the
      open window, or after it has run out, or when that window has nothing left to
      permit. */
  lemma DayIsSafeExactly(l: Ledger, lo: int, chunk: nat)
    requires l.windowAt <= lo && chunk > 0
    ensures DayIsSafe(l, lo, chunk) <==> lo == l.windowAt || lo >= l.windowAt + DAY || l.echoed >= CEILING - 1
  {
    if lo == l.windowAt || lo >= l.windowAt + DAY || l.echoed >= CEILING - 1 {
      forall calls | Monotone(lo, calls) ensures PermittedIn(l, calls, lo, lo + DAY) < CEILING {
        SafeDay(l, calls, lo);
      }
    } else {
      var n: nat := CEILING - 1;
      BytesOfTwoWindows(l, lo, n);
    }
  }

  /** Successive windows open at least a day apart, so n of them take n days. */
  lemma {:induction false} WindowsOpenADayApart(l: Ledger, calls: seq<Call>)
    ensures AfterAll(l, calls).windowAt - l.windowAt >= Opens(l, calls) * 86_400_000_000_000
    ensures Opens(l, calls) == 0 ==> AfterAll(l, calls).windowAt == l.windowAt
    decreases |calls|
  {
    if calls != [] {
      WindowsOpenADayApart(After(l, calls[0]), calls[1..]);
    }
  }

  /** After any run of a fresh process the latch is up exactly while the window's count
      is at or past the ceiling, so the warning comes with the first refused spend. */
  lemma {:induction false} LatchTracksTheCeiling(l: Ledger, calls: seq<Call>)
    requires l.warned <==> l.echoed >= CEILING
    ensures AfterAll(l, calls).warned <==> AfterAll(l, calls).echoed >= CEILING
    decreases |calls|
  {
    if calls != [] {
      LatchTracksTheCeiling(After(l, calls[0]), calls[1..]);
    }
  }

  /** Between two openings at most one warning is logged. */
  lemma {:induction false} OneWarningPerWindow(l: Ledger, calls: seq<Call>)
    ensures Warnings(l, calls) <= Opens(l, calls) + (if l.warned then 0 else 1)
    decreases |calls|
  {
    if calls != [] {
      OneWarningPerWindow(After(l, calls[0]), calls[1..]);
    }
  }

  /** A warning there is: a run that finds the latch down and leaves it up has logged one,
      as has any that refuses a spend in a window it opened. */
  lemma {:induction false} LatchUpWasWarned(l: Ledger, calls: seq<Call>)
    ensures !l.warned && AfterAll(l, calls).warned ==> Warnings(l, calls) >= 1
    ensures !AfterAll(l, calls).warned || Opens(l, calls) > 0 || Warnings(l, calls) == (if l.warned then 0 else 1)
    decreases |calls|
  {
    if calls != [] {
      LatchUpWasWarned(After(l, calls[0]), calls[1..]);
    }
  }
}
