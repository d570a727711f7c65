/** One coding of events with the three laws that the observation record asks of the
    JSON coding, so nothing is proved from laws that no coding has: an event becomes
    numbers, and the numbers a line of marks. */
module EventCode {
  import opened Wrappers
  import opened Bytes
  import opened Observation

  const MARK: Byte := 1
  const NEXT: Byte := 2
  const END: Byte := 3

  function Code(numbers: seq<nat>): (line: seq<Byte>)
    ensures line != [] && LF !in line
    decreases |numbers|, if numbers == [] then 0 else numbers[0]
  {
    if numbers == [] then [END]
    else if numbers[0] == 0 then [NEXT] + Code(numbers[1..])
    else [MARK] + Code([numbers[0] - 1] + numbers[1..])
  }

  /** No line starts another, and no two lists share one. */
  lemma {:induction false} CodeIsUnique(a: seq<nat>, b: seq<nat>, x: seq<Byte>, y: seq<Byte>)
    requires Code(a) + x == Code(b) + y
    ensures a == b
    decreases |a|, if a == [] then 0 else a[0]
  {
    assert (Code(a) + x)[0] == (Code(b) + y)[0];
    assert (Code(a) + x)[1..] == Code(a)[1..] + x && (Code(b) + y)[1..] == Code(b)[1..] + y;
    if a != [] {
      if a[0] == 0 {
        CodeIsUnique(a[1..], b[1..], x, y);
      } else {
        CodeIsUnique([a[0] - 1] + a[1..], [b[0] - 1] + b[1..], x, y);
        assert ([a[0] - 1] + a[1..])[0] == ([b[0] - 1] + b[1..])[0];
        assert ([a[0] - 1] + a[1..])[1..] == a[1..] && ([b[0] - 1] + b[1..])[1..] == b[1..];
        assert a == [a[0]] + a[1..] && b == [b[0]] + b[1..];
      }
    }
  }

  function KindCode(k: Kind): nat {
    match k
    case Quic => 0
    case Connect => 1
    case Session => 2
    case Refused => 3
    case Declined => 4
    case Closed => 5
  }

  function Letters(s: string): seq<nat> {
    seq(|s|, i requires 0 <= i < |s| => s[i] as int)
  }

  function Numbers(e: Event): seq<nat> {
    [if e.at < 0 then 1 else 0, if e.at < 0 then -e.at else e.at, e.port, KindCode(e.kind), |e.address|]
    + Letters(e.address) + Letters(e.detail)
  }

  lemma LettersAreUnique(s: string, t: string)
    requires Letters(s) == Letters(t)
    ensures s == t
  {
    forall i | 0 <= i < |s| ensures s[i] == t[i] {
      assert Letters(s)[i] == Letters(t)[i];
    }
  }

  lemma NumbersAreUnique(d: Event, e: Event)
    requires Numbers(d) == Numbers(e)
    ensures d == e
  {
    var m, n := Numbers(d), Numbers(e);
    assert m[0] == n[0] && m[1] == n[1] && m[2] == n[2] && m[3] == n[3] && m[4] == n[4];
    assert m[5..5 + m[4]] == Letters(d.address) && n[5..5 + n[4]] == Letters(e.address);
    assert m[5 + m[4]..] == Letters(d.detail) && n[5 + n[4]..] == Letters(e.detail);
    LettersAreUnique(d.address, e.address);
    LettersAreUnique(d.detail, e.detail);
  }

  function Encode(e: Event): seq<Byte> {
    Code(Numbers(e))
  }

  ghost function Decode(line: seq<Byte>): Option<Event> {
    if e :| Encode(e) == line then Some(e) else None
  }

  /** A lawful coding exists. */
  lemma ACodecIsLawful()
    ensures Lawful(Codec(Encode, Decode))
  {
    forall d, e, k | 0 <= k <= |Encode(e)| && Encode(d) == Encode(e)[..k] ensures d == e {
      assert Encode(e) == Encode(d) + Encode(e)[k..] && Encode(e) + [] == Encode(e);
      CodeIsUnique(Numbers(d), Numbers(e), Encode(e)[k..], []);
      NumbersAreUnique(d, e);
    }
    forall e ensures Encode(e) != [] && LF !in Encode(e) && Decode(Encode(e)) == Some(e) {
      assert Encode(e)[..|Encode(e)|] == Encode(e);
    }
  }
}
