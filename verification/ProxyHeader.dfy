/** The PROXY protocol header as a pure parser over the bytes that arrive before the
    connection ends (proxy.go), following sections 2.1 and 2.2 of the HAProxy PROXY
    protocol. The text form of an IPv6 address is a parameter. */
module ProxyHeader {
  import opened Wrappers
  import opened Bytes
  import opened Decimal
  import opened Splitting
  import Unicode

  const SPACE: Byte := 32
  const DOT: Byte := 46
  const CR: Byte := 13
  const LF: Byte := 10

  // "\r\n\r\n\0\r\nQUIT\n" and "PROXY "
  const V2_SIGNATURE: seq<Byte> := [13, 10, 13, 10, 0, 13, 10, 81, 85, 73, 84, 10]
  const V1_PREFIX: seq<Byte> := [80, 82, 79, 88, 89, 32]

  datatype Address = TCPAddr(ip: seq<Byte>, port: int)

  /** The address reported, if any, and how many bytes were taken off the stream. */
  datatype Parsed = Parsed(address: Option<Address>, consumed: nat)

  type ParseV6 = seq<Byte> -> Option<seq<Byte>>

  // --- text: strings.Fields, strconv.Atoi, net.ParseIP ---

  /** The width of the white space that starts s, zero if none does: an ASCII space, or
      one of the other Unicode spaces in UTF-8. */
  function SpaceWidth(s: seq<Byte>): (w: nat)
    ensures w <= |s|
  {
    if s == [] then 0
    else if s[0] in {9, 10, 11, 12, 13, 32} then 1
    else if |s| >= 2 && s[0] == 0xC2 && s[1] in {0x85, 0xA0} then 2
    else if |s| >= 3 && s[0] == 0xE1 && s[1] == 0x9A && s[2] == 0x80 then 3
    else if |s| >= 3 && s[0] == 0xE2 && s[1] == 0x80
         && (0x80 <= s[2] <= 0x8A || s[2] in {0xA8, 0xA9, 0xAF}) then 3
    else if |s| >= 3 && s[0] == 0xE2 && s[1] == 0x81 && s[2] == 0x9F then 3
    else if |s| >= 3 && s[0] == 0xE3 && s[1] == 0x80 && s[2] == 0x80 then 3
    else 0
  }

  function WordLength(s: seq<Byte>): (k: nat)
    ensures k <= |s|
  {
    if s == [] || SpaceWidth(s) > 0 then 0 else 1 + WordLength(s[1..])
  }

  function Fields(s: seq<Byte>): seq<seq<Byte>>
    decreases |s|
  {
    if s == [] then []
    else if SpaceWidth(s) > 0 then Fields(s[SpaceWidth(s)..])
    else [s[..WordLength(s)]] + Fields(s[WordLength(s)..])
  }

  function TrimRight(s: seq<Byte>): seq<Byte> {
    if s != [] && s[|s| - 1] in {CR, LF} then TrimRight(s[..|s| - 1]) else s
  }

  const INT64_LIMIT := 0x8000_0000_0000_0000

  function Atoi(s: seq<Byte>): Option<int> {
    var signed := s != [] && s[0] in {43, 45};
    var digits := if signed then s[1..] else s;
    if digits == [] || !AllDigits(digits) then None
    else
      var v: int := Value(digits);
      if signed && s[0] == 45 then (if v <= INT64_LIMIT then Some(-v) else None)
      else if v < INT64_LIMIT then Some(v) else None
  }

  function Octet(s: seq<Byte>): Option<Byte> {
    if s == [] || !AllDigits(s) || (|s| > 1 && s[0] == ZERO) || Value(s) > 255 then None
    else Some(Value(s))
  }

  // net.ParseIP holds an IPv4 address in sixteen bytes
  function Mapped(a: Byte, b: Byte, c: Byte, d: Byte): seq<Byte> {
    [0, 0, 0, 0, 0, 0, 0, 0, 0, 0, 255, 255, a, b, c, d]
  }

  function ParseV4(s: seq<Byte>): Option<seq<Byte>> {
    var p := Split(s, DOT);
    if |p| != 4 then None
    else
      match (Octet(p[0]), Octet(p[1]), Octet(p[2]), Octet(p[3]))
      case (Some(a), Some(b), Some(c), Some(d)) => Some(Mapped(a, b, c, d))
      case _ => None
  }

  // the first '.', ':' or '%' decides the family
  function FirstMark(s: seq<Byte>): Option<Byte> {
    if s == [] then None
    else if s[0] in {DOT, 58, 37} then Some(s[0])
    else FirstMark(s[1..])
  }

  function ParseIP(s: seq<Byte>, v6: ParseV6): Option<seq<Byte>> {
    match FirstMark(s)
    case None => None
    case Some(mark) => if mark == DOT then ParseV4(s) else if mark == 58 then v6(s) else None
  }

  // --- the two headers ---

  function NewlineAt(s: seq<Byte>): (k: nat)
    ensures k <= |s|
    ensures k < |s| ==> s[k] == LF
    ensures forall i :: 0 <= i < k ==> s[i] != LF
  {
    if s == [] || s[0] == LF then 0 else 1 + NewlineAt(s[1..])
  }

  function LineAddress(line: seq<Byte>, v6: ParseV6): Option<Address> {
    var fields := Fields(TrimRight(line));
    if |fields| < 6 then None
    else
      match (Atoi(fields[4]), ParseIP(fields[2], v6))
      case (Some(port), Some(ip)) => Some(TCPAddr(ip, port))
      case _ => None
  }

  function ParseV1(s: seq<Byte>, v6: ParseV6): Parsed {
    var k := NewlineAt(s);
    if k == |s| then Parsed(None, |s|) else Parsed(LineAddress(s[..k + 1], v6), k + 1)
  }

  function Uint16(hi: Byte, lo: Byte): nat {
    hi * 256 + lo
  }

  function BlockAddress(command: Byte, family: Byte, body: seq<Byte>): Option<Address> {
    if command / 16 != 2 || command % 16 != 1 then None
    else if family == 0x11 then
      if |body| < 12 then None else Some(TCPAddr(body[0..4], Uint16(body[8], body[9])))
    else if family == 0x21 then
      if |body| < 36 then None else Some(TCPAddr(body[0..16], Uint16(body[32], body[33])))
    else None
  }

  function ParseV2(s: seq<Byte>): Parsed {
    if |s| < 16 then Parsed(None, |s|)
    else
      var end := 16 + Uint16(s[14], s[15]);
      if |s| < end then Parsed(None, |s|) else Parsed(BlockAddress(s[12], s[13], s[16..end]), end)
  }

  function ParseHeader(s: seq<Byte>, v6: ParseV6): (p: Parsed)
    ensures p.consumed <= |s|
  {
    if |s| < 12 then Parsed(None, 0)
    else if s[..12] == V2_SIGNATURE then ParseV2(s)
    else if s[..6] == V1_PREFIX then ParseV1(s, v6)
    else Parsed(None, 0)
  }

  // --- what the text functions mean ---

  /** A code point in UTF-8, up to three bytes. */
  function Utf8(point: nat): seq<Byte>
    requires point < 0x1_0000
  {
    if point < 0x80 then [point]
    else if point < 0x800 then [0xC0 + point / 64, 0x80 + point % 64]
    else [0xE0 + point / 4096, 0x80 + point / 64 % 64, 0x80 + point % 64]
  }

  /** White space is exactly what Unicode calls so, in UTF-8. */
  lemma SpacesAreUnicodes(point: nat, rest: seq<Byte>)
    requires Unicode.IsWhiteSpace(point)
    ensures SpaceWidth(Utf8(point) + rest) == |Utf8(point)|
  {
  }

  lemma OnlyUnicodeSpaces(s: seq<Byte>) returns (point: nat)
    requires SpaceWidth(s) > 0
    ensures Unicode.IsWhiteSpace(point) && s[..SpaceWidth(s)] == Utf8(point)
  {
    point :=
      if SpaceWidth(s) == 1 then s[0]
      else if SpaceWidth(s) == 2 then s[1]
      else 4096 * (s[0] as int - 0xE0) + 64 * (s[1] as int - 0x80) + (s[2] as int - 0x80);
  }

  /** A number is an optional sign and digits, of a value an int64 holds. */
  lemma AtoiExactly(s: seq<Byte>, n: int)
    ensures Atoi(s) == Some(n) <==>
      var signed := s != [] && (s[0] == 43 || s[0] == 45);
      var digits := if signed then s[1..] else s;
      && digits != [] && AllDigits(digits)
      && n == (if signed && s[0] == 45 then -1 else 1) * Value(digits)
      && -0x8000_0000_0000_0000 <= n < 0x8000_0000_0000_0000
  {
  }

  // the mark at k is the first of them
  predicate MarkAt(s: seq<Byte>, k: nat) {
    k < |s| && s[k] in {46, 58, 37} && forall i :: 0 <= i < k ==> s[i] !in {46, 58, 37}
  }

  lemma {:induction false} FirstMarkIs(s: seq<Byte>, k: nat)
    requires MarkAt(s, k)
    ensures FirstMark(s) == Some(s[k])
  {
    if k > 0 {
      FirstMarkIs(s[1..], k - 1);
    }
  }

  /** The first dot, colon or percent sign makes a text IPv4, IPv6 or no address. */
  lemma FamilyExactly(s: seq<Byte>, v6: ParseV6)
    ensures forall k: nat :: MarkAt(s, k) ==>
      ParseIP(s, v6) == if s[k] == 46 then ParseV4(s) else if s[k] == 58 then v6(s) else None
    ensures (forall k: nat :: !MarkAt(s, k)) ==> ParseIP(s, v6).None?
  {
    forall k: nat | MarkAt(s, k) ensures FirstMark(s) == Some(s[k]) {
      FirstMarkIs(s, k);
    }
    if ParseIP(s, v6).Some? {
      var k := SomeMark(s);
    }
  }

  lemma {:induction false} SomeMark(s: seq<Byte>) returns (k: nat)
    requires FirstMark(s).Some?
    ensures MarkAt(s, k)
  {
    if s[0] in {46, 58, 37} {
      k := 0;
    } else {
      k := SomeMark(s[1..]);
      k := k + 1;
    }
  }

  // --- what the parser guarantees ---

  /** Nothing is consumed exactly when there are fewer than twelve bytes or neither
      prefix is there; whatever carries one is consumed even when it is malformed. */
  lemma UntouchedExactlyWithoutAPrefix(s: seq<Byte>, v6: ParseV6)
    ensures ParseHeader(s, v6).consumed == 0
      <==> |s| < 12 || (s[..12] != V2_SIGNATURE && s[..6] != V1_PREFIX)
    ensures ParseHeader(s, v6).consumed == 0 ==> ParseHeader(s, v6).address.None?
  {
    if |s| >= 12 && s[..6] == V1_PREFIX {
      assert s[0] == V1_PREFIX[0];
    }
  }

  /** When a block reports, from its bytes: all that it declares is there, byte 12 says
      version 2 and PROXY, and byte 13 says TCP over IPv4 with twelve declared bytes at
      least or TCP over IPv6 with thirty-six. It reports the source, which comes first,
      with the port behind both addresses. */
  lemma BlockReportsExactly(s: seq<Byte>, v6: ParseV6)
    requires |s| >= 12 && s[..12] == [13, 10, 13, 10, 0, 13, 10, 81, 85, 73, 84, 10]
    ensures ParseHeader(s, v6).address.Some? <==>
      && |s| >= 16
      && var length := 256 * (s[14] as int) + s[15];
      && |s| >= 16 + length
      && s[12] == 0x21
      && ((s[13] == 0x11 && length >= 12) || (s[13] == 0x21 && length >= 36))
    ensures ParseHeader(s, v6).address.Some? ==>
      ParseHeader(s, v6).address.value == if s[13] == 0x11 then TCPAddr(s[16..20], 256 * (s[24] as int) + s[25])
                                          else TCPAddr(s[16..32], 256 * (s[48] as int) + s[49])
    ensures ParseHeader(s, v6).consumed
      == if |s| >= 16 && |s| >= 16 + 256 * (s[14] as int) + s[15] then 16 + 256 * (s[14] as int) + s[15] else |s|
  {
    assert V2_SIGNATURE == s[..12];
    if |s| >= 16 && |s| >= 16 + 256 * (s[14] as int) + s[15] {
      var body := s[16..16 + 256 * (s[14] as int) + s[15]];
      if |body| >= 12 {
        assert body[0..4] == s[16..20] && body[8] == s[24] && body[9] == s[25];
      }
      if |body| >= 36 {
        assert body[0..16] == s[16..32] && body[32] == s[48] && body[33] == s[49];
      }
    }
  }

  /** A text header whose line never ends takes everything and reports nothing. */
  lemma UnendedLineReportsNothing(s: seq<Byte>, v6: ParseV6)
    requires |s| >= 12 && s[..6] == [80, 82, 79, 88, 89, 32] && LF !in s
    ensures ParseHeader(s, v6) == Parsed(None, |s|)
  {
    assert s[..12] != V2_SIGNATURE by {
      assert s[..12][0] == s[..6][0];
    }
    var k := NewlineAt(s);
    assert k < |s| ==> LF in s;
  }

  /** The header has all arrived: the rest of its line, or its declared length. */
  predicate Complete(s: seq<Byte>) {
    && |s| >= 12
    && (s[..12] == V2_SIGNATURE ==> |s| >= 16 && |s| >= 16 + Uint16(s[14], s[15]))
    && (s[..6] == V1_PREFIX ==> LF in s)
  }

  lemma {:induction false} NewlineStays(s: seq<Byte>, more: seq<Byte>)
    requires LF in s
    ensures NewlineAt(s) < |s| && NewlineAt(s + more) == NewlineAt(s)
  {
    if s[0] != LF {
      assert (s + more)[1..] == s[1..] + more;
      NewlineStays(s[1..], more);
    }
  }

  /** Once complete, a header means the same whatever bytes follow it. */
  lemma MoreBytesChangeNothing(s: seq<Byte>, more: seq<Byte>, v6: ParseV6)
    requires Complete(s)
    ensures ParseHeader(s + more, v6) == ParseHeader(s, v6)
  {
    assert (s + more)[..12] == s[..12];
    assert (s + more)[..6] == s[..6];
    if s[..12] == V2_SIGNATURE {
      var end := 16 + Uint16(s[14], s[15]);
      assert (s + more)[16..end] == s[16..end];
    } else if s[..6] == V1_PREFIX {
      NewlineStays(s, more);
      var k := NewlineAt(s);
      assert (s + more)[..k + 1] == s[..k + 1];
    }
  }
}
