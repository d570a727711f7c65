/** Printing a PROXY header and reading it back: the source address and port return,
    and exactly the payload is left. */
module ProxyRoundTrip {
  import opened Wrappers
  import opened Bytes
  import opened Decimal
  import opened Splitting
  import opened ProxyHeader

  // --- section 2.1, the text line ---

  const PROXY: seq<Byte> := [80, 82, 79, 88, 89]
  const TCP4: seq<Byte> := [84, 67, 80, 52]
  const TCP6: seq<Byte> := [84, 67, 80, 54]
  const UNKNOWN: seq<Byte> := [85, 78, 75, 78, 79, 87, 78]

  /** Bytes with no white space at any point of them. */
  predicate Word(w: seq<Byte>) {
    w != [] && Unspaced(w)
  }

  predicate Unspaced(w: seq<Byte>) {
    forall i :: 0 <= i < |w| ==> SpaceWidth(w[i..]) == 0
  }

  /** White space and nothing else. */
  predicate Gap(g: seq<Byte>)
    decreases |g|
  {
    g == [] || (SpaceWidth(g) > 0 && Gap(g[SpaceWidth(g)..]))
  }

  /** Words, each with the white space that follows it; only the last may have none. */
  predicate WellSpaced(words: seq<seq<Byte>>, gaps: seq<seq<Byte>>) {
    && |words| == |gaps|
    && (forall i :: 0 <= i < |words| ==> Word(words[i]) && Gap(gaps[i]) && LF !in gaps[i])
    && (forall i :: 0 <= i < |words| - 1 ==> gaps[i] != [])
  }

  function Text(words: seq<seq<Byte>>, gaps: seq<seq<Byte>>): seq<Byte>
    requires |words| == |gaps|
  {
    if words == [] then [] else words[0] + (gaps[0] + Text(words[1..], gaps[1..]))
  }

  function Line(words: seq<seq<Byte>>, gaps: seq<seq<Byte>>): seq<Byte>
    requires |words| == |gaps|
  {
    Text(words, gaps) + [LF]
  }

  // single spaces, and a carriage return at the end
  const SINGLE_SPACES: seq<seq<Byte>> := [[SPACE], [SPACE], [SPACE], [SPACE], [SPACE], [CR]]

  function V1Line(proto: seq<Byte>, src: seq<Byte>, dst: seq<Byte>, sport: nat, dport: nat): seq<Byte> {
    Line([PROXY, proto, src, dst, Digits(sport), Digits(dport)], SINGLE_SPACES)
  }

  // no white space starts in a and ends in what follows
  lemma NoSpaceAcross(a: seq<Byte>, rest: seq<Byte>)
    requires a != [] && SpaceWidth(a) == 0
    requires rest == [] || SpaceWidth(rest) > 0
    ensures SpaceWidth(a + rest) == 0
  {
    if rest == [] {
      assert a + rest == a;
    }
  }

  lemma SpaceStaysInFront(g: seq<Byte>, rest: seq<Byte>)
    requires SpaceWidth(g) > 0
    ensures SpaceWidth(g + rest) == SpaceWidth(g)
  {
  }

  lemma {:induction false} WordThenSpace(w: seq<Byte>, rest: seq<Byte>)
    requires Unspaced(w)
    requires rest == [] || SpaceWidth(rest) > 0
    ensures WordLength(w + rest) == |w|
  {
    if w == [] {
      assert w + rest == rest;
    } else {
      assert w[0..] == w;
      NoSpaceAcross(w, rest);
      assert (w + rest)[1..] == w[1..] + rest;
      forall i | 0 <= i < |w[1..]| ensures SpaceWidth(w[1..][i..]) == 0 {
        assert w[1..][i..] == w[i + 1..];
      }
      WordThenSpace(w[1..], rest);
    }
  }

  lemma FieldThenRest(w: seq<Byte>, rest: seq<Byte>)
    requires Word(w)
    requires rest == [] || SpaceWidth(rest) > 0
    ensures Fields(w + rest) == [w] + Fields(rest)
  {
    assert w[0..] == w;
    NoSpaceAcross(w, rest);
    WordThenSpace(w, rest);
    assert (w + rest)[..|w|] == w && (w + rest)[|w|..] == rest;
  }

  lemma {:induction false} GapIsSkipped(g: seq<Byte>, rest: seq<Byte>)
    requires Gap(g)
    ensures Fields(g + rest) == Fields(rest)
    decreases |g|
  {
    if g == [] {
      assert g + rest == rest;
    } else {
      SpaceStaysInFront(g, rest);
      assert (g + rest)[SpaceWidth(g)..] == g[SpaceWidth(g)..] + rest;
      GapIsSkipped(g[SpaceWidth(g)..], rest);
    }
  }

  /** Cutting a text of words into fields gives the words back, however they are spaced. */
  lemma {:induction false} FieldsOfText(words: seq<seq<Byte>>, gaps: seq<seq<Byte>>)
    requires WellSpaced(words, gaps)
    ensures Fields(Text(words, gaps)) == words
  {
    if words != [] {
      var rest := Text(words[1..], gaps[1..]);
      if gaps[0] != [] {
        SpaceStaysInFront(gaps[0], rest);
      }
      FieldThenRest(words[0], gaps[0] + rest);
      GapIsSkipped(gaps[0], rest);
      FieldsOfText(words[1..], gaps[1..]);
    }
  }

  lemma {:induction false} BreakEndsAWord(s: seq<Byte>, b: Byte)
    requires b in {CR, LF}
    ensures WordLength(s + [b]) == WordLength(s)
  {
    if s == [] {
      assert s + [b] == [b];
    } else if SpaceWidth(s) > 0 {
      SpaceStaysInFront(s, [b]);
    } else {
      NoSpaceAcross(s, [b]);
      assert (s + [b])[1..] == s[1..] + [b];
      BreakEndsAWord(s[1..], b);
    }
  }

  lemma {:induction false} BreakAddsNoField(s: seq<Byte>, b: Byte)
    requires b in {CR, LF}
    ensures Fields(s + [b]) == Fields(s)
    decreases |s|
  {
    if s == [] {
      assert [b][1..] == [];
      assert s + [b] == [b];
    } else if SpaceWidth(s) > 0 {
      SpaceStaysInFront(s, [b]);
      assert (s + [b])[SpaceWidth(s)..] == s[SpaceWidth(s)..] + [b];
      BreakAddsNoField(s[SpaceWidth(s)..], b);
    } else {
      var k := WordLength(s);
      NoSpaceAcross(s, [b]);
      BreakEndsAWord(s, b);
      assert (s + [b])[..k] == s[..k] && (s + [b])[k..] == s[k..] + [b];
      BreakAddsNoField(s[k..], b);
    }
  }

  lemma {:induction false} TrimKeepsFields(s: seq<Byte>)
    ensures Fields(TrimRight(s)) == Fields(s)
  {
    if s != [] && s[|s| - 1] in {CR, LF} {
      assert s == s[..|s| - 1] + [s[|s| - 1]];
      BreakAddsNoField(s[..|s| - 1], s[|s| - 1]);
      TrimKeepsFields(s[..|s| - 1]);
    }
  }

  lemma {:induction false} TextIsOneLine(words: seq<seq<Byte>>, gaps: seq<seq<Byte>>)
    requires WellSpaced(words, gaps)
    ensures LF !in Text(words, gaps)
  {
    if words != [] {
      TextIsOneLine(words[1..], gaps[1..]);
      forall i | 0 <= i < |words[0]| ensures words[0][i] != LF {
        assert words[0][i..][0] == words[0][i];
      }
    }
  }

  lemma {:induction false} NewlineEnds(head: seq<Byte>, rest: seq<Byte>)
    requires LF !in head
    ensures NewlineAt(head + [LF] + rest) == |head|
  {
    if head != [] {
      assert (head + [LF] + rest)[1..] == head[1..] + [LF] + rest;
      NewlineEnds(head[1..], rest);
    }
  }

  /** What a line of words reports: the third and fifth, once there are six. */
  function WordsAddress(words: seq<seq<Byte>>, v6: ParseV6): Option<Address> {
    if |words| < 6 || Atoi(words[4]).None? || ParseIP(words[2], v6).None? then None
    else Some(TCPAddr(ParseIP(words[2], v6).value, Atoi(words[4]).value))
  }

  /** A line that starts as a text header does, on a stream long enough to look at. */
  predicate IsV1Line(words: seq<seq<Byte>>, gaps: seq<seq<Byte>>, payload: seq<Byte>) {
    && WellSpaced(words, gaps)
    && words != [] && words[0] == PROXY && gaps[0] != [] && gaps[0][0] == SPACE
    && |Line(words, gaps) + payload| >= 12
  }

  /** Every such line, however its words are spaced: reading it and any payload takes
      exactly the line, and reports an address from the third and fifth words whatever
      the second one is. */
  lemma LineIsReadBack(words: seq<seq<Byte>>, gaps: seq<seq<Byte>>, payload: seq<Byte>, v6: ParseV6)
    requires IsV1Line(words, gaps, payload)
    ensures var line := Line(words, gaps);
      && ParseHeader(line + payload, v6) == Parsed(WordsAddress(words, v6), |line|)
      && (line + payload)[|line|..] == payload
  {
    var text := Text(words, gaps);
    var line := text + [LF];
    var s := line + payload;
    TextIsOneLine(words, gaps);
    NewlineEnds(text, payload);
    assert s[..|line|] == line;
    TrimKeepsFields(line);
    BreakAddsNoField(text, LF);
    FieldsOfText(words, gaps);
    assert text[..6] == PROXY + [SPACE];
    assert s[..6] == text[..6] && V1_PREFIX == PROXY + [SPACE];
    assert s[..12] != V2_SIGNATURE by {
      assert s[..12][0] == s[..6][0];
    }
  }

  // the white space each field of s is followed by
  function GapLength(s: seq<Byte>): (k: nat)
    ensures k <= |s|
    decreases |s|
  {
    if SpaceWidth(s) == 0 then 0 else SpaceWidth(s) + GapLength(s[SpaceWidth(s)..])
  }

  lemma {:induction false} GapEnds(s: seq<Byte>)
    ensures var k := GapLength(s);
      && Gap(s[..k]) && (k < |s| ==> SpaceWidth(s[k..]) == 0) && (SpaceWidth(s) > 0 ==> k > 0)
    decreases |s|
  {
    if SpaceWidth(s) > 0 {
      var w := SpaceWidth(s);
      var k := GapLength(s);
      GapEnds(s[w..]);
      assert s[..k][w..] == s[w..][..k - w] && s[k..] == s[w..][k - w..];
      assert SpaceWidth(s[..k]) == w by {
        SpaceSeenEarly(s, w, k);
      }
    }
  }

  lemma SpaceSeenEarly(s: seq<Byte>, w: nat, k: nat)
    requires w == SpaceWidth(s) && w <= k <= |s|
    ensures SpaceWidth(s[..k]) == w
  {
  }

  lemma {:induction false} WordStopsAtSpace(s: seq<Byte>, i: nat)
    requires i <= WordLength(s)
    ensures i < WordLength(s) ==> SpaceWidth(s[i..]) == 0
    ensures i == WordLength(s) < |s| ==> SpaceWidth(s[i..]) > 0
  {
    if i == 0 {
      assert s[0..] == s;
    } else {
      WordStopsAtSpace(s[1..], i - 1);
      assert s[i..] == s[1..][i - 1..];
    }
  }

  lemma WordIsUnspaced(s: seq<Byte>)
    ensures Unspaced(s[..WordLength(s)])
  {
    var k := WordLength(s);
    forall i | 0 <= i < k ensures SpaceWidth(s[..k][i..]) == 0 {
      WordStopsAtSpace(s, i);
      assert s[..k][i..] == s[i..][..k - i];
      SpaceSeenEarly(s[i..], 0, k - i);
    }
  }

  lemma SpacedCons(w: seq<Byte>, g: seq<Byte>, words: seq<seq<Byte>>, gaps: seq<seq<Byte>>)
    requires WellSpaced(words, gaps) && Word(w) && Gap(g) && LF !in g && (words != [] ==> g != [])
    ensures WellSpaced([w] + words, [g] + gaps)
    ensures Text([w] + words, [g] + gaps) == w + (g + Text(words, gaps))
  {
    var ws, gs := [w] + words, [g] + gaps;
    assert ws[1..] == words && gs[1..] == gaps;
    forall i | 0 <= i < |ws| ensures Word(ws[i]) && Gap(gs[i]) && LF !in gs[i] {
      if i > 0 {
        assert ws[i] == words[i - 1] && gs[i] == gaps[i - 1];
      }
    }
    forall i | 0 <= i < |ws| - 1 ensures gs[i] != [] {
      if i > 0 {
        assert gs[i] == gaps[i - 1];
      }
    }
  }

  // a text is its first word and what follows it
  lemma FirstWord(s: seq<Byte>) returns (w: seq<Byte>, t: seq<Byte>)
    requires s != [] && SpaceWidth(s) == 0
    ensures s == w + t && Word(w) && (t == [] || SpaceWidth(t) > 0)
    ensures Fields(s) == [w] + Fields(t)
  {
    var k := WordLength(s);
    WordIsUnspaced(s);
    WordStopsAtSpace(s, k);
    w, t := s[..k], s[k..];
  }

  // and that is a gap and the rest of the words
  lemma ThenGap(t: seq<Byte>) returns (g: seq<Byte>, rest: seq<Byte>)
    requires t == [] || SpaceWidth(t) > 0
    ensures t == g + rest && Gap(g) && (t != [] ==> g != [])
    ensures rest == [] || SpaceWidth(rest) == 0
    ensures Fields(t) == Fields(rest)
  {
    var k := GapLength(t);
    GapEnds(t);
    g, rest := t[..k], t[k..];
    GapIsSkipped(g, rest);
  }

  /** There are no other lines: any text that does not start with white space is its own
      fields with some spacing between them. */
  lemma {:induction false} EveryTextIsSpacedWords(s: seq<Byte>) returns (gaps: seq<seq<Byte>>)
    requires LF !in s && (s == [] || SpaceWidth(s) == 0)
    ensures WellSpaced(Fields(s), gaps) && Text(Fields(s), gaps) == s
    decreases |s|
  {
    if s == [] {
      gaps := [];
    } else {
      var w, t := FirstWord(s);
      var g, rest := ThenGap(t);
      var more := EveryTextIsSpacedWords(rest);
      SpacedCons(w, g, Fields(rest), more);
      gaps := [g] + more;
    }
  }

  lemma {:induction false} AsciiIsUnspaced(w: seq<Byte>)
    requires forall i :: 0 <= i < |w| ==> 33 <= w[i] <= 126
    ensures Unspaced(w)
  {
    forall i | 0 <= i < |w| ensures SpaceWidth(w[i..]) == 0 {
      assert w[i..][0] == w[i];
    }
  }

  lemma DigitsAreAWord(n: nat)
    ensures Word(Digits(n))
    ensures n < INT64_LIMIT ==> Atoi(Digits(n)) == Some(n)
  {
    ValueOfDigits(n);
    AsciiIsUnspaced(Digits(n));
    assert IsDigit(Digits(n)[0]);
  }

  lemma StandardLine(proto: seq<Byte>, src: seq<Byte>, dst: seq<Byte>, sport: seq<Byte>, dport: seq<Byte>,
                     payload: seq<Byte>)
    requires Word(proto) && Word(src) && Word(dst) && Word(sport) && Word(dport)
    ensures IsV1Line([PROXY, proto, src, dst, sport, dport], SINGLE_SPACES, payload)
  {
    var words, gaps := [PROXY, proto, src, dst, sport, dport], SINGLE_SPACES;
    AsciiIsUnspaced(PROXY);
    assert forall i :: 0 <= i < 6 ==> Gap(gaps[i]) by {
      assert [SPACE][1..] == [] && [CR][1..] == [];
    }
    var t3 := Text(words[3..], gaps[3..]);
    assert words[2..][1..] == words[3..] && gaps[2..][1..] == gaps[3..];
    var t2 := Text(words[2..], gaps[2..]);
    assert words[1..][1..] == words[2..] && gaps[1..][1..] == gaps[2..];
    var t1 := Text(words[1..], gaps[1..]);
    assert words[3..][1..] == words[4..] && gaps[3..][1..] == gaps[4..];
    assert |t1| >= 2 + |t2| && |t2| >= 2 + |t3| && |t3| >= 2;
  }

  /** A standard line of any five words: what it reports, and that exactly it is taken. */
  lemma StandardLineIsReadBack(proto: seq<Byte>, src: seq<Byte>, dst: seq<Byte>, sport: seq<Byte>, dport: seq<Byte>,
                               payload: seq<Byte>, v6: ParseV6)
    requires Word(proto) && Word(src) && Word(dst) && Word(sport) && Word(dport)
    ensures var line := Line([PROXY, proto, src, dst, sport, dport], SINGLE_SPACES);
      && ParseHeader(line + payload, v6).consumed == |line|
      && (line + payload)[|line|..] == payload
      && ParseHeader(line + payload, v6).address
         == if Atoi(sport).Some? && ParseIP(src, v6).Some?
            then Some(TCPAddr(ParseIP(src, v6).value, Atoi(sport).value)) else None
  {
    var words := [PROXY, proto, src, dst, sport, dport];
    StandardLine(proto, src, dst, sport, dport, payload);
    LineIsReadBack(words, SINGLE_SPACES, payload, v6);
    assert words[2] == src && words[4] == sport;
  }

  /** The text line for any source text that names an address. */
  lemma V1RoundTrip(proto: seq<Byte>, src: seq<Byte>, dst: seq<Byte>, ip: seq<Byte>,
                    sport: nat, dport: nat, payload: seq<Byte>, v6: ParseV6)
    requires Word(proto) && Word(src) && Word(dst)
    requires ParseIP(src, v6) == Some(ip) && sport < 0x1_0000 && dport < 0x1_0000
    ensures var line := V1Line(proto, src, dst, sport, dport);
      && ParseHeader(line + payload, v6) == Parsed(Some(TCPAddr(ip, sport)), |line|)
      && (line + payload)[|line|..] == payload
  {
    DigitsAreAWord(sport);
    DigitsAreAWord(dport);
    StandardLineIsReadBack(proto, src, dst, Digits(sport), Digits(dport), payload, v6);
  }

  function Quad(a: Byte, b: Byte, c: Byte, d: Byte): seq<Byte> {
    Digits(a) + [DOT] + (Digits(b) + [DOT] + (Digits(c) + [DOT] + Digits(d)))
  }

  lemma OctetOfDigits(n: Byte)
    ensures Octet(Digits(n)) == Some(n)
  {
    ValueOfDigits(n);
    NoLeadingZero(n);
  }

  lemma {:induction false} MarkAfterDigits(digits: seq<Byte>, rest: seq<Byte>)
    requires AllDigits(digits)
    ensures FirstMark(digits + [DOT] + rest) == Some(DOT)
  {
    var s := digits + [DOT] + rest;
    if digits != [] {
      assert s[1..] == digits[1..] + [DOT] + rest;
      MarkAfterDigits(digits[1..], rest);
    }
  }

  lemma QuadIsAWord(a: Byte, b: Byte, c: Byte, d: Byte)
    ensures Word(Quad(a, b, c, d))
  {
    AsciiIsUnspaced(Quad(a, b, c, d));
  }

  lemma QuadSplits(a: Byte, b: Byte, c: Byte, d: Byte)
    ensures Split(Quad(a, b, c, d), DOT) == [Digits(a), Digits(b), Digits(c), Digits(d)]
  {
    var two := Digits(c) + [DOT] + Digits(d);
    var three := Digits(b) + [DOT] + two;
    SplitAtFirst(Digits(a), DOT, three);
    SplitAtFirst(Digits(b), DOT, two);
    SplitAtFirst(Digits(c), DOT, Digits(d));
    SplitOfPiece(Digits(d), DOT);
  }

  /** The printed form of every quad is read back as that quad. */
  lemma QuadParses(a: Byte, b: Byte, c: Byte, d: Byte, v6: ParseV6)
    ensures ParseIP(Quad(a, b, c, d), v6) == Some(Mapped(a, b, c, d))
  {
    MarkAfterDigits(Digits(a), Digits(b) + [DOT] + (Digits(c) + [DOT] + Digits(d)));
    QuadSplits(a, b, c, d);
    OctetOfDigits(a);
    OctetOfDigits(b);
    OctetOfDigits(c);
    OctetOfDigits(d);
  }

  lemma OctetIsCanonical(p: seq<Byte>)
    requires Octet(p).Some?
    ensures p == Digits(Octet(p).value)
  {
    DigitsOfValue(p);
  }

  lemma UnsplitFour(w: seq<Byte>, x: seq<Byte>, y: seq<Byte>, z: seq<Byte>)
    ensures Unsplit([w, x, y, z], DOT) == w + [DOT] + (x + [DOT] + (y + [DOT] + z))
  {
    assert [w, x, y, z][1..] == [x, y, z];
    assert [x, y, z][1..] == [y, z];
    assert [y, z][1..] == [z];
    assert Unsplit([x, y, z], DOT) == x + [DOT] + Unsplit([y, z], DOT);
  }

  // what is read is the quad of some four octets
  lemma OnlyQuads(s: seq<Byte>) returns (a: Byte, b: Byte, c: Byte, d: Byte)
    requires ParseV4(s).Some?
    ensures s == Quad(a, b, c, d) && ParseV4(s) == Some([0, 0, 0, 0, 0, 0, 0, 0, 0, 0, 0xFF, 0xFF, a, b, c, d])
  {
    var p := Split(s, DOT);
    a, b, c, d := Octet(p[0]).value, Octet(p[1]).value, Octet(p[2]).value, Octet(p[3]).value;
    OctetIsCanonical(p[0]);
    OctetIsCanonical(p[1]);
    OctetIsCanonical(p[2]);
    OctetIsCanonical(p[3]);
    UnsplitOfSplit(s, DOT);
    UnsplitFour(Digits(a), Digits(b), Digits(c), Digits(d));
    assert p == [Digits(a), Digits(b), Digits(c), Digits(d)];
  }

  /** A text is read as an IPv4 address, held in sixteen bytes, exactly when it is the
      printed quad of its last four: no leading zero, no fifth part, no space. */
  lemma QuadsExactly(s: seq<Byte>, a: Byte, b: Byte, c: Byte, d: Byte)
    ensures ParseV4(s) == Some([0, 0, 0, 0, 0, 0, 0, 0, 0, 0, 0xFF, 0xFF, a, b, c, d]) <==> s == Quad(a, b, c, d)
    ensures ParseV4(s).Some? <==> exists w: Byte, x: Byte, y: Byte, z: Byte :: s == Quad(w, x, y, z)
  {
    if s == Quad(a, b, c, d) {
      QuadParses(a, b, c, d, _ => None);
      MarkAfterDigits(Digits(a), Digits(b) + [DOT] + (Digits(c) + [DOT] + Digits(d)));
    }
    if ParseV4(s).Some? {
      var w, x, y, z := OnlyQuads(s);
      assert ParseV4(s).value[12..] == [w, x, y, z];
      assert [0, 0, 0, 0, 0, 0, 0, 0, 0, 0, 0xFF, 0xFF, a, b, c, d][12..] == [a, b, c, d];
    }
    if w: Byte, x: Byte, y: Byte, z: Byte :| s == Quad(w, x, y, z) {
      QuadParses(w, x, y, z, _ => None);
      MarkAfterDigits(Digits(w), Digits(x) + [DOT] + (Digits(y) + [DOT] + Digits(z)));
    }
  }

  /** TCP4, with nothing assumed: every source and destination quad, every port, every
      payload. */
  lemma V1Tcp4RoundTrip(s: (Byte, Byte, Byte, Byte), d: (Byte, Byte, Byte, Byte),
                        sport: nat, dport: nat, payload: seq<Byte>, v6: ParseV6)
    requires sport < 0x1_0000 && dport < 0x1_0000
    ensures var line := V1Line(TCP4, Quad(s.0, s.1, s.2, s.3), Quad(d.0, d.1, d.2, d.3), sport, dport);
      && ParseHeader(line + payload, v6) == Parsed(Some(TCPAddr(Mapped(s.0, s.1, s.2, s.3), sport)), |line|)
      && (line + payload)[|line|..] == payload
  {
    AsciiIsUnspaced(TCP4);
    QuadIsAWord(s.0, s.1, s.2, s.3);
    QuadIsAWord(d.0, d.1, d.2, d.3);
    QuadParses(s.0, s.1, s.2, s.3, v6);
    V1RoundTrip(TCP4, Quad(s.0, s.1, s.2, s.3), Quad(d.0, d.1, d.2, d.3),
                Mapped(s.0, s.1, s.2, s.3), sport, dport, payload, v6);
  }

  /** TCP6, for any printed form with a colon before any dot or percent sign that the
      IPv6 parser reads back. */
  lemma V1Tcp6RoundTrip(src: seq<Byte>, dst: seq<Byte>, ip: seq<Byte>,
                        sport: nat, dport: nat, payload: seq<Byte>, v6: ParseV6)
    requires Word(src) && Word(dst) && sport < 0x1_0000 && dport < 0x1_0000
    requires FirstMark(src) == Some(58) && v6(src) == Some(ip)
    ensures var line := V1Line(TCP6, src, dst, sport, dport);
      && ParseHeader(line + payload, v6) == Parsed(Some(TCPAddr(ip, sport)), |line|)
      && (line + payload)[|line|..] == payload
  {
    AsciiIsUnspaced(TCP6);
    V1RoundTrip(TCP6, src, dst, ip, sport, dport, payload, v6);
  }

  /** Section 2.1 has a receiver ignore whatever follows UNKNOWN. The code does so
      exactly when fewer than four words follow, the first names no address or the
      third is no number: any other UNKNOWN line reports an address. */
  lemma UnknownIgnoredExactly(words: seq<seq<Byte>>, gaps: seq<seq<Byte>>, payload: seq<Byte>, v6: ParseV6)
    requires IsV1Line(words, gaps, payload) && |words| >= 2 && words[1] == UNKNOWN
    ensures ParseHeader(Line(words, gaps) + payload, v6).address.None?
      <==> |words| < 6 || ParseIP(words[2], v6).None? || Atoi(words[4]).None?
  {
    LineIsReadBack(words, gaps, payload, v6);
  }

  lemma UnknownCanReport(v6: ParseV6)
    ensures ParseHeader(V1Line(UNKNOWN, Quad(10, 0, 0, 1), Quad(10, 0, 0, 2), 80, 81) + [], v6).address
         == Some(TCPAddr(Mapped(10, 0, 0, 1), 80))
  {
    QuadIsAWord(10, 0, 0, 1);
    QuadIsAWord(10, 0, 0, 2);
    AsciiIsUnspaced(UNKNOWN);
    QuadParses(10, 0, 0, 1, v6);
    V1RoundTrip(UNKNOWN, Quad(10, 0, 0, 1), Quad(10, 0, 0, 2), Mapped(10, 0, 0, 1), 80, 81, [], v6);
  }

  // a port word less its sign
  function Unsigned(w: seq<Byte>): seq<Byte> {
    if w != [] && w[0] in {43, 45} then w[1..] else w
  }

  /** A line that reports an address reports a port a TCP port can be exactly when its
      fifth word stands for less than 65536, and for zero if it has a minus sign. */
  lemma PortInRangeExactly(words: seq<seq<Byte>>, gaps: seq<seq<Byte>>, payload: seq<Byte>, v6: ParseV6)
    requires IsV1Line(words, gaps, payload) && |words| >= 5
    ensures var reported := ParseHeader(Line(words, gaps) + payload, v6).address;
      reported.Some? ==>
        var digits := Unsigned(words[4]);
        && AllDigits(digits)
        && (0 <= reported.value.port < 0x1_0000
            <==> (Value(digits) < 0x1_0000 && (words[4][0] == 45 ==> Value(digits) == 0)))
  {
    LineIsReadBack(words, gaps, payload, v6);
  }

  function Signed(n: int): seq<Byte> {
    if n < 0 then [45] + Digits(-n) else Digits(n)
  }

  lemma SignedIsRead(n: int)
    requires -INT64_LIMIT <= n < INT64_LIMIT
    ensures Word(Signed(n)) && Atoi(Signed(n)) == Some(n)
  {
    if n < 0 {
      ValueOfDigits(-n);
      AsciiIsUnspaced(Signed(n));
      assert Signed(n)[1..] == Digits(-n);
    } else {
      DigitsAreAWord(n);
    }
  }

  /** Every int64 is the port of some header: -1, 65536 and the least of them too. */
  lemma AnyPortIsReported(n: int, payload: seq<Byte>, v6: ParseV6)
    requires -INT64_LIMIT <= n < INT64_LIMIT
    ensures var line := Line([PROXY, TCP4, Quad(10, 0, 0, 1), Quad(10, 0, 0, 2), Signed(n), Digits(80)], SINGLE_SPACES);
      ParseHeader(line + payload, v6).address == Some(TCPAddr(Mapped(10, 0, 0, 1), n))
  {
    QuadIsAWord(10, 0, 0, 1);
    QuadIsAWord(10, 0, 0, 2);
    QuadParses(10, 0, 0, 1, v6);
    AsciiIsUnspaced(TCP4);
    SignedIsRead(n);
    DigitsAreAWord(80);
    StandardLineIsReadBack(TCP4, Quad(10, 0, 0, 1), Quad(10, 0, 0, 2), Signed(n), Digits(80), payload, v6);
  }

  // --- section 2.2, the binary block ---

  const PROXY_COMMAND: Byte := 0x21
  const LOCAL_COMMAND: Byte := 0x20
  const TCP_OVER_IPV4: Byte := 0x11
  const TCP_OVER_IPV6: Byte := 0x21

  function Uint16Bytes(n: nat): seq<Byte>
    requires n < 0x1_0000
  {
    [n / 256, n % 256]
  }

  function V2Block(command: Byte, family: Byte, body: seq<Byte>): seq<Byte>
    requires |body| < 0x1_0000
  {
    V2_SIGNATURE + [command, family] + Uint16Bytes(|body|) + body
  }

  function Endpoints(src: seq<Byte>, dst: seq<Byte>, sport: nat, dport: nat, extension: seq<Byte>): seq<Byte>
    requires sport < 0x1_0000 && dport < 0x1_0000
  {
    src + dst + Uint16Bytes(sport) + Uint16Bytes(dport) + extension
  }

  lemma BlockParses(command: Byte, family: Byte, body: seq<Byte>, payload: seq<Byte>, v6: ParseV6)
    requires |body| < 0x1_0000
    ensures var block := V2Block(command, family, body);
      && |block| == 16 + |body|
      && ParseHeader(block + payload, v6) == Parsed(BlockAddress(command, family, body), |block|)
      && (block + payload)[|block|..] == payload
  {
    var s := V2Block(command, family, body) + payload;
    assert s[..12] == V2_SIGNATURE;
    assert Uint16(s[14], s[15]) == |body|;
    assert s[16..16 + |body|] == body;
  }

  /** Every IPv4 or IPv6 endpoint pair, with any extension that fits the length field. */
  lemma V2RoundTrip(src: seq<Byte>, dst: seq<Byte>, sport: nat, dport: nat,
                    extension: seq<Byte>, payload: seq<Byte>, v6: ParseV6)
    requires |src| == |dst| && |src| in {4, 16} && sport < 0x1_0000 && dport < 0x1_0000
    requires 2 * |src| + 4 + |extension| < 0x1_0000
    ensures var block := V2Block(PROXY_COMMAND, if |src| == 4 then TCP_OVER_IPV4 else TCP_OVER_IPV6,
                                 Endpoints(src, dst, sport, dport, extension));
      && ParseHeader(block + payload, v6) == Parsed(Some(TCPAddr(src, sport)), |block|)
      && (block + payload)[|block|..] == payload
  {
    var body := Endpoints(src, dst, sport, dport, extension);
    BlockParses(PROXY_COMMAND, if |src| == 4 then TCP_OVER_IPV4 else TCP_OVER_IPV6, body, payload, v6);
    assert body[0..|src|] == src;
    assert Uint16(body[2 * |src|], body[2 * |src| + 1]) == sport;
  }

  /** A LOCAL block reports no address and takes exactly sixteen bytes and its length. */
  lemma LocalBlock(family: Byte, body: seq<Byte>, payload: seq<Byte>, v6: ParseV6)
    requires |body| < 0x1_0000
    ensures ParseHeader(V2Block(LOCAL_COMMAND, family, body) + payload, v6) == Parsed(None, 16 + |body|)
  {
    BlockParses(LOCAL_COMMAND, family, body, payload, v6);
  }
}
