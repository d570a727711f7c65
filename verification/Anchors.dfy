/** Heading anchors (web/assets/wt.js): every heading without an id is given one that
    nothing else on the page has, by counting suffixes until one is free. */
module Anchors {
  import opened Decimal
  import Unicode

  // --- the slug of a heading ---

  // what trim and the white-space class of a pattern both mean
  predicate IsSpace(c: char) {
    || c in {' ', '\t', '\n', '\r', '\U{000B}', '\U{000C}'}
    || '\U{2000}' <= c <= '\U{200A}'
    || c in {'\U{00A0}', '\U{1680}', '\U{2028}', '\U{2029}', '\U{202F}', '\U{205F}', '\U{3000}', '\U{FEFF}'}
  }

  /** That is what Unicode calls white space, but for the next-line control, and with the
      byte order mark. */
  lemma SpacesAreUnicodes(c: char)
    ensures IsSpace(c) <==> (Unicode.IsWhiteSpace(c as int) && c != '\U{0085}') || c == '\U{FEFF}'
  {
  }

  predicate IsWord(c: char) {
    'a' <= c <= 'z' || 'A' <= c <= 'Z' || '0' <= c <= '9' || c == '_'
  }

  predicate IsAscii(s: string) {
    forall i :: 0 <= i < |s| ==> s[i] < '\U{0080}'
  }

  predicate NoCapitals(s: string) {
    forall i :: 0 <= i < |s| ==> !('A' <= s[i] <= 'Z')
  }

  function AsciiLower(s: string): string {
    if s == [] then []
    else [if 'A' <= s[0] <= 'Z' then s[0] - 'A' + 'a' else s[0]] + AsciiLower(s[1..])
  }

  /** What the slug asks of the browser's lower-casing: an ASCII text becomes what one
      expects, and no text keeps an ASCII capital. A letter outside ASCII may become
      anything else, an ASCII letter among it, and may depend on its neighbours. */
  ghost predicate Lowers(lower: string -> string) {
    && (forall s :: NoCapitals(lower(s)))
    && (forall s {:trigger IsAscii(s)} :: IsAscii(s) ==> lower(s) == AsciiLower(s))
  }

  function TrimLeft(s: string): string {
    if s != [] && IsSpace(s[0]) then TrimLeft(s[1..]) else s
  }

  function TrimRight(s: string): string {
    if s != [] && IsSpace(s[|s| - 1]) then TrimRight(s[..|s| - 1]) else s
  }

  // drops all but word characters, spaces and hyphens
  function Strip(s: string): string {
    if s == [] then []
    else (if IsWord(s[0]) || IsSpace(s[0]) || s[0] == '-' then [s[0]] else []) + Strip(s[1..])
  }

  // each run of spaces becomes one hyphen
  function Hyphenate(s: string): string {
    if s == [] then []
    else if !IsSpace(s[0]) then [s[0]] + Hyphenate(s[1..])
    else if |s| > 1 && IsSpace(s[1]) then Hyphenate(s[1..])
    else ['-'] + Hyphenate(s[1..])
  }

  function Slug(lower: string -> string, text: string): string {
    Hyphenate(Strip(TrimRight(TrimLeft(lower(text)))))
  }

  // what a slug is made of
  predicate IsSettled(c: char) {
    'a' <= c <= 'z' || '0' <= c <= '9' || c == '_' || c == '-'
  }

  predicate Settled(s: string) {
    forall i :: 0 <= i < |s| ==> IsSettled(s[i])
  }

  lemma {:induction false} AsciiLowerHasNoCapitals(s: string)
    ensures NoCapitals(AsciiLower(s))
  {
    if s != [] {
      AsciiLowerHasNoCapitals(s[1..]);
    }
  }

  // the plainest lower-casing is one
  lemma AsciiLowerLowers()
    ensures Lowers(AsciiLower)
  {
    forall s ensures NoCapitals(AsciiLower(s)) {
      AsciiLowerHasNoCapitals(s);
    }
  }

  lemma {:induction false} TrimKeepsCase(s: string)
    requires NoCapitals(s)
    ensures NoCapitals(TrimLeft(s)) && NoCapitals(TrimRight(s))
    decreases |s|
  {
    if s != [] {
      TrimKeepsCase(s[1..]);
      TrimKeepsCase(s[..|s| - 1]);
    }
  }

  lemma {:induction false} StripThenHyphenateSettles(s: string)
    requires NoCapitals(s)
    ensures NoCapitals(Strip(s))
    ensures forall i :: 0 <= i < |Strip(s)| ==> IsWord(Strip(s)[i]) || IsSpace(Strip(s)[i]) || Strip(s)[i] == '-'
  {
    if s != [] {
      StripThenHyphenateSettles(s[1..]);
    }
  }

  lemma {:induction false} HyphenateSettles(s: string)
    requires NoCapitals(s)
    requires forall i :: 0 <= i < |s| ==> IsWord(s[i]) || IsSpace(s[i]) || s[i] == '-'
    ensures Settled(Hyphenate(s))
  {
    if s != [] {
      HyphenateSettles(s[1..]);
    }
  }

  lemma SlugSettles(lower: string -> string, text: string)
    requires Lowers(lower)
    ensures Settled(Slug(lower, text))
  {
    TrimKeepsCase(lower(text));
    TrimKeepsCase(TrimLeft(lower(text)));
    StripThenHyphenateSettles(TrimRight(TrimLeft(lower(text))));
    HyphenateSettles(Strip(TrimRight(TrimLeft(lower(text)))));
  }

  // no step changes what is settled
  lemma {:induction false} SettledKeepsSpelling(s: string)
    requires Settled(s)
    ensures AsciiLower(s) == s && Strip(s) == s
  {
    if s != [] {
      SettledKeepsSpelling(s[1..]);
      assert s == [s[0]] + s[1..];
    }
  }

  lemma {:induction false} SettledKeepsHyphens(s: string)
    requires Settled(s)
    ensures Hyphenate(s) == s
  {
    if s != [] {
      SettledKeepsHyphens(s[1..]);
      assert s == [s[0]] + s[1..];
    }
  }

  lemma SettledKeepsEnds(s: string)
    requires Settled(s)
    ensures TrimLeft(s) == s && TrimRight(s) == s
  {
  }

  lemma SettledIsItsOwnSlug(lower: string -> string, s: string)
    requires Lowers(lower) && Settled(s)
    ensures Slug(lower, s) == s
  {
    SettledKeepsSpelling(s);
    assert IsAscii(s);
    SettledKeepsEnds(s);
    SettledKeepsHyphens(s);
  }

  /** A slug holds only lower-case letters, digits, underscores and hyphens, and is its
      own slug. */
  lemma SlugIsIdempotent(lower: string -> string, text: string)
    requires Lowers(lower)
    ensures Settled(Slug(lower, text)) && Slug(lower, Slug(lower, text)) == Slug(lower, text)
  {
    SlugSettles(lower, text);
    SettledIsItsOwnSlug(lower, Slug(lower, text));
  }

  predicate NothingToKeep(s: string) {
    forall i :: 0 <= i < |s| ==> !IsWord(s[i]) && !IsSpace(s[i]) && s[i] != '-'
  }

  lemma {:induction false} StripsToNothing(s: string)
    ensures Strip(s) == "" <==> NothingToKeep(s)
  {
    if s != [] {
      StripsToNothing(s[1..]);
      assert s == [s[0]] + s[1..];
    }
  }

  lemma {:induction false} HyphenateKeepsSomething(s: string)
    ensures Hyphenate(s) == "" <==> s == ""
  {
    if |s| > 1 {
      HyphenateKeepsSomething(s[1..]);
    }
  }

  /** A slug is empty exactly when the trimmed, lower-cased text has no word character,
      no white space and no hyphen. */
  lemma SlugIsEmptyExactly(lower: string -> string, text: string)
    ensures Slug(lower, text) == "" <==> NothingToKeep(TrimRight(TrimLeft(lower(text))))
  {
    StripsToNothing(TrimRight(TrimLeft(lower(text))));
    HyphenateKeepsSomething(Strip(TrimRight(TrimLeft(lower(text)))));
  }

  function JoinWith(words: seq<string>, sep: char): string {
    if words == [] then []
    else if |words| == 1 then words[0]
    else words[0] + [sep] + JoinWith(words[1..], sep)
  }

  predicate WordsSettled(words: seq<string>) {
    forall i :: 0 <= i < |words| ==> words[i] != "" && Settled(words[i])
  }

  // what survives every step but the last
  predicate Spaced(s: string) {
    forall i :: 0 <= i < |s| ==> IsSettled(s[i]) || s[i] == ' '
  }

  lemma {:induction false} JoinIsSpaced(words: seq<string>)
    requires WordsSettled(words) && words != []
    ensures var s := JoinWith(words, ' ');
      s != "" && Spaced(s) && !IsSpace(s[0]) && !IsSpace(s[|s| - 1])
  {
    if |words| > 1 {
      JoinIsSpaced(words[1..]);
    }
  }

  lemma {:induction false} SpacedIsKept(s: string)
    requires Spaced(s)
    ensures AsciiLower(s) == s && Strip(s) == s
  {
    if s != [] {
      SpacedIsKept(s[1..]);
      assert s == [s[0]] + s[1..];
    }
  }

  lemma {:induction false} HyphenateWord(w: string, rest: string)
    requires Settled(w)
    ensures Hyphenate(w + rest) == w + Hyphenate(rest)
  {
    if w == [] {
      assert w + rest == rest;
    } else {
      assert (w + rest)[1..] == w[1..] + rest;
      HyphenateWord(w[1..], rest);
      assert w == [w[0]] + w[1..];
    }
  }

  lemma {:induction false} HyphenateJoins(words: seq<string>)
    requires WordsSettled(words)
    ensures Hyphenate(JoinWith(words, ' ')) == JoinWith(words, '-')
  {
    if |words| == 1 {
      assert words[0] + "" == words[0];
      HyphenateWord(words[0], "");
    } else if words != [] {
      var rest := JoinWith(words[1..], ' ');
      JoinIsSpaced(words[1..]);
      HyphenateJoins(words[1..]);
      HyphenateWord(words[0], [' '] + rest);
      assert words[0] + [' '] + rest == words[0] + ([' '] + rest);
      assert ([' '] + rest)[1..] == rest;
    }
  }

  /** Words with single spaces between them become the same words with hyphens. */
  lemma SlugHyphenatesWords(lower: string -> string, words: seq<string>)
    requires Lowers(lower) && WordsSettled(words) && words != []
    ensures Slug(lower, JoinWith(words, ' ')) == JoinWith(words, '-')
  {
    var text := JoinWith(words, ' ');
    JoinIsSpaced(words);
    SpacedIsKept(text);
    HyphenateJoins(words);
    assert IsAscii(text);
    assert TrimLeft(text) == text && TrimRight(text) == text;
  }

  // --- any white space, and what the slug leaves out ---

  predicate AllSpace(s: string) {
    forall i :: 0 <= i < |s| ==> IsSpace(s[i])
  }

  predicate LeftOut(c: char) {
    !IsWord(c) && !IsSpace(c) && c != '-'
  }

  lemma {:induction false} StripAppend(a: string, b: string)
    ensures Strip(a + b) == Strip(a) + Strip(b)
  {
    if a == [] {
      assert a + b == b;
    } else {
      var head := if LeftOut(a[0]) then [] else [a[0]];
      assert (a + b)[0] == a[0] && (a + b)[1..] == a[1..] + b;
      StripAppend(a[1..], b);
      assert head + (Strip(a[1..]) + Strip(b)) == head + Strip(a[1..]) + Strip(b);
    }
  }

  /** Stripping keeps letters, digits, underscores, hyphens and white space where they
      are, and nothing else. */
  lemma StripIsAFilter(a: string, c: char, b: string)
    ensures Strip(a + [c] + b) == Strip(a)
      + (if 'a' <= c <= 'z' || 'A' <= c <= 'Z' || '0' <= c <= '9' || c in {'_', '-'} || IsSpace(c) then [c] else [])
      + Strip(b)
  {
    StripAppend(a + [c], b);
    StripAppend(a, [c]);
    assert [c][1..] == [];
  }

  // only white space at the ends goes
  lemma {:induction false} TrimLeftPad(pad: string, s: string)
    requires AllSpace(pad) && (s == "" || !IsSpace(s[0]))
    ensures TrimLeft(pad + s) == s
  {
    if pad == [] {
      assert pad + s == s;
    } else {
      assert (pad + s)[1..] == pad[1..] + s;
      TrimLeftPad(pad[1..], s);
    }
  }

  lemma {:induction false} TrimRightPad(s: string, pad: string)
    requires AllSpace(pad) && (s == "" || !IsSpace(s[|s| - 1]))
    ensures TrimRight(s + pad) == s
    decreases |pad|
  {
    if pad == [] {
      assert s + pad == s;
    } else {
      var rest := pad[..|pad| - 1];
      assert (s + pad)[..|s + pad| - 1] == s + rest;
      TrimRightPad(s, rest);
    }
  }

  lemma TrimPads(left: string, s: string, right: string)
    requires AllSpace(left) && AllSpace(right)
    requires s != "" && !IsSpace(s[0]) && !IsSpace(s[|s| - 1])
    ensures TrimRight(TrimLeft(left + s + right)) == s
  {
    assert left + s + right == left + (s + right);
    TrimLeftPad(left, s + right);
    TrimRightPad(s, right);
  }

  lemma {:induction false} HyphenateGap(gap: string, rest: string)
    requires AllSpace(gap) && gap != "" && (rest == "" || !IsSpace(rest[0]))
    ensures Hyphenate(gap + rest) == "-" + Hyphenate(rest)
  {
    assert (gap + rest)[1..] == gap[1..] + rest;
    if |gap| > 1 {
      assert (gap + rest)[1] == gap[1];
      HyphenateGap(gap[1..], rest);
    } else {
      assert gap[1..] + rest == rest;
    }
  }

  /** Words with whatever stands between them. */
  function Spread(words: seq<string>, gaps: seq<string>): string
    requires |gaps| + 1 == |words|
  {
    if gaps == [] then words[0] else words[0] + (gaps[0] + Spread(words[1..], gaps[1..]))
  }

  // a word may hold characters that are left out, and so may a gap, but something stays
  predicate IsSpreadWord(w: string) {
    Strip(w) != "" && forall i :: 0 <= i < |w| ==> IsSettled(w[i]) || LeftOut(w[i])
  }

  predicate IsSpreadGap(g: string) {
    Strip(g) != "" && forall i :: 0 <= i < |g| ==> IsSpace(g[i]) || LeftOut(g[i])
  }

  function Stripped(pieces: seq<string>): seq<string> {
    if pieces == [] then [] else [Strip(pieces[0])] + Stripped(pieces[1..])
  }

  lemma {:induction false} StripWord(w: string)
    requires forall i :: 0 <= i < |w| ==> IsSettled(w[i]) || LeftOut(w[i])
    ensures Settled(Strip(w))
  {
    if w != [] {
      StripWord(w[1..]);
    }
  }

  lemma {:induction false} StripGap(g: string)
    requires forall i :: 0 <= i < |g| ==> IsSpace(g[i]) || LeftOut(g[i])
    ensures AllSpace(Strip(g))
  {
    if g != [] {
      StripGap(g[1..]);
    }
  }

  lemma SpreadStartsAWord(words: seq<string>, gaps: seq<string>)
    requires |gaps| + 1 == |words| && IsSpreadWord(words[0])
    ensures words[0] != "" && Spread(words, gaps) != "" && Spread(words, gaps)[0] == words[0][0]
    ensures !IsSpace(words[0][0])
  {
  }

  lemma {:induction false} SpreadEndsAWord(words: seq<string>, gaps: seq<string>)
    requires |gaps| + 1 == |words| && IsSpreadWord(words[|words| - 1])
    ensures var s := Spread(words, gaps);
      s != "" && !IsSpace(s[|s| - 1])
  {
    if gaps != [] {
      SpreadEndsAWord(words[1..], gaps[1..]);
    }
  }

  lemma {:induction false} StripThenHyphenate(words: seq<string>, gaps: seq<string>)
    requires |gaps| + 1 == |words|
    requires (forall w :: w in words ==> IsSpreadWord(w)) && (forall g :: g in gaps ==> IsSpreadGap(g))
    ensures var s := Strip(Spread(words, gaps));
      && Hyphenate(s) == JoinWith(Stripped(words), '-')
      && s != "" && !IsSpace(s[0])
    decreases |gaps|
  {
    var w := words[0];
    assert w in words;
    StripWord(w);
    if gaps == [] {
      HyphenateWord(Strip(w), "");
      assert Strip(w) + "" == Strip(w);
      assert Stripped(words) == [Strip(w)];
    } else {
      var g, rest := gaps[0], Spread(words[1..], gaps[1..]);
      assert g in gaps;
      StripGap(g);
      StripAppend(w, g + rest);
      StripAppend(g, rest);
      StripThenHyphenate(words[1..], gaps[1..]);
      HyphenateWord(Strip(w), Strip(g) + Strip(rest));
      HyphenateGap(Strip(g), Strip(rest));
      assert |Stripped(words)| > 1 && Stripped(words)[1..] == Stripped(words[1..]);
      var tail := JoinWith(Stripped(words[1..]), '-');
      assert Strip(w) + ("-" + tail) == Strip(w) + ['-'] + tail;
    }
  }

  /** Words become themselves, less what is left out of them, with one hyphen for
      whatever white space stands between two of them; white space at the ends goes. */
  lemma SlugOfSpreadWords(lower: string -> string, text: string,
                          left: string, words: seq<string>, gaps: seq<string>, right: string)
    requires |gaps| + 1 == |words| && AllSpace(left) && AllSpace(right)
    requires (forall w :: w in words ==> IsSpreadWord(w)) && (forall g :: g in gaps ==> IsSpreadGap(g))
    requires lower(text) == left + Spread(words, gaps) + right
    ensures Slug(lower, text) == JoinWith(Stripped(words), '-')
  {
    assert words[0] in words && words[|words| - 1] in words;
    SpreadStartsAWord(words, gaps);
    SpreadEndsAWord(words, gaps);
    TrimPads(left, Spread(words, gaps), right);
    StripThenHyphenate(words, gaps);
  }

  // --- the search for a free id ---

  function Numeral(n: nat): string {
    var d := Digits(n);
    seq(|d|, i requires 0 <= i < |d| => d[i] as char)
  }

  /** The base itself, then the base with 2, 3, 4 and so on. */
  function Candidate(base: string, n: nat): string {
    if n < 2 then base else base + ['-'] + Numeral(n)
  }

  /** The candidates as they are spelled: the base, then with a hyphen and a decimal
      numeral that stands for the count. */
  lemma CandidateSpelled(base: string, n: nat)
    ensures n >= 2 ==>
      && Candidate(base, n) == base + "-" + Numeral(n)
      && |Numeral(n)| > 0 && Numeral(n)[0] != '0'
      && (forall i :: 0 <= i < |Numeral(n)| ==> '0' <= Numeral(n)[i] <= '9')
      && NumeralValue(Numeral(n)) == n
    ensures Candidate(base, 1) == base
  {
    if n >= 2 {
      NoLeadingZero(n);
      forall i | 0 <= i < |Numeral(n)| ensures '0' <= Numeral(n)[i] <= '9' {
        assert IsDigit(Digits(n)[i]);
      }
      NumeralStandsFor(n);
    }
  }

  function NumeralValue(s: string): int {
    if s == "" then 0 else 10 * NumeralValue(s[..|s| - 1]) + (s[|s| - 1] as int - '0' as int)
  }

  lemma {:induction false} NumeralStandsFor(n: nat)
    ensures NumeralValue(Numeral(n)) == n
  {
    var s := Numeral(n);
    if n < 10 {
      assert s[..|s| - 1] == "";
    } else {
      assert s[..|s| - 1] == Numeral(n / 10);
      NumeralStandsFor(n / 10);
    }
  }

  lemma CandidatesDiffer(base: string, m: nat, n: nat)
    requires 1 <= m < n
    ensures Candidate(base, m) != Candidate(base, n)
  {
    var s, t := Candidate(base, m), Candidate(base, n);
    if s == t {
      assert m >= 2 by {
        assert |t| > |base|;
      }
      assert s[|base| + 1..] == Numeral(m) && t[|base| + 1..] == Numeral(n);
      var dm, dn := Digits(m), Digits(n);
      assert |dm| == |Numeral(m)| && |dn| == |Numeral(n)|;
      forall i | 0 <= i < |dm| ensures dm[i] == dn[i] {
        assert Numeral(m)[i] == dm[i] as char && Numeral(n)[i] == dn[i] as char;
      }
      DigitsInjective(m, n);
      assert false;
    }
  }

  // the candidates before the n-th
  ghost function Before(base: string, n: nat): set<string> {
    if n <= 1 then {} else Before(base, n - 1) + {Candidate(base, n - 1)}
  }

  lemma {:induction false} BeforeHas(base: string, n: nat)
    requires n >= 1
    ensures |Before(base, n)| == n - 1
    ensures forall k :: 1 <= k < n ==> Candidate(base, k) in Before(base, n)
    ensures forall m :: m >= n ==> Candidate(base, m) !in Before(base, n)
  {
    if n > 1 {
      BeforeHas(base, n - 1);
      forall m | m >= n ensures Candidate(base, m) !in Before(base, n) {
        CandidatesDiffer(base, n - 1, m);
      }
    }
  }

  lemma {:induction false} SubsetIsSmaller<T>(a: set<T>, b: set<T>)
    requires a <= b
    ensures |a| <= |b|
    decreases a
  {
    if a != {} {
      var x :| x in a;
      SubsetIsSmaller(a - {x}, b - {x});
    }
  }

  /** The search stops: the ids are finitely many and no two suffixes give the same
      one. It stops at the first candidate that is free. The id found is empty, which
      no link can name, exactly for an empty slug while no element has the empty id. */
  method FreeId(lower: string -> string, text: string, taken: set<string>) returns (id: string, n: nat)
    ensures id !in taken
    ensures n >= 1 && id == Candidate(Slug(lower, text), n)
    ensures forall k :: 1 <= k < n ==> Candidate(Slug(lower, text), k) in taken
    ensures n <= |taken| + 1
    ensures id == "" <==> Slug(lower, text) == "" && "" !in taken
  {
    var base := Slug(lower, text);
    id := base;
    n := 1;
    while id in taken
      invariant n >= 1 && id == Candidate(base, n)
      invariant Before(base, n) <= taken && n <= |taken| + 1
      decreases |taken| + 1 - n
    {
      n := n + 1;
      id := Candidate(base, n);
      BeforeHas(base, n);
      SubsetIsSmaller(Before(base, n), taken);
    }
    BeforeHas(base, n);
    assert n > 1 ==> Candidate(base, 1) in Before(base, n);
  }

  /** A heading, with the id written in the markup or "" when it has none. */
  datatype Heading = Heading(text: string, id: string)

  // the first of the base's candidates that neither the page has nor an earlier heading
  predicate IsFirstFree(id: string, base: string, n: nat, existing: set<string>, earlier: seq<string>) {
    && n >= 1 && id == Candidate(base, n)
    && id !in existing && id !in earlier
    && forall k :: 1 <= k < n ==> Candidate(base, k) in existing || Candidate(base, k) in earlier
  }

  // the id of one heading, after those before it
  predicate IsAnchor(lower: string -> string, h: Heading, id: string, n: nat, existing: set<string>,
                     earlier: seq<string>)
  {
    if h.id != "" then id == h.id else IsFirstFree(id, Slug(lower, h.text), n, existing, earlier)
  }

  ghost predicate Anchored(lower: string -> string, headings: seq<Heading>, existing: set<string>,
                           ids: seq<string>, suffixes: seq<nat>)
  {
    && |ids| == |suffixes| <= |headings|
    && forall i :: 0 <= i < |ids| ==> IsAnchor(lower, headings[i], ids[i], suffixes[i], existing, ids[..i])
  }

  lemma OneMoreAnchored(lower: string -> string, headings: seq<Heading>, existing: set<string>,
                        ids: seq<string>, suffixes: seq<nat>, id: string, n: nat)
    requires Anchored(lower, headings, existing, ids, suffixes) && |ids| < |headings|
    requires IsAnchor(lower, headings[|ids|], id, n, existing, ids)
    ensures Anchored(lower, headings, existing, ids + [id], suffixes + [n])
  {
    var all := ids + [id];
    forall i | 0 <= i < |all| ensures IsAnchor(lower, headings[i], all[i], (suffixes + [n])[i], existing, all[..i]) {
      if i < |ids| {
        assert all[..i] == ids[..i];
      } else {
        assert all[..i] == ids;
      }
    }
  }

  // a given id is not an earlier one, nor the page's, so not a later hand-written one
  lemma GivenIdsDiffer(lower: string -> string, headings: seq<Heading>, existing: set<string>,
                       ids: seq<string>, suffixes: seq<nat>, i: nat, j: nat)
    requires Anchored(lower, headings, existing, ids, suffixes) && i < j < |ids|
    requires forall h :: h in headings && h.id != "" ==> h.id in existing
    requires headings[i].id == "" || headings[j].id == ""
    ensures ids[i] != ids[j]
  {
    assert IsAnchor(lower, headings[i], ids[i], suffixes[i], existing, ids[..i]);
    assert IsAnchor(lower, headings[j], ids[j], suffixes[j], existing, ids[..j]);
    assert headings[j] in headings && ids[i] == ids[..j][i] && ids[i] in ids[..j];
  }

  /** Every heading keeps its own id, or is given the first candidate of its slug that no
      element of the page had and no earlier heading has; nor does a later one share it. */
  method InitAnchors(lower: string -> string, headings: seq<Heading>, existing: set<string>)
    returns (ids: seq<string>, ghost suffixes: seq<nat>)
    requires forall h :: h in headings && h.id != "" ==> h.id in existing
    ensures |ids| == |suffixes| == |headings|
    ensures forall i :: 0 <= i < |ids| ==>
      if headings[i].id != "" then ids[i] == headings[i].id
      else IsFirstFree(ids[i], Slug(lower, headings[i].text), suffixes[i], existing, ids[..i])
    ensures forall i, j :: 0 <= i < j < |ids| && (headings[i].id == "" || headings[j].id == "") ==> ids[i] != ids[j]
  {
    var taken := existing;
    ids, suffixes := [], [];
    for h := 0 to |headings|
      invariant |ids| == h && Anchored(lower, headings, existing, ids, suffixes)
      invariant forall t :: t in taken <==> t in existing || t in ids
    {
      var id := headings[h].id;
      var n := 1;
      if id == "" {
        id, n := FreeId(lower, headings[h].text, taken);
      }
      OneMoreAnchored(lower, headings, existing, ids, suffixes, id, n);
      ids := ids + [id];
      suffixes := suffixes + [n];
      taken := taken + {id};
    }
    forall i, j | 0 <= i < j < |ids| && (headings[i].id == "" || headings[j].id == "") ensures ids[i] != ids[j] {
      GivenIdsDiffer(lower, headings, existing, ids, suffixes, i, j);
    }
    assert forall i :: 0 <= i < |ids| ==> IsAnchor(lower, headings[i], ids[i], suffixes[i], existing, ids[..i]);
  }

  lemma PunctuationHasAnEmptySlug(lower: string -> string)
    requires Lowers(lower)
    ensures Slug(lower, "?!") == ""
  {
    assert "?!"[1..] == "!" && "!"[1..] == "";
    assert IsAscii("?!") && AsciiLower("?!") == "?!";
    assert Strip("?!") == "";
  }
}
