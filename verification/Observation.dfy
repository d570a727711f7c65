/** The observation record (observe.go and legacy/observe.go): each process appends
    lines to a file of its own and starts it again when it would pass a ceiling; the
    page server merges all of them, tolerating a line cut short. */
module Observation {
  import opened Wrappers
  import opened Bytes
  import opened Splitting

  const LF: Byte := 10
  const OBSERVATION_CEILING := 0x10_0000

  datatype Kind = Quic | Connect | Session | Refused | Declined | Closed

  datatype Event = Event(at: int, address: string, port: nat, kind: Kind, detail: string)

  /** What the page is handed: the event without the address it was asked for. */
  datatype Seen = Seen(at: int, port: nat, kind: Kind, detail: string)

  function Shown(e: Event): Seen {
    Seen(e.at, e.port, e.kind, e.detail)
  }

  /** The JSON coding of one event, known only by its laws. */
  datatype Codec = Codec(encode: Event -> seq<Byte>, decode: seq<Byte> -> Option<Event>)

  /** An encoding is a non-empty line that decodes to its event, and no part of it
      short of the whole decodes at all. */
  ghost predicate Lawful(c: Codec) {
    && (forall e :: c.encode(e) != [] && LF !in c.encode(e) && c.decode(c.encode(e)) == Some(e))
    && (forall e, k :: 0 <= k < |c.encode(e)| ==> c.decode(c.encode(e)[..k]).None?)
  }

  /** The bytes of a file holding these events, one to a line. */
  function File(c: Codec, events: seq<Event>): seq<Byte> {
    if events == [] then [] else c.encode(events[0]) + [LF] + File(c, events[1..])
  }

  lemma {:induction false} FileAppend(c: Codec, events: seq<Event>, e: Event)
    ensures File(c, events + [e]) == File(c, events) + (c.encode(e) + [LF])
  {
    if events == [] {
      assert [e][1..] == [];
    } else {
      assert (events + [e])[1..] == events[1..] + [e];
      FileAppend(c, events[1..], e);
    }
  }

  // --- the writer ---

  /** How many of the recorded events have been dropped by restarting the file. */
  function Dropped(c: Codec, events: seq<Event>): (k: nat)
    ensures k <= |events|
  {
    if events == [] then 0
    else
      var n := |events| - 1;
      var k := Dropped(c, events[..n]);
      if |File(c, events[k..n])| + |c.encode(events[n])| + 1 > OBSERVATION_CEILING then n else k
  }

  /** What the file holds after these events have been recorded in lock order. */
  function Kept(c: Codec, events: seq<Event>): seq<Event> {
    events[Dropped(c, events)..]
  }

  /** The file never passes the ceiling except to hold one event alone, and the last
      event recorded is always in it. */
  lemma KeptWithinCeiling(c: Codec, events: seq<Event>)
    requires events != []
    ensures |File(c, Kept(c, events))| <= 1_048_576 || |Kept(c, events)| == 1
    ensures Kept(c, events) != [] && Kept(c, events)[|Kept(c, events)| - 1] == events[|events| - 1]
  {
    var n := |events| - 1;
    var k := Dropped(c, events[..n]);
    assert events[..n][k..] == events[k..n];
    assert events[k..] == events[k..n] + [events[n]];
    FileAppend(c, events[k..n], events[n]);
    assert events[n..] == [events[n]];
  }

  /** Nothing is dropped while everything recorded fits under the ceiling, and
      something is as soon as it does not. */
  lemma {:induction false} NothingDroppedExactlyUnderCeiling(c: Codec, events: seq<Event>)
    ensures |File(c, events)| <= 1_048_576 ==> Dropped(c, events) == 0
    ensures |File(c, events)| > 1_048_576 && |events| > 1 ==> Dropped(c, events) > 0
  {
    if events != [] {
      var n := |events| - 1;
      assert events == events[..n] + [events[n]];
      FileAppend(c, events[..n], events[n]);
      NothingDroppedExactlyUnderCeiling(c, events[..n]);
      assert events[0..n] == events[..n];
    }
  }

  /** Recording one event more appends its line, to an empty file if it no longer fits. */
  lemma OneMoreRecorded(c: Codec, events: seq<Event>, e: Event)
    ensures var kept := File(c, Kept(c, events));
      var line := c.encode(e) + [LF];
      File(c, Kept(c, events + [e])) == (if |kept| + |line| > OBSERVATION_CEILING then [] else kept) + line
  {
    var n, k := |events|, Dropped(c, events);
    var more := events + [e];
    assert more[..n] == events && more[k..n] == events[k..];
    assert more[n..] == [] + [e] && more[k..] == events[k..] + [e];
    FileAppend(c, [], e);
    FileAppend(c, events[k..], e);
  }

  class Observer {
    // None while there is no file at the path
    var file: Option<seq<Byte>>
    var size: nat
    // the events recorded so far, in the order they took the lock
    ghost var recorded: seq<Event>

    function Content(): seq<Byte>
      reads this
    {
      match file case None => [] case Some(bytes) => bytes
    }

    ghost predicate Valid(c: Codec)
      reads this
    {
      Content() == File(c, Kept(c, recorded)) && size == |Content()|
    }

    constructor (c: Codec)
      ensures Valid(c) && recorded == []
    {
      file, size, recorded := None, 0, [];
    }

    // the event carries the time it was stamped with before the lock was taken
    method Record(c: Codec, e: Event)
      requires Valid(c)
      modifies this
      ensures Valid(c)
      ensures recorded == old(recorded) + [e]
    {
      var line := c.encode(e) + [LF];
      OneMoreRecorded(c, recorded, e);
      recorded := recorded + [e];
      if size + |line| > OBSERVATION_CEILING {
        file := None;
        size := 0;
      }
      file := Some(Content() + line);
      size := size + |line|;
    }
  }

  // --- the reader ---

  /** The events of the pieces that decode; blank and broken pieces are skipped. */
  function Decoded(c: Codec, pieces: seq<seq<Byte>>): seq<Event> {
    if pieces == [] then []
    else
      (if pieces[0] == [] then []
       else match c.decode(pieces[0]) case None => [] case Some(e) => [e])
      + Decoded(c, pieces[1..])
  }

  lemma DecodedOne(c: Codec, piece: seq<Byte>)
    ensures Decoded(c, [piece])
         == if piece == [] then [] else match c.decode(piece) case None => [] case Some(e) => [e]
  {
    var one: seq<seq<Byte>> := [piece];
    assert |one[1..]| == 0;
  }

  /** How many of the events have all their bytes among the first len of their file;
      the newline may still be missing. */
  function Complete(c: Codec, events: seq<Event>, len: nat): (k: nat)
    ensures k <= |events|
  {
    if events == [] || len < |c.encode(events[0])| then 0
    else 1 + Complete(c, events[1..], if len == |c.encode(events[0])| then 0 else len - |c.encode(events[0])| - 1)
  }

  /** Reading any byte prefix of a file returns exactly its complete events. */
  lemma {:induction false} TornRead(c: Codec, events: seq<Event>, len: nat)
    requires Lawful(c) && len <= |File(c, events)|
    ensures Decoded(c, Split(File(c, events)[..len], LF)) == events[..Complete(c, events, len)]
  {
    if events != [] {
      var line := c.encode(events[0]);
      var rest := File(c, events[1..]);
      if len <= |line| {
        var piece := File(c, events)[..len];
        assert piece == line[..len];
        SplitOfPiece(piece, LF);
        DecodedOne(c, piece);
        if len == |line| {
          assert line[..len] == line;
          NothingInNoBytes(c, events[1..]);
        }
      } else {
        var more := len - |line| - 1;
        assert File(c, events)[..len] == line + [LF] + rest[..more];
        SplitAtFirst(line, LF, rest[..more]);
        var pieces := Split(rest[..more], LF);
        assert ([line] + pieces)[1..] == pieces;
        TornRead(c, events[1..], more);
      }
    }
  }

  lemma NothingInNoBytes(c: Codec, events: seq<Event>)
    requires Lawful(c)
    ensures Complete(c, events, 0) == 0
  {
  }

  predicate Asked(e: Event, address: string, cutoff: int) {
    e.address == address && e.at >= cutoff
  }

  function Answering(events: seq<Event>, address: string, cutoff: int): seq<Event> {
    if events == [] then []
    else (if Asked(events[0], address, cutoff) then [events[0]] else []) + Answering(events[1..], address, cutoff)
  }

  /** Asked about an address since a moment, exactly the events that carry the address and
      are no older, as often as they are there. */
  lemma {:induction false} AnsweringExactly(events: seq<Event>, address: string, cutoff: int, e: Event)
    ensures multiset(Answering(events, address, cutoff))[e]
      == if e.address == address && e.at >= cutoff then multiset(events)[e] else 0
  {
    if events != [] {
      AnsweringExactly(events[1..], address, cutoff, e);
      assert events == [events[0]] + events[1..];
    }
  }

  lemma {:induction false} AnsweringAppend(a: seq<Event>, b: seq<Event>, address: string, cutoff: int)
    ensures Answering(a + b, address, cutoff) == Answering(a, address, cutoff) + Answering(b, address, cutoff)
  {
    if a == [] {
      assert a + b == b;
    } else {
      var head := if Asked(a[0], address, cutoff) then [a[0]] else [];
      assert (a + b)[0] == a[0] && (a + b)[1..] == a[1..] + b;
      AnsweringAppend(a[1..], b, address, cutoff);
      assert head + (Answering(a[1..], address, cutoff) + Answering(b, address, cutoff))
          == (head + Answering(a[1..], address, cutoff)) + Answering(b, address, cutoff);
    }
  }

  /** What one file contributes; an unreadable one contributes nothing. */
  function FoundIn(c: Codec, data: Option<seq<Byte>>, address: string, cutoff: int): seq<Event> {
    match data
    case None => []
    case Some(bytes) => Answering(Decoded(c, Split(bytes, LF)), address, cutoff)
  }

  function Found(c: Codec, files: seq<Option<seq<Byte>>>, address: string, cutoff: int): seq<Event> {
    if files == [] then [] else FoundIn(c, files[0], address, cutoff) + Found(c, files[1..], address, cutoff)
  }

  lemma {:induction false} FoundAppend(c: Codec, files: seq<Option<seq<Byte>>>, f: Option<seq<Byte>>,
                                          address: string, cutoff: int)
    ensures Found(c, files + [f], address, cutoff) == Found(c, files, address, cutoff) + FoundIn(c, f, address, cutoff)
  {
    if files == [] {
      assert [f][1..] == [];
    } else {
      assert (files + [f])[1..] == files[1..] + [f];
      FoundAppend(c, files[1..], f, address, cutoff);
    }
  }

  lemma {:induction false} DecodedAppend(c: Codec, a: seq<seq<Byte>>, b: seq<seq<Byte>>)
    ensures Decoded(c, a + b) == Decoded(c, a) + Decoded(c, b)
  {
    if a == [] {
      assert a + b == b;
    } else {
      assert (a + b)[1..] == a[1..] + b;
      DecodedAppend(c, a[1..], b);
    }
  }

  ghost predicate SortedByTime(events: seq<Event>) {
    forall i, j :: 0 <= i < j < |events| ==> events[i].at <= events[j].at
  }

  ghost predicate InTimeOrder(shown: seq<Seen>) {
    forall i, j :: 0 <= i < j < |shown| ==> shown[i].at <= shown[j].at
  }

  function ShownAll(events: seq<Event>): seq<Seen> {
    seq(|events|, i requires 0 <= i < |events| => Shown(events[i]))
  }

  function InsertByTime(e: Event, sorted: seq<Event>): seq<Event> {
    if sorted == [] || e.at <= sorted[0].at then [e] + sorted
    else [sorted[0]] + InsertByTime(e, sorted[1..])
  }

  /** One order the library sort may return: any would do that is sorted by time. */
  function SortByTime(events: seq<Event>): seq<Event> {
    if events == [] then [] else InsertByTime(events[0], SortByTime(events[1..]))
  }

  lemma ShownCons(e: Event, events: seq<Event>)
    ensures ShownAll([e] + events) == [Shown(e)] + ShownAll(events)
  {
  }

  lemma {:induction false} InsertIsAPermutation(e: Event, sorted: seq<Event>)
    ensures multiset(InsertByTime(e, sorted)) == multiset{e} + multiset(sorted)
    ensures multiset(ShownAll(InsertByTime(e, sorted))) == multiset{Shown(e)} + multiset(ShownAll(sorted))
  {
    if sorted == [] || e.at <= sorted[0].at {
      ShownCons(e, sorted);
    } else {
      InsertIsAPermutation(e, sorted[1..]);
      ShownCons(sorted[0], InsertByTime(e, sorted[1..]));
      ShownCons(sorted[0], sorted[1..]);
      assert sorted == [sorted[0]] + sorted[1..];
    }
  }

  lemma {:induction false} InsertKeepsOrder(e: Event, sorted: seq<Event>)
    requires SortedByTime(sorted)
    ensures SortedByTime(InsertByTime(e, sorted))
  {
    if sorted != [] && e.at > sorted[0].at {
      InsertKeepsOrder(e, sorted[1..]);
      InsertIsAPermutation(e, sorted[1..]);
      var rest := InsertByTime(e, sorted[1..]);
      forall j | 0 <= j < |rest| ensures sorted[0].at <= rest[j].at {
        assert rest[j] in multiset(rest);
        assert rest[j] == e || rest[j] in sorted[1..];
      }
    }
  }

  lemma {:induction false} SortSorts(events: seq<Event>)
    ensures SortedByTime(SortByTime(events))
    ensures multiset(SortByTime(events)) == multiset(events)
    ensures multiset(ShownAll(SortByTime(events))) == multiset(ShownAll(events))
  {
    if events != [] {
      SortSorts(events[1..]);
      InsertKeepsOrder(events[0], SortByTime(events[1..]));
      InsertIsAPermutation(events[0], SortByTime(events[1..]));
      ShownCons(events[0], events[1..]);
      assert events == [events[0]] + events[1..];
    }
  }

  // what one line adds to the answer
  function LineAdds(c: Codec, line: seq<Byte>, address: string, cutoff: int): seq<Event> {
    if line == [] then []
    else
      match c.decode(line)
      case None => []
      case Some(e) => if Asked(e, address, cutoff) then [e] else []
  }

  function LinesAdd(c: Codec, pieces: seq<seq<Byte>>, address: string, cutoff: int): seq<Event> {
    Answering(Decoded(c, pieces), address, cutoff)
  }

  lemma OneAnswers(e: Event, address: string, cutoff: int)
    ensures Answering([e], address, cutoff) == if Asked(e, address, cutoff) then [e] else []
  {
    var one := [e];
    assert |one[1..]| == 0;
  }

  lemma OneMoreLine(c: Codec, pieces: seq<seq<Byte>>, j: nat, address: string, cutoff: int)
    requires j < |pieces|
    ensures LinesAdd(c, pieces[..j + 1], address, cutoff)
         == LinesAdd(c, pieces[..j], address, cutoff) + LineAdds(c, pieces[j], address, cutoff)
  {
    var line := pieces[j];
    assert pieces[..j + 1] == pieces[..j] + [line];
    DecodedAppend(c, pieces[..j], [line]);
    AnsweringAppend(Decoded(c, pieces[..j]), Decoded(c, [line]), address, cutoff);
    DecodedOne(c, line);
    if line != [] && c.decode(line).Some? {
      OneAnswers(c.decode(line).value, address, cutoff);
    }
  }

  // the lines of one file
  method CollectFrom(c: Codec, data: seq<Byte>, address: string, cutoff: int) returns (found: seq<Event>)
    ensures found == FoundIn(c, Some(data), address, cutoff)
  {
    found := [];
    var pieces := Split(data, LF);
    for j := 0 to |pieces|
      invariant found == LinesAdd(c, pieces[..j], address, cutoff)
    {
      OneMoreLine(c, pieces, j, address, cutoff);
      if pieces[j] != [] {
        var event := c.decode(pieces[j]);
        if event.Some? && event.value.address == address && event.value.at >= cutoff {
          found := found + [event.value];
        }
      }
    }
    assert pieces[..|pieces|] == pieces;
  }

  method Collect(c: Codec, files: seq<Option<seq<Byte>>>, address: string, cutoff: int)
    returns (found: seq<Event>)
    ensures found == Found(c, files, address, cutoff)
  {
    found := [];
    for i := 0 to |files|
      invariant found == Found(c, files[..i], address, cutoff)
    {
      var file := files[i];
      assert files[..i + 1] == files[..i] + [file];
      FoundAppend(c, files[..i], file, address, cutoff);
      if file.Some? {
        var more := CollectFrom(c, file.value, address, cutoff);
        found := found + more;
      }
    }
    assert files[..|files|] == files;
  }

  /** How often an event with these fields is among them. */
  function Times(events: seq<Event>, at: int, port: nat, kind: Kind, detail: string): nat {
    if events == [] then 0
    else
      var e := events[0];
      (if e.at == at && e.port == port && e.kind == kind && e.detail == detail then 1 else 0)
      + Times(events[1..], at, port, kind, detail)
  }

  lemma {:induction false} ShownAsOften(events: seq<Event>, at: int, port: nat, kind: Kind, detail: string)
    ensures multiset(ShownAll(events))[Seen(at, port, kind, detail)] == Times(events, at, port, kind, detail)
  {
    if events != [] {
      ShownAsOften(events[1..], at, port, kind, detail);
      ShownCons(events[0], events[1..]);
      assert events == [events[0]] + events[1..];
    }
  }

  // so the answer has an entry for each, with all four fields
  lemma AnswerHasEachField(shown: seq<Seen>, found: seq<Event>)
    requires multiset(shown) == multiset(ShownAll(found))
    ensures |shown| == |found|
    ensures forall at, port, kind, detail ::
      multiset(shown)[Seen(at, port, kind, detail)] == Times(found, at, port, kind, detail)
  {
    assert |multiset(shown)| == |shown| && |multiset(ShownAll(found))| == |ShownAll(found)|;
    forall at, port, kind, detail
      ensures multiset(shown)[Seen(at, port, kind, detail)] == Times(found, at, port, kind, detail)
    {
      ShownAsOften(found, at, port, kind, detail);
    }
  }

  /** Merges the files: the answer has what they hold for the address since the cutoff,
      time, port, kind and detail, as often as it is there, in time order. */
  method ReadObservations(c: Codec, files: seq<Option<seq<Byte>>>, address: string, cutoff: int)
    returns (shown: seq<Seen>)
    ensures InTimeOrder(shown)
    ensures multiset(shown) == multiset(ShownAll(Found(c, files, address, cutoff)))
    ensures |shown| == |Found(c, files, address, cutoff)|
    ensures forall at, port, kind, detail ::
      multiset(shown)[Seen(at, port, kind, detail)] == Times(Found(c, files, address, cutoff), at, port, kind, detail)
  {
    var found := Collect(c, files, address, cutoff);
    SortSorts(found);
    TimesCarryOver(SortByTime(found));
    shown := Project(SortByTime(found));
    AnswerHasEachField(shown, found);
  }

  lemma TimesCarryOver(events: seq<Event>)
    requires SortedByTime(events)
    ensures InTimeOrder(ShownAll(events))
  {
  }

  lemma OneMoreShown(events: seq<Event>, i: nat)
    requires i < |events|
    ensures ShownAll(events[..i + 1]) == ShownAll(events[..i]) + [Shown(events[i])]
  {
  }

  // the events without their addresses
  method Project(events: seq<Event>) returns (shown: seq<Seen>)
    ensures shown == ShownAll(events)
  {
    shown := [];
    for i := 0 to |events|
      invariant shown == ShownAll(events[..i])
    {
      OneMoreShown(events, i);
      shown := shown + [Shown(events[i])];
    }
    assert events[..|events|] == events;
  }

  // --- writer and reader together ---

  /** One observer's history as a reader meets it: what it has recorded, and how much
      of its file has been read, or None when it could not be. */
  datatype Shard = Shard(recorded: seq<Event>, len: Option<nat>)

  predicate Readable(c: Codec, s: Shard) {
    s.len.Some? ==> s.len.value <= |File(c, Kept(c, s.recorded))|
  }

  function BytesOf(c: Codec, s: Shard): Option<seq<Byte>>
    requires Readable(c, s)
  {
    match s.len case None => None case Some(len) => Some(File(c, Kept(c, s.recorded))[..len])
  }

  function AllBytes(c: Codec, shards: seq<Shard>): seq<Option<seq<Byte>>>
    requires forall s :: s in shards ==> Readable(c, s)
  {
    if shards == [] then [] else [BytesOf(c, shards[0])] + AllBytes(c, shards[1..])
  }

  function CompleteEvents(c: Codec, s: Shard): seq<Event> {
    match s.len
    case None => []
    case Some(len) => Kept(c, s.recorded)[..Complete(c, Kept(c, s.recorded), len)]
  }

  function AllComplete(c: Codec, shards: seq<Shard>): seq<Event> {
    if shards == [] then [] else CompleteEvents(c, shards[0]) + AllComplete(c, shards[1..])
  }

  /** However many observers there are, whatever each has recorded and dropped, and
      wherever each read was cut, the reader finds exactly the complete events still
      kept that carry the address and are no older than the cutoff. */
  lemma {:induction false} ReadersFindWhatIsComplete(c: Codec, shards: seq<Shard>, address: string, cutoff: int)
    requires Lawful(c)
    requires forall s :: s in shards ==> Readable(c, s)
    ensures Found(c, AllBytes(c, shards), address, cutoff) == Answering(AllComplete(c, shards), address, cutoff)
  {
    if shards != [] {
      var s := shards[0];
      assert s in shards;
      ReadersFindWhatIsComplete(c, shards[1..], address, cutoff);
      AnsweringAppend(CompleteEvents(c, s), AllComplete(c, shards[1..]), address, cutoff);
      if s.len.Some? {
        TornRead(c, Kept(c, s.recorded), s.len.value);
      }
    }
  }
}
