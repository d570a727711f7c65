/** The loop that echoes one stream (main.go, legacy/main.go, rust/src/main.rs), over
    every pattern of reads, refusals and write failures, and the charge it asks for
    (the spend closure of serveEcho). */
module EchoStream {
  import opened Wrappers
  import EchoMachine

  import opened Bytes

  const BUFFER := EchoMachine.STREAM_BUFFER

  /** What one Read yields: bytes, and whether it also reports the end or an error. */
  datatype ReadEvent = ReadEvent(bytes: seq<Byte>, ends: bool)

  /** The bytes of the reads up to and including the first that ends the stream. */
  function Input(events: seq<ReadEvent>): seq<Byte> {
    if events == [] then []
    else events[0].bytes + (if events[0].ends then [] else Input(events[1..]))
  }

  /** The Rust loop also stops at a read of no bytes. */
  function RustInput(events: seq<ReadEvent>): seq<Byte> {
    if events == [] || events[0].bytes == [] then []
    else events[0].bytes + (if events[0].ends then [] else RustInput(events[1..]))
  }

  lemma {:induction false} InputsAgree(events: seq<ReadEvent>)
    requires forall e :: e in events ==> e.bytes != [] || e.ends
    ensures RustInput(events) == Input(events)
  {
    if events != [] {
      InputsAgree(events[1..]);
    }
  }

  /** A stream as one loop meets it. Each write fails after some bytes, or not at all. */
  class Stream {
    var events: seq<ReadEvent>
    var writes: seq<Option<nat>>
    var written: seq<Byte>
    var failures: nat
    var closes: nat

    ghost predicate Fits()
      reads this
    {
      forall e :: e in events ==> |e.bytes| <= 32_768
    }

    // past its last event the stream has ended
    method Read(buffer: array<Byte>) returns (n: nat, err: bool)
      requires Fits() && buffer.Length == BUFFER
      modifies `events, buffer
      ensures Fits() && n <= BUFFER && |events| <= |old(events)|
      ensures buffer[..n] + (if err then [] else Input(events)) == Input(old(events))
      ensures n == 0 ==> RustInput(old(events)) == []
      ensures n > 0 ==> buffer[..n] + RustInput(events) == RustInput(old(events))
      ensures !err ==> |events| < |old(events)|
      ensures err ==> events == []
    {
      if events == [] {
        return 0, true;
      }
      var e := events[0];
      n, err := |e.bytes|, e.ends;
      forall i | 0 <= i < n {
        buffer[i] := e.bytes[i];
      }
      assert buffer[..n] == e.bytes;
      events := if err then [] else events[1..];
    }

    method Write(buffer: array<Byte>, n: nat) returns (wrote: nat, err: bool)
      requires n <= buffer.Length
      modifies `written, `writes, `failures
      ensures wrote <= n && (!err ==> wrote == n)
      ensures written == old(written) + buffer[..n][..wrote]
      ensures failures == old(failures) + (if err then 1 else 0)
    {
      wrote, err := n, false;
      if writes != [] {
        if writes[0].Some? {
          wrote, err := if writes[0].value < n then writes[0].value else n, true;
        }
        writes := writes[1..];
      }
      if err {
        failures := failures + 1;
      }
      written := written + buffer[..n][..wrote];
    }

    method Close()
      modifies `closes
      ensures closes == old(closes) + 1
    {
      closes := closes + 1;
    }
  }

  /** What the loop's charges are answered: any pattern, since any number of other
      loops may have charged the same budgets in between. */
  class Charger {
    var grants: seq<bool>
    var permitted: nat
    var refusals: nat

    method Spend(n: nat) returns (ok: bool)
      modifies this
      ensures permitted == old(permitted) + (if ok then n else 0)
      ensures refusals == old(refusals) + (if ok then 0 else 1)
    {
      ok := grants != [] && grants[0];
      if grants != [] {
        grants := grants[1..];
      }
      if ok {
        permitted := permitted + n;
      } else {
        refusals := refusals + 1;
      }
    }
  }

  /** What is written is a prefix of what was sent, no longer than what was permitted,
      all of it when nothing was refused and no write failed, and all that was
      permitted when no write failed. */
  predicate Faithful(input: seq<Byte>, written: seq<Byte>, permitted: nat, refusals: nat, failures: nat) {
    && written <= input
    && |written| <= permitted
    && refusals + failures <= 1
    && (failures == 0 ==> |written| == permitted)
    && (refusals == 0 && failures == 0 ==> written == input)
  }

  // one chunk of the input, of which some prefix has been written
  lemma PartOfAChunk(input: seq<Byte>, before: seq<Byte>, chunk: seq<Byte>, rest: seq<Byte>, k: nat)
    requires before + (chunk + rest) == input && k <= |chunk|
    ensures before + chunk[..k] <= input
    ensures k == |chunk| ==> before + chunk[..k] + rest == input
  {
    assert before + (chunk + rest) == before + chunk[..k] + (chunk[k..] + rest);
  }

  // a loop that stopped on a refusal or a failed write has been faithful
  lemma StopIsFaithful(input: seq<Byte>, before: seq<Byte>, chunk: seq<Byte>, rest: seq<Byte>, k: nat,
                       permitted: nat, refusals: nat, failures: nat)
    requires before + (chunk + rest) == input && k <= |chunk|
    requires refusals + failures == 1
    requires permitted == |before| + (if failures == 0 then 0 else |chunk|)
    requires failures == 0 ==> k == 0
    ensures Faithful(input, before + chunk[..k], permitted, refusals, failures)
  {
    PartOfAChunk(input, before, chunk, rest, k);
  }

  // what both loops do with the n bytes just read; on a stop the chunk may be cut
  method Echo(stream: Stream, charger: Charger, buffer: array<Byte>, n: nat) returns (stop: bool, ghost k: nat)
    requires n <= buffer.Length && stream.failures == 0 && charger.refusals == 0
    modifies stream`written, stream`writes, stream`failures, charger
    ensures k <= n && stream.written == old(stream.written) + buffer[..n][..k]
    ensures !stop ==> k == n && charger.permitted == old(charger.permitted) + n
    ensures !stop ==> stream.failures == 0 && charger.refusals == 0
    ensures stop ==> stream.failures + charger.refusals == 1
    ensures stop && stream.failures == 0 ==> k == 0 && charger.permitted == old(charger.permitted)
    ensures stop && stream.failures == 1 ==> charger.permitted == old(charger.permitted) + n
  {
    k := 0;
    var ok := charger.Spend(n);
    if !ok {
      return true, 0;
    }
    var wrote, failed := stream.Write(buffer, n);
    return failed, wrote;
  }

  // the loop under the deferred Close
  method EchoLoop(stream: Stream, charger: Charger)
    requires stream.Fits() && stream.written == [] && stream.failures == 0
    requires charger.permitted == 0 && charger.refusals == 0
    modifies stream`events, stream`written, stream`writes, stream`failures, charger
    ensures Faithful(Input(old(stream.events)), stream.written, charger.permitted, charger.refusals, stream.failures)
  {
    var buffer := new Byte[BUFFER];
    ghost var input := Input(stream.events);
    while true
      invariant stream.Fits()
      invariant stream.written + Input(stream.events) == input
      invariant stream.failures == 0 && charger.refusals == 0 && charger.permitted == |stream.written|
      decreases |stream.events|
    {
      ghost var before := stream.written;
      var n, err := stream.Read(buffer);
      ghost var chunk := buffer[..n];
      ghost var rest := if err then [] else Input(stream.events);
      PartOfAChunk(input, before, chunk, rest, n);
      if n > 0 {
        var stop, k := Echo(stream, charger, buffer, n);
        if stop {
          StopIsFaithful(input, before, chunk, rest, k, charger.permitted, charger.refusals, stream.failures);
          return;
        }
      } else {
        assert before + chunk[..0] == before;
      }
      assert stream.written == before + chunk[..n];
      if err {
        return;
      }
    }
  }

  method EchoStream(stream: Stream, charger: Charger)
    requires stream.Fits() && stream.written == [] && stream.failures == 0
    requires charger.permitted == 0 && charger.refusals == 0
    modifies stream, charger
    ensures Faithful(Input(old(stream.events)), stream.written, charger.permitted, charger.refusals, stream.failures)
    ensures stream.closes == old(stream.closes) + 1
  {
    EchoLoop(stream, charger);
    stream.Close();
  }

  // the Rust loop, under the finish of its task
  method RustEchoLoop(stream: Stream, charger: Charger)
    requires stream.Fits() && stream.written == [] && stream.failures == 0
    requires charger.permitted == 0 && charger.refusals == 0
    modifies stream`events, stream`written, stream`writes, stream`failures, charger
    ensures Faithful(RustInput(old(stream.events)), stream.written,
                     charger.permitted, charger.refusals, stream.failures)
  {
    var buffer := new Byte[BUFFER];
    ghost var input := RustInput(stream.events);
    while true
      invariant stream.Fits()
      invariant stream.written + RustInput(stream.events) == input
      invariant stream.failures == 0 && charger.refusals == 0 && charger.permitted == |stream.written|
      decreases |stream.events|
    {
      ghost var before := stream.written;
      var n, err := stream.Read(buffer);
      if n == 0 {
        return;
      }
      ghost var chunk := buffer[..n];
      ghost var rest := RustInput(stream.events);
      var stop, k := Echo(stream, charger, buffer, n);
      PartOfAChunk(input, before, chunk, rest, k);
      if stop {
        StopIsFaithful(input, before, chunk, rest, k, charger.permitted, charger.refusals, stream.failures);
        return;
      }
    }
  }

  method RustEchoStream(stream: Stream, charger: Charger)
    requires stream.Fits() && stream.written == [] && stream.failures == 0
    requires charger.permitted == 0 && charger.refusals == 0
    modifies stream, charger
    ensures Faithful(RustInput(old(stream.events)), stream.written,
                     charger.permitted, charger.refusals, stream.failures)
    ensures stream.closes == old(stream.closes) + 1
  {
    RustEchoLoop(stream, charger);
    stream.Close();
  }
}
