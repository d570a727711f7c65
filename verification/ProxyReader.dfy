/** The reader of proxy.go over a connection that delivers its bytes in arbitrary
    non-empty chunks and then fails: it peeks, dispatches, and consumes through a
    buffer. Whatever the chunks, it reports and leaves what the pure parser says. */
module ProxyReader {
  import opened Wrappers
  import opened Bytes
  import opened Splitting
  import opened ProxyHeader

  // bufio's default
  const CAPACITY := 4096

  class Reader {
    var buffered: seq<Byte>
    // what the connection will still deliver; every read after the last one fails
    var pending: seq<seq<Byte>>

    ghost predicate Valid()
      reads this
    {
      |buffered| <= CAPACITY && forall c :: c in pending ==> c != []
    }

    /** All the bytes still to come. */
    ghost function Stream(): seq<Byte>
      reads this
    {
      buffered + Flatten(pending)
    }

    constructor (chunks: seq<seq<Byte>>)
      requires forall c :: c in chunks ==> c != []
      ensures Valid() && Stream() == Flatten(chunks)
    {
      buffered, pending := [], chunks;
    }

    // one read of the connection into room for max bytes
    method ReadConn(max: nat) returns (bytes: seq<Byte>, err: bool)
      requires Valid() && max > 0
      modifies `pending
      ensures Valid()
      ensures err <==> old(pending) == []
      ensures err ==> pending == [] && bytes == []
      ensures !err ==> 0 < |bytes| <= max
      ensures bytes + Flatten(pending) == Flatten(old(pending))
    {
      if pending == [] {
        return [], true;
      }
      var chunk := pending[0];
      assert chunk in pending && forall c :: c in pending[1..] ==> c in pending;
      if |chunk| <= max {
        pending := pending[1..];
        return chunk, false;
      }
      FlattenCons(chunk[max..], pending[1..]);
      assert chunk[..max] + (chunk[max..] + Flatten(pending[1..])) == chunk + Flatten(pending[1..]);
      pending := [chunk[max..]] + pending[1..];
      return chunk[..max], false;
    }

    method Fill() returns (err: bool)
      requires Valid() && |buffered| < CAPACITY
      modifies this
      ensures Valid() && Stream() == old(Stream())
      ensures err <==> old(pending) == []
      ensures err ==> buffered == old(buffered) && pending == []
      ensures !err ==> |buffered| > |old(buffered)|
    {
      var bytes;
      bytes, err := ReadConn(CAPACITY - |buffered|);
      buffered := buffered + bytes;
    }

    method Peek(n: nat) returns (prefix: seq<Byte>, err: bool)
      requires Valid() && n <= CAPACITY
      modifies this
      ensures Valid() && Stream() == old(Stream())
      ensures err <==> |Stream()| < n
      ensures !err ==> prefix == Stream()[..n]
    {
      while |buffered| < n
        invariant Valid() && Stream() == old(Stream())
        decreases n - |buffered|
      {
        var failed := Fill();
        if failed {
          return buffered, true;
        }
      }
      return buffered[..n], false;
    }

    // up to room bytes: what is buffered, or else one read of the connection, made
    // straight for the caller when it has the more room
    method Take(room: nat) returns (bytes: seq<Byte>, err: bool)
      requires Valid() && room > 0
      modifies this
      ensures Valid() && |bytes| <= room
      ensures bytes + Stream() == old(Stream())
      ensures err ==> bytes == [] && Stream() == []
      ensures !err ==> bytes != []
    {
      if buffered == [] && room >= CAPACITY {
        bytes, err := ReadConn(room);
        return;
      }
      err := false;
      if buffered == [] {
        err := Fill();
      }
      var n := if |buffered| < room then |buffered| else room;
      bytes := buffered[..n];
      assert buffered == bytes + buffered[n..];
      buffered := buffered[n..];
    }

    // copies into buffer from the given place on
    method Read(buffer: array<Byte>, from: nat) returns (n: nat, err: bool)
      requires Valid() && from < buffer.Length
      modifies this, buffer
      ensures Valid() && n <= buffer.Length - from
      ensures n <= |old(Stream())| && Stream() == old(Stream())[n..]
      ensures buffer[..from + n] == old(buffer[..from]) + old(Stream())[..n]
      ensures err ==> n == 0 && Stream() == []
      ensures !err ==> n > 0
    {
      var bytes;
      bytes, err := Take(buffer.Length - from);
      n := |bytes|;
      forall i | 0 <= i < n {
        buffer[from + i] := bytes[i];
      }
      assert buffer[..from + n] == old(buffer[..from]) + bytes;
    }

    // the bytes through the newline, or all that were left
    method ReadLine() returns (line: seq<Byte>, err: bool)
      requires Valid()
      modifies this
      ensures Valid() && line + Stream() == old(Stream())
      ensures err <==> NewlineAt(old(Stream())) == |old(Stream())|
      ensures |line| == if err then |old(Stream())| else NewlineAt(old(Stream())) + 1
    {
      ghost var s := Stream();
      line := [];
      while true
        invariant Valid() && line + Stream() == s && LF !in line
        decreases |Flatten(pending)|, |buffered|
      {
        var k := NewlineAt(buffered);
        NewlineSoFar(s, line, buffered, Flatten(pending));
        if k < |buffered| {
          MoveAcross(line, buffered, Flatten(pending), k + 1);
          line, buffered := line + buffered[..k + 1], buffered[k + 1..];
          return line, false;
        }
        MoveAcross(line, buffered, Flatten(pending), |buffered|);
        line, buffered := line + buffered, [];
        var failed := Fill();
        if failed {
          return line, true;
        }
      }
    }
  }

  lemma MoveAcross(line: seq<Byte>, buffered: seq<Byte>, rest: seq<Byte>, k: nat)
    requires k <= |buffered|
    ensures line + buffered[..k] + (buffered[k..] + rest) == line + (buffered + rest)
    ensures buffered[..|buffered|] == buffered && buffered[|buffered|..] == []
    ensures line + [] == line
  {
  }

  // what has been seen of the stream decides where its first newline is, or that it
  // comes later
  lemma NewlineSoFar(s: seq<Byte>, line: seq<Byte>, seen: seq<Byte>, rest: seq<Byte>)
    requires s == line + (seen + rest) && LF !in line
    ensures var k := NewlineAt(seen);
      && (k < |seen| ==> NewlineAt(s) == |line| + k)
      && (k == |seen| ==> LF !in line + seen)
      && (k == |seen| && rest == [] ==> NewlineAt(s) == |s|)
  {
    var k := NewlineAt(seen);
    if k < |seen| {
      FirstNewlineIs(s, |line| + k);
    } else if rest == [] {
      NoNewlineIs(s);
    }
  }

  lemma FirstNewlineIs(s: seq<Byte>, k: nat)
    requires k < |s| && s[k] == LF && forall i :: 0 <= i < k ==> s[i] != LF
    ensures NewlineAt(s) == k
  {
  }

  lemma NoNewlineIs(s: seq<Byte>)
    requires LF !in s
    ensures NewlineAt(s) == |s|
  {
  }

  /** Fills the whole buffer in place, however many reads that takes. */
  method ReadFull(reader: Reader, buffer: array<Byte>) returns (count: nat, err: bool)
    requires reader.Valid()
    modifies reader, buffer
    ensures reader.Valid() && count <= buffer.Length
    ensures err <==> |old(reader.Stream())| < buffer.Length
    ensures !err ==> count == buffer.Length
    ensures err ==> reader.Stream() == []
    ensures count <= |old(reader.Stream())| && reader.Stream() == old(reader.Stream())[count..]
    ensures buffer[..count] == old(reader.Stream())[..count]
  {
    ghost var s := reader.Stream();
    count := 0;
    while count < buffer.Length
      invariant reader.Valid() && count <= buffer.Length && count <= |s|
      invariant buffer[..count] == s[..count] && reader.Stream() == s[count..]
    {
      var n, failed := reader.Read(buffer, count);
      assert s[..count] + s[count..][..n] == s[..count + n];
      assert s[count..][n..] == s[count + n..];
      count := count + n;
      if failed {
        return count, true;
      }
    }
    return count, false;
  }

  method ReadProxyV1(reader: Reader, v6: ParseV6) returns (address: Option<Address>)
    requires reader.Valid()
    modifies reader
    ensures reader.Valid()
    ensures var p := ParseV1(old(reader.Stream()), v6);
      p.consumed <= |old(reader.Stream())|
      && address == p.address && reader.Stream() == old(reader.Stream())[p.consumed..]
  {
    ghost var s := reader.Stream();
    var line, err := reader.ReadLine();
    assert line == s[..|line|] && reader.Stream() == s[|line|..];
    if err {
      return None;
    }
    address := LineAddress(line, v6);
  }

  method ReadProxyV2(reader: Reader) returns (address: Option<Address>)
    requires reader.Valid()
    modifies reader
    ensures reader.Valid()
    ensures var p := ParseV2(old(reader.Stream()));
      p.consumed <= |old(reader.Stream())|
      && address == p.address && reader.Stream() == old(reader.Stream())[p.consumed..]
  {
    ghost var s := reader.Stream();
    var header := new Byte[16];
    var _, short := ReadFull(reader, header);
    if short {
      return None;
    }
    ghost var rest := reader.Stream();
    assert header[..16] == header[..];
    assert header[..] == s[..16] && rest == s[16..];
    var length := Uint16(header[14], header[15]);
    var body := new Byte[length];
    var _, cut := ReadFull(reader, body);
    if cut {
      return None;
    }
    assert body[..length] == body[..];
    assert body[..] == rest[..length] && rest[..length] == s[16..16 + length];
    assert reader.Stream() == rest[length..] && rest[length..] == s[16 + length..];
    assert header[12] == s[12] && header[13] == s[13] && header[14] == s[14] && header[15] == s[15];
    address := BlockAddress(header[12], header[13], body[..]);
  }

  /** Chunking independence: the address, or its absence, and the bytes left are those
      of the pure parser on the concatenated stream. */
  method ReadProxyHeader(reader: Reader, v6: ParseV6) returns (address: Option<Address>)
    requires reader.Valid()
    modifies reader
    ensures reader.Valid()
    ensures var p := ParseHeader(old(reader.Stream()), v6);
      address == p.address && reader.Stream() == old(reader.Stream())[p.consumed..]
  {
    var prefix, err := reader.Peek(|V2_SIGNATURE|);
    if err {
      return None;
    }
    assert prefix[..6] == reader.Stream()[..6];
    if prefix == V2_SIGNATURE {
      address := ReadProxyV2(reader);
    } else if prefix[..|V1_PREFIX|] == V1_PREFIX {
      address := ReadProxyV1(reader, v6);
    } else {
      address := None;
    }
  }

  /** The connection the page server sees: the header's address if one was read, the
      peer's own otherwise, and the stream behind the header. */
  class ProxyConn {
    const peer: Address
    const reader: Reader
    var remote: Option<Address>

    constructor (chunks: seq<seq<Byte>>, peer: Address, v6: ParseV6)
      requires forall c :: c in chunks ==> c != []
      ensures fresh(reader) && reader.Valid() && this.peer == peer
      ensures var p := ParseHeader(Flatten(chunks), v6);
        && RemoteAddr() == (match p.address case Some(a) => a case None => peer)
        && reader.Stream() == Flatten(chunks)[p.consumed..]
    {
      var r := new Reader(chunks);
      var address := ReadProxyHeader(r, v6);
      this.peer, this.reader, this.remote := peer, r, address;
    }

    function RemoteAddr(): Address
      reads this
    {
      match remote case Some(a) => a case None => peer
    }
  }
}
