/**
 The byte stream of Protocol/stream.go and the message readers and writers of Chunk/chunk.go, as
 they work on it. `incoming` is all that will still arrive before the peer closes its side.
 */
module Streams {
  import opened Bytes
  import opened Crypto
  import opened Protocol
  import opened Wire

  class Stream {
    var incoming: bytes
    var outgoing: bytes

    constructor (incoming: bytes)
      ensures this.incoming == incoming && outgoing == []
    {
      this.incoming := incoming;
      outgoing := [];
    }

    /** One Read: at least one byte, at most `max`, however many the network has at hand; none at the end. */
    method Read(max: nat) returns (b: bytes)
      requires max > 0
      modifies this`incoming
      ensures old(incoming) == b + incoming && |b| <= max
      ensures |b| == 0 <==> |old(incoming)| == 0
    {
      if |incoming| == 0 {
        return [];
      }
      var k :| 1 <= k <= max && k <= |incoming|;
      b := incoming[..k];
      incoming := incoming[k..];
    }

    /** io.ReadFull: reads until the buffer is full, whatever portions the reads come in. */
    method ReadFull(buf: array<byte>) returns (ok: bool)
      modifies this`incoming, buf
      ensures ok == (buf.Length <= |old(incoming)|)
      ensures ok ==> old(incoming) == buf[..] + incoming
      ensures !ok ==> incoming == []
    {
      var n := 0;
      while n < buf.Length
        invariant 0 <= n <= buf.Length
        invariant old(incoming) == buf[..n] + incoming
      {
        var b := Read(buf.Length - n);
        if |b| == 0 {
          return false;
        }
        ghost var before := buf[..n];
        forall i | 0 <= i < |b| {
          buf[n + i] := b[i];
        }
        assert buf[..n + |b|] == before + b;
        n := n + |b|;
      }
      assert buf[..n] == buf[..];
      ok := true;
    }

    method Write(b: bytes, io: Io) returns (ok: bool)
      modifies this`outgoing
      ensures outgoing == old(outgoing) + Written(b, io) && ok == io.Fine?
    {
      outgoing := outgoing + Written(b, io);
      ok := io.Fine?;
    }
  }

  // ---------- fields ----------

  /** binary.BigEndian.PutUint32 into a 4-byte buffer. */
  method PutUint32(temp: array<byte>, x: u32)
    requires temp.Length == 4
    modifies temp
    ensures temp[..] == PutU32(x)
  {
    temp[0], temp[1], temp[2], temp[3] := x / 256 / 256 / 256, x / 256 / 256 % 256, x / 256 % 256, x % 256;
  }

  method ReadBytes(conn: Stream, n: nat) returns (ok: bool, b: bytes)
    modifies conn`incoming
    ensures match Take(old(conn.incoming), n)
            case Got(v, rest) => ok && b == v && conn.incoming == rest
            case _ => !ok
  {
    var buf := new byte[n](_ => 0);
    ok := conn.ReadFull(buf);
    b := buf[..];
  }

  method ReadUint32(conn: Stream) returns (ok: bool, x: u32)
    modifies conn`incoming
    ensures match TakeU32(old(conn.incoming))
            case Got(v, rest) => ok && x == v && conn.incoming == rest
            case _ => !ok
  {
    x := 0;
    var buf := new byte[4](_ => 0);
    ok := conn.ReadFull(buf);
    if ok {
      assert old(conn.incoming)[..4] == buf[..];
      x := GetU32(buf[..]);
    }
  }

  method ReadBlock(conn: Stream) returns (ok: bool, b: bytes)
    modifies conn`incoming
    ensures match TakeBlock(old(conn.incoming))
            case Got(v, rest) => ok && b == v && conn.incoming == rest
            case _ => !ok
  {
    hide GetU32; hide PutU32;
    b := [];
    var n: u32;
    ok, n := ReadUint32(conn);
    if ok {
      ok, b := ReadBytes(conn, n);
    }
  }

  method ReadSentinel(conn: Stream, k: Kind) returns (ok: bool)
    modifies conn`incoming
    ensures ok == (|old(conn.incoming)| > 0 && old(conn.incoming)[0] == Sentinel(k))
    ensures ok ==> conn.incoming == old(conn.incoming)[1..]
  {
    var b: bytes;
    ok, b := ReadBytes(conn, 1);
    if ok && b[0] != Sentinel(k) {
      ok := false;
    }
  }

  /** Appending fields one after another gives the nested form of the encoding. */
  lemma Appended(x: bytes, a: bytes, b: bytes, c: bytes, d: bytes, e: bytes)
    ensures ((((x + a) + b) + c) + d) + e == x + (a + (b + (c + (d + e))))
  {
    Assoc(((x + a) + b) + c, d, e);
    Assoc((x + a) + b, c, d + e);
    Assoc(x + a, b, c + (d + e));
    Assoc(x, a, b + (c + (d + e)));
  }

  // ---------- messages ----------

  method SendHeader(conn: Stream, reps: u32, fileID: bytes, name: bytes, fileSize: u32, io: Io) returns (ok: bool)
    modifies conn`outgoing
    ensures ok == io.Fine?
    ensures conn.outgoing == old(conn.outgoing) + Written(Encode(Header(reps, fileID, name, fileSize)), io)
  {
    hide PutU32; hide Written;
    var buf: bytes := [1];
    var temp := new byte[4](_ => 0);
    PutUint32(temp, reps);
    buf := buf + temp[..];
    buf := buf + fileID;
    PutUint32(temp, Truncate32(|name|));
    buf := buf + temp[..];
    buf := buf + name;
    PutUint32(temp, fileSize);
    buf := buf + temp[..];
    Appended([1], PutU32(reps), fileID, PutU32(Truncate32(|name|)), name, PutU32(fileSize));
    ok := conn.Write(buf, io);
  }

  method ReadHeader(conn: Stream) returns (ok: bool, reps: u32, fileID: bytes, name: bytes, fileSize: u32)
    modifies conn`incoming
    ensures match Decode(HeaderKind, old(conn.incoming))
            case Got(m, rest) => ok && m == Header(reps, fileID, name, fileSize) && conn.incoming == rest
            case _ => !ok
  {
    hide PutU32; hide GetU32; hide TakeU32; hide TakeBlock; hide Take;
    reps, fileID, name, fileSize := 0, [], [], 0;
    ok := ReadSentinel(conn, HeaderKind);
    if !ok { return; }
    ok, reps := ReadUint32(conn);
    if !ok { return; }
    ok, fileID := ReadBytes(conn, HASH_SIZE);
    if !ok { return; }
    ok, name := ReadBlock(conn);
    if !ok { return; }
    ok, fileSize := ReadUint32(conn);
  }

  /** A request or a ticket. */
  method SendIndexed(conn: Stream, m: Message, io: Io) returns (ok: bool)
    requires m.Request? || m.Ticket?
    modifies conn`outgoing
    ensures ok == io.Fine? && conn.outgoing == old(conn.outgoing) + Written(Encode(m), io)
  {
    hide PutU32; hide Written;
    var buf: bytes := [Sentinel(KindOf(m))];
    var temp := new byte[4](_ => 0);
    PutUint32(temp, m.index);
    buf := buf + temp[..];
    ok := conn.Write(buf, io);
  }

  method ReadIndexed(conn: Stream, k: Kind) returns (ok: bool, index: u32)
    requires k == RequestKind || k == TicketKind
    modifies conn`incoming
    ensures match Decode(k, old(conn.incoming))
            case Got(m, rest) =>
              && ok && conn.incoming == rest
              && m == (if k == RequestKind then Request(index) else Ticket(index))
            case _ => !ok
  {
    hide PutU32; hide GetU32; hide TakeU32;
    index := 0;
    ok := ReadSentinel(conn, k);
    if !ok { return; }
    ok, index := ReadUint32(conn);
  }

  method SendChunkResponse(conn: Stream, index: u32, ciphertext: bytes, nonce: bytes, hresp: bytes, io: Io)
    returns (ok: bool)
    modifies conn`outgoing
    ensures ok == io.Fine?
    ensures conn.outgoing == old(conn.outgoing) + Written(Encode(Response(index, ciphertext, nonce, hresp)), io)
  {
    hide PutU32; hide Written;
    var buf: bytes := [3];
    var temp := new byte[4](_ => 0);
    PutUint32(temp, index);
    buf := buf + temp[..];
    PutUint32(temp, Truncate32(|ciphertext|));
    buf := buf + temp[..];
    buf := buf + ciphertext;
    buf := buf + nonce;
    buf := buf + hresp;
    Appended([3], PutU32(index), PutU32(Truncate32(|ciphertext|)), ciphertext, nonce, hresp);
    ok := conn.Write(buf, io);
  }

  method ReadChunkResponse(conn: Stream) returns (ok: bool, index: u32, ciphertext: bytes, nonce: bytes, hresp: bytes)
    modifies conn`incoming
    ensures match Decode(ResponseKind, old(conn.incoming))
            case Got(m, rest) => ok && m == Response(index, ciphertext, nonce, hresp) && conn.incoming == rest
            case _ => !ok
  {
    hide PutU32; hide GetU32; hide TakeU32; hide TakeBlock; hide Take;
    index, ciphertext, nonce, hresp := 0, [], [], [];
    ok := ReadSentinel(conn, ResponseKind);
    if !ok { return; }
    ok, index := ReadUint32(conn);
    if !ok { return; }
    ok, ciphertext := ReadBlock(conn);
    if !ok { return; }
    ok, nonce := ReadBytes(conn, NONCE_SIZE);
    if !ok { return; }
    ok, hresp := ReadBytes(conn, HASH_SIZE);
  }

  method SendKeyReveal(conn: Stream, index: u32, key: bytes, io: Io) returns (ok: bool)
    modifies conn`outgoing
    ensures ok == io.Fine? && conn.outgoing == old(conn.outgoing) + Written(Encode(KeyReveal(index, key)), io)
  {
    hide PutU32; hide Written;
    var buf: bytes := [5];
    var temp := new byte[4](_ => 0);
    PutUint32(temp, index);
    buf := buf + temp[..];
    buf := buf + key;
    assert buf == Encode(KeyReveal(index, key));
    ok := conn.Write(buf, io);
  }

  method ReadKeyReveal(conn: Stream) returns (ok: bool, index: u32, key: bytes)
    modifies conn`incoming
    ensures match Decode(KeyKind, old(conn.incoming))
            case Got(m, rest) => ok && m == KeyReveal(index, key) && conn.incoming == rest
            case _ => !ok
  {
    hide PutU32; hide GetU32; hide TakeU32; hide Take;
    index, key := 0, [];
    ok := ReadSentinel(conn, KeyKind);
    if !ok { return; }
    ok, index := ReadUint32(conn);
    if !ok { return; }
    ok, key := ReadBytes(conn, KEY_SIZE);
  }

  method SendRoot(conn: Stream, root: bytes, io: Io) returns (ok: bool)
    modifies conn`outgoing
    ensures ok == io.Fine? && conn.outgoing == old(conn.outgoing) + Written(Encode(RootMsg(root)), io)
  {
    hide Written;
    ok := conn.Write([6] + root, io);
  }

  method ReadRoot(conn: Stream) returns (ok: bool, root: bytes)
    modifies conn`incoming
    ensures match Decode(RootKind, old(conn.incoming))
            case Got(m, rest) => ok && m == RootMsg(root) && conn.incoming == rest
            case _ => !ok
  {
    root := [];
    ok := ReadSentinel(conn, RootKind);
    if !ok { return; }
    ok, root := ReadBytes(conn, HASH_SIZE);
  }

  method SendFinalAck(conn: Stream, io: Io) returns (ok: bool)
    modifies conn`outgoing
    ensures ok == io.Fine? && conn.outgoing == old(conn.outgoing) + Written(Encode(FinalAck), io)
  {
    hide Written;
    assert Encode(FinalAck) == [7];
    ok := conn.Write([7], io);
  }

  method ReadFinalAck(conn: Stream) returns (ok: bool)
    modifies conn`incoming
    ensures match Decode(AckKind, old(conn.incoming))
            case Got(_, rest) => ok && conn.incoming == rest
            case _ => !ok
  {
    ok := ReadSentinel(conn, AckKind);
  }
}
