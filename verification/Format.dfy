/** The byte formats of Chunk/chunk.go and Merkle/merkle.go, by position and in numbers. */
module Format {
  import opened Bytes
  import opened Crypto
  import opened Protocol
  import opened Wire
  import opened Controllers

  lemma HeaderFrame(m: Message)
    requires m.Header? && WellSized(m)
    ensures var (x, n) := (Encode(m), |m.name|);
            && |x| == 45 + n && x[0] == 1
            && x[1..5] == PutU32(m.reps) && x[5..37] == m.fileID
            && x[37..41] == PutU32(n) && x[41..41 + n] == m.name && x[41 + n..] == PutU32(m.fileSize)
  {
    hide PutU32;
    var (x, n) := (Encode(m), |m.name|);
    assert x[1..] == PutU32(m.reps) + (m.fileID + (PutU32(n) + (m.name + PutU32(m.fileSize))));
    hide Encode;
    assert x[1..5] == x[1..][..4] && x[5..] == x[1..][4..];
    assert x[5..37] == x[5..][..32] && x[37..] == x[5..][32..];
    assert x[37..41] == x[37..][..4] && x[41..] == x[37..][4..];
    assert x[41..41 + n] == x[41..][..n] && x[41 + n..] == x[41..][n..];
  }

  lemma ResponseFrame(m: Message)
    requires m.Response? && WellSized(m)
    ensures var (x, n) := (Encode(m), |m.ciphertext|);
            && |x| == 53 + n && x[0] == 3
            && x[1..5] == PutU32(m.index)
            && x[5..9] == PutU32(n) && x[9..9 + n] == m.ciphertext
            && x[9 + n..21 + n] == m.nonce && x[21 + n..] == m.hresp
  {
    hide PutU32;
    var (x, n) := (Encode(m), |m.ciphertext|);
    assert x[1..] == PutU32(m.index) + (PutU32(n) + (m.ciphertext + (m.nonce + m.hresp)));
    hide Encode;
    assert x[1..5] == x[1..][..4] && x[5..] == x[1..][4..];
    assert x[5..9] == x[5..][..4] && x[9..] == x[5..][4..];
    assert x[9..9 + n] == x[9..][..n] && x[9 + n..] == x[9..][n..];
    assert x[9 + n..21 + n] == x[9 + n..][..12] && x[21 + n..] == x[9 + n..][12..];
  }

  /** Every frame, byte by byte: its sentinel, its size, and where each field is. */
  lemma {:induction false} FrameLayout(m: Message)
    requires WellSized(m)
    ensures var x := Encode(m);
            match m
            case Header(reps, id, name, size) =>
              && |x| == 45 + |name| && x[0] == 1
              && x[1..5] == PutU32(reps) && x[5..37] == id
              && x[37..41] == PutU32(|name|) && x[41..41 + |name|] == name && x[41 + |name|..] == PutU32(size)
            case Request(i) => |x| == 5 && x[0] == 2 && x[1..] == PutU32(i)
            case Response(i, ct, nonce, hresp) =>
              && |x| == 53 + |ct| && x[0] == 3
              && x[1..5] == PutU32(i) && x[5..9] == PutU32(|ct|) && x[9..9 + |ct|] == ct
              && x[9 + |ct|..21 + |ct|] == nonce && x[21 + |ct|..] == hresp
            case Ticket(i) => |x| == 5 && x[0] == 4 && x[1..] == PutU32(i)
            case KeyReveal(i, key) => |x| == 37 && x[0] == 5 && x[1..5] == PutU32(i) && x[5..] == key
            case RootMsg(root) => |x| == 33 && x[0] == 6 && x[1..] == root
            case FinalAck => x == [7]
  {
    hide PutU32;
    if m.Header? {
      HeaderFrame(m);
    } else if m.Response? {
      ResponseFrame(m);
    }
  }

  /** What a leaf hashes: ID, index, nonce, ciphertext and commitment, in this order and nothing else. */
  lemma {:induction false} LeafLayout(c: Suite, ch: ChunkData)
    requires |ch.fileID| == 32 && |ch.nonce| == 12 && |ch.hresp| == 32
    ensures exists x: bytes ::
              && LeafOf(c, ch) == c.keccak(x)
              && var n := |ch.ciphertext|;
                 && |x| == 80 + n
                 && x[..32] == ch.fileID && x[32..36] == PutU32(ch.index) && x[36..48] == ch.nonce
                 && x[48..48 + n] == ch.ciphertext && x[48 + n..] == ch.hresp
  {
    hide PutU32; hide Lawful;
    var (x, n) := (LeafInput(ch), |ch.ciphertext|);
    assert |x| == 80 + n;
    assert x[..32] == ch.fileID && x[32..36] == PutU32(ch.index) && x[36..48] == ch.nonce;
    assert x[48..48 + n] == ch.ciphertext && x[48 + n..] == ch.hresp;
    assert LeafOf(c, ch) == c.keccak(x);
  }
}
