/** The honest sender's script is a transcript that a receiver accepts, and stands for the sender's file. */
module Honest {
  import opened Bytes
  import opened Crypto
  import opened Merkle
  import opened Partition
  import opened Protocol
  import opened Wire
  import opened Controllers
  import opened Scripts
  import opened ReceiverProof
  import opened ReceiverRun

  /** Chunk j arrives as it was sent, but for the Length field, which counts the 16 bytes of the tag. */
  lemma {:induction false} ChunkArrives(c: Suite, src: Source, j: nat)
    requires j < Count(src)
    ensures var told := SenderScript(c, src);
            && PairAt(told, j) && Accepted(c, ChunkAt(c, told, j))
            && ChunkAt(c, told, j) == SentChunk(c, src, j).(length := |Piece(src.file, j)| + 16)
  {
    hide SenderScript; hide Lawful; hide Seal; hide Unseal; hide Hash; hide Piece; hide KeyFor; hide NonceFor;
    hide Accepted;
    var told := SenderScript(c, src);
    SenderLines(c, src, j);
    FirstLine(c, src);
    AcceptedIs(c, ChunkAt(c, told, j));
    UnsealSeal(c, KeyFor(src.sec, j), NonceFor(src.sec, j), Piece(src.file, j));
  }

  lemma FirstLine(c: Suite, src: Source)
    ensures SenderScript(c, src)[0] == Header(Count(src), src.fileID, src.name, Truncate32(|src.file|))
  {
  }

  lemma {:induction false} ChunksArrive(c: Suite, src: Source, d: nat)
    requires d <= Count(src)
    ensures GoodPairs(c, SenderScript(c, src), d)
    ensures var chs := ChunksOf(c, SenderScript(c, src), d);
            Leaves(c, chs) == Leaves(c, SentChunks(c, src, d)) && Plaintexts(chs) == Plaintexts(SentChunks(c, src, d))
  {
    hide SenderScript; hide Lawful; hide SentChunk; hide ChunkAt; hide Leaves; hide Plaintexts; hide PairAt;
    hide Accepted;
    forall j: nat | j < d
      ensures PairAt(SenderScript(c, src), j) && Accepted(c, ChunkAt(c, SenderScript(c, src), j))
    {
      ChunkArrives(c, src, j);
    }
    if d == 0 {
      assert SentChunks(c, src, 0) == [];
    } else {
      var told := SenderScript(c, src);
      ChunksArrive(c, src, d - 1);
      ChunkArrives(c, src, d - 1);
      var (sent, ch) := (SentChunk(c, src, d - 1), ChunkAt(c, told, d - 1));
      assert LeafOf(c, sent) == LeafOf(c, ch) && sent.plaintext == ch.plaintext;
      SentChunksSnoc(c, src, d - 1);
      PlaintextsSnoc(SentChunks(c, src, d - 1), sent);
      LeavesSnoc(c, ChunksOf(c, told, d - 1), ch);
      PlaintextsSnoc(ChunksOf(c, told, d - 1), ch);
    }
  }

  lemma {:induction false} HonestTranscript(c: Suite, src: Source)
    ensures ValidTranscript(c, SenderScript(c, src))
    ensures FileOf(c, SenderScript(c, src)) == src.file[..Min(|src.file|, CHUNK_SIZE * Count(src))]
  {
    hide SenderScript; hide Lawful; hide SentChunk; hide ChunkAt; hide Leaves; hide Plaintexts; hide Root;
    hide GoodPairs; hide ChunksOf;
    var n := Count(src);
    SenderScriptSized(c, src);
    FirstLine(c, src);
    ChunksArrive(c, src, n);
    SentPlaintexts(c, src, n);
    if n > 0 {
      SenderLines(c, src, n - 1);
    }
  }
}
