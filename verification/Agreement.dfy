/**
 What the two sides can conclude from each other when anything may fail locally on either side and
 the stream may break off anywhere, as long as the bytes that do arrive are those that were sent.
 */
module Agreement {
  import opened Bytes
  import opened Crypto
  import opened Merkle
  import opened Partition
  import opened Protocol
  import opened Wire
  import opened Controllers
  import opened Scripts
  import opened ReceiverProof
  import opened ReceiverRun
  import opened Honest
  import S = SenderProof
  import SR = SenderRun

  /** The receiver's file is the source, or its prefix of 32768 * (2^32 - 1) bytes and less when that is too long. */
  ghost predicate Copied(src: Source, file: bytes) {
    && file == src.file[..Min(|src.file|, CHUNK_SIZE * Count(src))]
    && (file == src.file <==> |src.file| <= MAX_FILE)
  }

  /** Whatever an honest sender has written, in whatever run, is the beginning of its script. */
  lemma SentIsScript(c: Suite, src: Source, input: bytes, io: nat -> Io, j: nat)
    ensures SR.After(c, src, input, io, j).output <= EncodeAll(SenderScript(c, src))
  {
    hide RunFor; hide Lawful; hide S.Inv; hide EncodeAll; hide SenderScript; hide ReceiverScript;
    var s := SR.After(c, src, input, io, j);
    SR.RunIsGood(c, src, input, io, j);
    if s.state != Error {
      S.InvReleases(c, src, s, input);
    }
  }

  lemma WholeScriptCopies(c: Suite, src: Source)
    ensures ValidTranscript(c, SenderScript(c, src)) && SenderScript(c, src)[0].reps == Count(src)
    ensures Copied(src, FileOf(c, SenderScript(c, src)))
  {
    hide Lawful; hide SenderScript; hide ValidTranscript; hide FileOf; hide Piece; hide Flatten; hide Pieces;
    hide Reps;
    HonestTranscript(c, src);
    FirstLine(c, src);
    PiecesCoverPrefix(src.file, Count(src));
    PiecesAreTheFile(src.file);
  }

  /** Two valid transcripts, one the beginning of the other, are one. */
  lemma ValidPrefix(c: Suite, a: seq<Message>, b: seq<Message>)
    requires ValidTranscript(c, a) && ValidTranscript(c, b) && a <= b
    ensures a == b
  {
    hide Lawful; hide Root; hide Leaves; hide ChunksOf; hide GoodPairs; hide AllWellSized;
    assert a[0] == b[0];
  }

  /**
   A receiver that finishes on any part of what an honest sender wrote holds the source, with no
   collision to reckon with, whatever failed on the sender's side.
   */
  lemma {:induction false} ReceiverKnows(
    c: Suite, src: Source, sec: Secrets, sIn: bytes, sio: nat -> Io, j: nat, rIn: bytes, rio: nat -> Io, k: nat)
    requires rIn <= SR.After(c, src, sIn, sio, j).output
    ensures var r := After(c, sec, rIn, rio, k);
            r.state == Finished ==>
              Copied(src, r.file) && r.fileName == src.name && r.fileID == src.fileID && r.totalChunks == Count(src)
  {
    hide RunFor; hide Lawful; hide Inv; hide EncodeAll; hide SenderScript; hide ReceiverScript;
    hide ValidTranscript; hide FileOf; hide Copied; hide Leaves; hide ChunksOf; hide Explains;
    var (r, ss) := (After(c, sec, rIn, rio, k), SenderScript(c, src));
    if r.state == Finished {
      var told := RunTranscript(c, sec, rIn, rio, k);
      InvTaken(c, r, told, rIn);
      FinishedMeans(c, r, told, rIn);
      var valid := told[..Taken(Receiver, r)];
      SentIsScript(c, src, sIn, sio, j);
      WholeScriptCopies(c, src);
      FirstLine(c, src);
      ValidIsSized(c, valid);
      ValidIsSized(c, ss);
      PrefixParsing(valid, ss);
      ValidPrefix(c, valid, ss);
    }
  }

  lemma ValidIsSized(c: Suite, told: seq<Message>)
    requires ValidTranscript(c, told)
    ensures |told| > 0 && told[0].Header? && AllWellSized(told)
  {
  }

  /** A receiver whose whole script is out has been told the whole of the sender's. */
  lemma AllAnswered(c: Suite, src: Source, told: seq<Message>, output: bytes)
    requires Count(src) > 0 && told <= SenderScript(c, src) && Answered(told, output)
    requires EncodeAll(ReceiverScript(Count(src))) <= output
    ensures told == SenderScript(c, src)
  {
    hide Lawful; hide EncodeAll; hide SenderScript; hide ReceiverScript;
    var n := Count(src);
    FirstLine(c, src);
    SR.ScriptLength(n);
    SR.ScriptLength(0);
    assert |told| == 0 ==> Chunks(told) == 0;
    assert told[0] == SenderScript(c, src)[0];
    var rs := ReceiverScript(n);
    EncodeAllPrefix(rs, 2 * n as nat, |rs|);
    assert rs[..|rs|] == rs;
    assert Needs(n, 2 * n as nat) <= |told|;
  }

  /** With the whole script told, the file is the whole file. */
  lemma AllWritten(c: Suite, src: Source, file: bytes, d: nat)
    requires Count(src) > 0 && FileAt(c, SenderScript(c, src), file, d)
    requires ValidTranscript(c, SenderScript(c, src)) && SenderScript(c, src)[0].reps == Count(src)
    ensures file == FileOf(c, SenderScript(c, src))
  {
    hide Lawful; hide SenderScript; hide ChunksOf; hide Plaintexts; hide Accepted; hide ChunkAt; hide Root;
    hide Leaves; hide AllWellSized;
    var (ss, n) := (SenderScript(c, src), Count(src) as nat);
    assert !PairAt(ss, n);
    assert (d > n ==> PairAt(ss, n)) && (GoodPairs(c, ss, n + 1) ==> PairAt(ss, n));
  }

  lemma EmptySource(c: Suite, src: Source)
    requires Count(src) == 0 && Copied(src, FileOf(c, SenderScript(c, src)))
    ensures Copied(src, [])
  {
    hide Lawful; hide FileOf; hide SenderScript;
  }

  /** A receiver that has been told no chunk has written nothing. */
  lemma NothingWritten(c: Suite, told: seq<Message>, file: bytes, d: nat)
    requires |told| <= 1 && FileAt(c, told, file, d)
    ensures file == []
  {
    hide Lawful; hide Accepted; hide ChunkAt;
    var i: nat := 0;
    assert !PairAt(told, i);
    assert (d > 0 ==> PairAt(told, i)) && (GoodPairs(c, told, d + 1) ==> PairAt(told, i));
  }

  /**
   A sender that finishes knows that the receiver's file is the source: the ack it has read was
   written after everything else, even if the receiver itself then ran into an error. With no
   chunks there is no ack, and the file is empty whether or not the receiver got to see the header.
   */
  lemma {:induction false} SenderKnows(
    c: Suite, src: Source, sec: Secrets, sIn: bytes, sio: nat -> Io, j: nat, rIn: bytes, rio: nat -> Io, k: nat)
    requires rIn <= SR.After(c, src, sIn, sio, j).output && sIn <= After(c, sec, rIn, rio, k).output
    ensures SR.After(c, src, sIn, sio, j).state == Finished ==> Copied(src, After(c, sec, rIn, rio, k).file)
  {
    hide RunFor; hide Lawful; hide S.Inv; hide Inv; hide EncodeAll; hide SenderScript; hide ReceiverScript;
    hide ValidTranscript; hide FileOf; hide Copied; hide Answered; hide FileAt; hide S.Released;
    var (s, r) := (SR.After(c, src, sIn, sio, j), After(c, sec, rIn, rio, k));
    if s.state == Finished {
      SR.RunIsGood(c, src, sIn, sio, j);
      SR.FinishedMeans(c, src, s, sIn);
      AnswersInOrder(c, sec, rIn, rio, k);
      var told :| Explains(c, r.file, r.output, told, rIn);
      var d: nat :| FileAt(c, told, r.file, d);
      SentIsScript(c, src, sIn, sio, j);
      SenderScriptSized(c, src);
      PrefixParsing(told, SenderScript(c, src));
      WholeScriptCopies(c, src);
      if Count(src) > 0 {
        AllAnswered(c, src, told, r.output);
        AllWritten(c, src, r.file, d);
      } else {
        NothingWritten(c, told, r.file, d);
        EmptySource(c, src);
      }
    }
  }
}
