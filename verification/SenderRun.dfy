/** Whole runs of the sender, against every input and with every pattern of local failures. */
module SenderRun {
  import opened Bytes
  import opened Crypto
  import opened Merkle
  import opened Partition
  import opened Protocol
  import opened Wire
  import opened Controllers
  import opened Scripts
  import opened SenderProof
  import opened Format

  function After(c: Suite, src: Source, input: bytes, io: nat -> Io, k: nat): Snapshot {
    RunFor(c, Sender, src.sec, Start(src, input), io, k)
  }

  lemma StartInv(c: Suite, src: Source, input: bytes)
    ensures Inv(c, src, Start(src, input), input)
  {
    hide Encode; hide SenderLine; hide ReceiverLine; hide SentChunk; hide LeafOf;
    assert SenderScript(c, src)[..0] == [] && ReceiverScript(Count(src))[..0] == [];
    assert SentChunks(c, src, 0) == [];
  }

  lemma RoundKeepsInv(c: Suite, src: Source, s: Snapshot, received: bytes, io: Io)
    requires Inv(c, src, s, received) && !s.midStep
    ensures Good(c, src, Round(c, Sender, src.sec, s, io), received)
  {
    hide Act; hide Round; hide Inv; hide Released; hide Lawful;
    RoundIsActs(c, Sender, src.sec, s, io);
    ActKeepsInv(c, src, s, received, io, true);
    var s1 := Act(c, Sender, src.sec, s, io, true);
    if s1.midStep {
      ActMidStep(c, src, s, io);
      ActKeepsInv(c, src, s1, received, io, true);
    }
  }

  lemma ActMidStep(c: Suite, src: Source, s: Snapshot, io: Io)
    requires !s.midStep
    ensures var s1 := Act(c, Sender, src.sec, s, io, true); s1.midStep ==> s1.state == VerifyMerkle
  {
    hide Step; hide Lawful;
    StepHalves(c, Sender, src.sec, s, io);
  }

  /**
   After any number of rounds the sender is on script or has failed within the discipline; it
   counts a round for every state on the way, so it is done after 4n + 3 rounds (2 if n = 0).
   */
  lemma {:induction false} RunIsGood(c: Suite, src: Source, input: bytes, io: nat -> Io, k: nat)
    ensures var s := After(c, src, input, io, k);
            && Good(c, src, s, input) && !s.midStep
            && (!Terminal(s) ==> RoundsDone(Sender, s) == k)
            && (s.state == Finished ==> RoundsDone(Sender, s) <= k)
  {
    hide Round; hide Released; hide Lawful; hide EncodeAll; hide SenderScript; hide ReceiverScript; hide Leaves;
    hide SentChunk; hide SentChunks;
    if k == 0 {
      StartInv(c, src, input);
    } else {
      RunIsGood(c, src, input, io, k - 1);
      var s := After(c, src, input, io, k - 1);
      RunStep(c, src, input, io, k);
      if s.state != Error {
        RoundKeepsInv(c, src, s, input, io(k - 1));
        RoundHead(c, Sender, src.sec, s, io(k - 1));
        if !Terminal(s) {
          RoundAdvances(c, Sender, src.sec, s, io(k - 1));
        }
      }
    }
  }

  lemma {:induction false} RunStep(c: Suite, src: Source, input: bytes, io: nat -> Io, k: nat)
    requires k > 0
    ensures var s := After(c, src, input, io, k - 1);
            && After(c, src, input, io, k) == Round(c, Sender, src.sec, s, io(k - 1))
            && (Terminal(s) ==> After(c, src, input, io, k) == s)
  {
    hide WholeStep; hide Lawful;
  }

  // ---------- theorems ----------

  /**
   Key release against any peer, after any number of rounds and any local failure: the output is a
   prefix of the script; no byte of Response i is out unless the input begins with the first i
   exchanges and Request i; no byte of KeyReveal i unless Ticket i follows as well.
   */
  lemma {:induction false} KeyRelease(c: Suite, src: Source, input: bytes, io: nat -> Io, k: nat, i: nat)
    requires i < Count(src)
    ensures var (ss, rs, out) := (SenderScript(c, src), ReceiverScript(Count(src)), After(c, src, input, io, k).output);
            && out <= EncodeAll(ss)
            && ss[1 + 2 * i].Response? && ss[2 + 2 * i] == KeyReveal(i, src.sec.key(i))
            && ss[1 + 2 * i].ciphertext == c.seal(src.sec.key(i), src.sec.nonce(i), Piece(src.file, i))
            && rs[2 * i] == Request(i) && rs[2 * i + 1] == Ticket(i)
            && (|out| > |EncodeAll(ss[..1 + 2 * i])| ==> EncodeAll(rs[..2 * i + 1]) <= input)
            && (|out| > |EncodeAll(ss[..2 + 2 * i])| ==> EncodeAll(rs[..2 * i + 2]) <= input)
  {
    hide Inv; hide Lawful; hide EncodeAll; hide SenderScript; hide ReceiverScript; hide Piece;
    var s := After(c, src, input, io, k);
    RunIsGood(c, src, input, io, k);
    if s.state != Error {
      InvReleases(c, src, s, input);
    }
    assert Released(c, src, s.output, input);
    ChunkLines(c, src, i);
    ReceiverLines(Count(src), i);
  }

  /** The secrets that a step may use are those of the chunk it is about to send. */
  lemma StepUsesSecrets(c: Suite, a: Source, b: Source, s: Snapshot, io: Io)
    requires s.state == SendChunkResponse ==> SameSecrets(a, b, s.currentChunk)
    ensures SenderStep(c, a.sec, s, io) == SenderStep(c, b.sec, s, io)
    ensures SenderStep(c, a.sec, s, io).Continue? ==> SenderStep(c, a.sec, s, io).s.state == VerifyMerkle
  {
    hide Lawful; hide Encode; hide Decode; hide Root; hide LeafOf; hide Piece; hide Written; hide BuildChunk;
    hide HeaderOf; hide SizedSecrets;
    assert s.state == SendChunkResponse ==>
        && KeyFor(a.sec, s.currentChunk) == KeyFor(b.sec, s.currentChunk)
        && NonceFor(a.sec, s.currentChunk) == NonceFor(b.sec, s.currentChunk);
    hide KeyFor; hide NonceFor;
  }

  lemma RoundUsesSecrets(c: Suite, a: Source, b: Source, s: Snapshot, io: Io)
    requires s.state == SendChunkResponse ==> SameSecrets(a, b, s.currentChunk)
    ensures Round(c, Sender, a.sec, s, io) == Round(c, Sender, b.sec, s, io)
  {
    hide Lawful; hide SenderStep; hide SizedSecrets;
    StepUsesSecrets(c, a, b, s, io);
    var r := SenderStep(c, a.sec, s, io);
    if r.Continue? {
      StepUsesSecrets(c, a, b, r.s, io);
    }
  }

  /** A sender about to answer request i has read it. */
  lemma RequestIsIn(c: Suite, src: Source, s: Snapshot, received: bytes)
    requires Inv(c, src, s, received) && s.state == SendChunkResponse
    ensures s.currentChunk < Count(src)
    ensures EncodeAll(ReceiverScript(Count(src))[..2 * s.currentChunk as nat + 1]) <= received
  {
    hide Lawful; hide EncodeAll; hide SenderScript; hide ReceiverScript; hide Leaves; hide SentChunks; hide Reps;
  }

  /**
   Nothing that the sender does depends on secrets whose chunks have not been asked for: two
   senders of one file whose secrets agree for every chunk that the input requests are in the same
   state after any number of rounds, whatever the input is and whatever fails.
   */
  lemma {:induction false} SecretsStayHome(c: Suite, a: Source, b: Source, input: bytes, io: nat -> Io, k: nat)
    requires SameFile(a, b)
    requires forall i: nat :: i < Count(a) && EncodeAll(ReceiverScript(Count(a))[..2 * i + 1]) <= input ==>
                                SameSecrets(a, b, i)
    ensures After(c, a, input, io, k) == After(c, b, input, io, k)
  {
    hide Lawful; hide Round; hide Inv; hide EncodeAll; hide ReceiverScript; hide Reps; hide Released;
    if k > 0 {
      SecretsStayHome(c, a, b, input, io, k - 1);
      var s := After(c, a, input, io, k - 1);
      RunIsGood(c, a, input, io, k - 1);
      RunStep(c, a, input, io, k);
      RunStep(c, b, input, io, k);
      if s.state == SendChunkResponse {
        RequestIsIn(c, a, s, input);
      }
      RoundUsesSecrets(c, a, b, s, io(k - 1));
    }
  }

  /**
   What holds of every run at every loop head: no crash, a step for every state, no transition
   outside the table, no state of the other role, a pending chunk exactly while one is in flight,
   one leaf per confirmed chunk, and a chunk counter that never wraps, not even when logged as +1.
   */
  lemma {:induction false} SessionInvariant(c: Suite, src: Source, input: bytes, io: nat -> Io, k: nat)
    ensures var s := After(c, src, input, io, k);
            s.state != Error ==>
              && (HasStep(Sender, s.state) || s.state == Finished)
              && (!Terminal(s) ==> var r := WholeStep(c, Sender, src.sec, s, io(k));
                                   !r.Crash? && (r.Next? ==> IsAllowed(s.state, r.next)))
              && (s.pending.Some? <==> s.state == WaitingLotteryTicket || s.state == SendKeyReveal)
              && |s.leaves| == Done(s)
              && (s.state == VerifyMerkle ==> |s.leaves| == s.totalChunks > 0)
              && s.currentChunk as nat + 1 < U32_LIMIT
  {
    hide Lawful; hide EncodeAll; hide SenderScript; hide ReceiverScript; hide Leaves; hide SentChunk;
    hide SentChunks; hide SenderStep; hide Released; hide Round;
    var s := After(c, src, input, io, k);
    RunIsGood(c, src, input, io, k);
    if s.state != Error && !Terminal(s) {
      WholeStepLegal(c, src, s, input, io(k));
    }
  }

  lemma WholeStepLegal(c: Suite, src: Source, s: Snapshot, received: bytes, io: Io)
    requires Inv(c, src, s, received) && !Terminal(s) && !s.midStep
    ensures var r := WholeStep(c, Sender, src.sec, s, io); !r.Crash? && (r.Next? ==> IsAllowed(s.state, r.next))
  {
    hide Inv; hide SenderStep; hide Released; hide Lawful;
    StepIsGood(c, src, s, received, io);
    StepHalves(c, Sender, src.sec, s, io);
    var r := SenderStep(c, src.sec, s, io);
    if r.Continue? {
      StepIsGood(c, src, r.s, received, io);
    }
  }

  /** The root is only ever computed over at least one leaf, so its frame has 33 bytes. */
  lemma {:induction false} RootFrame(c: Suite, src: Source, input: bytes, io: nat -> Io, k: nat)
    ensures var s := After(c, src, input, io, k);
            s.state == VerifyMerkle ==> |Encode(RootMsg(Root(c, s.leaves)))| == 33
  {
    hide Lawful; hide EncodeAll; hide SenderScript; hide ReceiverScript; hide SentChunk; hide SentChunks; hide Root;
    hide Released; hide Round; hide RunFor; hide LeafOf;
    var s := After(c, src, input, io, k);
    RunIsGood(c, src, input, io, k);
    if s.state == VerifyMerkle {
      RootSize(c, s.leaves);
    }
  }

  /** Run ends: after 4n + 3 rounds, 2 for an empty file, the sender is Finished or in Error. */
  lemma {:induction false} Terminates(c: Suite, src: Source, input: bytes, io: nat -> Io, k: nat)
    requires k >= if Count(src) == 0 then 2 else 4 * Count(src) as nat + 3
    ensures Terminal(After(c, src, input, io, k))
  {
    hide Lawful; hide EncodeAll; hide SenderScript; hide ReceiverScript; hide Leaves; hide SentChunk;
    hide SentChunks; hide Released; hide Round;
    RunIsGood(c, src, input, io, k);
  }

  lemma {:induction false} NeverFails(c: Suite, src: Source, input: bytes, io: nat -> Io, k: nat)
    requires Works(io) && EncodeAll(ReceiverScript(Count(src))) <= input
    ensures After(c, src, input, io, k).state != Error
  {
    hide EncodeAll; hide ReceiverScript; hide SenderScript; hide Round; hide Inv; hide Lawful; hide Released;
    if k > 0 {
      NeverFails(c, src, input, io, k - 1);
      var s := After(c, src, input, io, k - 1);
      RunIsGood(c, src, input, io, k - 1);
      RunStep(c, src, input, io, k);
      if !Terminal(s) {
        RoundSucceeds(c, src, s, input);
      }
    }
  }

  lemma RoundSucceeds(c: Suite, src: Source, s: Snapshot, received: bytes)
    requires Inv(c, src, s, received) && !Terminal(s) && !s.midStep
    requires EncodeAll(ReceiverScript(Count(src))) <= received
    ensures Round(c, Sender, src.sec, s, Fine).state != Error
  {
    hide EncodeAll; hide ReceiverScript; hide Lawful; hide Inv; hide SenderStep; hide Released;
    StepSucceeds(c, src, s, received);
    StepHalves(c, Sender, src.sec, s, Fine);
    var r := SenderStep(c, src.sec, s, Fine);
    if r.Continue? {
      StepHalves(c, Sender, src.sec, r.s, Fine);
      StepSucceeds(c, src, r.s, received);
    }
  }

  lemma StepSucceeds(c: Suite, src: Source, s: Snapshot, received: bytes)
    requires Inv(c, src, s, received) && !Terminal(s)
    requires EncodeAll(ReceiverScript(Count(src))) <= received
    ensures var r := SenderStep(c, src.sec, s, Fine);
            && HasStep(Sender, s.state)
            && (r.Next? || r.Continue?)
            && (r.Next? ==> IsAllowed(s.state, r.next) && r.next != Error)
            && (r.Continue? ==> Inv(c, src, r.s, received))
  {
    hide EncodeAll; hide ReceiverScript; hide Lawful; hide SenderStep; hide Released; hide SenderScript;
    hide Leaves; hide SentChunk; hide SentChunks;
    var script := ReceiverScript(Count(src));
    StepIsGood(c, src, s, received, Fine);
    Progress(c, src, s, received, [], received[|EncodeAll(script)|..]);
    if Reading(Sender, s) {
      NextIsExpected(c, src, s);
      EncodeAllPrefix(script, Taken(Sender, s) + 1, |script|);
      assert script[..|script|] == script;
    }
  }

  lemma LineSizes(i: u32)
    ensures |Encode(Request(i))| == 5 && |Encode(Ticket(i))| == 5 && |Encode(FinalAck)| == 1
  {
  }

  lemma {:induction false} ScriptBytes(n: u32, k: nat)
    requires k <= n
    ensures 2 * k <= |ReceiverScript(n)| && |EncodeAll(ReceiverScript(n)[..2 * k])| == 10 * k
  {
    hide ReceiverScript; hide Encode;
    var script := ReceiverScript(n);
    if k == 0 {
      assert script[..0] == [];
    } else {
      ScriptBytes(n, k - 1);
      hide EncodeAll;
      ReceiverLines(n, k - 1);
      EncodeAllSplit(script, 2 * k - 2);
      EncodeAllSplit(script, 2 * k - 1);
      LineSizes(k - 1);
    }
  }

  /** The receiver's script for n > 0 chunks has 10n + 1 bytes. */
  lemma ScriptLength(n: u32)
    ensures |EncodeAll(ReceiverScript(n))| == if n == 0 then 0 else 10 * n as nat + 1
  {
    hide ReceiverScript; hide Encode;
    var rs := ReceiverScript(n);
    if n > 0 {
      ScriptBytes(n, n);
      ReceiverLines(n, n - 1);
      EncodeAllSplit(rs, 2 * n as nat);
      LineSizes(0);
      assert rs[..2 * n as nat + 1] == rs;
    }
  }

  lemma PieceBytes(file: bytes, i: nat)
    ensures |Piece(file, i)| == Min(|file|, CHUNK_SIZE * (i + 1)) - Min(|file|, CHUNK_SIZE * i)
  {
    hide Piece;
    PieceExtends(file, i);
  }

  /** A response costs 69 bytes besides its chunk, a key 37. */
  lemma ChunkBytes(c: Suite, src: Source, i: nat)
    requires i < Count(src)
    ensures var ss := SenderScript(c, src);
            |Encode(ss[1 + 2 * i])| + |Encode(ss[2 + 2 * i])| == 106 + |Piece(src.file, i)|
  {
    hide Lawful; hide SenderScript; hide Encode; hide Piece; hide Reps; hide Hash;
    SenderLines(c, src, i);
    SenderScriptSized(c, src);
    FrameLayout(SenderScript(c, src)[1 + 2 * i]);
    FrameLayout(SenderScript(c, src)[2 + 2 * i]);
  }

  lemma {:induction false} ChunksBytes(c: Suite, src: Source, k: nat)
    requires k <= Count(src)
    ensures |EncodeAll(SenderScript(c, src)[..1 + 2 * k])|
         == 45 + |src.name| + 106 * k + Min(|src.file|, CHUNK_SIZE * k)
  {
    hide Lawful; hide SenderScript; hide EncodeAll; hide Encode; hide Piece; hide Reps;
    var ss := SenderScript(c, src);
    if k == 0 {
      HeaderBytes(c, src);
    } else {
      ChunksBytes(c, src, k - 1);
      EncodeAllSplit(ss, 2 * k - 1);
      EncodeAllSplit(ss, 2 * k);
      ChunkBytes(c, src, k - 1);
      PieceBytes(src.file, k - 1);
    }
  }

  lemma HeaderBytes(c: Suite, src: Source)
    ensures |EncodeAll(SenderScript(c, src)[..1])| == 45 + |src.name|
  {
    hide Lawful; hide Encode; hide Reps;
    var ss := SenderScript(c, src);
    SenderScriptSized(c, src);
    FrameLayout(ss[0]);
    EncodeAllSplit(ss, 0);
    assert ss[..0] == [];
  }

  /** A whole transfer of n chunks takes 78 + |name| + 106n bytes and those of the file, or just the header. */
  lemma {:induction false} SenderBytes(c: Suite, src: Source)
    ensures var (n, total) := (Count(src) as nat, |EncodeAll(SenderScript(c, src))|);
            total == if n == 0 then 45 + |src.name| else 78 + |src.name| + 106 * n + Min(|src.file|, 32768 * n)
  {
    hide Lawful; hide SenderScript; hide EncodeAll; hide Encode; hide Reps;
    var (ss, n) := (SenderScript(c, src), Count(src) as nat);
    ChunksBytes(c, src, n);
    if n == 0 {
      assert ss[..1] == ss;
    } else {
      SenderLines(c, src, n - 1);
      SenderScriptSized(c, src);
      FrameLayout(ss[2 * n + 1]);
      EncodeAllSplit(ss, 2 * n + 1);
      assert ss[..2 * n + 2] == ss;
    }
  }

  lemma FinishedMeans(c: Suite, src: Source, s: Snapshot, received: bytes)
    requires Inv(c, src, s, received) && s.state == Finished
    ensures s.output == EncodeAll(SenderScript(c, src)) && EncodeAll(ReceiverScript(Count(src))) <= received
  {
    hide SenderScript; hide ReceiverScript; hide Lawful; hide Leaves; hide SentChunk; hide SentChunks;
    hide EncodeAll;
    var (ss, rs) := (SenderScript(c, src), ReceiverScript(Count(src)));
    assert rs[..|rs|] == rs && ss[..|ss|] == ss;
  }

  /**
   The exact acceptor: with working local I/O the sender finishes if and only if its input begins
   with the receiver's script, which for n > 0 chunks is 10n + 1 bytes long; and it has then sent
   its whole script.
   */
  lemma {:induction false} FinishesIffScript(c: Suite, src: Source, input: bytes, io: nat -> Io)
    requires Works(io)
    ensures var (n, script) := (Count(src) as nat, EncodeAll(ReceiverScript(Count(src))));
            var s := After(c, src, input, io, 4 * n + 3);
            && (s.state == Finished <==> script <= input)
            && (s.state == Finished ==> s.output == EncodeAll(SenderScript(c, src)))
            && |script| == if n == 0 then 0 else 10 * n + 1
  {
    hide SenderScript; hide ReceiverScript; hide Lawful; hide Inv; hide Round; hide EncodeAll; hide RunFor;
    hide Released;
    var k := 4 * Count(src) as nat + 3;
    var s := After(c, src, input, io, k);
    RunIsGood(c, src, input, io, k);
    Terminates(c, src, input, io, k);
    if s.state == Finished {
      FinishedMeans(c, src, s, input);
    } else if EncodeAll(ReceiverScript(Count(src))) <= input {
      NeverFails(c, src, input, io, k);
    }
    ScriptLength(Count(src));
  }
}
