/** Whole runs of the receiver, on every input and with every pattern of local failures. */
module ReceiverRun {
  import opened Bytes
  import opened Crypto
  import opened Merkle
  import opened Protocol
  import opened Wire
  import opened Controllers
  import opened Scripts
  import opened ReceiverProof

  function After(c: Suite, sec: Secrets, input: bytes, io: nat -> Io, k: nat): Snapshot {
    RunFor(c, Receiver, sec, ReceiverStart(input), io, k)
  }

  lemma StartInv(c: Suite, input: bytes)
    ensures Inv(c, ReceiverStart(input), [], input)
  {
    hide Lawful;
    var none: seq<Message> := [];
    assert none[..0] == [];
  }

  lemma {:induction false} RunStep(c: Suite, sec: Secrets, input: bytes, io: nat -> Io, k: nat)
    requires k > 0
    ensures var s := After(c, sec, input, io, k - 1);
            && After(c, sec, input, io, k) == Round(c, Receiver, sec, s, io(k - 1))
            && (Terminal(s) ==> After(c, sec, input, io, k) == s)
  {
    hide WholeStep; hide Lawful;
  }

  /** One action, with the message it takes added to the transcript. */
  lemma ActTranscript(c: Suite, sec: Secrets, s: Snapshot, told: seq<Message>, received: bytes, io: Io)
    returns (told': seq<Message>)
    requires Inv(c, s, told, received)
    ensures Good(c, Act(c, Receiver, sec, s, io, true), told', received)
  {
    hide Act; hide Inv; hide Agrees; hide Foretold; hide Explains; hide Lawful;
    InvTaken(c, s, told, received);
    ForetoldAgrees(c, s, told, received);
    ActKeepsInv(c, sec, s, Foretold(s, told), received, io, true);
    told' := Kept(s, Act(c, Receiver, sec, s, io, true), Foretold(s, told));
  }

  lemma RoundTranscript(c: Suite, sec: Secrets, s: Snapshot, told: seq<Message>, received: bytes, io: Io)
    returns (told': seq<Message>)
    requires Inv(c, s, told, received) && !s.midStep
    ensures Good(c, Round(c, Receiver, sec, s, io), told', received)
  {
    hide Act; hide Round; hide Inv; hide Explains; hide Lawful;
    RoundIsActs(c, Receiver, sec, s, io);
    told' := ActTranscript(c, sec, s, told, received, io);
    var s1 := Act(c, Receiver, sec, s, io, true);
    if s1.midStep {
      if s1.state == Error {
        ErrorStays(c, sec, s1, io);
      } else {
        told' := ActTranscript(c, sec, s1, told', received, io);
      }
    }
  }

  lemma ErrorStays(c: Suite, sec: Secrets, s: Snapshot, io: Io)
    requires s.state == Error
    ensures Act(c, Receiver, sec, s, io, true) == s
  {
  }

  /** The state of play after k rounds: a session explained by messages that it was sent. */
  lemma {:induction false} RunTranscript(c: Suite, sec: Secrets, input: bytes, io: nat -> Io, k: nat)
    returns (told: seq<Message>)
    ensures var s := After(c, sec, input, io, k);
            && Good(c, s, told, input)
            && !s.midStep
            && (!Terminal(s) ==> RoundsDone(Receiver, s) == k)
            && (s.state == Finished ==> RoundsDone(Receiver, s) <= k)
  {
    hide Round; hide Lawful; hide Inv; hide RoundsDone; hide Explains;
    if k == 0 {
      StartInv(c, input);
      StartCount(input);
      told := [];
    } else {
      told := RunTranscript(c, sec, input, io, k - 1);
      var s := After(c, sec, input, io, k - 1);
      RunStep(c, sec, input, io, k);
      if !Terminal(s) {
        RoundHead(c, Receiver, sec, s, io(k - 1));
        InvBasics(c, s, told, input);
        RoundAdvances(c, Receiver, sec, s, io(k - 1));
        told := RoundTranscript(c, sec, s, told, input, io(k - 1));
      }
    }
  }

  lemma StartCount(input: bytes)
    ensures RoundsDone(Receiver, ReceiverStart(input)) == 0
  {
  }

  lemma InvBasics(c: Suite, s: Snapshot, told: seq<Message>, received: bytes)
    requires Inv(c, s, told, received)
    ensures (HasStep(Receiver, s.state) || s.state == Finished) && CounterOk(s)
  {
  }

  // ---------- theorems ----------

  /**
   Safety on arbitrary input, in every state of every run: short of an error the session is
   explained field by field by messages that the input really contains; after an error its file
   and its output still are.
   */
  lemma {:induction false} Safety(c: Suite, sec: Secrets, input: bytes, io: nat -> Io, k: nat)
    ensures exists told :: Good(c, After(c, sec, input, io, k), told, input)
  {
    hide Good; hide RunFor; hide Lawful;
    var told := RunTranscript(c, sec, input, io, k);
  }

  /**
   The output and the file alone, in every state: no byte of a request, ticket or ack is out
   before the sender's messages that it answers are in, and no byte is in the file that is not
   part of a checked chunk.
   */
  lemma {:induction false} AnswersInOrder(c: Suite, sec: Secrets, input: bytes, io: nat -> Io, k: nat)
    ensures var s := After(c, sec, input, io, k); exists told :: Explains(c, s.file, s.output, told, input)
  {
    hide Inv; hide Explains; hide RunFor; hide Lawful;
    var s := After(c, sec, input, io, k);
    var told := RunTranscript(c, sec, input, io, k);
    if s.state != Error {
      InvTaken(c, s, told, input);
      InvExplains(c, s, told, input);
    }
  }

  /** The plaintexts in a file, each checked: the last of them only in part if writing it broke. */
  ghost predicate CheckedFile(c: Suite, file: bytes, chs: seq<ChunkData>) {
    && AllChecked(c, chs)
    && (|| file == Plaintexts(chs)
        || (|chs| > 0 && Plaintexts(chs[..|chs| - 1]) <= file <= Plaintexts(chs)))
  }

  /**
   The file, in every state: the concatenation, in index order, of plaintexts that opened under a
   revealed key and matched the commitment made before. Short of an error all of them are there
   in full, each with its leaf, and of the file announced; after one the last may be cut short.
   */
  lemma {:induction false} FileIsChecked(c: Suite, sec: Secrets, input: bytes, io: nat -> Io, k: nat)
    ensures var s := After(c, sec, input, io, k);
            exists chs: seq<ChunkData> ::
              && CheckedFile(c, s.file, chs)
              && (s.state != Error ==> s.file == Plaintexts(chs) && s.leaves == Leaves(c, chs) && |chs| == Done(s))
              && (s.state != Error ==> OfFile(chs, s.fileID))
  {
    hide Inv; hide RunFor; hide Lawful; hide CheckedFile; hide Leaves; hide Plaintexts; hide FileAt; hide Talk;
    hide Answered;
    var s := After(c, sec, input, io, k);
    var told := RunTranscript(c, sec, input, io, k);
    if s.state != Error {
      var chs := SessionChunks(c, s, told, input);
    } else {
      var d: nat :| FileAt(c, told, s.file, d);
      var chs := FileChunks(c, s.file, told, d);
    }
  }

  ghost predicate AllChecked(c: Suite, chs: seq<ChunkData>) {
    forall i :: 0 <= i < |chs| ==> Accepted(c, chs[i]) && chs[i].index == i
  }

  ghost predicate OfFile(chs: seq<ChunkData>, fileID: bytes) {
    forall i :: 0 <= i < |chs| ==> chs[i].fileID == fileID
  }

  lemma CheckedChunks(c: Suite, told: seq<Message>, d: nat)
    requires GoodPairs(c, told, d)
    ensures AllChecked(c, ChunksOf(c, told, d))
    ensures |told| > 0 && told[0].Header? ==> OfFile(ChunksOf(c, told, d), told[0].fileID)
  {
    hide Lawful; hide Accepted; hide ChunksOf; hide Unseal;
    var chs := ChunksOf(c, told, d);
    forall i | 0 <= i < d
      ensures Accepted(c, chs[i]) && chs[i].index == i
      ensures |told| > 0 && told[0].Header? ==> chs[i].fileID == told[0].fileID
    {
      ChunksOfAt(c, told, d, i);
      assert PairAt(told, i);
    }
  }

  lemma FileChunks(c: Suite, file: bytes, told: seq<Message>, d: nat) returns (chs: seq<ChunkData>)
    requires FileAt(c, told, file, d)
    ensures CheckedFile(c, file, chs)
  {
    hide Lawful; hide Accepted; hide Plaintexts; hide GoodPairs; hide ChunkAt; hide PairAt;
    if file == Plaintexts(ChunksOf(c, told, d)) {
      CheckedChunks(c, told, d);
      chs := ChunksOf(c, told, d);
    } else {
      CheckedChunks(c, told, d + 1);
      chs := ChunksOf(c, told, d + 1);
      assert chs[..d] == ChunksOf(c, told, d);
    }
  }

  lemma SessionChunks(c: Suite, s: Snapshot, told: seq<Message>, received: bytes) returns (chs: seq<ChunkData>)
    requires Inv(c, s, told, received)
    ensures CheckedFile(c, s.file, chs)
    ensures s.file == Plaintexts(chs) && s.leaves == Leaves(c, chs) && |chs| == Done(s)
    ensures OfFile(chs, s.fileID)
  {
    hide EncodeAll; hide ReceiverScript; hide Lawful; hide Accepted; hide AllWellSized; hide ChunksOf;
    hide PendingOk; hide RootOk; hide GoodPairs;
    chs := [];
    if s.state != Idle && s.state != ReceiveHeader {
      CheckedChunks(c, told, Done(s));
      chs := ChunksOf(c, told, Done(s));
    }
  }

  /** What Safety gives for the session fields: see SenderRun.SessionInvariant. */
  lemma {:induction false} SessionInvariant(c: Suite, sec: Secrets, input: bytes, io: nat -> Io, k: nat)
    ensures var s := After(c, sec, input, io, k);
            s.state != Error ==>
              && (HasStep(Receiver, s.state) || s.state == Finished)
              && (!Terminal(s) ==> var r := WholeStep(c, Receiver, sec, s, io(k));
                                   !r.Crash? && (r.Next? ==> IsAllowed(s.state, r.next)))
              && (s.pending.Some? <==>
                  s.state == SendLotteryTicket || s.state == WaitingKeyReveal || s.state == VerifyChunk)
              && |s.leaves| == Done(s)
              && (s.state == VerifyMerkle ==> |s.leaves| == s.totalChunks > 0)
              && s.currentChunk as nat + 1 < U32_LIMIT
  {
    hide Lawful; hide EncodeAll; hide ReceiverScript; hide Leaves; hide ReceiverStep; hide RunFor; hide ChunksOf;
    hide GoodPairs; hide Plaintexts; hide AllWellSized; hide WholeStep;
    var s := After(c, sec, input, io, k);
    var told := RunTranscript(c, sec, input, io, k);
    if s.state != Error && !Terminal(s) {
      WholeStepLegal(c, sec, s, told, input, io(k));
    }
  }

  lemma WholeStepLegal(c: Suite, sec: Secrets, s: Snapshot, told: seq<Message>, received: bytes, io: Io)
    requires Inv(c, s, told, received) && !Terminal(s) && !s.midStep
    ensures var r := WholeStep(c, Receiver, sec, s, io); !r.Crash? && (r.Next? ==> IsAllowed(s.state, r.next))
  {
    hide Inv; hide ReceiverStep; hide Lawful; hide Agrees; hide Foretold;
    InvTaken(c, s, told, received);
    ForetoldAgrees(c, s, told, received);
    var told1 := Foretold(s, told);
    StepIsGood(c, s, told1, received, io);
    StepHalves(c, Receiver, sec, s, io);
    var r := ReceiverStep(c, s, io);
    if r.Continue? {
      InvTaken(c, r.s, told1, received);
      ForetoldAgrees(c, r.s, told1, received);
      StepIsGood(c, r.s, Foretold(r.s, told1), received, io);
    }
  }

  /**
   Run ends: a receiver still running after k rounds has learnt of a chunk count n with
   k <= 5n + 2. So it makes at most 5n + 3 rounds, 2 if n = 0, whatever n the header names.
   */
  lemma {:induction false} Terminates(c: Suite, sec: Secrets, input: bytes, io: nat -> Io, k: nat)
    ensures var s := After(c, sec, input, io, k);
            && (!Terminal(s) ==> k < if s.totalChunks == 0 then 2 else 5 * s.totalChunks as nat + 3)
            && (k >= 5 * U32_LIMIT ==> Terminal(s))
  {
    hide Lawful; hide RunFor; hide EncodeAll; hide Leaves; hide Plaintexts; hide ChunksOf; hide GoodPairs;
    hide ReceiverScript; hide AllWellSized;
    var told := RunTranscript(c, sec, input, io, k);
  }

  /** The file that a valid transcript stands for. */
  ghost function FileOf(c: Suite, told: seq<Message>): bytes
    requires ValidTranscript(c, told)
  {
    Plaintexts(ChunksOf(c, told, told[0].reps))
  }

  /** A finished receiver was given a valid transcript and holds exactly its file. */
  lemma {:induction false} FinishedMeans(c: Suite, s: Snapshot, told: seq<Message>, received: bytes)
    requires Inv(c, s, told, received) && s.state == Finished
    ensures var valid := told[..Taken(Receiver, s)];
            && ValidTranscript(c, valid) && EncodeAll(valid) <= received && s.file == FileOf(c, valid)
            && s.fileID == valid[0].fileID && s.fileName == valid[0].name && s.totalChunks == valid[0].reps
            && s.leaves == Leaves(c, ChunksOf(c, valid, valid[0].reps))
            && s.output == EncodeAll(ReceiverScript(valid[0].reps))
  {
    hide EncodeAll; hide ReceiverScript; hide Leaves; hide Plaintexts; hide Lawful; hide Root; hide WellSized;
    hide ChunksOf; hide GoodPairs;
    var valid := told[..Taken(Receiver, s)];
    var rs := ReceiverScript(s.totalChunks);
    assert valid[..Taken(Receiver, s)] == valid && rs[..|rs|] == rs;
    InvDependsOnPrefix(c, s, told, valid, received);
  }

  /** On input that begins with a valid transcript, with working local I/O, the run follows it. */
  lemma {:induction false} RunOnTranscript(
    c: Suite, sec: Secrets, input: bytes, io: nat -> Io, told: seq<Message>, k: nat)
    requires Works(io) && ValidTranscript(c, told) && EncodeAll(told) <= input
    ensures var s := After(c, sec, input, io, k);
            s.state != Error && Inv(c, s, told, input) && !s.midStep
  {
    hide Round; hide Lawful; hide Inv; hide EncodeAll; hide ValidTranscript;
    if k == 0 {
      StartInv(c, input);
      InvDependsOnPrefix(c, ReceiverStart(input), [], told, input);
    } else {
      RunOnTranscript(c, sec, input, io, told, k - 1);
      var s := After(c, sec, input, io, k - 1);
      RunStep(c, sec, input, io, k);
      if !Terminal(s) {
        RoundOnTranscript(c, sec, s, told, input);
        RoundHead(c, Receiver, sec, s, Fine);
      }
    }
  }

  lemma StepOnTranscript(c: Suite, sec: Secrets, s: Snapshot, told: seq<Message>, received: bytes)
    requires ValidTranscript(c, told) && EncodeAll(told) <= received && Inv(c, s, told, received) && !Terminal(s)
    ensures var r := ReceiverStep(c, s, Fine);
            && HasStep(Receiver, s.state) && (r.Next? || r.Continue?) && GoodResult(c, s, told, received, r)
  {
    hide EncodeAll; hide Lawful; hide ReceiverStep; hide Agrees; hide Fields; hide AllWellSized;
    hide ReceiverScript;
    Progress(c, s, told, received, [], received[|EncodeAll(told)|..]);
    StepIsGood(c, s, told, received, Fine);
    if Reading(Receiver, s) {
      NextIsExpected(c, s, told, received);
      EncodeAllPrefix(told, Taken(Receiver, s) + 1, |told|);
      assert told[..|told|] == told;
    }
  }

  lemma RoundOnTranscript(c: Suite, sec: Secrets, s: Snapshot, told: seq<Message>, received: bytes)
    requires ValidTranscript(c, told) && EncodeAll(told) <= received
    requires Inv(c, s, told, received) && !Terminal(s) && !s.midStep
    ensures var s' := Round(c, Receiver, sec, s, Fine); s'.state != Error && Inv(c, s', told, received)
  {
    hide EncodeAll; hide Lawful; hide ReceiverStep; hide Inv; hide ValidTranscript;
    StepOnTranscript(c, sec, s, told, received);
    StepHalves(c, Receiver, sec, s, Fine);
    var r := ReceiverStep(c, s, Fine);
    if r.Continue? {
      StepHalves(c, Receiver, sec, r.s, Fine);
      StepOnTranscript(c, sec, r.s, told, received);
    }
  }

  /** A valid transcript makes the receiver finish, after at most 5n + 3 rounds, with the transcript's file. */
  lemma {:induction false} TranscriptFinishes(c: Suite, sec: Secrets, input: bytes, io: nat -> Io, told: seq<Message>)
    requires Works(io) && ValidTranscript(c, told) && EncodeAll(told) <= input
    ensures var s := After(c, sec, input, io, 5 * told[0].reps as nat + 3);
            s.state == Finished && s.file == FileOf(c, told) && s.output == EncodeAll(ReceiverScript(told[0].reps))
  {
    hide EncodeAll; hide Lawful; hide RunFor; hide Leaves; hide Plaintexts; hide ChunksOf; hide GoodPairs;
    hide ReceiverScript; hide AllWellSized; hide Root;
    var k := 5 * told[0].reps as nat + 3;
    var s := After(c, sec, input, io, k);
    RunOnTranscript(c, sec, input, io, told, k);
    Terminates(c, sec, input, io, k);
    assert s.state != Error && (s.state == Idle || s.state == ReceiveHeader || s.totalChunks == told[0].reps);
    var rs := ReceiverScript(s.totalChunks);
    assert rs[..|rs|] == rs;
  }

  /**
   The exact acceptor: with working local I/O the receiver finishes if and only if its input
   begins with a valid transcript.
   */
  lemma {:induction false} FinishesIffTranscript(c: Suite, sec: Secrets, input: bytes, io: nat -> Io)
    requires Works(io)
    ensures (exists k: nat :: After(c, sec, input, io, k).state == Finished)
            <==> (exists told :: ValidTranscript(c, told) && EncodeAll(told) <= input)
  {
    hide EncodeAll; hide Lawful; hide RunFor; hide ValidTranscript; hide Inv; hide Leaves; hide ChunksOf;
    hide ReceiverScript;
    if k: nat :| After(c, sec, input, io, k).state == Finished {
      var told := RunTranscript(c, sec, input, io, k);
      var s := After(c, sec, input, io, k);
      InvTaken(c, s, told, input);
      FinishedMeans(c, s, told, input);
    }
    if told :| ValidTranscript(c, told) && EncodeAll(told) <= input {
      HasHeader(c, told);
      TranscriptFinishes(c, sec, input, io, told);
    }
  }

  lemma HasHeader(c: Suite, told: seq<Message>)
    requires ValidTranscript(c, told)
    ensures |told| > 0 && told[0].Header?
  {
  }
}
