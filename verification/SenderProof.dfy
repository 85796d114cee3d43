/** The sender against an arbitrary peer: any input bytes, any local failures, at any time. */
module SenderProof {
  import opened Bytes
  import opened Crypto
  import opened Merkle
  import opened Partition
  import opened Protocol
  import opened Wire
  import opened Controllers
  import opened Scripts

  function Start(src: Source, input: bytes): Snapshot {
    SenderStart(src.file, src.name, src.fileID, input)
  }

  /**
   A sender short of an error: its output is an exact prefix of its script, what it has read is
   an exact prefix of the receiver's, and both lengths follow from the state and the counter.
   */
  ghost predicate Inv(c: Suite, src: Source, s: Snapshot, received: bytes) {
    && Fields(c, src, s)
    && s.output == EncodeAll(SenderScript(c, src)[..Sent(Sender, s)])
    && received == EncodeAll(ReceiverScript(Count(src))[..Taken(Sender, s)]) + s.input
  }

  ghost predicate Fields(c: Suite, src: Source, s: Snapshot) {
    && (HasStep(Sender, s.state) || s.state == Finished)
    && CounterOk(s)
    && s.fileID == src.fileID && s.fileName == src.name && s.fileSize == Truncate32(|src.file|)
    && s.totalChunks == Count(src) && s.file == src.file
    && (s.midStep ==> s.state == VerifyMerkle)
    && Done(s) <= Count(src) && s.leaves == Leaves(c, SentChunks(c, src, Done(s)))
    && s.pending == (if s.state == WaitingLotteryTicket || s.state == SendKeyReveal
                     then Some(SentChunk(c, src, s.currentChunk)) else None)
    && Sent(Sender, s) <= |SenderScript(c, src)|
    && Taken(Sender, s) <= |ReceiverScript(Count(src))|
  }

  /**
   The key-release discipline, on the bytes alone: not one byte of the sender's message j is out
   before the receiver's first j messages are in (the closing root waits for all but the ack).
   */
  ghost predicate Released(c: Suite, src: Source, output: bytes, received: bytes) {
    && output <= EncodeAll(SenderScript(c, src))
    && forall j: nat :: j < |ReceiverScript(Count(src))| && j < |SenderScript(c, src)|
         && |output| > |EncodeAll(SenderScript(c, src)[..j])|
         ==> EncodeAll(ReceiverScript(Count(src))[..j]) <= received
  }

  lemma ReleasedAt(c: Suite, src: Source, output: bytes, received: bytes, sent: nat, taken: nat)
    requires sent <= |SenderScript(c, src)| && taken <= |ReceiverScript(Count(src))|
    requires output <= EncodeAll(SenderScript(c, src)[..sent])
    requires EncodeAll(ReceiverScript(Count(src))[..taken]) <= received
    requires sent > 0 ==> Min(sent - 1, 2 * Count(src) as nat) <= taken
    ensures Released(c, src, output, received)
  {
    hide EncodeAll; hide SenderScript; hide ReceiverScript;
    var (ss, rs) := (SenderScript(c, src), ReceiverScript(Count(src)));
    EncodeAllPrefix(ss, sent, |ss|);
    assert ss[..|ss|] == ss;
    forall j: nat | j < |rs| && j < |ss| && |output| > |EncodeAll(ss[..j])|
      ensures EncodeAll(rs[..j]) <= received
    {
      if sent <= j {
        EncodeAllPrefix(ss, sent, j);
      }
      EncodeAllPrefix(rs, j, taken);
    }
  }

  // ---------- one action ----------

  /** After an action: still on script, or failed with no more released than the discipline allows. */
  ghost predicate Good(c: Suite, src: Source, s: Snapshot, received: bytes) {
    if s.state == Error then Released(c, src, s.output, received) else Inv(c, src, s, received)
  }

  /**
   What a step may return: only transitions that the table allows, into a session on script; an
   error within the discipline; never a crash.
   */
  ghost predicate GoodResult(c: Suite, src: Source, s: Snapshot, received: bytes, r: StepResult) {
    match r
    case Next(s', next) => IsAllowed(s.state, next) && next != Error && Inv(c, src, s'.(state := next), received)
    case Continue(s') => Inv(c, src, s', received)
    case Fail(s') => Released(c, src, s'.output, received)
    case Wait => Released(c, src, s.output, received)
    case Crash => false
  }

  lemma InvReleases(c: Suite, src: Source, s: Snapshot, received: bytes)
    requires Inv(c, src, s, received)
    ensures Released(c, src, s.output, received)
  {
    hide EncodeAll; hide SenderScript; hide ReceiverScript; hide SentChunk; hide SentChunks; hide Leaves; hide Reps;
    ReleasedAt(c, src, s.output, received, Sent(Sender, s), Taken(Sender, s));
  }

  /** A step that writes the next line of the script. */
  lemma AfterWrite(c: Suite, src: Source, s: Snapshot, received: bytes, m: Message, io: Io)
    requires Inv(c, src, s, received)
    requires Sent(Sender, s) < |SenderScript(c, src)| && m == SenderScript(c, src)[Sent(Sender, s)]
    requires Min(Sent(Sender, s), 2 * Count(src) as nat) <= Taken(Sender, s)
    ensures var output := s.output + Written(Encode(m), io);
            && Released(c, src, output, received)
            && (io.Fine? ==> output == EncodeAll(SenderScript(c, src)[..Sent(Sender, s) + 1]))
  {
    hide Encode; hide EncodeAll; hide KeyFor; hide NonceFor; hide Hash; hide Lawful; hide SizedSecrets;
    hide SenderScript; hide ReceiverScript; hide SentChunk; hide SentChunks; hide Leaves; hide Reps; hide Written;
    WriteLine(SenderScript(c, src), Sent(Sender, s), s.output, io);
    ReleasedAt(c, src, s.output + Written(Encode(m), io), received, Sent(Sender, s) + 1, Taken(Sender, s));
  }

  /** A step that reads the next line of the receiver's script. */
  lemma AfterRead(c: Suite, src: Source, s: Snapshot, received: bytes, k: Kind)
    requires Inv(c, src, s, received) && Decode(k, s.input).Got?
    requires Taken(Sender, s) < |ReceiverScript(Count(src))|
    requires Decode(k, s.input).value == ReceiverScript(Count(src))[Taken(Sender, s)]
    ensures received == EncodeAll(ReceiverScript(Count(src))[..Taken(Sender, s) + 1]) + Decode(k, s.input).rest
  {
    hide Encode; hide EncodeAll; hide SenderScript; hide ReceiverScript; hide SentChunk; hide Leaves; hide Decode;
    hide Lawful;
    DecodeExact(k, s.input);
    ReadLine(ReceiverScript(Count(src)), Taken(Sender, s), received, s.input, Decode(k, s.input).rest);
  }

  lemma StepSendHeader(c: Suite, src: Source, s: Snapshot, received: bytes, io: Io)
    requires Inv(c, src, s, received) && s.state == SendHeader
    ensures GoodResult(c, src, s, received, SenderStep(c, src.sec, s, io))
  {
    hide Encode; hide EncodeAll; hide KeyFor; hide NonceFor; hide Hash; hide Lawful; hide SizedSecrets;
    hide ReceiverScript; hide SentChunk; hide SentChunks; hide Leaves; hide Reps; hide Written; hide Released;
    AfterWrite(c, src, s, received, HeaderOf(s), io);
  }

  lemma StepSendChunkResponse(c: Suite, src: Source, s: Snapshot, received: bytes, io: Io)
    requires Inv(c, src, s, received) && s.state == SendChunkResponse
    ensures GoodResult(c, src, s, received, SenderStep(c, src.sec, s, io))
  {
    hide Encode; hide EncodeAll; hide KeyFor; hide NonceFor; hide Hash; hide Lawful; hide SizedSecrets;
    hide SenderScript; hide ReceiverScript; hide BuildChunk; hide SentChunks; hide Leaves; hide Reps; hide Written;
    hide Released; hide Piece;
    var ch := SentChunk(c, src, s.currentChunk);
    SenderLines(c, src, s.currentChunk);
    AfterWrite(c, src, s, received, Response(s.currentChunk, ch.ciphertext, ch.nonce, ch.hresp), io);
  }

  lemma Confirm(c: Suite, src: Source, s: Snapshot, received: bytes, output: bytes)
    requires Inv(c, src, s, received) && s.state == SendKeyReveal
    requires output == EncodeAll(SenderScript(c, src)[..Sent(Sender, s) + 1])
    ensures var leaf := LeafOf(c, SentChunk(c, src, s.currentChunk));
            GoodResult(c, src, s, received,
                       ConfirmChunk(s.(output := output, leaves := s.leaves + [leaf]), WaitingChunkRequest))
  {
    hide EncodeAll; hide SenderScript; hide ReceiverScript; hide SentChunk; hide SentChunks; hide Leaves; hide Reps;
    hide Released; hide LeafOf; hide Lawful; hide SizedSecrets;
    SentChunksSnoc(c, src, s.currentChunk);
    var s' := s.(output := output, leaves := Leaves(c, SentChunks(c, src, s.currentChunk as nat + 1)), pending := None);
    if IsLastChunk(s) {
      assert Inv(c, src, s'.(state := VerifyMerkle), received);
    } else {
      assert Inv(c, src, s'.(state := WaitingChunkRequest, currentChunk := s.currentChunk + 1), received);
    }
  }

  lemma StepSendKeyReveal(c: Suite, src: Source, s: Snapshot, received: bytes, io: Io)
    requires Inv(c, src, s, received) && s.state == SendKeyReveal
    ensures GoodResult(c, src, s, received, SenderStep(c, src.sec, s, io))
  {
    hide Encode; hide EncodeAll; hide SenderScript; hide ReceiverScript; hide SentChunks; hide Leaves; hide Reps;
    hide Written; hide Released; hide LeafOf; hide Lawful; hide SizedSecrets; hide ConfirmChunk; hide Piece;
    hide Hash; hide KeyFor; hide NonceFor;
    var ch := SentChunk(c, src, s.currentChunk);
    var m := KeyReveal(s.currentChunk, ch.key);
    SenderLines(c, src, s.currentChunk);
    AfterWrite(c, src, s, received, m, io);
    if io.Fine? {
      Confirm(c, src, s, received, s.output + Written(Encode(m), io));
    }
  }

  lemma StepSendRoot(c: Suite, src: Source, s: Snapshot, received: bytes, io: Io)
    requires Inv(c, src, s, received) && s.state == VerifyMerkle && !s.midStep
    ensures GoodResult(c, src, s, received, SenderStep(c, src.sec, s, io))
  {
    hide Encode; hide EncodeAll; hide SenderScript; hide ReceiverScript; hide SentChunk; hide SentChunks;
    hide Leaves; hide Piece; hide BuildChunk; hide ConfirmChunk; hide HeaderOf; hide LeafOf; hide KeyFor;
    hide NonceFor; hide Hash; hide ExpectIndex; hide Reps; hide Written; hide Released; hide Root; hide Decode;
    hide Lawful; hide SizedSecrets;
    SenderLines(c, src, Count(src) - 1);
    AfterWrite(c, src, s, received, RootMsg(Root(c, s.leaves)), io);
  }

  /** What the sender waits for in its reading states. */
  lemma NextIsExpected(c: Suite, src: Source, s: Snapshot)
    requires Fields(c, src, s) && Reading(Sender, s)
    ensures Taken(Sender, s) < |ReceiverScript(Count(src))|
    ensures ReceiverScript(Count(src))[Taken(Sender, s)]
         == match s.state
            case WaitingChunkRequest => Request(s.currentChunk)
            case WaitingLotteryTicket => Ticket(s.currentChunk)
            case _ => FinalAck
  {
    hide SenderScript; hide ReceiverScript; hide SentChunk; hide Leaves; hide Lawful;
    ReceiverLines(Count(src), s.currentChunk);
  }

  /** Taking the next line of the receiver's script keeps the invariant. */
  lemma LineRead(c: Suite, src: Source, s: Snapshot, received: bytes, rest: bytes, next: State)
    requires Inv(c, src, s, received) && Taken(Sender, s) < |ReceiverScript(Count(src))|
    requires received == EncodeAll(ReceiverScript(Count(src))[..Taken(Sender, s) + 1]) + rest
    requires match s.state
             case WaitingChunkRequest => next == SendChunkResponse
             case WaitingLotteryTicket => next == SendKeyReveal
             case VerifyMerkle => s.midStep && next == Finished
             case _ => false
    ensures IsAllowed(s.state, next) && Inv(c, src, s.(input := rest, midStep := false, state := next), received)
    ensures s.state != VerifyMerkle ==> !s.midStep
  {
    hide EncodeAll; hide SenderScript; hide ReceiverScript; hide SentChunk; hide SentChunks; hide Leaves; hide Reps;
  }

  lemma StepAwaitAck(c: Suite, src: Source, s: Snapshot, received: bytes, io: Io)
    requires Inv(c, src, s, received) && s.state == VerifyMerkle && s.midStep
    ensures GoodResult(c, src, s, received, SenderStep(c, src.sec, s, io))
  {
    hide ReceiverScript; hide Released; hide Decode; hide Lawful; hide Fields; hide IsAllowed; hide EncodeAll;
    hide Root; hide Taken;
    InvReleases(c, src, s, received);
    if Decode(AckKind, s.input).Got? {
      AckIsAck(s.input);
      NextIsExpected(c, src, s);
      AfterRead(c, src, s, received, AckKind);
      LineRead(c, src, s, received, Decode(AckKind, s.input).rest, Finished);
    }
  }

  /** The two steps that wait for the receiver to name the current chunk. */
  lemma StepExpectIndex(c: Suite, src: Source, s: Snapshot, received: bytes, io: Io)
    requires Inv(c, src, s, received) && (s.state == WaitingChunkRequest || s.state == WaitingLotteryTicket)
    ensures GoodResult(c, src, s, received, SenderStep(c, src.sec, s, io))
  {
    hide ReceiverScript; hide Released; hide Decode; hide Lawful; hide Fields; hide IsAllowed; hide EncodeAll;
    hide Taken; hide Encode;
    var (k, next) := if s.state == WaitingChunkRequest then (RequestKind, SendChunkResponse)
                     else (TicketKind, SendKeyReveal);
    InvReleases(c, src, s, received);
    var r := Decode(k, s.input);
    if r.Got? {
      DecodeExact(k, s.input);
      NextIsExpected(c, src, s);
      if r.value.index == s.currentChunk {
        AfterRead(c, src, s, received, k);
        LineRead(c, src, s, received, r.rest, next);
      }
    }
  }

  lemma StepIdle(c: Suite, src: Source, s: Snapshot, received: bytes, io: Io)
    requires Inv(c, src, s, received) && s.state == Idle
    ensures GoodResult(c, src, s, received, SenderStep(c, src.sec, s, io))
  {
    hide EncodeAll; hide SenderScript; hide ReceiverScript; hide SentChunk; hide SentChunks; hide Leaves;
    hide Lawful;
  }

  lemma StepIsGood(c: Suite, src: Source, s: Snapshot, received: bytes, io: Io)
    requires Inv(c, src, s, received) && !Terminal(s)
    ensures HasStep(Sender, s.state) && GoodResult(c, src, s, received, SenderStep(c, src.sec, s, io))
  {
    hide SenderStep; hide GoodResult; hide Lawful;
    match s.state
    case Idle => StepIdle(c, src, s, received, io);
    case SendHeader => StepSendHeader(c, src, s, received, io);
    case WaitingChunkRequest => StepExpectIndex(c, src, s, received, io);
    case SendChunkResponse => StepSendChunkResponse(c, src, s, received, io);
    case WaitingLotteryTicket => StepExpectIndex(c, src, s, received, io);
    case SendKeyReveal => StepSendKeyReveal(c, src, s, received, io);
    case VerifyMerkle =>
      if s.midStep {
        StepAwaitAck(c, src, s, received, io);
      } else {
        StepSendRoot(c, src, s, received, io);
      }
  }

  /** Every action of the sender keeps the invariant, or fails within the discipline. */
  lemma {:induction false} ActKeepsInv(c: Suite, src: Source, s: Snapshot, received: bytes, io: Io, closed: bool)
    requires Inv(c, src, s, received)
    ensures Good(c, src, Act(c, Sender, src.sec, s, io, closed), received)
  {
    hide SenderStep; hide Released; hide EncodeAll; hide Lawful; hide Leaves; hide SentChunk;
    if !Terminal(s) {
      StepIsGood(c, src, s, received, io);
    }
  }

  // ---------- progress with an agreeable peer ----------

  /**
   While the input agrees with the receiver's script as far as both go and local I/O works, no
   step fails, and a step waits only for the rest of the message it reads.
   */
  lemma {:induction false} Progress(c: Suite, src: Source, s: Snapshot, received: bytes, t: bytes, u: bytes)
    requires Inv(c, src, s, received) && !Terminal(s)
    requires received + t == EncodeAll(ReceiverScript(Count(src))) + u
    ensures var r := SenderStep(c, src.sec, s, Fine);
            && !r.Fail? && !r.Crash?
            && (r.Wait? ==> Reading(Sender, s) && Incomplete(ReceiverScript(Count(src)), Taken(Sender, s), received))
  {
    hide Encode; hide EncodeAll; hide SenderScript; hide ReceiverScript; hide SentChunk; hide SentChunks;
    hide Leaves; hide Reps; hide Written; hide Root; hide Decode; hide Lawful; hide SizedSecrets; hide LeafOf;
    hide BuildChunk; hide Piece; hide KeyFor; hide NonceFor;
    if Reading(Sender, s) {
      NextIsExpected(c, src, s);
      NextLine(ReceiverScript(Count(src)), Taken(Sender, s), received, s.input, t, u);
    }
  }
}
