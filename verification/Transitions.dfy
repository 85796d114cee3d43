/** The transition table of Protocol/session.go against the step functions of Controllers/controllers.go. */
module Transitions {
  import opened Bytes
  import opened Crypto
  import opened Merkle
  import opened Partition
  import opened Protocol
  import opened Wire
  import opened Controllers

  /** The step of `role` takes the session s from state a to state b. */
  ghost predicate Makes(c: Suite, role: Role, sec: Secrets, s: Snapshot, io: Io, a: State, b: State) {
    s.state == a && var r := WholeStep(c, role, sec, s, io); r.Next? && r.next == b
  }

  // ---------- no step leaves the table ----------

  lemma SenderStays(c: Suite, sec: Secrets, s: Snapshot, io: Io)
    ensures var r := SenderStep(c, sec, s, io);
            (r.Next? ==> IsAllowed(s.state, r.next)) && (r.Continue? ==> r.s.state == s.state)
  {
    hide Lawful; hide Encode; hide Decode; hide Root; hide LeafOf; hide Piece; hide Written; hide BuildChunk;
    hide KeyFor; hide NonceFor; hide HeaderOf;
  }

  lemma ReceiverStays(c: Suite, s: Snapshot, io: Io)
    ensures var r := ReceiverStep(c, s, io);
            (r.Next? ==> IsAllowed(s.state, r.next)) && (r.Continue? ==> r.s.state == s.state)
  {
    hide Lawful; hide Encode; hide Decode; hide Root; hide LeafOf; hide Written; hide Unseal; hide Hash;
    hide CommitInput; hide ReceivedChunk;
  }

  lemma StepStays(c: Suite, role: Role, sec: Secrets, s: Snapshot, io: Io)
    ensures var r := WholeStep(c, role, sec, s, io); r.Next? ==> IsAllowed(s.state, r.next)
  {
    hide Lawful; hide SenderStep; hide ReceiverStep; hide IsAllowed;
    SenderStays(c, sec, s, io);
    ReceiverStays(c, s, io);
    var r := Step(c, role, sec, s, io);
    if r.Continue? {
      SenderStays(c, sec, r.s, io);
      ReceiverStays(c, r.s, io);
    }
  }

  // ---------- every entry of the table is used ----------

  /** A session in state st at the first of n chunks, with some input and perhaps a chunk. */
  function At(st: State, n: u32, pending: Option<ChunkData>, input: bytes): Snapshot {
    Snapshot(st, [], [], 0, 0, n, [], pending, [], input, [], false)
  }

  function SomeChunk(c: Suite): ChunkData {
    BuildChunk(c, [], 0, [], Zeros(KEY_SIZE), Zeros(NONCE_SIZE))
  }

  lemma Read(m: Message)
    requires WellSized(m)
    ensures Decode(KindOf(m), Encode(m)) == Got(m, [])
  {
    hide Encode; hide Decode;
    RoundTrip(m, []);
    assert Encode(m) + [] == Encode(m);
  }

  lemma SenderMakes(c: Suite, sec: Secrets, n: u32)
    ensures Makes(c, Sender, sec, At(Idle, n, None, []), Fine, Idle, SendHeader)
    ensures Makes(c, Sender, sec, At(SendHeader, n, None, []), Fine, SendHeader,
                  if n == 0 then Finished else WaitingChunkRequest)
    ensures Makes(c, Sender, sec, At(SendChunkResponse, n, None, []), Fine, SendChunkResponse, WaitingLotteryTicket)
    ensures n > 0 ==> Makes(c, Sender, sec, At(SendKeyReveal, n, Some(SomeChunk(c)), []), Fine, SendKeyReveal,
                            if n == 1 then VerifyMerkle else WaitingChunkRequest)
  {
    hide Lawful; hide Encode; hide Decode; hide Root; hide LeafOf; hide Piece; hide Written; hide BuildChunk;
    hide KeyFor; hide NonceFor; hide HeaderOf; hide ReceiverStep;
  }

  lemma SenderReads(c: Suite, sec: Secrets)
    ensures Makes(c, Sender, sec, At(WaitingChunkRequest, 1, None, Encode(Request(0))), Fine,
                  WaitingChunkRequest, SendChunkResponse)
    ensures Makes(c, Sender, sec, At(WaitingLotteryTicket, 1, None, Encode(Ticket(0))), Fine,
                  WaitingLotteryTicket, SendKeyReveal)
    ensures Makes(c, Sender, sec, At(VerifyMerkle, 1, None, Encode(FinalAck)), Fine, VerifyMerkle, Finished)
  {
    hide Lawful; hide Encode; hide Decode; hide Root; hide LeafOf; hide Piece; hide Written; hide BuildChunk;
    hide KeyFor; hide NonceFor; hide HeaderOf; hide ReceiverStep; hide ConfirmChunk;
    Read(Request(0));
    Read(Ticket(0));
    Read(FinalAck);
  }

  lemma ReceiverMakes(c: Suite, sec: Secrets, n: u32)
    ensures Makes(c, Receiver, sec, At(Idle, n, None, []), Fine, Idle, ReceiveHeader)
    ensures Makes(c, Receiver, sec, At(SendChunkRequest, n, None, []), Fine, SendChunkRequest, WaitingChunkResponse)
    ensures Makes(c, Receiver, sec, At(SendLotteryTicket, n, None, []), Fine, SendLotteryTicket, WaitingKeyReveal)
    ensures n > 0 ==> Makes(c, Receiver, sec, At(VerifyChunk, n, Some(SomeChunk(c)), []), Fine, VerifyChunk,
                            if n == 1 then VerifyMerkle else SendChunkRequest)
  {
    hide Lawful; hide Encode; hide Decode; hide Root; hide LeafOf; hide Written; hide Seal; hide Unseal; hide Hash;
    hide SenderStep; hide TakeHeader; hide TakeResponse; hide TakeKey; hide Zeros;
    UnsealSeal(c, Zeros(KEY_SIZE), Zeros(NONCE_SIZE), []);
    assert SomeChunk(c).(plaintext := []) == SomeChunk(c);
  }

  lemma ReceiverReads(c: Suite, sec: Secrets, n: u32)
    ensures Makes(c, Receiver, sec, At(ReceiveHeader, 0, None, Encode(Header(n, Zeros(HASH_SIZE), [], 0))), Fine,
                  ReceiveHeader, if n == 0 then Finished else SendChunkRequest)
    ensures Makes(c, Receiver, sec,
                  At(WaitingChunkResponse, 1, None, Encode(Response(0, [], Zeros(NONCE_SIZE), Zeros(HASH_SIZE)))),
                  Fine, WaitingChunkResponse, SendLotteryTicket)
    ensures Makes(c, Receiver, sec, At(WaitingKeyReveal, 1, Some(SomeChunk(c)), Encode(KeyReveal(0, Zeros(KEY_SIZE)))),
                  Fine, WaitingKeyReveal, VerifyChunk)
  {
    hide Lawful; hide Encode; hide Decode; hide Root; hide Written; hide SenderStep; hide Zeros; hide CheckChunk;
    hide BuildChunk; hide ReceivedChunk; hide SendIndex;
    Read(Header(n, Zeros(HASH_SIZE), [], 0));
    Read(Response(0, [], Zeros(NONCE_SIZE), Zeros(HASH_SIZE)));
    Read(KeyReveal(0, Zeros(KEY_SIZE)));
  }

  ghost predicate Used(c: Suite, sec: Secrets, a: State, b: State) {
    exists role, s, io :: Makes(c, role, sec, s, io, a, b)
  }

  lemma AllUsed(c: Suite, sec: Secrets, a: State, b: State)
    requires IsAllowed(a, b)
    ensures Used(c, sec, a, b)
  {
    hide Lawful; hide Makes; hide At; hide SomeChunk; hide Encode; hide Zeros;
    match a
    case Idle =>
      SenderMakes(c, sec, 0);
      ReceiverMakes(c, sec, 0);
    case SendHeader =>
      SenderMakes(c, sec, 0);
      SenderMakes(c, sec, 1);
    case SendChunkResponse => SenderMakes(c, sec, 1);
    case SendKeyReveal =>
      SenderMakes(c, sec, 1);
      SenderMakes(c, sec, 2);
    case ReceiveHeader =>
      ReceiverReads(c, sec, 0);
      ReceiverReads(c, sec, 1);
    case SendChunkRequest => ReceiverMakes(c, sec, 1);
    case SendLotteryTicket => ReceiverMakes(c, sec, 1);
    case WaitingChunkResponse => ReceiverReads(c, sec, 1);
    case WaitingKeyReveal => ReceiverReads(c, sec, 1);
    case VerifyChunk =>
      ReceiverMakes(c, sec, 1);
      ReceiverMakes(c, sec, 2);
    case _ => SenderReads(c, sec);
  }

  /** The table lists exactly the transitions that steps of the two roles make. */
  lemma {:induction false} TableIsExact(c: Suite, sec: Secrets, a: State, b: State)
    ensures IsAllowed(a, b) <==> exists role, s, io :: Makes(c, role, sec, s, io, a, b)
  {
    hide Lawful; hide WholeStep; hide IsAllowed;
    if role, s, io :| Makes(c, role, sec, s, io, a, b) {
      StepStays(c, role, sec, s, io);
    }
    if IsAllowed(a, b) {
      AllUsed(c, sec, a, b);
    }
  }
}
