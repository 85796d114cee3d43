/** The receiver against an arbitrary peer: whatever bytes arrive. */
module ReceiverProof {
  import opened Bytes
  import opened Crypto
  import opened Merkle
  import opened Protocol
  import opened Wire
  import opened Controllers
  import opened Scripts

  // ---------- what a list of messages from the sender amounts to ----------

  /** Messages 1 + 2j and 2 + 2j are a response and a key for chunk j, after a header. */
  predicate PairAt(told: seq<Message>, j: nat) {
    && 2 + 2 * j < |told| && told[0].Header?
    && told[1 + 2 * j].Response? && told[1 + 2 * j].index == j
    && told[2 + 2 * j].KeyReveal? && told[2 + 2 * j].index == j
  }

  /** The received chunk with its key, before it is opened. */
  function Keyed(told: seq<Message>, j: nat): ChunkData
    requires PairAt(told, j)
  {
    ReceivedChunk(told[0].fileID, told[1 + 2 * j]).(key := told[2 + 2 * j].key)
  }

  function ChunkAt(c: Suite, told: seq<Message>, j: nat): ChunkData
    requires PairAt(told, j)
  {
    var ch := Keyed(told, j);
    match Unseal(c, ch.key, ch.nonce, ch.ciphertext)
    case Some(p) => ch.(plaintext := p)
    case None => ch
  }

  /** The cipher opens to the plaintext, and key and plaintext match the earlier commitment. */
  ghost predicate Accepted(c: Suite, ch: ChunkData) {
    c.open(ch.key, ch.nonce, ch.ciphertext) == Some(ch.plaintext) && c.keccak(ch.key + ch.plaintext) == ch.hresp
  }

  /** The two checks as the receiver makes them. */
  lemma AcceptedIs(c: Suite, ch: ChunkData)
    ensures Accepted(c, ch) <==>
              Unseal(c, ch.key, ch.nonce, ch.ciphertext) == Some(ch.plaintext) && Hash(c, CommitInput(ch)) == ch.hresp
  {
    hide Lawful;
  }

  ghost predicate GoodPairs(c: Suite, told: seq<Message>, d: nat) {
    forall j: nat :: j < d ==> PairAt(told, j) && Accepted(c, ChunkAt(c, told, j))
  }

  ghost function ChunksOf(c: Suite, told: seq<Message>, d: nat): (chs: seq<ChunkData>)
    requires GoodPairs(c, told, d)
    ensures |chs| == d
  {
    if d == 0 then [] else ChunksOf(c, told, d - 1) + [ChunkAt(c, told, d - 1)]
  }

  lemma {:induction false} ChunksOfAt(c: Suite, told: seq<Message>, d: nat, j: nat)
    requires GoodPairs(c, told, d) && j < d
    ensures ChunksOf(c, told, d)[j] == ChunkAt(c, told, j)
  {
    hide ChunkAt; hide Accepted;
    if j < d - 1 {
      ChunksOfAt(c, told, d - 1, j);
    }
  }

  /** A complete, acceptable conversation of the sender's. */
  ghost predicate ValidTranscript(c: Suite, told: seq<Message>) {
    && |told| > 0 && told[0].Header? && AllWellSized(told)
    && var n := told[0].reps as nat;
       if n == 0 then |told| == 1 else
       && |told| == 2 * n + 2 && GoodPairs(c, told, n)
       && told[2 * n + 1] == RootMsg(Root(c, Leaves(c, ChunksOf(c, told, n))))
  }

  // ---------- the invariant ----------

  /**
   A receiver short of an error that has read the first messages of told: its file is the
   concatenation, in order, of plaintexts that were all opened and checked against their
   commitments, with one leaf each; and its output is an exact prefix of its script.
   */
  ghost predicate Inv(c: Suite, s: Snapshot, told: seq<Message>, received: bytes) {
    && Taken(Receiver, s) <= |told| && AllWellSized(told[..Taken(Receiver, s)])
    && Fields(c, s, told)
    && s.output == EncodeAll(ReceiverScript(s.totalChunks)[..Sent(Receiver, s)])
    && received == EncodeAll(told[..Taken(Receiver, s)]) + s.input
  }

  ghost predicate Fields(c: Suite, s: Snapshot, told: seq<Message>)
    requires Taken(Receiver, s) <= |told|
  {
    && (HasStep(Receiver, s.state) || s.state == Finished)
    && CounterOk(s)
    && (s.midStep ==> s.state == VerifyMerkle)
    && Sent(Receiver, s) <= |ReceiverScript(s.totalChunks)|
    && if s.state == Idle || s.state == ReceiveHeader then
         s.totalChunks == 0 && s.leaves == [] && s.file == [] && s.pending == None
       else
         && told[0].Header?
         && s.fileID == told[0].fileID && s.fileName == told[0].name && s.fileSize == told[0].fileSize
         && s.totalChunks == told[0].reps
         && GoodPairs(c, told, Done(s))
         && s.leaves == Leaves(c, ChunksOf(c, told, Done(s)))
         && s.file == Plaintexts(ChunksOf(c, told, Done(s)))
         && PendingOk(s, told)
         && RootOk(c, s, told)
  }

  ghost predicate PendingOk(s: Snapshot, told: seq<Message>)
    requires Taken(Receiver, s) <= |told|
  {
    var i := s.currentChunk as nat;
    match s.state
    case SendLotteryTicket => ResponseTaken(s, told)
    case WaitingKeyReveal => ResponseTaken(s, told)
    case VerifyChunk => PairAt(told, i) && s.pending == Some(Keyed(told, i))
    case _ => s.pending == None
  }

  ghost predicate ResponseTaken(s: Snapshot, told: seq<Message>) {
    var i := s.currentChunk as nat;
    && 1 + 2 * i < |told| && told[1 + 2 * i].Response? && told[1 + 2 * i].index == i
    && s.pending == Some(ReceivedChunk(s.fileID, told[1 + 2 * i]))
  }

  ghost predicate RootOk(c: Suite, s: Snapshot, told: seq<Message>)
    requires Taken(Receiver, s) <= |told|
  {
    (s.state == VerifyMerkle && s.midStep) || (s.state == Finished && s.totalChunks > 0) ==>
      told[2 * s.totalChunks as nat + 1] == RootMsg(Root(c, s.leaves))
  }

  function Expected(s: Snapshot): Kind {
    match s.state
    case ReceiveHeader => HeaderKind
    case WaitingChunkResponse => ResponseKind
    case WaitingKeyReveal => KeyKind
    case _ => RootKind
  }

  /** told foretells the next message the receiver takes, if it takes one now. */
  ghost predicate Agrees(s: Snapshot, told: seq<Message>) {
    Reading(Receiver, s) && Decode(Expected(s), s.input).Got? ==>
      Taken(Receiver, s) < |told| && told[Taken(Receiver, s)] == Decode(Expected(s), s.input).value
  }

  // ---------- the invariant depends only on the messages taken ----------

  lemma PairDependsOnPrefix(c: Suite, told: seq<Message>, told': seq<Message>, j: nat)
    requires 2 + 2 * j < |told| && 2 + 2 * j < |told'| && told[..3 + 2 * j] == told'[..3 + 2 * j]
    ensures PairAt(told, j) == PairAt(told', j)
    ensures PairAt(told, j) ==> Keyed(told, j) == Keyed(told', j) && ChunkAt(c, told, j) == ChunkAt(c, told', j)
  {
    hide ReceivedChunk; hide Lawful; hide Unseal;
    var k := 3 + 2 * j;
    assert forall i :: 0 <= i < k ==> told[i] == told[..k][i] && told'[i] == told'[..k][i];
  }

  lemma {:induction false} ChunksDependOnPrefix(c: Suite, told: seq<Message>, told': seq<Message>, d: nat)
    requires d > 0 ==> 2 * d < |told| && 2 * d < |told'| && told[..1 + 2 * d] == told'[..1 + 2 * d]
    requires GoodPairs(c, told, d)
    ensures GoodPairs(c, told', d) && ChunksOf(c, told, d) == ChunksOf(c, told', d)
  {
    hide ChunkAt; hide PairAt; hide Accepted; hide Lawful;
    if d > 0 {
      var k := 1 + 2 * d;
      assert told[..k - 2] == told[..k][..k - 2] && told'[..k - 2] == told'[..k][..k - 2];
      ChunksDependOnPrefix(c, told, told', d - 1);
      PairDependsOnPrefix(c, told, told', d - 1);
    }
  }

  lemma InvDependsOnPrefix(c: Suite, s: Snapshot, told: seq<Message>, told': seq<Message>, received: bytes)
    requires Inv(c, s, told, received)
    requires Taken(Receiver, s) <= |told'| && told[..Taken(Receiver, s)] == told'[..Taken(Receiver, s)]
    ensures Inv(c, s, told', received)
  {
    hide EncodeAll; hide ReceiverScript; hide ChunksOf; hide Leaves; hide Plaintexts; hide GoodPairs;
    hide ReceivedChunk; hide Lawful; hide AllWellSized; hide Keyed; hide PairAt; hide Root;
    var k := Taken(Receiver, s);
    assert forall i :: 0 <= i < k ==> told[i] == told[..k][i] && told'[i] == told'[..k][i];
    if k > 0 {
      var d := Done(s);
      assert told[..1 + 2 * d] == told[..k][..1 + 2 * d] && told'[..1 + 2 * d] == told'[..k][..1 + 2 * d];
      ChunksDependOnPrefix(c, told, told', d);
      if s.state == VerifyChunk {
        PairDependsOnPrefix(c, told, told', s.currentChunk);
      }
    }
  }

  // ---------- what holds in every state, after an error too ----------

  /** Line j of a conversation of the sender's: a header, responses and keys by turns, and the root. */
  predicate LineOk(told: seq<Message>, j: nat)
    requires j < |told| && told[0].Header?
  {
    if j == 0 then true
    else if j == 2 * told[0].reps as nat + 1 then told[j].RootMsg?
    else if j % 2 == 1 then told[j].Response? && told[j].index == (j - 1) / 2
    else told[j].KeyReveal? && told[j].index == (j - 2) / 2
  }

  ghost predicate Talk(told: seq<Message>) {
    && AllWellSized(told)
    && (|told| > 0 ==>
          && told[0].Header? && |told| <= (if told[0].reps == 0 then 1 else 2 * told[0].reps as nat + 2)
          && forall j: nat :: j < |told| ==> LineOk(told, j))
  }

  /** The file holds d checked chunks, and perhaps a part of one more that is checked too. */
  ghost predicate FileAt(c: Suite, told: seq<Message>, file: bytes, d: nat) {
    && GoodPairs(c, told, d) && |told| <= 3 + 2 * d
    && (|| file == Plaintexts(ChunksOf(c, told, d))
        || (&& GoodPairs(c, told, d + 1)
            && Plaintexts(ChunksOf(c, told, d)) <= file <= Plaintexts(ChunksOf(c, told, d + 1))))
  }

  function Chunks(told: seq<Message>): u32 {
    if |told| > 0 && told[0].Header? then told[0].reps else 0
  }

  /** How many of the sender's messages line j of the receiver's answers: all for the final ack. */
  function Needs(n: u32, j: nat): nat {
    if j == 2 * n as nat then 2 * n as nat + 2 else j + 1
  }

  /**
   The mirror of the sender's key release: not one byte of a request is out before the header and
   the chunks before it are in, none of a ticket before its response, none of the ack before the root.
   */
  ghost predicate Answered(told: seq<Message>, output: bytes) {
    var rs := ReceiverScript(Chunks(told));
    && output <= EncodeAll(rs)
    && forall j: nat :: j < |rs| && |output| > |EncodeAll(rs[..j])| ==> Needs(Chunks(told), j) <= |told|
  }

  /** What a receiver has put into its file and onto the stream, in terms of messages that it was sent. */
  ghost predicate Explains(c: Suite, file: bytes, output: bytes, told: seq<Message>, received: bytes) {
    && Talk(told) && EncodeAll(told) <= received
    && Answered(told, output)
    && exists d: nat :: FileAt(c, told, file, d)
  }

  lemma AnsweredAt(told: seq<Message>, output: bytes, sent: nat)
    requires sent <= |ReceiverScript(Chunks(told))|
    requires output <= EncodeAll(ReceiverScript(Chunks(told))[..sent])
    requires sent > 0 ==> Needs(Chunks(told), sent - 1) <= |told|
    ensures Answered(told, output)
  {
    hide EncodeAll; hide Chunks;
    var rs := ReceiverScript(Chunks(told));
    hide ReceiverScript;
    EncodeAllPrefix(rs, sent, |rs|);
    assert rs[..|rs|] == rs;
    forall j: nat | j < |rs| && |output| > |EncodeAll(rs[..j])|
      ensures Needs(Chunks(told), j) <= |told|
    {
      if sent <= j {
        EncodeAllPrefix(rs, sent, j);
      }
    }
  }

  lemma TakenIsTalk(c: Suite, s: Snapshot, told: seq<Message>, received: bytes)
    requires Inv(c, s, told, received)
    ensures Talk(told[..Taken(Receiver, s)])
    ensures Chunks(told[..Taken(Receiver, s)]) == s.totalChunks
  {
    hide EncodeAll; hide ReceiverScript; hide ChunksOf; hide Leaves; hide Plaintexts; hide Lawful; hide WellSized;
    hide Accepted; hide ChunkAt; hide ReceivedChunk; hide Root; hide Keyed;
    var taken := told[..Taken(Receiver, s)];
    forall j: nat | j < |taken|
      ensures taken[0].Header? && LineOk(taken, j)
    {
      var i := (j - 1) / 2;
      if 0 < j && i < Done(s) {
        assert PairAt(told, i);
      }
    }
  }

  lemma TakenFile(c: Suite, s: Snapshot, told: seq<Message>, received: bytes)
    requires Inv(c, s, told, received)
    ensures FileAt(c, told[..Taken(Receiver, s)], s.file, Done(s))
  {
    hide EncodeAll; hide ReceiverScript; hide Leaves; hide Lawful; hide AllWellSized; hide GoodPairs;
    hide ReceivedChunk; hide PendingOk; hide RootOk; hide Flatten;
    var (k, d) := (Taken(Receiver, s), Done(s));
    if k == 0 {
      NoChunks(c, told[..0]);
    } else {
      assert told[..1 + 2 * d] == told[..k][..1 + 2 * d];
      ChunksDependOnPrefix(c, told, told[..k], d);
    }
  }

  lemma NoChunks(c: Suite, told: seq<Message>)
    ensures GoodPairs(c, told, 0) && Plaintexts(ChunksOf(c, told, 0)) == []
  {
  }

  lemma TakenReceived(c: Suite, s: Snapshot, told: seq<Message>, received: bytes)
    requires Inv(c, s, told, received)
    ensures EncodeAll(told[..Taken(Receiver, s)]) <= received
  {
    hide EncodeAll; hide Fields; hide AllWellSized; hide Lawful;
  }

  lemma InvExplains(c: Suite, s: Snapshot, told: seq<Message>, received: bytes)
    requires Inv(c, s, told, received)
    ensures Explains(c, s.file, s.output, told[..Taken(Receiver, s)], received)
  {
    hide EncodeAll; hide ReceiverScript; hide ChunksOf; hide Leaves; hide Plaintexts; hide Lawful;
    hide AllWellSized; hide GoodPairs; hide Talk; hide FileAt; hide Answered; hide PendingOk; hide RootOk;
    hide Chunks;
    TakenIsTalk(c, s, told, received);
    TakenFile(c, s, told, received);
    TakenReceived(c, s, told, received);
    AnsweredAt(told[..Taken(Receiver, s)], s.output, Sent(Receiver, s));
  }

  /** A write that breaks, at whatever byte. */
  lemma WriteExplains(c: Suite, s: Snapshot, told: seq<Message>, received: bytes, m: Message, io: Io)
    requires Inv(c, s, told, received) && Writing(Receiver, s)
    requires Sent(Receiver, s) < |ReceiverScript(s.totalChunks)|
    requires m == ReceiverScript(s.totalChunks)[Sent(Receiver, s)]
    ensures Explains(c, s.file, s.output + Written(Encode(m), io), told[..Taken(Receiver, s)], received)
  {
    hide Encode; hide EncodeAll; hide ReceiverScript; hide ChunksOf; hide Leaves; hide Plaintexts; hide Lawful;
    hide AllWellSized; hide GoodPairs; hide Talk; hide FileAt; hide Answered; hide PendingOk; hide RootOk;
    hide Chunks; hide Written;
    TakenIsTalk(c, s, told, received);
    TakenFile(c, s, told, received);
    TakenReceived(c, s, told, received);
    WriteLine(ReceiverScript(s.totalChunks), Sent(Receiver, s), s.output, io);
    AnsweredAt(told[..Taken(Receiver, s)], s.output + Written(Encode(m), io), Sent(Receiver, s) + 1);
  }

  // ---------- one action ----------

  ghost predicate GoodResult(c: Suite, s: Snapshot, told: seq<Message>, received: bytes, r: StepResult) {
    match r
    case Next(s', next) => IsAllowed(s.state, next) && next != Error && Inv(c, s'.(state := next), told, received)
    case Continue(s') => Inv(c, s', told, received)
    case Crash => false
    case _ => true
  }

  lemma AfterWrite(c: Suite, s: Snapshot, told: seq<Message>, received: bytes, m: Message, io: Io)
    requires Inv(c, s, told, received) && io.Fine?
    requires Sent(Receiver, s) < |ReceiverScript(s.totalChunks)|
    requires m == ReceiverScript(s.totalChunks)[Sent(Receiver, s)]
    ensures s.output + Written(Encode(m), io) == EncodeAll(ReceiverScript(s.totalChunks)[..Sent(Receiver, s) + 1])
  {
    hide Encode; hide EncodeAll; hide ReceiverScript; hide Written; hide Fields; hide Lawful;
    WriteLine(ReceiverScript(s.totalChunks), Sent(Receiver, s), s.output, io);
  }

  lemma AfterRead(c: Suite, s: Snapshot, told: seq<Message>, received: bytes)
    requires Inv(c, s, told, received) && Reading(Receiver, s) && Decode(Expected(s), s.input).Got? && Agrees(s, told)
    ensures var (k, r) := (Taken(Receiver, s), Decode(Expected(s), s.input));
            && r.value == told[k] && KindOf(told[k]) == Expected(s)
            && AllWellSized(told[..k + 1]) && received == EncodeAll(told[..k + 1]) + r.rest
  {
    hide Encode; hide EncodeAll; hide Decode; hide Fields; hide Lawful; hide WellSized; hide Taken; hide Reading;
    hide KindOf; hide Expected;
    DecodeExact(Expected(s), s.input);
    ReadLine(told, Taken(Receiver, s), received, s.input, Decode(Expected(s), s.input).rest);
  }

  lemma StepReceiveHeader(c: Suite, s: Snapshot, told: seq<Message>, received: bytes, io: Io)
    requires Inv(c, s, told, received) && s.state == ReceiveHeader && Agrees(s, told)
    ensures GoodResult(c, s, told, received, ReceiverStep(c, s, io))
  {
    hide Encode; hide Decode; hide Lawful; hide ReceiverLine; hide LeafOf; hide Accepted; hide WellSized;
    hide ChunkAt;
    if Decode(HeaderKind, s.input).Got? {
      AfterRead(c, s, told, received);
      var n := told[0].reps;
      assert ReceiverScript(n)[..0] == [] && ReceiverScript(0)[..0] == [];
    }
  }

  /** Taking the response to the current request keeps the invariant. */
  lemma ResponseRead(c: Suite, s: Snapshot, told: seq<Message>, received: bytes, rest: bytes)
    requires Inv(c, s, told, received) && s.state == WaitingChunkResponse && 2 + 2 * s.currentChunk as nat <= |told|
    requires var (k, m) := (1 + 2 * s.currentChunk as nat, told[1 + 2 * s.currentChunk as nat]);
             && m.Response? && m.index == s.currentChunk
             && AllWellSized(told[..k + 1]) && received == EncodeAll(told[..k + 1]) + rest
    ensures var p := Some(ReceivedChunk(s.fileID, told[1 + 2 * s.currentChunk as nat]));
            Inv(c, s.(input := rest, pending := p, state := SendLotteryTicket), told, received)
  {
    hide EncodeAll; hide Lawful; hide ReceiverScript; hide Leaves; hide GoodPairs; hide AllWellSized; hide ChunksOf;
    hide Plaintexts; hide Root; hide ReceivedChunk;
  }

  lemma StepWaitChunkResponse(c: Suite, s: Snapshot, told: seq<Message>, received: bytes, io: Io)
    requires Inv(c, s, told, received) && s.state == WaitingChunkResponse && Agrees(s, told)
    ensures GoodResult(c, s, told, received, ReceiverStep(c, s, io))
  {
    hide Encode; hide EncodeAll; hide Decode; hide Lawful; hide AllWellSized; hide Fields; hide ReceivedChunk;
    var r := Decode(ResponseKind, s.input);
    if r.Got? {
      AfterRead(c, s, told, received);
      if r.value.index == s.currentChunk {
        ResponseRead(c, s, told, received, r.rest);
      }
    }
  }

  lemma KeyCompletesPair(c: Suite, s: Snapshot, told: seq<Message>)
    requires Taken(Receiver, s) < |told| && Fields(c, s, told) && s.state == WaitingKeyReveal
    requires var m := told[Taken(Receiver, s)]; m.KeyReveal? && m.index == s.currentChunk
    ensures var i := s.currentChunk as nat;
            PairAt(told, i) && s.pending.Some? && s.pending.value.(key := told[2 + 2 * i].key) == Keyed(told, i)
  {
    hide EncodeAll; hide Lawful; hide ReceiverScript; hide Leaves; hide GoodPairs; hide ChunksOf; hide Plaintexts;
    hide ReceivedChunk;
  }

  lemma KeyTaken(c: Suite, s: Snapshot, told: seq<Message>, received: bytes, rest: bytes)
    requires Inv(c, s, told, received) && s.state == WaitingKeyReveal && 3 + 2 * s.currentChunk as nat <= |told|
    requires var k := 3 + 2 * s.currentChunk as nat; AllWellSized(told[..k]) && received == EncodeAll(told[..k]) + rest
    requires PairAt(told, s.currentChunk)
    ensures var s' := s.(input := rest, pending := Some(Keyed(told, s.currentChunk)), state := VerifyChunk);
            Inv(c, s', told, received)
  {
    hide EncodeAll; hide Lawful; hide ReceiverScript; hide Leaves; hide GoodPairs; hide ChunksOf; hide Plaintexts;
    hide Keyed; hide PairAt; hide AllWellSized; hide ReceivedChunk;
  }

  lemma StepWaitKeyReveal(c: Suite, s: Snapshot, told: seq<Message>, received: bytes, io: Io)
    requires Inv(c, s, told, received) && s.state == WaitingKeyReveal && Agrees(s, told)
    ensures GoodResult(c, s, told, received, ReceiverStep(c, s, io))
  {
    hide EncodeAll; hide Decode; hide Lawful; hide AllWellSized; hide Keyed; hide PairAt; hide Fields;
    var r := Decode(KeyKind, s.input);
    if r.Got? {
      AfterRead(c, s, told, received);
      if told[Taken(Receiver, s)].index == s.currentChunk {
        KeyCompletesPair(c, s, told);
        KeyTaken(c, s, told, received, r.rest);
      }
    }
  }

  /** Writing a request or a ticket moves the receiver one line on and changes nothing else. */
  lemma LineWritten(c: Suite, s: Snapshot, told: seq<Message>, received: bytes, output: bytes, next: State)
    requires Inv(c, s, told, received) && !s.midStep
    requires if s.state == SendChunkRequest then next == WaitingChunkResponse
             else s.state == SendLotteryTicket && next == WaitingKeyReveal
    requires Sent(Receiver, s) < |ReceiverScript(s.totalChunks)|
    requires output == EncodeAll(ReceiverScript(s.totalChunks)[..Sent(Receiver, s) + 1])
    ensures IsAllowed(s.state, next) && Inv(c, s.(output := output, state := next), told, received)
  {
    hide EncodeAll; hide Lawful; hide ReceiverScript; hide Leaves; hide GoodPairs; hide AllWellSized; hide ChunksOf;
    hide Plaintexts; hide ReceivedChunk; hide Root;
  }

  lemma StepSendIndex(c: Suite, s: Snapshot, told: seq<Message>, received: bytes, io: Io)
    requires Inv(c, s, told, received) && (s.state == SendChunkRequest || s.state == SendLotteryTicket)
    ensures GoodResult(c, s, told, received, ReceiverStep(c, s, io))
  {
    hide Encode; hide EncodeAll; hide Decode; hide Lawful; hide ReceiverScript; hide Written; hide ReceivedChunk;
    hide Inv; hide IsAllowed;
    var m := if s.state == SendChunkRequest then Request(s.currentChunk) else Ticket(s.currentChunk);
    NextAnswer(c, s, told, received);
    if io.Fine? {
      AfterWrite(c, s, told, received, m, io);
      var next := if s.state == SendChunkRequest then WaitingChunkResponse else WaitingKeyReveal;
      LineWritten(c, s, told, received, s.output + Written(Encode(m), io), next);
    }
  }

  lemma NextAnswer(c: Suite, s: Snapshot, told: seq<Message>, received: bytes)
    requires Inv(c, s, told, received) && (s.state == SendChunkRequest || s.state == SendLotteryTicket)
    ensures !s.midStep && Sent(Receiver, s) < |ReceiverScript(s.totalChunks)|
    ensures ReceiverScript(s.totalChunks)[Sent(Receiver, s)] ==
            if s.state == SendChunkRequest then Request(s.currentChunk) else Ticket(s.currentChunk)
  {
    hide EncodeAll; hide Lawful; hide ReceiverScript; hide Leaves; hide GoodPairs; hide AllWellSized; hide ChunksOf;
    hide Plaintexts; hide ReceivedChunk; hide Root;
    ReceiverLines(s.totalChunks, s.currentChunk);
  }

  /** Leaves and file are those of the first d chunks, all of them checked. */
  ghost predicate HoldsChunks(c: Suite, told: seq<Message>, d: nat, leaves: seq<bytes>, file: bytes) {
    && GoodPairs(c, told, d)
    && leaves == Leaves(c, ChunksOf(c, told, d)) && file == Plaintexts(ChunksOf(c, told, d))
  }

  /** What VerifyChunk does to leaves and file when the chunk passes. */
  lemma ChunkAccepted(c: Suite, s: Snapshot, told: seq<Message>, received: bytes)
    requires Inv(c, s, told, received) && s.state == VerifyChunk
    requires var i := s.currentChunk as nat; PairAt(told, i) && Accepted(c, ChunkAt(c, told, i))
    ensures var (i, ch) := (s.currentChunk as nat, ChunkAt(c, told, s.currentChunk));
            HoldsChunks(c, told, i + 1, s.leaves + [LeafOf(c, ch)], s.file + ch.plaintext)
  {
    hide EncodeAll; hide Lawful; hide ReceiverScript; hide Leaves; hide Plaintexts; hide LeafOf; hide ChunkAt;
    hide Accepted; hide WellSized;
    var i := s.currentChunk as nat;
    LeavesSnoc(c, ChunksOf(c, told, i), ChunkAt(c, told, i));
    PlaintextsSnoc(ChunksOf(c, told, i), ChunkAt(c, told, i));
  }

  /** Where the receiver is in the scripts after a chunk: where it was, with one more chunk done. */
  lemma PlaceAfter(s: Snapshot, s': Snapshot)
    requires s.state == VerifyChunk && CounterOk(s) && s'.totalChunks == s.totalChunks && !s'.midStep
    requires if IsLastChunk(s) then s'.state == VerifyMerkle && s'.currentChunk == s.currentChunk
             else s'.state == SendChunkRequest && s'.currentChunk == s.currentChunk + 1
    ensures CounterOk(s') && Done(s') == s.currentChunk as nat + 1
    ensures Taken(Receiver, s') == Taken(Receiver, s) && Sent(Receiver, s') == Sent(Receiver, s)
  {
  }

  /** The invariant holds again at the next chunk, and after the last at the root. */
  lemma Confirmed(c: Suite, s: Snapshot, s': Snapshot, told: seq<Message>, received: bytes)
    requires Inv(c, s, told, received) && s.state == VerifyChunk
    requires HoldsChunks(c, told, s.currentChunk as nat + 1, s'.leaves, s'.file)
    requires s' == s.(leaves := s'.leaves, file := s'.file, pending := None, state := s'.state,
                      currentChunk := s'.currentChunk)
    requires if IsLastChunk(s) then s'.state == VerifyMerkle && s'.currentChunk == s.currentChunk
             else s'.state == SendChunkRequest && s'.currentChunk == s.currentChunk + 1
    ensures Inv(c, s', told, received)
  {
    hide EncodeAll; hide Lawful; hide ReceiverScript; hide Leaves; hide Plaintexts; hide LeafOf; hide GoodPairs;
    hide ChunksOf; hide AllWellSized; hide Keyed; hide PairAt; hide Taken; hide Sent; hide Done; hide CounterOk;
    hide Root;
    PlaceAfter(s, s');
  }

  lemma NotPast(c: Suite, s: Snapshot, told: seq<Message>, received: bytes)
    requires Inv(c, s, told, received) && s.state == VerifyChunk
    ensures s.currentChunk < s.totalChunks && !s.midStep
  {
    hide EncodeAll; hide Lawful; hide ReceiverScript; hide Leaves; hide Plaintexts; hide GoodPairs; hide ChunksOf;
    hide AllWellSized;
  }

  lemma Confirm(c: Suite, s: Snapshot, told: seq<Message>, received: bytes, leaves: seq<bytes>, file: bytes)
    requires Inv(c, s, told, received) && s.state == VerifyChunk
    requires HoldsChunks(c, told, s.currentChunk as nat + 1, leaves, file)
    ensures GoodResult(c, s, told, received, ConfirmChunk(s.(leaves := leaves, file := file), SendChunkRequest))
  {
    hide EncodeAll; hide Lawful; hide ReceiverScript; hide Leaves; hide Plaintexts; hide LeafOf; hide GoodPairs;
    hide ChunksOf; hide AllWellSized; hide Keyed; hide PairAt; hide Inv;
    var s' := s.(leaves := leaves, file := file, pending := None);
    NotPast(c, s, told, received);
    if IsLastChunk(s) {
      Confirmed(c, s, s'.(state := VerifyMerkle), told, received);
    } else {
      Confirmed(c, s, s'.(state := SendChunkRequest, currentChunk := s.currentChunk + 1), told, received);
    }
  }

  lemma StepVerifyChunk(c: Suite, s: Snapshot, told: seq<Message>, received: bytes, io: Io)
    requires Inv(c, s, told, received) && s.state == VerifyChunk
    ensures GoodResult(c, s, told, received, ReceiverStep(c, s, io))
  {
    hide EncodeAll; hide Lawful; hide ReceiverScript; hide Leaves; hide Plaintexts; hide LeafOf; hide GoodPairs;
    hide ChunksOf; hide WellSized; hide Unseal; hide Hash; hide CommitInput; hide Keyed; hide PairAt;
    hide ConfirmChunk; hide Accepted;
    var i := s.currentChunk as nat;
    var ch := ChunkAt(c, told, i);
    AcceptedIs(c, ch);
    if Accepted(c, ch) {
      ChunkAccepted(c, s, told, received);
      Confirm(c, s, told, received, s.leaves + [LeafOf(c, ch)], s.file + ch.plaintext);
    }
  }

  lemma StepReadRoot(c: Suite, s: Snapshot, told: seq<Message>, received: bytes, io: Io)
    requires Inv(c, s, told, received) && s.state == VerifyMerkle && !s.midStep && Agrees(s, told)
    ensures GoodResult(c, s, told, received, ReceiverStep(c, s, io))
  {
    hide Encode; hide EncodeAll; hide Decode; hide Lawful; hide ReceiverScript; hide Leaves; hide GoodPairs;
    hide WellSized; hide ChunksOf; hide Plaintexts; hide Root;
    if Decode(RootKind, s.input).Got? {
      AfterRead(c, s, told, received);
    }
  }

  lemma StepSendAck(c: Suite, s: Snapshot, told: seq<Message>, received: bytes, io: Io)
    requires Inv(c, s, told, received) && s.state == VerifyMerkle && s.midStep
    ensures GoodResult(c, s, told, received, ReceiverStep(c, s, io))
  {
    hide Encode; hide EncodeAll; hide Decode; hide Lawful; hide ReceiverScript; hide Leaves; hide GoodPairs;
    hide AllWellSized; hide ChunksOf; hide Plaintexts; hide Root; hide Written; hide TakeHeader; hide TakeResponse;
    hide TakeKey; hide CheckChunk;
    ReceiverLines(s.totalChunks, s.totalChunks - 1);
    if io.Fine? {
      AfterWrite(c, s, told, received, FinalAck, io);
    }
  }

  lemma StepIdle(c: Suite, s: Snapshot, told: seq<Message>, received: bytes, io: Io)
    requires Inv(c, s, told, received) && s.state == Idle
    ensures GoodResult(c, s, told, received, ReceiverStep(c, s, io))
  {
    hide EncodeAll; hide Lawful; hide ReceiverScript;
  }

  lemma StepIsGood(c: Suite, s: Snapshot, told: seq<Message>, received: bytes, io: Io)
    requires Inv(c, s, told, received) && !Terminal(s) && Agrees(s, told)
    ensures HasStep(Receiver, s.state) && GoodResult(c, s, told, received, ReceiverStep(c, s, io))
  {
    hide ReceiverStep; hide GoodResult; hide Agrees; hide Lawful; hide EncodeAll; hide ReceiverScript; hide Leaves;
    hide GoodPairs; hide ChunksOf; hide Plaintexts;
    match s.state
    case Idle => StepIdle(c, s, told, received, io);
    case ReceiveHeader => StepReceiveHeader(c, s, told, received, io);
    case SendChunkRequest => StepSendIndex(c, s, told, received, io);
    case WaitingChunkResponse => StepWaitChunkResponse(c, s, told, received, io);
    case SendLotteryTicket => StepSendIndex(c, s, told, received, io);
    case WaitingKeyReveal => StepWaitKeyReveal(c, s, told, received, io);
    case VerifyChunk => StepVerifyChunk(c, s, told, received, io);
    case VerifyMerkle =>
      if s.midStep {
        StepSendAck(c, s, told, received, io);
      } else {
        StepReadRoot(c, s, told, received, io);
      }
  }

  // ---------- failing ----------

  /** A chunk that passed but whose writing to the file breaks, at whatever byte. */
  lemma BrokenFileExplains(c: Suite, s: Snapshot, told: seq<Message>, received: bytes, io: Io)
    requires Inv(c, s, told, received) && s.state == VerifyChunk
    requires var i := s.currentChunk as nat; PairAt(told, i) && Accepted(c, ChunkAt(c, told, i))
    ensures var plaintext := ChunkAt(c, told, s.currentChunk).plaintext;
            Explains(c, s.file + Written(plaintext, io), s.output, told[..Taken(Receiver, s)], received)
  {
    hide EncodeAll; hide ReceiverScript; hide ChunksOf; hide Leaves; hide Plaintexts; hide Lawful;
    hide AllWellSized; hide GoodPairs; hide Talk; hide Answered; hide Chunks; hide ChunkAt; hide PairAt;
    hide Accepted; hide Keyed;
    var (i, k) := (s.currentChunk as nat, Taken(Receiver, s));
    var file := s.file + Written(ChunkAt(c, told, i).plaintext, io);
    InvExplains(c, s, told, received);
    ChunkAccepted(c, s, told, received);
    assert told[..1 + 2 * i] == told[..k][..1 + 2 * i] && told[..3 + 2 * i] == told[..k][..3 + 2 * i];
    ChunksDependOnPrefix(c, told, told[..k], i);
    ChunksDependOnPrefix(c, told, told[..k], i + 1);
    assert FileAt(c, told[..k], file, i);
  }

  /** What a failing step has done to file and output. */
  lemma FailedStep(c: Suite, s: Snapshot, told: seq<Message>, received: bytes, io: Io)
    requires Inv(c, s, told, received) && ReceiverStep(c, s, io).Fail?
    ensures var v := ReceiverStep(c, s, io).s;
            || (v.file == s.file && v.output == s.output)
            || (Writing(Receiver, s) && v.file == s.file && v.output == s.output + Written(Encode(NextWrite(s)), io))
            || (&& s.state == VerifyChunk && v.output == s.output
                && var i := s.currentChunk as nat;
                   && PairAt(told, i) && Accepted(c, ChunkAt(c, told, i))
                   && v.file == s.file + Written(ChunkAt(c, told, i).plaintext, io))
  {
    hide Encode; hide EncodeAll; hide Decode; hide ReceiverScript; hide ChunksOf; hide Leaves; hide Plaintexts;
    hide Lawful; hide AllWellSized; hide GoodPairs; hide Written; hide Root; hide LeafOf; hide Hash; hide Unseal;
    hide CommitInput; hide Keyed; hide PairAt; hide ReceivedChunk; hide Accepted;
    if s.state == VerifyChunk {
      AcceptedIs(c, ChunkAt(c, told, s.currentChunk));
    }
  }

  function NextWrite(s: Snapshot): Message {
    match s.state
    case SendChunkRequest => Request(s.currentChunk)
    case SendLotteryTicket => Ticket(s.currentChunk)
    case _ => FinalAck
  }

  lemma NextWriteOnScript(c: Suite, s: Snapshot, told: seq<Message>, received: bytes)
    requires Inv(c, s, told, received) && Writing(Receiver, s)
    ensures Sent(Receiver, s) < |ReceiverScript(s.totalChunks)|
    ensures ReceiverScript(s.totalChunks)[Sent(Receiver, s)] == NextWrite(s)
  {
    hide EncodeAll; hide ReceiverScript; hide ChunksOf; hide Leaves; hide Plaintexts; hide Lawful;
    hide AllWellSized; hide GoodPairs; hide PendingOk; hide RootOk;
    ReceiverLines(s.totalChunks, s.currentChunk);
  }

  lemma FailExplains(c: Suite, s: Snapshot, told: seq<Message>, received: bytes, io: Io)
    requires Inv(c, s, told, received) && ReceiverStep(c, s, io).Fail?
    ensures var v := ReceiverStep(c, s, io).s;
            Explains(c, v.file, v.output, told[..Taken(Receiver, s)], received)
  {
    hide ReceiverStep; hide Inv; hide Explains; hide Lawful; hide Encode; hide Written; hide PairAt; hide ChunkAt;
    hide Accepted; hide ReceiverScript;
    InvTaken(c, s, told, received);
    InvExplains(c, s, told, received);
    FailedStep(c, s, told, received, io);
    if Writing(Receiver, s) {
      NextWriteOnScript(c, s, told, received);
      WriteExplains(c, s, told, received, NextWrite(s), io);
    }
    if s.state == VerifyChunk && PairAt(told, s.currentChunk) && Accepted(c, ChunkAt(c, told, s.currentChunk)) {
      BrokenFileExplains(c, s, told, received, io);
    }
  }

  lemma InvTaken(c: Suite, s: Snapshot, told: seq<Message>, received: bytes)
    requires Inv(c, s, told, received)
    ensures Taken(Receiver, s) <= |told|
  {
  }

  /** A session on script with what it took, or one that failed with file and output explained. */
  ghost predicate Good(c: Suite, s: Snapshot, told: seq<Message>, received: bytes) {
    if s.state == Error then Explains(c, s.file, s.output, told, received) else Inv(c, s, told, received)
  }

  /** The part of the transcript that an action leaves in force: all of it, or what was taken before it failed. */
  ghost function Kept(s: Snapshot, s': Snapshot, told: seq<Message>): seq<Message>
    requires Taken(Receiver, s) <= |told|
  {
    if s'.state == Error then told[..Taken(Receiver, s)] else told
  }

  /** Every action of the receiver keeps the invariant, or fails with file and output explained. */
  lemma {:induction false} ActKeepsInv(
    c: Suite, sec: Secrets, s: Snapshot, told: seq<Message>, received: bytes, io: Io, closed: bool)
    requires Inv(c, s, told, received) && Agrees(s, told)
    ensures Taken(Receiver, s) <= |told|
    ensures var s' := Act(c, Receiver, sec, s, io, closed); Good(c, s', Kept(s, s', told), received)
  {
    hide ReceiverStep; hide Agrees; hide Lawful; hide Inv; hide Explains; hide Taken;
    InvTaken(c, s, told, received);
    InvExplains(c, s, told, received);
    NeverInError(c, s, told, received);
    if !Terminal(s) {
      StepIsGood(c, s, told, received, io);
      var r := ReceiverStep(c, s, io);
      if r.Fail? {
        FailExplains(c, s, told, received, io);
      } else if r.Continue? {
        NeverInError(c, r.s, told, received);
      }
    }
  }

  lemma NeverInError(c: Suite, s: Snapshot, told: seq<Message>, received: bytes)
    requires Inv(c, s, told, received)
    ensures s.state != Error
  {
  }

  // ---------- the next message ----------

  /** The messages taken so far, and the one that is taken now if there is one. */
  ghost function Foretold(s: Snapshot, told: seq<Message>): seq<Message>
    requires Taken(Receiver, s) <= |told|
  {
    var r := Decode(Expected(s), s.input);
    told[..Taken(Receiver, s)] + if Reading(Receiver, s) && r.Got? then [r.value] else []
  }

  lemma ForetoldAgrees(c: Suite, s: Snapshot, told: seq<Message>, received: bytes)
    requires Inv(c, s, told, received)
    ensures Inv(c, s, Foretold(s, told), received) && Agrees(s, Foretold(s, told))
  {
    hide Fields; hide EncodeAll; hide ReceiverScript; hide AllWellSized; hide Decode; hide Lawful;
    assert Foretold(s, told)[..Taken(Receiver, s)] == told[..Taken(Receiver, s)];
    InvDependsOnPrefix(c, s, told, Foretold(s, told), received);
  }

  // ---------- progress on a valid transcript ----------

  lemma NextIsExpected(c: Suite, s: Snapshot, told: seq<Message>, received: bytes)
    requires Inv(c, s, told, received) && ValidTranscript(c, told) && Reading(Receiver, s)
    ensures var k := Taken(Receiver, s);
            && k < |told| && KindOf(told[k]) == Expected(s)
            && (told[k].Response? || told[k].KeyReveal? ==> told[k].index == s.currentChunk)
            && (told[k].RootMsg? ==> told[k].root == Root(c, s.leaves))
  {
    hide EncodeAll; hide ReceiverScript; hide ChunksOf; hide Leaves; hide Plaintexts; hide Root; hide Lawful;
    hide AllWellSized; hide Accepted; hide ChunkAt; hide ReceivedChunk;
    if s.state == WaitingChunkResponse || s.state == WaitingKeyReveal {
      assert PairAt(told, s.currentChunk);
    }
  }

  lemma ChunkPasses(c: Suite, s: Snapshot, told: seq<Message>, received: bytes)
    requires Inv(c, s, told, received) && ValidTranscript(c, told) && s.state == VerifyChunk
    ensures !ReceiverStep(c, s, Fine).Fail?
  {
    hide EncodeAll; hide ReceiverScript; hide ChunksOf; hide Leaves; hide Plaintexts; hide Root; hide Lawful;
    hide AllWellSized; hide LeafOf; hide ReceivedChunk; hide Unseal; hide Hash; hide CommitInput; hide Accepted;
    AcceptedIs(c, ChunkAt(c, told, s.currentChunk));
    assert Accepted(c, ChunkAt(c, told, s.currentChunk));
  }

  /** On a valid transcript, with working local I/O, no step fails or reads anything but the transcript. */
  lemma {:induction false} Progress(c: Suite, s: Snapshot, told: seq<Message>, received: bytes, t: bytes, u: bytes)
    requires Inv(c, s, told, received) && ValidTranscript(c, told) && !Terminal(s)
    requires received + t == EncodeAll(told) + u
    ensures Agrees(s, told)
    ensures var r := ReceiverStep(c, s, Fine);
            && !r.Fail?
            && (r.Wait? ==> Reading(Receiver, s) && Incomplete(told, Taken(Receiver, s), received))
  {
    hide Encode; hide EncodeAll; hide ReceiverScript; hide Root; hide Lawful; hide Decode; hide Written;
    hide Fields; hide LeafOf; hide ReceivedChunk; hide Unseal; hide Hash; hide CommitInput; hide Taken;
    hide GoodPairs; hide ChunksOf; hide Leaves;
    if Reading(Receiver, s) {
      NextIsExpected(c, s, told, received);
      NextLine(told, Taken(Receiver, s), received, s.input, t, u);
    } else if s.state == VerifyChunk {
      ChunkPasses(c, s, told, received);
    }
  }
}
