/**
 The conversation that the two step tables describe: for n chunks the sender says
 Header, Response 0, KeyReveal 0, ..., Response n-1, KeyReveal n-1, MerkleRoot
 and the receiver Request 0, Ticket 0, ..., Request n-1, Ticket n-1, FinalAck.
 The state and the chunk counter of a session fix how much of each side's script is behind it.
 */
module Scripts {
  import opened Bytes
  import opened Crypto
  import opened Merkle
  import opened Partition
  import opened Protocol
  import opened Wire
  import opened Controllers

  // ---------- the two scripts ----------

  function ReceiverLine(n: u32, j: nat): Message
    requires j < 2 * n + 1
  {
    if j == 2 * n then FinalAck else if j % 2 == 0 then Request(j / 2) else Ticket(j / 2)
  }

  function ReceiverScript(n: u32): (script: seq<Message>)
    ensures |script| == if n == 0 then 0 else 2 * n + 1
    ensures AllWellSized(script)
  {
    if n == 0 then [] else seq(2 * n + 1, j requires 0 <= j < 2 * n + 1 => ReceiverLine(n, j))
  }

  /** What a sender is given: the file, and what the header and the chunks need besides. */
  datatype RawSource = Source(file: bytes, name: bytes, fileID: bytes, sec: Secrets)

  type Source = r: RawSource | |r.name| < U32_LIMIT && |r.fileID| == HASH_SIZE
    witness Source([], [], Zeros(HASH_SIZE), Secrets(i => Zeros(KEY_SIZE), i => Zeros(NONCE_SIZE)))

  function Count(src: Source): u32 {
    Reps(|src.file|)
  }

  function SentChunk(c: Suite, src: Source, i: u32): ChunkData {
    BuildChunk(c, src.fileID, i, Piece(src.file, i), KeyFor(src.sec, i), NonceFor(src.sec, i))
  }

  function SentChunks(c: Suite, src: Source, d: nat): (chs: seq<ChunkData>)
    requires d <= Count(src)
    ensures |chs| == d
  {
    seq(d, i requires 0 <= i < d => SentChunk(c, src, i))
  }

  function Leaves(c: Suite, chs: seq<ChunkData>): (ls: seq<bytes>)
    ensures |ls| == |chs| && Digests(ls)
  {
    seq(|chs|, i requires 0 <= i < |chs| => LeafOf(c, chs[i]))
  }

  function Plaintexts(chs: seq<ChunkData>): bytes {
    Flatten(seq(|chs|, i requires 0 <= i < |chs| => chs[i].plaintext))
  }

  function SenderRoot(c: Suite, src: Source): bytes {
    Root(c, Leaves(c, SentChunks(c, src, Count(src))))
  }

  function SenderLine(c: Suite, src: Source, j: nat): Message
    requires j == 0 || j < 2 * Count(src) + 2
  {
    if j == 0 then Header(Count(src), src.fileID, src.name, Truncate32(|src.file|))
    else if j == 2 * Count(src) + 1 then RootMsg(SenderRoot(c, src))
    else if j % 2 == 1 then
      var ch := SentChunk(c, src, (j - 1) / 2);
      Response(ch.index, ch.ciphertext, ch.nonce, ch.hresp)
    else
      KeyReveal((j - 2) / 2, KeyFor(src.sec, (j - 2) / 2))
  }

  function SenderScript(c: Suite, src: Source): (script: seq<Message>)
    ensures |script| == if Count(src) == 0 then 1 else 2 * Count(src) + 2
  {
    var n := if Count(src) == 0 then 1 else 2 * Count(src) + 2;
    seq(n, j requires 0 <= j < n => SenderLine(c, src, j))
  }

  // ---------- where a session is in the scripts ----------

  /** Messages written so far by a party in a state without error. */
  function Sent(role: Role, s: Snapshot): nat {
    var i, n := s.currentChunk, s.totalChunks;
    match s.state
    case Idle => 0
    case SendHeader => 0
    case ReceiveHeader => 0
    case WaitingChunkRequest => 1 + 2 * i
    case SendChunkResponse => 1 + 2 * i
    case WaitingLotteryTicket => 2 + 2 * i
    case SendKeyReveal => 2 + 2 * i
    case SendChunkRequest => 2 * i
    case WaitingChunkResponse => 1 + 2 * i
    case SendLotteryTicket => 1 + 2 * i
    case WaitingKeyReveal => 2 + 2 * i
    case VerifyChunk => 2 + 2 * i
    case VerifyMerkle => if role == Receiver then 2 * n else if s.midStep then 2 * n + 2 else 2 * n + 1
    case Finished =>
      if role == Sender then (if n == 0 then 1 else 2 * n + 2) else if n == 0 then 0 else 2 * n + 1
    case Error => 0
  }

  /** Messages read so far. */
  function Taken(role: Role, s: Snapshot): nat {
    var i, n := s.currentChunk, s.totalChunks;
    match s.state
    case Idle => 0
    case SendHeader => 0
    case ReceiveHeader => 0
    case WaitingChunkRequest => 2 * i
    case SendChunkResponse => 1 + 2 * i
    case WaitingLotteryTicket => 1 + 2 * i
    case SendKeyReveal => 2 + 2 * i
    case SendChunkRequest => 1 + 2 * i
    case WaitingChunkResponse => 1 + 2 * i
    case SendLotteryTicket => 2 + 2 * i
    case WaitingKeyReveal => 2 + 2 * i
    case VerifyChunk => 3 + 2 * i
    case VerifyMerkle => if role == Sender then 2 * n else if s.midStep then 2 * n + 2 else 2 * n + 1
    case Finished =>
      if role == Receiver then (if n == 0 then 1 else 2 * n + 2) else if n == 0 then 0 else 2 * n + 1
    case Error => 0
  }

  /** The next action reads from the peer. */
  predicate Reading(role: Role, s: Snapshot) {
    match role
    case Sender =>
      s.state == WaitingChunkRequest || s.state == WaitingLotteryTicket || (s.state == VerifyMerkle && s.midStep)
    case Receiver =>
      || s.state == ReceiveHeader || s.state == WaitingChunkResponse || s.state == WaitingKeyReveal
      || (s.state == VerifyMerkle && !s.midStep)
  }

  /** The next action writes to the peer. */
  predicate Writing(role: Role, s: Snapshot) {
    match role
    case Sender =>
      || s.state == SendHeader || s.state == SendChunkResponse || s.state == SendKeyReveal
      || (s.state == VerifyMerkle && !s.midStep)
    case Receiver =>
      s.state == SendChunkRequest || s.state == SendLotteryTicket || (s.state == VerifyMerkle && s.midStep)
  }

  /** Chunks that both halves of the exchange are done with: one leaf each. */
  function Done(s: Snapshot): nat {
    match s.state
    case Idle => 0
    case SendHeader => 0
    case ReceiveHeader => 0
    case VerifyMerkle => s.totalChunks
    case Finished => s.totalChunks
    case Error => 0
    case _ => s.currentChunk
  }

  /** The chunk counter: below the total inside the transfer, on the last chunk at its end. */
  predicate CounterOk(s: Snapshot) {
    match s.state
    case Idle => s.currentChunk == 0
    case SendHeader => s.currentChunk == 0
    case ReceiveHeader => s.currentChunk == 0
    case VerifyMerkle => IsLastChunk(s)
    case Finished => if s.totalChunks == 0 then s.currentChunk == 0 else IsLastChunk(s)
    case Error => true
    case _ => s.currentChunk < s.totalChunks
  }

  // ---------- lists of chunks ----------

  lemma LeavesSnoc(c: Suite, chs: seq<ChunkData>, ch: ChunkData)
    ensures Leaves(c, chs + [ch]) == Leaves(c, chs) + [LeafOf(c, ch)]
  {
    hide LeafOf;
  }

  lemma SentChunksSnoc(c: Suite, src: Source, i: u32)
    requires i < Count(src)
    ensures SentChunks(c, src, i as nat + 1) == SentChunks(c, src, i) + [SentChunk(c, src, i)]
    ensures Leaves(c, SentChunks(c, src, i as nat + 1))
         == Leaves(c, SentChunks(c, src, i)) + [LeafOf(c, SentChunk(c, src, i))]
  {
    hide SentChunk; hide Leaves; hide LeafOf;
    assert SentChunks(c, src, i as nat + 1) == SentChunks(c, src, i) + [SentChunk(c, src, i)];
    LeavesSnoc(c, SentChunks(c, src, i), SentChunk(c, src, i));
  }

  lemma {:induction false} PlaintextsSnoc(chs: seq<ChunkData>, ch: ChunkData)
    ensures Plaintexts(chs + [ch]) == Plaintexts(chs) + ch.plaintext
  {
    var a := seq(|chs|, i requires 0 <= i < |chs| => chs[i].plaintext);
    var b := seq(|chs| + 1, i requires 0 <= i < |chs| + 1 => (chs + [ch])[i].plaintext);
    assert b == a + [ch.plaintext];
    FlattenSnoc(a, ch.plaintext);
  }

  /** The plaintexts sent are the pieces of the file. */
  lemma SentPlaintexts(c: Suite, src: Source, d: nat)
    requires d <= Count(src)
    ensures Plaintexts(SentChunks(c, src, d)) == src.file[..Min(|src.file|, CHUNK_SIZE * d)]
  {
    hide Piece; hide Flatten;
    var chs := SentChunks(c, src, d);
    PiecesCoverPrefix(src.file, d);
    assert Pieces(src.file, d) == seq(d, i requires 0 <= i < d => chs[i].plaintext);
  }

  lemma SenderScriptSized(c: Suite, src: Source)
    ensures AllWellSized(SenderScript(c, src))
  {
    hide Piece; hide Root; hide LeafOf;
    var n: nat := Count(src);
    forall j | 0 <= j < |SenderScript(c, src)|
      ensures WellSized(SenderLine(c, src, j))
    {
      if j == 2 * n + 1 && n > 0 {
        RootSize(c, Leaves(c, SentChunks(c, src, n)));
      }
    }
  }

  // ---------- lines of the scripts ----------

  lemma SenderLines(c: Suite, src: Source, i: nat)
    requires i < Count(src)
    ensures var (ss, n, ch) := (SenderScript(c, src), Count(src), SentChunk(c, src, i));
            && ss[1 + 2 * i] == Response(i, ch.ciphertext, ch.nonce, ch.hresp)
            && ss[2 + 2 * i] == KeyReveal(i, ch.key)
            && ss[2 * n as nat + 1] == RootMsg(SenderRoot(c, src))
  {
    hide Root; hide Piece;
    assert (1 + 2 * i - 1) / 2 == i && (2 + 2 * i - 2) / 2 == i;
  }

  /**
   What the sender says about chunk i: the file's bytes at their offset, sealed under the key and
   the nonce drawn for this chunk, with the commitment to key and bytes; and later that very key.
   */
  lemma {:induction false} ChunkLines(c: Suite, src: Source, i: nat)
    requires i < Count(src)
    ensures var (ss, key, nonce, p) := (SenderScript(c, src), src.sec.key(i), src.sec.nonce(i), Piece(src.file, i));
            && ss[1 + 2 * i] == Response(i, c.seal(key, nonce, p), nonce, c.keccak(key + p))
            && ss[2 + 2 * i] == KeyReveal(i, key)
  {
    hide Lawful; hide SenderScript; hide Piece; hide Reps;
    SenderLines(c, src, i);
  }

  /** The same file, name and ID, to be sent under secrets that may differ. */
  predicate SameFile(a: Source, b: Source) {
    a.file == b.file && a.name == b.name && a.fileID == b.fileID
  }

  ghost predicate SameSecrets(a: Source, b: Source, i: nat) {
    a.sec.key(i) == b.sec.key(i) && a.sec.nonce(i) == b.sec.nonce(i)
  }

  /** What is said about chunk i depends on no secrets but those of chunk i. */
  lemma {:induction false} SecretsAreLocal(c: Suite, a: Source, b: Source, i: nat)
    requires SameFile(a, b) && i < Count(a) && SameSecrets(a, b, i)
    ensures var (sa, sb) := (SenderScript(c, a), SenderScript(c, b));
            sa[1 + 2 * i] == sb[1 + 2 * i] && sa[2 + 2 * i] == sb[2 + 2 * i]
  {
    hide Lawful; hide SenderScript; hide Piece; hide Reps;
    ChunkLines(c, a, i);
    ChunkLines(c, b, i);
  }

  lemma ReceiverLines(n: u32, i: nat)
    requires i < n
    ensures var rs := ReceiverScript(n);
            rs[2 * i] == Request(i) && rs[2 * i + 1] == Ticket(i) && rs[2 * n as nat] == FinalAck
  {
    assert 2 * i / 2 == i && (2 * i + 1) / 2 == i;
  }

  /** Writing line k of a script. */
  lemma WriteLine(script: seq<Message>, k: nat, output: bytes, io: Io)
    requires k < |script| && output == EncodeAll(script[..k])
    ensures output + Written(Encode(script[k]), io) <= EncodeAll(script[..k + 1])
    ensures io.Fine? ==> output + Written(Encode(script[k]), io) == EncodeAll(script[..k + 1])
  {
    hide Encode; hide EncodeAll;
    EncodeAllSplit(script, k);
  }

  /** Line k is not complete in what has been received. */
  ghost predicate Incomplete(script: seq<Message>, k: nat, received: bytes) {
    k < |script| && |received| < |EncodeAll(script[..k + 1])|
  }

  /** Reading line k of a script. */
  lemma ReadLine(script: seq<Message>, k: nat, received: bytes, input: bytes, rest: bytes)
    requires k < |script| && received == EncodeAll(script[..k]) + input && input == Encode(script[k]) + rest
    ensures received == EncodeAll(script[..k + 1]) + rest
  {
    hide Encode; hide EncodeAll;
    EncodeAllSplit(script, k);
    Assoc(EncodeAll(script[..k]), Encode(script[k]), rest);
  }

  /**
   A reader at line k of a script, on a stream that agrees with the script as far as both go: it
   waits exactly until line k is complete, and then takes line k.
   */
  lemma {:induction false} NextLine(script: seq<Message>, k: nat, received: bytes, input: bytes, t: bytes, u: bytes)
    requires k < |script| && AllWellSized(script)
    requires received == EncodeAll(script[..k]) + input && received + t == EncodeAll(script) + u
    ensures |received| < |EncodeAll(script[..k + 1])| ==> Decode(KindOf(script[k]), input) == Short
    ensures |received| >= |EncodeAll(script[..k + 1])| ==>
              && Decode(KindOf(script[k]), input).Got?
              && Decode(KindOf(script[k]), input).value == script[k]
  {
    hide Encode; hide EncodeAll; hide Decode;
    EncodeAllSplit(script, k);
    var (before, m, after) := (EncodeAll(script[..k]), script[k], EncodeAll(script[k + 1..]));
    assert input + t == Encode(m) + (after + u) by {
      Assoc(before, input, t);
      Assoc(before, Encode(m), after);
      Assoc(before, Encode(m) + after, u);
      Assoc(Encode(m), after, u);
      assert before + (input + t) == before + (Encode(m) + (after + u));
      SplitConcat(before, input + t, before, Encode(m) + (after + u));
    }
    DecodePartial(m, input, t, after + u);
  }

  // ---------- counting rounds ----------

  /** Rounds of Run behind a session without error. */
  function RoundsDone(role: Role, s: Snapshot): nat {
    var i, n := s.currentChunk, s.totalChunks;
    match s.state
    case Idle => 0
    case SendHeader => 1
    case ReceiveHeader => 1
    case WaitingChunkRequest => 2 + 4 * i
    case SendChunkResponse => 3 + 4 * i
    case WaitingLotteryTicket => 4 + 4 * i
    case SendKeyReveal => 5 + 4 * i
    case SendChunkRequest => 2 + 5 * i
    case WaitingChunkResponse => 3 + 5 * i
    case SendLotteryTicket => 4 + 5 * i
    case WaitingKeyReveal => 5 + 5 * i
    case VerifyChunk => 6 + 5 * i
    case VerifyMerkle => if role == Sender then 2 + 4 * n else 2 + 5 * n
    case Finished => if n == 0 then 2 else if role == Sender then 3 + 4 * n else 3 + 5 * n
    case Error => 0
  }

  /** A round that neither fails nor starts from a terminal state counts one. */
  ghost predicate Advances(role: Role, s: Snapshot, r: StepResult) {
    match r
    case Next(s', next) =>
      next != Error && CounterOk(s'.(state := next)) && RoundsDone(role, s'.(state := next)) == RoundsDone(role, s) + 1
    case Continue(s') => s'.state == s.state && s'.currentChunk == s.currentChunk && s'.totalChunks == s.totalChunks
    case _ => true
  }

  lemma {:induction false} SenderAdvances(c: Suite, sec: Secrets, s: Snapshot, io: Io)
    requires HasStep(Sender, s.state) && CounterOk(s)
    ensures Advances(Sender, s, SenderStep(c, sec, s, io))
  {
    hide Encode; hide Decode; hide Written; hide Root; hide LeafOf; hide BuildChunk; hide Piece; hide Lawful;
    hide KeyFor; hide NonceFor;
  }

  lemma ReceiverReadAdvances(c: Suite, s: Snapshot, io: Io)
    requires HasStep(Receiver, s.state) && CounterOk(s) && Reading(Receiver, s)
    ensures Advances(Receiver, s, ReceiverStep(c, s, io))
  {
    hide Decode; hide Root; hide Lawful; hide ReceivedChunk;
  }

  lemma ReceiverVerifyAdvances(c: Suite, s: Snapshot, io: Io)
    requires s.state == VerifyChunk && CounterOk(s)
    ensures Advances(Receiver, s, ReceiverStep(c, s, io))
  {
    hide Written; hide LeafOf; hide Lawful; hide CommitInput; hide Hash; hide Unseal;
  }

  lemma {:induction false} ReceiverAdvances(c: Suite, s: Snapshot, io: Io)
    requires HasStep(Receiver, s.state) && CounterOk(s)
    ensures Advances(Receiver, s, ReceiverStep(c, s, io))
  {
    if Reading(Receiver, s) {
      ReceiverReadAdvances(c, s, io);
    } else if s.state == VerifyChunk {
      ReceiverVerifyAdvances(c, s, io);
    } else {
      hide Encode; hide Written; hide Lawful;
    }
  }

  lemma StepAdvances(c: Suite, role: Role, sec: Secrets, s: Snapshot, io: Io)
    requires HasStep(role, s.state) && CounterOk(s)
    ensures Advances(role, s, Step(c, role, sec, s, io))
  {
    hide SenderStep; hide ReceiverStep; hide Advances; hide CounterOk;
    if role == Sender {
      SenderAdvances(c, sec, s, io);
    } else {
      ReceiverAdvances(c, s, io);
    }
  }

  lemma SamePlace(role: Role, s: Snapshot, t: Snapshot)
    requires s.state == t.state && s.currentChunk == t.currentChunk && s.totalChunks == t.totalChunks
    ensures CounterOk(s) == CounterOk(t) && RoundsDone(role, s) == RoundsDone(role, t)
  {
  }

  lemma WholeStepAdvances(c: Suite, role: Role, sec: Secrets, s: Snapshot, io: Io)
    requires HasStep(role, s.state) && CounterOk(s) && !s.midStep
    ensures Advances(role, s, WholeStep(c, role, sec, s, io)) && !WholeStep(c, role, sec, s, io).Continue?
  {
    hide Step; hide CounterOk; hide RoundsDone; hide HasStep;
    var r := Step(c, role, sec, s, io);
    StepHalves(c, role, sec, s, io);
    StepAdvances(c, role, sec, s, io);
    if r.Continue? {
      SamePlace(role, s, r.s);
      StepHalves(c, role, sec, r.s, io);
      StepAdvances(c, role, sec, r.s, io);
    }
  }

  lemma RoundAdvances(c: Suite, role: Role, sec: Secrets, s: Snapshot, io: Io)
    requires HasStep(role, s.state) && CounterOk(s) && !s.midStep
    ensures var s' := Round(c, role, sec, s, io);
            s'.state == Error || (CounterOk(s') && RoundsDone(role, s') == RoundsDone(role, s) + 1)
  {
    hide WholeStep; hide CounterOk; hide RoundsDone;
    WholeStepAdvances(c, role, sec, s, io);
  }
}
