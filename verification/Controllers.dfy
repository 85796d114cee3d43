/** Controllers/controllers.go: the step functions of the two roles. */
module Controllers {
  import opened Bytes
  import opened Crypto
  import opened Merkle
  import opened Partition
  import opened Protocol
  import opened Wire

  // ---------- chunks ----------

  /** H_resp = Keccak(key || plaintext). */
  function CommitInput(ch: ChunkData): bytes {
    ch.key + ch.plaintext
  }

  /** What GenerateLeaf hashes. */
  function LeafInput(ch: ChunkData): bytes {
    ch.fileID + (PutU32(ch.index) + (ch.nonce + (ch.ciphertext + ch.hresp)))
  }

  function LeafOf(c: Suite, ch: ChunkData): bytes {
    Hash(c, LeafInput(ch))
  }

  /** BuildAndEncryptChunk with the key and nonce drawn for this chunk. */
  function BuildChunk(c: Suite, fileID: bytes, i: u32, plaintext: bytes, key: bytes, nonce: bytes): ChunkData {
    ChunkData(fileID, i, Truncate32(|plaintext|), plaintext, Seal(c, key, nonce, plaintext),
              key, nonce, Hash(c, key + plaintext), [])
  }

  /** The chunk the receiver makes of a response; its key and plaintext come later. */
  function ReceivedChunk(fileID: bytes, m: Message): ChunkData
    requires m.Response?
  {
    ChunkData(fileID, m.index, Truncate32(|m.ciphertext|), [], m.ciphertext, [], m.nonce, m.hresp, [])
  }

  // ---------- sender ----------

  function HeaderOf(s: Snapshot): Message {
    Header(s.totalChunks, s.fileID, s.fileName, Truncate32(s.fileSize))
  }

  function SenderStep(c: Suite, sec: Secrets, s: Snapshot, io: Io): StepResult {
    match s.state
    case Idle => Next(s, SendHeader)
    case SendHeader =>
      var s' := s.(output := s.output + Written(Encode(HeaderOf(s)), io));
      if io.Broken? then Fail(s')
      else Next(s', if s.totalChunks == 0 then Finished else WaitingChunkRequest)
    case WaitingChunkRequest => ExpectIndex(s, RequestKind, SendChunkResponse)
    case SendChunkResponse =>
      var i := s.currentChunk;
      var ch := BuildChunk(c, s.fileID, i, Piece(s.file, i), KeyFor(sec, i), NonceFor(sec, i));
      var m := Response(i, ch.ciphertext, ch.nonce, ch.hresp);
      var s' := s.(output := s.output + Written(Encode(m), io));
      if io.Broken? then Fail(s') else Next(s'.(pending := Some(ch)), WaitingLotteryTicket)
    case WaitingLotteryTicket => ExpectIndex(s, TicketKind, SendKeyReveal)
    case SendKeyReveal =>
      if s.pending.None? then Crash else
      var ch := s.pending.value;
      var s' := s.(output := s.output + Written(Encode(KeyReveal(s.currentChunk, ch.key)), io));
      if io.Broken? then Fail(s') else ConfirmChunk(s'.(leaves := s.leaves + [LeafOf(c, ch)]), WaitingChunkRequest)
    case VerifyMerkle =>
      if !s.midStep then
        var s' := s.(output := s.output + Written(Encode(RootMsg(Root(c, s.leaves))), io));
        if io.Broken? then Fail(s') else Continue(s'.(midStep := true))
      else (
        match Decode(AckKind, s.input)
        case Short => Wait
        case Bad => Fail(s)
        case Got(_, rest) => Next(s.(input := rest, midStep := false), Finished)
      )
    case _ => Crash
  }

  /** Reading a request or a ticket, which must name the current chunk. */
  function ExpectIndex(s: Snapshot, k: Kind, next: State): StepResult
    requires k == RequestKind || k == TicketKind
  {
    match Decode(k, s.input)
    case Short => Wait
    case Bad => Fail(s)
    case Got(m, rest) =>
      DecodeExact(k, s.input);
      if m.index != s.currentChunk then Fail(s.(input := rest)) else Next(s.(input := rest), next)
  }

  /** The end of a chunk on either side: drop it, and go on to the next one or to the root. */
  function ConfirmChunk(s: Snapshot, again: State): StepResult {
    var s' := s.(pending := None);
    if IsLastChunk(s) then Next(s', VerifyMerkle) else Next(AdvanceChunk(s'), again)
  }

  /** The chunk itself plays no part any more. */
  lemma ConfirmForgets(s: Snapshot, p: Option<ChunkData>, again: State)
    ensures ConfirmChunk(s.(pending := p), again) == ConfirmChunk(s, again) && ConfirmChunk(s, again).Next?
  {
  }

  // ---------- receiver ----------

  function TakeHeader(s: Snapshot, io: Io): StepResult {
    match Decode(HeaderKind, s.input)
    case Short => Wait
    case Bad => Fail(s)
    case Got(m, rest) =>
      DecodeExact(HeaderKind, s.input);
      var s' := s.(input := rest, fileID := m.fileID, fileName := m.name, fileSize := m.fileSize,
                   totalChunks := m.reps, file := []);
      if io.Broken? then Fail(s') else Next(s', if m.reps == 0 then Finished else SendChunkRequest)
  }

  function TakeResponse(s: Snapshot): StepResult {
    match Decode(ResponseKind, s.input)
    case Short => Wait
    case Bad => Fail(s)
    case Got(m, rest) =>
      DecodeExact(ResponseKind, s.input);
      var s' := s.(input := rest);
      if m.index != s.currentChunk then Fail(s')
      else Next(s'.(pending := Some(ReceivedChunk(s.fileID, m))), SendLotteryTicket)
  }

  function TakeKey(s: Snapshot): StepResult {
    match Decode(KeyKind, s.input)
    case Short => Wait
    case Bad => Fail(s)
    case Got(m, rest) =>
      DecodeExact(KeyKind, s.input);
      var s' := s.(input := rest);
      if m.index != s.currentChunk then Fail(s')
      else if s.pending.None? then Crash
      else Next(s'.(pending := Some(s.pending.value.(key := m.key))), VerifyChunk)
  }

  function CheckChunk(c: Suite, s: Snapshot, io: Io): StepResult {
    if s.pending.None? then Crash else
    var ch := s.pending.value;
    var plain := Unseal(c, ch.key, ch.nonce, ch.ciphertext);
    if plain.None? then Fail(s) else
    var ch := ch.(plaintext := plain.value);
    if Hash(c, CommitInput(ch)) != ch.hresp then Fail(s.(pending := Some(ch))) else
    var s' := s.(leaves := s.leaves + [LeafOf(c, ch)], file := s.file + Written(ch.plaintext, io));
    if io.Broken? then Fail(s'.(pending := Some(ch.(leaf := LeafOf(c, ch))))) else ConfirmChunk(s', SendChunkRequest)
  }

  function ReceiverStep(c: Suite, s: Snapshot, io: Io): StepResult {
    match s.state
    case Idle => Next(s, ReceiveHeader)
    case ReceiveHeader => TakeHeader(s, io)
    case SendChunkRequest => SendIndex(s, Request(s.currentChunk), io, WaitingChunkResponse)
    case WaitingChunkResponse => TakeResponse(s)
    case SendLotteryTicket => SendIndex(s, Ticket(s.currentChunk), io, WaitingKeyReveal)
    case WaitingKeyReveal => TakeKey(s)
    case VerifyChunk => CheckChunk(c, s, io)
    case VerifyMerkle =>
      if !s.midStep then (
        match Decode(RootKind, s.input)
        case Short => Wait
        case Bad => Fail(s)
        case Got(m, rest) =>
          DecodeExact(RootKind, s.input);
          if m.root != Root(c, s.leaves) then Fail(s.(input := rest)) else Continue(s.(input := rest, midStep := true))
      ) else
        SendIndex(s.(midStep := false), FinalAck, io, Finished)
    case _ => Crash
  }

  function SendIndex(s: Snapshot, m: Message, io: Io, next: State): StepResult {
    var s' := s.(output := s.output + Written(Encode(m), io));
    if io.Broken? then Fail(s') else Next(s', next)
  }

  // ---------- running ----------

  function Step(c: Suite, role: Role, sec: Secrets, s: Snapshot, io: Io): StepResult {
    if role == Sender then SenderStep(c, sec, s, io) else ReceiverStep(c, s, io)
  }

  /** One atomic action of a party. On an open stream a blocked party stays where it is. */
  function Act(c: Suite, role: Role, sec: Secrets, s: Snapshot, io: Io, closed: bool): Snapshot {
    if Terminal(s) then s
    else if !HasStep(role, s.state) then Failed(s)
    else Settle(s, Step(c, role, sec, s, io), closed)
  }

  /** A step function run to its end on a closed stream, where a short read is an error. */
  function WholeStep(c: Suite, role: Role, sec: Secrets, s: Snapshot, io: Io): StepResult {
    var r := Step(c, role, sec, s, io);
    var r' := if r.Continue? then Step(c, role, sec, r.s, io) else r;
    if r'.Wait? then Fail(if r.Continue? then r.s else s) else r'
  }

  /** One round of Run's loop. */
  function Round(c: Suite, role: Role, sec: Secrets, s: Snapshot, io: Io): Snapshot {
    if Terminal(s) then s
    else if !HasStep(role, s.state) then Failed(s)
    else Settle(s, WholeStep(c, role, sec, s, io), true)
  }

  /** The session after k rounds of Run, when the local I/O of round i goes as io(i). */
  function RunFor(c: Suite, role: Role, sec: Secrets, s: Snapshot, io: nat -> Io, k: nat): Snapshot {
    if k == 0 then s else Round(c, role, sec, RunFor(c, role, sec, s, io, k - 1), io(k - 1))
  }

  /** NewSession and SendFile. The file ID is any 32-byte string. */
  function SenderStart(file: bytes, name: bytes, fileID: bytes, input: bytes): Snapshot {
    Snapshot(Idle, fileID, name, Truncate32(|file|), 0, Reps(|file|), file, None, [], input, [], false)
  }

  /** NewSession and RecieveFile. */
  function ReceiverStart(input: bytes): Snapshot {
    Snapshot(Idle, [], [], 0, 0, 0, [], None, [], input, [], false)
  }

  /** The flag midStep is up exactly between the two halves of VerifyMerkle. */
  lemma StepHalves(c: Suite, role: Role, sec: Secrets, s: Snapshot, io: Io)
    requires s.midStep ==> s.state == VerifyMerkle
    ensures var r := Step(c, role, sec, s, io);
            && (r.Continue? ==> !s.midStep && r.s.midStep && r.s.state == s.state == VerifyMerkle)
            && (r.Next? ==> !r.s.midStep && r.s.state == s.state)
            && (r.Crash? ==> s.state != VerifyMerkle)
  {
    hide Decode; hide Encode; hide Root; hide Piece; hide LeafOf; hide CommitInput; hide BuildChunk;
  }

  /** A round is one action, or both halves of VerifyMerkle. */
  lemma {:induction false} RoundIsActs(c: Suite, role: Role, sec: Secrets, s: Snapshot, io: Io)
    requires !s.midStep
    ensures var s1 := Act(c, role, sec, s, io, true);
            Round(c, role, sec, s, io) == if s1.midStep then Act(c, role, sec, s1, io, true) else s1
  {
    hide Step;
    StepHalves(c, role, sec, s, io);
    var r := Step(c, role, sec, s, io);
    if r.Continue? {
      StepHalves(c, role, sec, r.s, io);
    }
  }

  /** Between rounds no step is half done. */
  lemma RoundHead(c: Suite, role: Role, sec: Secrets, s: Snapshot, io: Io)
    requires !s.midStep
    ensures !Round(c, role, sec, s, io).midStep
  {
    hide Step;
    StepHalves(c, role, sec, s, io);
    var r := Step(c, role, sec, s, io);
    if r.Continue? {
      StepHalves(c, role, sec, r.s, io);
    }
  }
}
