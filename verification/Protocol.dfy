/**
 Protocol/: the states of a transfer, the transition table, and the session as a value. A
 snapshot holds what a session object and its two streams hold: `input` is what has arrived and
 was not read yet, `output` all that was written.
 */
module Protocol {
  import opened Bytes
  import opened Crypto

  datatype State =
    | Idle
    | SendHeader
    | ReceiveHeader
    | WaitingChunkRequest
    | SendChunkResponse
    | WaitingLotteryTicket
    | SendKeyReveal
    | SendChunkRequest
    | WaitingChunkResponse
    | SendLotteryTicket
    | WaitingKeyReveal
    | VerifyChunk
    | VerifyMerkle
    | Finished
    | Error

  function ValidTransitions(s: State): seq<State> {
    match s
    case Idle => [SendHeader, ReceiveHeader]
    case SendHeader => [WaitingChunkRequest, Finished]
    case WaitingChunkRequest => [SendChunkResponse]
    case SendChunkResponse => [WaitingLotteryTicket]
    case WaitingLotteryTicket => [SendKeyReveal]
    case SendKeyReveal => [WaitingChunkRequest, VerifyMerkle]
    case ReceiveHeader => [SendChunkRequest, Finished]
    case SendChunkRequest => [WaitingChunkResponse]
    case WaitingChunkResponse => [SendLotteryTicket]
    case SendLotteryTicket => [WaitingKeyReveal]
    case WaitingKeyReveal => [VerifyChunk]
    case VerifyChunk => [SendChunkRequest, VerifyMerkle]
    case VerifyMerkle => [Finished]
    case Finished => []
    case Error => []
  }

  predicate IsAllowed(current: State, next: State) {
    next in ValidTransitions(current)
  }

  datatype Role = Sender | Receiver

  /** The states for which a role's step table has an entry. */
  predicate HasStep(role: Role, s: State) {
    match role
    case Sender =>
      s in {Idle, SendHeader, WaitingChunkRequest, SendChunkResponse, WaitingLotteryTicket, SendKeyReveal, VerifyMerkle}
    case Receiver =>
      s in {Idle, ReceiveHeader, SendChunkRequest, WaitingChunkResponse, SendLotteryTicket, WaitingKeyReveal,
            VerifyChunk, VerifyMerkle}
  }

  datatype ChunkData = ChunkData(
    fileID: bytes, index: u32, length: u32, plaintext: bytes, ciphertext: bytes,
    key: bytes, nonce: bytes, hresp: bytes, leaf: bytes)

  datatype Snapshot = Snapshot(
    state: State,
    fileID: bytes, fileName: bytes, fileSize: nat,
    currentChunk: u32, totalChunks: u32,
    file: bytes,
    pending: Option<ChunkData>,
    leaves: seq<bytes>,
    input: bytes, output: bytes,
    midStep: bool)  // inside VerifyMerkle, past the point where that step may block

  predicate Terminal(s: Snapshot) {
    s.state == Finished || s.state == Error
  }

  predicate IsLastChunk(s: Snapshot) {
    s.totalChunks > 0 && s.currentChunk == s.totalChunks - 1
  }

  /** CurrentChunk++ on a uint32. */
  function AdvanceChunk(s: Snapshot): Snapshot {
    s.(currentChunk := Truncate32(s.currentChunk + 1))
  }

  /** Session.Fail. Nothing reads the stream after it, so the unread input is dropped. */
  function Failed(s: Snapshot): Snapshot {
    s.(state := Error, input := [], midStep := false)
  }

  // ---------- the environment ----------

  /**
   How the local I/O of one step goes: it works, or it breaks after `done` bytes of the write it
   makes (a step that breaks elsewhere, such as a failing read from disk, is `Broken(0)`).
   */
  datatype Io = Fine | Broken(done: nat)

  /** Local I/O that never breaks. */
  ghost predicate Works(io: nat -> Io) {
    forall i: nat :: io(i) == Fine
  }

  function Written(b: bytes, io: Io): (w: bytes)
    ensures w <= b
  {
    match io
    case Fine => b
    case Broken(n) => b[..Min(n, |b|)]
  }

  /** The random key and nonce drawn for each chunk. */
  datatype RawSecrets = Secrets(key: nat -> bytes, nonce: nat -> bytes)

  ghost predicate SizedSecrets(r: RawSecrets) {
    forall i: nat :: |r.key(i)| == KEY_SIZE && |r.nonce(i)| == NONCE_SIZE
  }

  type Secrets = r: RawSecrets | SizedSecrets(r)
    witness Secrets(i => Zeros(KEY_SIZE), i => Zeros(NONCE_SIZE))

  function KeyFor(sec: Secrets, i: nat): (key: bytes)
    ensures |key| == KEY_SIZE
  {
    sec.key(i)
  }

  function NonceFor(sec: Secrets, i: nat): (nonce: bytes)
    ensures |nonce| == NONCE_SIZE
  {
    sec.nonce(i)
  }

  /** What a step function returns to Run. */
  datatype StepResult =
    | Next(s: Snapshot, next: State)
    | Continue(s: Snapshot)   // the step goes on past its blocking point
    | Fail(s: Snapshot)       // an error return
    | Wait                    // blocked: too few bytes have arrived
    | Crash                   // a nil dereference

  /** The body of Run's loop after the step: Transition, or Fail. */
  function Settle(s: Snapshot, r: StepResult, closed: bool): Snapshot {
    match r
    case Next(s', next) => if IsAllowed(s.state, next) then s'.(state := next) else Failed(s')
    case Continue(s') => s'
    case Fail(s') => Failed(s')
    case Wait => if closed then Failed(s) else s
    case Crash => Failed(s)
  }
}
