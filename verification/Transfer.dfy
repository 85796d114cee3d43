/** The step functions of Controllers/controllers.go and the driver of Protocol/fsm.go, on session objects. */
module Transfer {
  import opened Bytes
  import opened Crypto
  import opened Merkle
  import opened Partition
  import opened Protocol
  import opened Wire
  import opened Controllers
  import opened Scripts
  import opened Streams
  import opened Sessions

  /** The object shows what the step function on values returns. After an error the unread input is of no account. */
  ghost predicate Shows(s: Session, r: StepResult, ok: bool, next: State)
    reads s, s.conn, s.pendingChunk
  {
    match r
    case Next(v, to) => ok && next == to && s.View() == v
    case Fail(v) => !ok && s.View().(input := []) == v.(input := [], midStep := false)
    case _ => false
  }

  /** The chunk field is set exactly in the states between a response and the end of its chunk. */
  predicate InFlight(role: Role, st: State) {
    match role
    case Sender => st == WaitingLotteryTicket || st == SendKeyReveal
    case Receiver => st == SendLotteryTicket || st == WaitingKeyReveal || st == VerifyChunk
  }

  ghost predicate PendingFits(role: Role, s: Snapshot) {
    s.pending.Some? <==> InFlight(role, s.state)
  }

  /** The common end of SendKeyReveal and VerifyChunk. */
  method Confirm(s: Session, again: State) returns (next: State)
    modifies s`pendingChunk, s`currentChunk
    ensures Shows(s, ConfirmChunk(old(s.View()), again), true, next) && s.pendingChunk == null
  {
    var last := s.IsLast();
    s.pendingChunk := null;
    if last {
      return VerifyMerkle;
    }
    s.Advance();
    next := again;
  }

  // ---------- sender ----------

  method StepSenderSendHeader(c: Suite, sec: Secrets, s: Session, io: Io) returns (ok: bool, next: State)
    requires s.state == SendHeader
    modifies s.conn
    ensures Shows(s, WholeStep(c, Sender, sec, old(s.View()), io), ok, next)
  {
    hide Encode; hide Written; hide Lawful;
    ok := Streams.SendHeader(s.conn, s.totalChunks, s.fileID, s.fileName, Truncate32(s.fileSize), io);
    next := if s.totalChunks == 0 then Finished else WaitingChunkRequest;
  }

  /** WaitingChunkRequest and WaitingLotteryTicket. */
  method StepSenderExpect(c: Suite, sec: Secrets, s: Session, io: Io) returns (ok: bool, next: State)
    requires s.state == WaitingChunkRequest || s.state == WaitingLotteryTicket
    modifies s.conn
    ensures Shows(s, WholeStep(c, Sender, sec, old(s.View()), io), ok, next)
  {
    hide Decode; hide Lawful;
    var k := if s.state == WaitingChunkRequest then RequestKind else TicketKind;
    next := if s.state == WaitingChunkRequest then SendChunkResponse else SendKeyReveal;
    var idx: u32;
    ok, idx := ReadIndexed(s.conn, k);
    if ok && idx != s.currentChunk {
      ok := false;
    }
  }

  method StepSenderSendChunkResponse(c: Suite, sec: Secrets, s: Session, io: Io) returns (ok: bool, next: State)
    requires s.state == SendChunkResponse && s.chunkSize == CHUNK_SIZE
    modifies s, s.conn
    ensures Shows(s, WholeStep(c, Sender, sec, old(s.View()), io), ok, next)
    ensures s.pendingChunk == null || s.pendingChunk == old(s.pendingChunk) || fresh(s.pendingChunk)
  {
    hide Encode; hide Written; hide Lawful; hide Piece; hide Seal; hide Hash; hide KeyFor; hide NonceFor;
    hide ReceiverStep; hide Decode; hide Root; hide LeafOf; hide ConfirmChunk; hide ExpectIndex; hide HeaderOf;
    next := WaitingLotteryTicket;
    var plaintext := ReadChunkPlaintext(s.file, s.currentChunk, s.chunkSize);
    var key, nonce := KeyFor(sec, s.currentChunk), NonceFor(sec, s.currentChunk);
    var chunk := BuildAndEncryptChunk(c, s.fileID, s.currentChunk, plaintext, key, nonce);
    ok := Streams.SendChunkResponse(s.conn, chunk.index, chunk.ciphertext, chunk.nonce, chunk.hresp, io);
    if ok {
      s.pendingChunk := chunk;
    }
  }

  method StepSenderSendKeyReveal(c: Suite, sec: Secrets, s: Session, io: Io) returns (ok: bool, next: State)
    requires s.state == SendKeyReveal && s.pendingChunk != null
    modifies s, s.conn, s.pendingChunk
    ensures Shows(s, WholeStep(c, Sender, sec, old(s.View()), io), ok, next)
    ensures s.pendingChunk == null || s.pendingChunk == old(s.pendingChunk) || fresh(s.pendingChunk)
  {
    hide Encode; hide Written; hide Lawful; hide LeafOf; hide Hash; hide ReceiverStep; hide Decode; hide Root;
    hide BuildChunk; hide Piece; hide KeyFor; hide NonceFor; hide ExpectIndex; hide HeaderOf; hide ConfirmChunk;
    next := WaitingChunkRequest;
    ok := Streams.SendKeyReveal(s.conn, s.currentChunk, s.pendingChunk.key, io);
    if !ok { return; }
    var leaf := GenerateLeaf(c, s.pendingChunk);
    s.pendingChunk.leaf := leaf;
    s.leaves := s.leaves + [leaf];
    ConfirmForgets(s.View(), Some(old(s.pendingChunk.Data())), next);
    next := Confirm(s, next);
  }

  method StepSenderVerifyMerkle(c: Suite, sec: Secrets, s: Session, io: Io) returns (ok: bool, next: State)
    requires s.state == VerifyMerkle
    modifies s.conn
    ensures Shows(s, WholeStep(c, Sender, sec, old(s.View()), io), ok, next)
  {
    hide Encode; hide Written; hide Lawful; hide Root; hide Decode;
    next := Finished;
    var tree := BuildTree(c, s.leaves);
    var root := RootOfTree(c, tree, s.leaves);
    ok := SendRoot(s.conn, root, io);
    if !ok { return; }
    ok := ReadFinalAck(s.conn);
  }

  // ---------- receiver ----------

  lemma ReadingSteps(c: Suite, sec: Secrets, v: Snapshot, io: Io)
    ensures v.state == ReceiveHeader ==> WholeStep(c, Receiver, sec, v, io) == OrFail(v, TakeHeader(v, io))
    ensures v.state == WaitingChunkResponse ==> WholeStep(c, Receiver, sec, v, io) == OrFail(v, TakeResponse(v))
    ensures v.state == WaitingKeyReveal ==> WholeStep(c, Receiver, sec, v, io) == OrFail(v, TakeKey(v))
  {
    hide Decode; hide Lawful; hide SenderStep; hide ReceivedChunk;
  }

  function OrFail(v: Snapshot, r: StepResult): StepResult {
    if r.Wait? then Fail(v) else r
  }

  method StepReceiverReceiveHeader(c: Suite, sec: Secrets, s: Session, io: Io) returns (ok: bool, next: State)
    requires s.state == ReceiveHeader
    modifies s, s.conn
    ensures Shows(s, WholeStep(c, Receiver, sec, old(s.View()), io), ok, next)
    ensures s.pendingChunk == null || s.pendingChunk == old(s.pendingChunk) || fresh(s.pendingChunk)
  {
    hide Decode; hide Lawful; hide WholeStep;
    ReadingSteps(c, sec, s.View(), io);
    next := SendChunkRequest;
    var reps: u32, fileID: bytes, name: bytes, fileSize: u32;
    ok, reps, fileID, name, fileSize := ReadHeader(s.conn);
    if !ok { return; }
    s.fileID, s.fileName, s.fileSize, s.totalChunks := fileID, name, fileSize, reps;
    s.file := [];
    if io.Broken? {
      return false, next;
    }
    if s.totalChunks == 0 {
      next := Finished;
    }
  }

  /** SendChunkRequest and SendLotteryTicket. */
  method StepReceiverSend(c: Suite, sec: Secrets, s: Session, io: Io) returns (ok: bool, next: State)
    requires s.state == SendChunkRequest || s.state == SendLotteryTicket
    modifies s.conn
    ensures Shows(s, WholeStep(c, Receiver, sec, old(s.View()), io), ok, next)
  {
    hide Encode; hide Written; hide Lawful; hide SenderStep; hide Decode; hide Root; hide LeafOf; hide Hash;
    hide Unseal; hide CommitInput; hide ConfirmChunk; hide TakeHeader; hide TakeResponse; hide TakeKey;
    var m := if s.state == SendChunkRequest then Request(s.currentChunk) else Ticket(s.currentChunk);
    next := if s.state == SendChunkRequest then WaitingChunkResponse else WaitingKeyReveal;
    ok := SendIndexed(s.conn, m, io);
  }

  method StepReceiverWaitChunkResponse(c: Suite, sec: Secrets, s: Session, io: Io) returns (ok: bool, next: State)
    requires s.state == WaitingChunkResponse
    modifies s, s.conn
    ensures Shows(s, WholeStep(c, Receiver, sec, old(s.View()), io), ok, next)
    ensures s.pendingChunk == null || s.pendingChunk == old(s.pendingChunk) || fresh(s.pendingChunk)
  {
    hide Decode; hide Lawful; hide WholeStep;
    ReadingSteps(c, sec, s.View(), io);
    next := SendLotteryTicket;
    var index: u32, ciphertext: bytes, nonce: bytes, hresp: bytes;
    ok, index, ciphertext, nonce, hresp := ReadChunkResponse(s.conn);
    if !ok { return; }
    var chunk := new Chunk.Received(s.fileID, index, ciphertext, nonce, hresp);
    if chunk.index != s.currentChunk {
      return false, next;
    }
    s.pendingChunk := chunk;
  }

  method StepReceiverWaitKeyReveal(c: Suite, sec: Secrets, s: Session, io: Io) returns (ok: bool, next: State)
    requires s.state == WaitingKeyReveal && s.pendingChunk != null
    modifies s, s.conn, s.pendingChunk
    ensures Shows(s, WholeStep(c, Receiver, sec, old(s.View()), io), ok, next)
    ensures s.pendingChunk == null || s.pendingChunk == old(s.pendingChunk) || fresh(s.pendingChunk)
  {
    hide Decode; hide Lawful; hide WholeStep;
    ReadingSteps(c, sec, s.View(), io);
    next := VerifyChunk;
    var idx: u32, key: bytes;
    ok, idx, key := ReadKeyReveal(s.conn);
    if !ok { return; }
    if idx != s.currentChunk {
      return false, next;
    }
    s.pendingChunk.key := key;
  }

  lemma CheckingStep(c: Suite, sec: Secrets, v: Snapshot, io: Io)
    requires v.state == VerifyChunk
    ensures WholeStep(c, Receiver, sec, v, io) == CheckChunk(c, v, io)
  {
    hide LeafOf; hide Lawful; hide Hash; hide Unseal; hide CommitInput; hide Written; hide SenderStep;
  }

  method StepReceiverVerifyChunk(c: Suite, sec: Secrets, s: Session, io: Io) returns (ok: bool, next: State)
    requires s.state == VerifyChunk && s.pendingChunk != null
    modifies s, s.pendingChunk
    ensures Shows(s, WholeStep(c, Receiver, sec, old(s.View()), io), ok, next)
    ensures s.pendingChunk == null || s.pendingChunk == old(s.pendingChunk) || fresh(s.pendingChunk)
  {
    hide Lawful; hide LeafOf; hide Written; hide ConfirmChunk; hide WholeStep;
    CheckingStep(c, sec, s.View(), io);
    next := SendChunkRequest;
    var chunk := s.pendingChunk;
    var plaintext: bytes;
    ok, plaintext := DecryptAndCheck(c, chunk);
    if !ok { return; }
    var leaf := GenerateLeaf(c, chunk);
    chunk.leaf := leaf;
    s.leaves := s.leaves + [leaf];
    s.file := s.file + Written(plaintext, io);
    if io.Broken? {
      return false, next;
    }
    ConfirmForgets(s.View(), Some(old(chunk.Data())), next);
    next := Confirm(s, next);
  }

  method StepReceiverVerifyMerkle(c: Suite, sec: Secrets, s: Session, io: Io) returns (ok: bool, next: State)
    requires s.state == VerifyMerkle
    modifies s.conn
    ensures Shows(s, WholeStep(c, Receiver, sec, old(s.View()), io), ok, next)
  {
    hide Encode; hide Written; hide Lawful; hide Root; hide Decode; hide SenderStep; hide LeafOf; hide Hash;
    hide Unseal; hide CommitInput; hide ConfirmChunk; hide TakeHeader; hide TakeResponse; hide TakeKey;
    next := Finished;
    var remoteRoot: bytes;
    ok, remoteRoot := ReadRoot(s.conn);
    if !ok { return; }
    var tree := BuildTree(c, s.leaves);
    var localRoot := RootOfTree(c, tree, s.leaves);
    if localRoot != remoteRoot {
      return false, next;
    }
    ok := SendFinalAck(s.conn, io);
  }

  // ---------- the driver ----------

  /** The step tables: the step registered for the current state. */
  method TakeStep(c: Suite, role: Role, sec: Secrets, s: Session, io: Io) returns (ok: bool, next: State)
    requires HasStep(role, s.state) && PendingFits(role, s.View()) && s.chunkSize == CHUNK_SIZE
    modifies s, s.conn, s.pendingChunk
    ensures Shows(s, WholeStep(c, role, sec, old(s.View()), io), ok, next)
    ensures s.pendingChunk == null || s.pendingChunk == old(s.pendingChunk) || fresh(s.pendingChunk)
  {
    hide WholeStep; hide Lawful;
    if role == Sender {
      match s.state
      case Idle =>
        IdleStep(c, role, sec, s.View(), io);
        ok, next := true, SendHeader;
      case SendHeader => ok, next := StepSenderSendHeader(c, sec, s, io);
      case WaitingChunkRequest => ok, next := StepSenderExpect(c, sec, s, io);
      case SendChunkResponse => ok, next := StepSenderSendChunkResponse(c, sec, s, io);
      case WaitingLotteryTicket => ok, next := StepSenderExpect(c, sec, s, io);
      case SendKeyReveal => ok, next := StepSenderSendKeyReveal(c, sec, s, io);
      case VerifyMerkle => ok, next := StepSenderVerifyMerkle(c, sec, s, io);
    } else {
      match s.state
      case Idle =>
        IdleStep(c, role, sec, s.View(), io);
        ok, next := true, ReceiveHeader;
      case ReceiveHeader => ok, next := StepReceiverReceiveHeader(c, sec, s, io);
      case SendChunkRequest => ok, next := StepReceiverSend(c, sec, s, io);
      case WaitingChunkResponse => ok, next := StepReceiverWaitChunkResponse(c, sec, s, io);
      case SendLotteryTicket => ok, next := StepReceiverSend(c, sec, s, io);
      case WaitingKeyReveal => ok, next := StepReceiverWaitKeyReveal(c, sec, s, io);
      case VerifyChunk => ok, next := StepReceiverVerifyChunk(c, sec, s, io);
      case VerifyMerkle => ok, next := StepReceiverVerifyMerkle(c, sec, s, io);
    }
  }

  lemma IdleStep(c: Suite, role: Role, sec: Secrets, v: Snapshot, io: Io)
    requires v.state == Idle
    ensures WholeStep(c, role, sec, v, io) == Next(v, if role == Sender then SendHeader else ReceiveHeader)
  {
    hide Lawful;
  }

  /** What Run's loop keeps besides the counter: where a chunk is pending, and the total once it is known. */
  ghost predicate Keeps(role: Role, s: Snapshot, r: StepResult) {
    match r
    case Next(s', next) =>
      && PendingFits(role, s'.(state := next)) && (HasStep(role, next) || next == Finished)
      && (s.state != ReceiveHeader ==> s'.totalChunks == s.totalChunks)
    case Continue(s') => PendingFits(role, s') && s'.state == s.state && s'.totalChunks == s.totalChunks
    case Fail(s') => s.state != ReceiveHeader ==> s'.totalChunks == s.totalChunks
    case _ => true
  }

  lemma SenderKeeps(c: Suite, sec: Secrets, s: Snapshot, io: Io)
    requires HasStep(Sender, s.state) && PendingFits(Sender, s)
    ensures Keeps(Sender, s, SenderStep(c, sec, s, io))
  {
    hide Encode; hide Decode; hide Written; hide Root; hide LeafOf; hide BuildChunk; hide Piece; hide Lawful;
    hide KeyFor; hide NonceFor;
  }

  lemma ReceiverKeeps(c: Suite, s: Snapshot, io: Io)
    requires HasStep(Receiver, s.state) && PendingFits(Receiver, s)
    ensures Keeps(Receiver, s, ReceiverStep(c, s, io))
  {
    hide Encode; hide Decode; hide Written; hide Root; hide LeafOf; hide Lawful; hide CommitInput; hide Hash;
    hide Unseal; hide ReceivedChunk;
  }

  lemma StepKeeps(c: Suite, role: Role, sec: Secrets, s: Snapshot, io: Io)
    requires HasStep(role, s.state) && PendingFits(role, s)
    ensures Keeps(role, s, Step(c, role, sec, s, io))
  {
    hide SenderStep; hide ReceiverStep; hide Keeps; hide Lawful;
    if role == Sender {
      SenderKeeps(c, sec, s, io);
    } else {
      ReceiverKeeps(c, s, io);
    }
  }

  lemma RoundKeeps(c: Suite, role: Role, sec: Secrets, s: Snapshot, io: Io)
    requires HasStep(role, s.state) && PendingFits(role, s) && !s.midStep
    ensures var s' := Round(c, role, sec, s, io);
            && (s'.state == Error || (PendingFits(role, s') && (HasStep(role, s'.state) || s'.state == Finished)))
            && (s.state != ReceiveHeader ==> s'.totalChunks == s.totalChunks)
  {
    hide Step; hide Lawful;
    StepKeeps(c, role, sec, s, io);
    StepHalves(c, role, sec, s, io);
    var r := Step(c, role, sec, s, io);
    if r.Continue? {
      StepKeeps(c, role, sec, r.s, io);
    }
  }

  lemma WholeStepState(c: Suite, role: Role, sec: Secrets, s: Snapshot, io: Io)
    requires !s.midStep
    ensures var r := WholeStep(c, role, sec, s, io); r.Next? ==> r.s.state == s.state && !r.s.midStep
  {
    hide Step; hide Lawful;
    StepHalves(c, role, sec, s, io);
    var r := Step(c, role, sec, s, io);
    if r.Continue? {
      StepHalves(c, role, sec, r.s, io);
    }
  }

  lemma NoWayToError(s: State)
    ensures !IsAllowed(s, Error)
  {
  }

  /** What a round makes of the result of its step. */
  lemma RoundSettles(c: Suite, role: Role, sec: Secrets, v: Snapshot, io: Io)
    requires !Terminal(v) && !v.midStep
    ensures var (r, v') := (WholeStep(c, role, sec, v, io), Round(c, role, sec, v, io));
            if !HasStep(role, v.state) then v' == Failed(v) else
            && (r.Next? ==> v' == (if IsAllowed(v.state, r.next) then r.s.(state := r.next) else Failed(r.s))
                            && r.s.state == v.state)
            && (r.Fail? ==> v' == Failed(r.s))
  {
    hide WholeStep; hide Lawful; hide HasStep; hide IsAllowed;
    WholeStepState(c, role, sec, v, io);
  }

  /** The body of Run's loop. */
  method TakeRound(c: Suite, role: Role, sec: Secrets, s: Session, io: Io) returns (ok: bool)
    requires s.state != Finished && s.state != Error && PendingFits(role, s.View()) && s.chunkSize == CHUNK_SIZE
    modifies s, s.conn, s.pendingChunk
    ensures var v := Round(c, role, sec, old(s.View()), io);
            s.View().(input := []) == v.(input := []) && (ok ==> s.View() == v) && ok == (s.state != Error)
    ensures s.pendingChunk == null || s.pendingChunk == old(s.pendingChunk) || fresh(s.pendingChunk)
  {
    hide WholeStep; hide Lawful; hide HasStep; hide PendingFits; hide IsAllowed; hide Round;
    RoundSettles(c, role, sec, s.View(), io);
    if !HasStep(role, s.state) {
      s.Fail();
      return false;
    }
    var next;
    ok, next := TakeStep(c, role, sec, s, io);
    if ok {
      NoWayToError(s.state);
      ok := s.Transition(next);
    }
    if !ok {
      s.Fail();
    }
  }

  /** The most rounds that Run makes for n chunks. */
  function RoundLimit(role: Role, n: u32): nat {
    if n == 0 then 2 else if role == Sender then 4 * n as nat + 3 else 5 * n as nat + 3
  }

  /**
   Protocol/fsm.go Run: it always ends, within 4n + 3 rounds as sender and 5n + 3 as receiver (2 if
   n = 0), Finished exactly when it reports success and in Error otherwise.
   */
  method Run(c: Suite, role: Role, sec: Secrets, s: Session, io: nat -> Io) returns (ok: bool)
    requires s.state == Idle && s.currentChunk == 0 && s.pendingChunk == null && s.chunkSize == CHUNK_SIZE
    modifies s, s.conn
    ensures s.state == if ok then Finished else Error
    ensures exists k: nat :: && k <= RoundLimit(role, s.totalChunks)
                             && s.View().(input := []) == RunFor(c, role, sec, old(s.View()), io, k).(input := [])
  {
    hide Round; hide Lawful; hide PendingFits; hide RoundsDone; hide RoundLimit; hide CounterOk; hide HasStep;
    var k := 0;
    ghost var start := s.View();
    FreshFits(role, start);
    while s.state != Finished
      invariant s.View() == RunFor(c, role, sec, start, io, k) && s.state != Error && k == RoundsDone(role, s.View())
      invariant s.pendingChunk == null || fresh(s.pendingChunk)
      invariant HasStep(role, s.state) || s.state == Finished
      invariant CounterOk(s.View()) && PendingFits(role, s.View()) && s.chunkSize == CHUNK_SIZE
      decreases s.state == Idle || s.state == ReceiveHeader, 5 * s.totalChunks as nat + 9 - RoundsDone(role, s.View())
    {
      ghost var v := s.View();
      ok := TakeRound(c, role, sec, s, io(k));
      k := k + 1;
      assert RunFor(c, role, sec, start, io, k) == Round(c, role, sec, v, io(k - 1));
      LimitHolds(c, role, sec, v, io(k - 1));
      if !ok {
        return false;
      }
      RoundCounts(c, role, sec, v, io(k - 1));
    }
    FinishedCount(role, s.View());
    ok := true;
  }

  lemma FreshFits(role: Role, s: Snapshot)
    requires s.state == Idle && s.pending.None? && s.currentChunk == 0
    ensures PendingFits(role, s) && RoundsDone(role, s) == 0 && CounterOk(s) && HasStep(role, s.state)
  {
  }

  lemma FinishedCount(role: Role, s: Snapshot)
    requires s.state == Finished
    ensures RoundsDone(role, s) == RoundLimit(role, s.totalChunks)
  {
  }

  /** No round goes over the limit, not even one that fails. */
  lemma LimitHolds(c: Suite, role: Role, sec: Secrets, s: Snapshot, io: Io)
    requires HasStep(role, s.state) && CounterOk(s) && PendingFits(role, s) && !s.midStep
    ensures RoundsDone(role, s) + 1 <= RoundLimit(role, Round(c, role, sec, s, io).totalChunks)
  {
    hide WholeStep; hide Lawful;
    RoundKeeps(c, role, sec, s, io);
  }

  /** Why Run ends: a round without error counts one, and the total changes only when the header is read. */
  lemma RoundCounts(c: Suite, role: Role, sec: Secrets, s: Snapshot, io: Io)
    requires HasStep(role, s.state) && CounterOk(s) && PendingFits(role, s) && !s.midStep
    requires Round(c, role, sec, s, io).state != Error
    ensures var s' := Round(c, role, sec, s, io);
            && CounterOk(s') && PendingFits(role, s') && (HasStep(role, s'.state) || s'.state == Finished)
            && RoundsDone(role, s') == RoundsDone(role, s) + 1
            && RoundsDone(role, s') <= 5 * s'.totalChunks as nat + 9
            && (s.state != ReceiveHeader ==> s'.totalChunks == s.totalChunks)
            && (s'.state == Idle || s'.state == ReceiveHeader ==> s.state == Idle)
  {
    hide WholeStep; hide Lawful;
    RoundAdvances(c, role, sec, s, io);
    RoundKeeps(c, role, sec, s, io);
  }
}
