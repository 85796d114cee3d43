/** What holds of every honest run, whatever the order of actions and deliveries. */
module JointRun {
  import opened Bytes
  import opened Crypto
  import opened Merkle
  import opened Partition
  import opened Protocol
  import opened Wire
  import opened Controllers
  import opened Scripts
  import opened Honest
  import opened Joint
  import S = SenderProof
  import R = ReceiverProof

  // ---------- how far the two sides can be apart ----------

  /** Nobody has read what was not written. */
  ghost predicate Lockstep(n: nat, s: Snapshot, r: Snapshot) {
    && (HasStep(Sender, s.state) || s.state == Finished) && CounterOk(s) && s.totalChunks == n
    && (HasStep(Receiver, r.state) || r.state == Finished) && CounterOk(r)
    && (s.midStep ==> s.state == VerifyMerkle) && (r.midStep ==> r.state == VerifyMerkle)
    && r.totalChunks == (if r.state == Idle || r.state == ReceiveHeader then 0 else n)
    && Taken(Receiver, r) <= Sent(Sender, s) && Taken(Sender, s) <= Sent(Receiver, r)
  }

  lemma NothingReadAhead(script: seq<Message>, taken: nat, sent: nat, input: bytes, transit: bytes)
    requires taken <= |script| && sent <= |script|
    requires EncodeAll(script[..sent]) == (EncodeAll(script[..taken]) + input) + transit
    ensures taken <= sent && input + transit == EncodeAll(script[taken..sent])
  {
    hide EncodeAll;
    if sent < taken {
      EncodeAllPrefix(script, sent, taken);
      assert false;
    }
    EncodeAllSplit(script[..sent], taken);
    assert script[..sent][..taken] == script[..taken] && script[..sent][taken..] == script[taken..sent];
    Assoc(EncodeAll(script[..taken]), input, transit);
    var done := EncodeAll(script[..taken]);
    SplitConcat(done, input + transit, done, EncodeAll(script[taken..sent]));
  }

  /** The unread bytes in each direction are exactly the messages between the two counts. */
  lemma Channels(c: Suite, src: Source, w: World)
    requires Inv(c, src, w)
    ensures Lockstep(Count(src), w.s, w.r)
    ensures var (ss, rs) := (SenderScript(c, src), ReceiverScript(Count(src)));
            && Sent(Sender, w.s) <= |ss| && Sent(Receiver, w.r) <= |rs|
            && w.r.input + w.toReceiver == EncodeAll(ss[Taken(Receiver, w.r)..Sent(Sender, w.s)])
            && w.s.input + w.toSender == EncodeAll(rs[Taken(Sender, w.s)..Sent(Receiver, w.r)])
  {
    hide EncodeAll; hide SenderScript; hide ReceiverScript; hide Leaves; hide SentChunk; hide SentChunks;
    hide Lawful; hide Plaintexts; hide AllWellSized; hide R.GoodPairs; hide R.ChunksOf; hide R.PendingOk;
    hide R.RootOk;
    var (ss, rs) := (SenderScript(c, src), ReceiverScript(Count(src)));
    OutputsOnScript(c, src, w);
    FirstLine(c, src);
    NothingReadAhead(ss, Taken(Receiver, w.r), Sent(Sender, w.s), w.r.input, w.toReceiver);
    if w.r.state == Idle || w.r.state == ReceiveHeader {
      assert ReceiverScript(0)[..0] == rs[..0];
    }
    NothingReadAhead(rs, Taken(Sender, w.s), Sent(Receiver, w.r), w.s.input, w.toSender);
  }

  lemma LockstepDuplex(n: nat, s: Snapshot, r: Snapshot)
    requires Lockstep(n, s, r)
    ensures !(Writing(Sender, s) && Writing(Receiver, r))
  {
  }

  lemma LockstepFlight(n: nat, s: Snapshot, r: Snapshot)
    requires Lockstep(n, s, r)
    ensures var flight := (Sent(Sender, s) - Taken(Receiver, r)) + (Sent(Receiver, r) - Taken(Sender, s));
            && flight <= 2
            && (flight == 2 ==> Taken(Receiver, r) == 2 * n && Sent(Sender, s) == 2 * n + 2 && n > 0)
  {
  }

  lemma LockstepGap(n: nat, s: Snapshot, r: Snapshot)
    requires Lockstep(n, s, r)
    ensures Done(r) <= Done(s) <= Done(r) + 1
  {
  }

  /** The two cannot both be waiting for a message that the other has not written. */
  lemma LockstepLive(n: nat, s: Snapshot, r: Snapshot)
    requires Lockstep(n, s, r) && Taken(Receiver, r) == Sent(Sender, s) && Taken(Sender, s) == Sent(Receiver, r)
    requires (Reading(Sender, s) || s.state == Finished) && (Reading(Receiver, r) || r.state == Finished)
    ensures s.state == Finished && r.state == Finished
  {
  }

  lemma LockstepEnd(n: nat, s: Snapshot, r: Snapshot)
    requires Lockstep(n, s, r) && s.state == Finished && r.state == Finished
    ensures Taken(Receiver, r) == Sent(Sender, s) && Taken(Sender, s) == Sent(Receiver, r)
  {
  }

  // ---------- theorems about every reachable world ----------

  /**
   Honest runs copy the file: no state is an error; the receiver's leaves are a prefix of the
   sender's, at most one behind; its file is always a whole number of chunks of the source; and a
   finished receiver holds the source, its name and its ID, exactly when the size allows it.
   */
  lemma {:induction false} CopiesTheFile(c: Suite, src: Source, actions: seq<Action>)
    ensures var w := RunWorld(c, src, actions);
            && w.s.state != Error && w.r.state != Error
            && w.r.leaves <= w.s.leaves && |w.s.leaves| <= |w.r.leaves| + 1
            && w.r.file == src.file[..Min(|src.file|, CHUNK_SIZE * |w.r.leaves|)]
            && (w.r.state == Finished ==>
                  && w.r.fileName == src.name && w.r.fileID == src.fileID
                  && w.r.fileSize == |src.file| % U32_LIMIT
                  && (w.r.file == src.file <==> |src.file| <= MAX_FILE))
  {
    hide Inv; hide RunWorld; hide Lawful; hide SentChunks; hide Leaves; hide Plaintexts; hide Lockstep; hide Piece;
    hide EncodeAll; hide SenderScript; hide ReceiverScript; hide Flatten; hide Reps; hide Pieces; hide Sent;
    hide Taken;
    var w := RunWorld(c, src, actions);
    ReachableInv(c, src, actions);
    Channels(c, src, w);
    LockstepGap(Count(src), w.s, w.r);
    Contents(c, src, w);
    NotInError(Count(src), w.s, w.r);
    LeavesPrefix(c, src, Done(w.r), Done(w.s));
    SentPlaintexts(c, src, Done(w.r));
    SentPlaintexts(c, src, Count(src));
    PiecesCoverPrefix(src.file, Count(src));
    PiecesAreTheFile(src.file);
  }

  lemma NotInError(n: nat, s: Snapshot, r: Snapshot)
    requires Lockstep(n, s, r)
    ensures s.state != Error && r.state != Error && (r.state == Finished ==> Done(r) == n)
  {
  }

  lemma Contents(c: Suite, src: Source, w: World)
    requires Inv(c, src, w)
    ensures Done(w.s) <= Count(src) && w.s.leaves == Leaves(c, SentChunks(c, src, Done(w.s)))
    ensures Done(w.r) <= Count(src) && w.r.leaves == Leaves(c, SentChunks(c, src, Done(w.r)))
    ensures w.r.file == Plaintexts(SentChunks(c, src, Done(w.r)))
    ensures w.r.state == Finished ==> w.r.fileName == src.name && w.r.fileID == src.fileID
    ensures w.r.state == Finished ==> w.r.fileSize == |src.file| % U32_LIMIT
  {
    hide EncodeAll; hide SenderScript; hide ReceiverScript; hide Leaves; hide SentChunk; hide Lawful;
    hide AllWellSized; hide R.GoodPairs; hide R.ChunksOf; hide R.PendingOk; hide R.RootOk; hide Flatten;
    OutputsOnScript(c, src, w);
    FirstLine(c, src);
    if w.r.state == Idle || w.r.state == ReceiveHeader {
      NoChunks(c, src);
    } else {
      ChunksArrive(c, src, Done(w.r));
    }
  }

  lemma NoChunks(c: Suite, src: Source)
    ensures Leaves(c, SentChunks(c, src, 0)) == [] && Plaintexts(SentChunks(c, src, 0)) == []
  {
    SentPlaintexts(c, src, 0);
  }

  lemma {:induction false} LeavesPrefix(c: Suite, src: Source, a: nat, b: nat)
    requires a <= b <= Count(src)
    ensures Leaves(c, SentChunks(c, src, a)) <= Leaves(c, SentChunks(c, src, b))
    decreases b - a
  {
    hide Leaves; hide SentChunks; hide SentChunk; hide LeafOf; hide Lawful;
    if a < b {
      SentChunksSnoc(c, src, a);
      LeavesPrefix(c, src, a + 1, b);
    }
  }

  /**
   `down` and `up` are the messages under way: the parts of the two scripts that are written and
   not yet read, which are exactly the unread bytes. There are at most two, both down at the end.
   */
  ghost predicate UnderWay(c: Suite, src: Source, w: World, down: seq<Message>, up: seq<Message>) {
    var (ss, rs) := (SenderScript(c, src), ReceiverScript(Count(src)));
    && Taken(Receiver, w.r) <= Sent(Sender, w.s) <= |ss| && Taken(Sender, w.s) <= Sent(Receiver, w.r) <= |rs|
    && down == ss[Taken(Receiver, w.r)..Sent(Sender, w.s)] && up == rs[Taken(Sender, w.s)..Sent(Receiver, w.r)]
    && AllWellSized(down) && AllWellSized(up)
    && w.r.input + w.toReceiver == EncodeAll(down) && w.s.input + w.toSender == EncodeAll(up)
    && |down| + |up| <= 2
    && (|down| + |up| == 2 ==>
          && |down| == 2 && down[0].KeyReveal? && down[0].index == Count(src) - 1
          && down[1] == RootMsg(SenderRoot(c, src)))
  }

  lemma LastTwo(c: Suite, src: Source, down: seq<Message>)
    requires Count(src) > 0
    requires down == SenderScript(c, src)[2 * Count(src) as nat..2 * Count(src) as nat + 2]
    ensures down[0].KeyReveal? && down[0].index == Count(src) - 1 && down[1] == RootMsg(SenderRoot(c, src))
  {
    hide Lawful; hide SenderScript; hide SenderRoot; hide SentChunk;
    SenderLines(c, src, Count(src) - 1);
  }

  lemma MessagesUnderWay(c: Suite, src: Source, w: World) returns (down: seq<Message>, up: seq<Message>)
    requires Inv(c, src, w)
    ensures UnderWay(c, src, w, down, up)
  {
    hide Inv; hide Lawful; hide SenderScript; hide ReceiverScript; hide EncodeAll; hide SenderRoot; hide Lockstep;
    hide Sent; hide Taken; hide WellSized;
    SenderScriptSized(c, src);
    Channels(c, src, w);
    LockstepFlight(Count(src), w.s, w.r);
    LockstepCounts(Count(src), w.s, w.r);
    down := SenderScript(c, src)[Taken(Receiver, w.r)..Sent(Sender, w.s)];
    up := ReceiverScript(Count(src))[Taken(Sender, w.s)..Sent(Receiver, w.r)];
    if |down| + |up| == 2 {
      LastTwo(c, src, down);
    }
  }

  lemma LockstepCounts(n: nat, s: Snapshot, r: Snapshot)
    requires Lockstep(n, s, r)
    ensures Taken(Receiver, r) <= Sent(Sender, s) && Taken(Sender, s) <= Sent(Receiver, r)
  {
  }

  /**
   The conversation is half-duplex with at most two messages under way: the two sides are never
   both about to write, what is under way is the next part of the scripts, and two messages are
   under way only as the last KeyReveal and the root.
   */
  lemma {:induction false} HalfDuplex(c: Suite, src: Source, actions: seq<Action>)
    ensures var w := RunWorld(c, src, actions);
            && !(Writing(Sender, w.s) && Writing(Receiver, w.r))
            && exists down, up :: UnderWay(c, src, w, down, up)
  {
    hide Inv; hide RunWorld; hide Lawful; hide UnderWay; hide EncodeAll; hide SenderScript; hide ReceiverScript;
    var w := RunWorld(c, src, actions);
    ReachableInv(c, src, actions);
    Channels(c, src, w);
    LockstepDuplex(Count(src), w.s, w.r);
    var down, up := MessagesUnderWay(c, src, w);
  }

  lemma MoveChanges(s: Snapshot, r: StepResult)
    requires r.Next? ==> IsAllowed(s.state, r.next) && r.next != Error
    requires r.Continue? ==> r.s.midStep && !s.midStep
    requires r.Next? || r.Continue?
    ensures Settle(s, r, false) != s
  {
  }

  /** A party that is not waiting can move. */
  lemma CanMove(c: Suite, src: Source, w: World)
    requires Inv(c, src, w)
    ensures !Terminal(w.s) && !SenderStep(c, src.sec, w.s, Fine).Wait? ==> Perform(c, src, w, SenderActs) != w
    ensures !Terminal(w.r) && !ReceiverStep(c, w.r, Fine).Wait? ==> Perform(c, src, w, ReceiverActs) != w
  {
    hide Inv; hide SenderStep; hide ReceiverStep; hide Lawful; hide S.Inv; hide R.Inv; hide S.Released;
    hide EncodeAll; hide SenderScript; hide ReceiverScript; hide Settle;
    Channels(c, src, w);
    if !Terminal(w.s) && !SenderStep(c, src.sec, w.s, Fine).Wait? {
      SenderActsWell(c, src, w);
      StepHalves(c, Sender, src.sec, w.s, Fine);
      MoveChanges(w.s, SenderStep(c, src.sec, w.s, Fine));
    }
    if !Terminal(w.r) && !ReceiverStep(c, w.r, Fine).Wait? {
      ReceiverActsWell(c, src, w);
      StepHalves(c, Receiver, src.sec, w.r, Fine);
      MoveChanges(w.r, ReceiverStep(c, w.r, Fine));
    }
  }

  /** A waiting sender, with everything delivered, has read all that the receiver wrote. */
  lemma WaitingSender(c: Suite, src: Source, w: World)
    requires Inv(c, src, w) && w.toSender == [] && !Terminal(w.s) && SenderStep(c, src.sec, w.s, Fine).Wait?
    ensures Reading(Sender, w.s) && Taken(Sender, w.s) == Sent(Receiver, w.r)
  {
    hide EncodeAll; hide SenderScript; hide ReceiverScript; hide Lawful; hide S.Inv; hide R.Inv; hide SenderStep;
    hide S.Released;
    var rs := ReceiverScript(Count(src));
    SenderActsWell(c, src, w);
    Channels(c, src, w);
    ReceiverWrote(c, src, w);
    if Taken(Sender, w.s) < Sent(Receiver, w.r) {
      EncodeAllPrefix(rs, Taken(Sender, w.s) + 1, Sent(Receiver, w.r));
      assert false;
    }
  }

  lemma ReceiverWrote(c: Suite, src: Source, w: World)
    requires Inv(c, src, w)
    ensures Sent(Receiver, w.r) <= |ReceiverScript(Count(src))|
    ensures w.r.output == EncodeAll(ReceiverScript(Count(src))[..Sent(Receiver, w.r)])
    ensures Sent(Sender, w.s) <= |SenderScript(c, src)|
    ensures w.s.output == EncodeAll(SenderScript(c, src)[..Sent(Sender, w.s)])
  {
    hide EncodeAll; hide SenderScript; hide ReceiverScript; hide Leaves; hide SentChunk; hide SentChunks;
    hide Lawful; hide Plaintexts; hide AllWellSized; hide R.GoodPairs; hide R.ChunksOf; hide R.PendingOk;
    hide R.RootOk;
    OutputsOnScript(c, src, w);
    if w.r.state == Idle || w.r.state == ReceiveHeader {
      assert ReceiverScript(0)[..0] == ReceiverScript(Count(src))[..0];
    }
  }

  lemma WaitingReceiver(c: Suite, src: Source, w: World)
    requires Inv(c, src, w) && w.toReceiver == [] && !Terminal(w.r) && ReceiverStep(c, w.r, Fine).Wait?
    ensures Reading(Receiver, w.r) && Taken(Receiver, w.r) == Sent(Sender, w.s)
  {
    hide EncodeAll; hide SenderScript; hide ReceiverScript; hide Lawful; hide S.Inv; hide R.Inv; hide ReceiverStep;
    var ss := SenderScript(c, src);
    ReceiverActsWell(c, src, w);
    Channels(c, src, w);
    ReceiverWrote(c, src, w);
    if Taken(Receiver, w.r) < Sent(Sender, w.s) {
      EncodeAllPrefix(ss, Taken(Receiver, w.r) + 1, Sent(Sender, w.s));
      assert false;
    }
  }

  /** Deadlock freedom: nothing more can happen exactly when both sides have finished. */
  lemma {:induction false} StuckIffFinished(c: Suite, src: Source, actions: seq<Action>)
    ensures var w := RunWorld(c, src, actions);
            (forall a :: Perform(c, src, w, a) == w) <==> w.s.state == Finished && w.r.state == Finished
  {
    hide Inv; hide RunWorld; hide Lawful; hide Perform; hide SenderStep; hide ReceiverStep; hide EncodeAll;
    hide SenderScript; hide ReceiverScript;
    var w := RunWorld(c, src, actions);
    ReachableInv(c, src, actions);
    if forall a :: Perform(c, src, w, a) == w {
      assert Perform(c, src, w, DeliverToReceiver(1)) == w && Perform(c, src, w, DeliverToSender(1)) == w;
      assert Perform(c, src, w, SenderActs) == w && Perform(c, src, w, ReceiverActs) == w;
      StuckMeansDelivered(c, src, w);
      StuckMeansFinished(c, src, w);
    }
    if w.s.state == Finished && w.r.state == Finished {
      FinishedMeansStuck(c, src, w);
    }
  }

  lemma StuckMeansDelivered(c: Suite, src: Source, w: World)
    requires Perform(c, src, w, DeliverToReceiver(1)) == w && Perform(c, src, w, DeliverToSender(1)) == w
    ensures w.toReceiver == [] && w.toSender == []
  {
    hide Act; hide Lawful; hide Deliver;
    assert |Perform(c, src, w, DeliverToReceiver(1)).toReceiver| == |w.toReceiver| - Min(1, |w.toReceiver|);
    assert |Perform(c, src, w, DeliverToSender(1)).toSender| == |w.toSender| - Min(1, |w.toSender|);
  }

  lemma StuckMeansFinished(c: Suite, src: Source, w: World)
    requires Inv(c, src, w) && w.toReceiver == [] && w.toSender == []
    requires Perform(c, src, w, SenderActs) == w && Perform(c, src, w, ReceiverActs) == w
    ensures w.s.state == Finished && w.r.state == Finished
  {
    hide Inv; hide Perform; hide SenderStep; hide ReceiverStep; hide Lawful; hide EncodeAll; hide SenderScript;
    hide ReceiverScript;
    Channels(c, src, w);
    CanMove(c, src, w);
    if !Terminal(w.s) {
      WaitingSender(c, src, w);
    }
    if !Terminal(w.r) {
      WaitingReceiver(c, src, w);
    }
    if w.s.state == Finished && w.r.state != Finished {
      SenderDone(Count(src), w.s, w.r);
    } else if w.r.state == Finished && w.s.state != Finished {
      ReceiverDone(Count(src), w.s, w.r);
    } else {
      LockstepLive(Count(src), w.s, w.r);
    }
  }

  lemma SenderDone(n: nat, s: Snapshot, r: Snapshot)
    requires Lockstep(n, s, r) && s.state == Finished && Reading(Receiver, r)
    ensures Taken(Receiver, r) < Sent(Sender, s)
  {
  }

  lemma ReceiverDone(n: nat, s: Snapshot, r: Snapshot)
    requires Lockstep(n, s, r) && r.state == Finished && Reading(Sender, s)
    ensures Taken(Sender, s) < Sent(Receiver, r)
  {
  }

  lemma FinishedMeansStuck(c: Suite, src: Source, w: World)
    requires Inv(c, src, w) && w.s.state == Finished && w.r.state == Finished
    ensures forall a :: Perform(c, src, w, a) == w
  {
    hide Inv; hide SenderStep; hide ReceiverStep; hide Lawful; hide SenderScript; hide ReceiverScript;
    hide EncodeAll;
    Channels(c, src, w);
    LockstepEnd(Count(src), w.s, w.r);
    var (ss, rs) := (SenderScript(c, src), ReceiverScript(Count(src)));
    assert ss[Taken(Receiver, w.r)..Sent(Sender, w.s)] == [] && rs[Taken(Sender, w.s)..Sent(Receiver, w.r)] == [];
    NoMessages();
    forall a
      ensures Perform(c, src, w, a) == w
    {
      match a
      case SenderActs =>
      case ReceiverActs =>
      case DeliverToReceiver(n) => assert w.r.input + [] == w.r.input;
      case DeliverToSender(n) => assert w.s.input + [] == w.s.input;
    }
  }

  lemma NoMessages()
    ensures EncodeAll([]) == []
  {
  }

  // ---------- every honest run comes to its end ----------

  /** Actions behind a party: its rounds, with the two halves of VerifyMerkle counted apart. */
  function ActsDone(role: Role, s: Snapshot): nat {
    RoundsDone(role, s) + if s.midStep || (s.state == Finished && s.totalChunks > 0) then 1 else 0
  }

  /** What is left to do and to deliver. */
  ghost function Left(c: Suite, src: Source, w: World): int
    requires |w.toReceiver| <= |w.s.output| && |w.toSender| <= |w.r.output|
  {
    var n := Count(src) as nat;
    (4 * n + 4 - ActsDone(Sender, w.s)) + (5 * n + 4 - ActsDone(Receiver, w.r))
    + (|EncodeAll(SenderScript(c, src))| - |GotR(w)|) + (|EncodeAll(ReceiverScript(Count(src)))| - |GotS(w)|)
  }

  lemma ActsBounded(n: nat, s: Snapshot, r: Snapshot)
    requires Lockstep(n, s, r)
    ensures ActsDone(Sender, s) <= 4 * n + 4 && ActsDone(Receiver, r) <= 5 * n + 4
  {
  }

  lemma LeftIsNat(c: Suite, src: Source, w: World)
    requires Inv(c, src, w)
    ensures 0 <= Left(c, src, w)
  {
    hide S.Inv; hide R.Inv; hide Lawful; hide EncodeAll; hide SenderScript; hide ReceiverScript; hide ActsDone;
    Channels(c, src, w);
    ActsBounded(Count(src), w.s, w.r);
    OutputsOnScript(c, src, w);
  }

  lemma MoveCounts(role: Role, s: Snapshot, r: StepResult)
    requires Advances(role, s, r) && !Terminal(s) && (s.midStep ==> s.state == VerifyMerkle)
    requires r.Next? ==> IsAllowed(s.state, r.next) && !r.s.midStep && r.s.state == s.state
    requires r.Next? && r.next == Finished ==> s.midStep || r.s.totalChunks == 0
    requires r.Next? && s.midStep ==> r.next == Finished && r.s.totalChunks == s.totalChunks > 0
    requires r.Continue? ==> r.s.midStep && !s.midStep
    requires r.Next? || r.Continue?
    ensures ActsDone(role, Settle(s, r, false)) == ActsDone(role, s) + 1
  {
  }

  /** Finishing takes the second half of VerifyMerkle, or a header that announces no chunks. */
  lemma HowToFinish(c: Suite, role: Role, sec: Secrets, s: Snapshot)
    requires HasStep(role, s.state) && CounterOk(s) && (s.midStep ==> s.state == VerifyMerkle)
    ensures var r := Step(c, role, sec, s, Fine);
            && (r.Next? && r.next == Finished ==> s.midStep || r.s.totalChunks == 0)
            && (r.Next? && s.midStep ==> r.next == Finished && r.s.totalChunks == s.totalChunks > 0)
  {
    hide Encode; hide Decode; hide Root; hide LeafOf; hide BuildChunk; hide Piece; hide Lawful; hide KeyFor;
    hide NonceFor; hide Hash; hide Unseal; hide CommitInput; hide ReceivedChunk;
  }

  /** An action of a party that changes anything counts one. */
  lemma PartyCounts(c: Suite, src: Source, w: World)
    requires Inv(c, src, w)
    ensures var s' := Act(c, Sender, src.sec, w.s, Fine, false);
            s' == w.s || ActsDone(Sender, s') == ActsDone(Sender, w.s) + 1
    ensures var r' := Act(c, Receiver, src.sec, w.r, Fine, false);
            r' == w.r || ActsDone(Receiver, r') == ActsDone(Receiver, w.r) + 1
  {
    hide Inv; hide SenderStep; hide ReceiverStep; hide Lawful; hide S.Inv; hide R.Inv; hide S.Released;
    hide EncodeAll; hide SenderScript; hide ReceiverScript; hide ActsDone; hide Advances; hide RoundsDone;
    Channels(c, src, w);
    if !Terminal(w.s) {
      SenderActsWell(c, src, w);
      StepHalves(c, Sender, src.sec, w.s, Fine);
      SenderAdvances(c, src.sec, w.s, Fine);
      HowToFinish(c, Sender, src.sec, w.s);
      var r := SenderStep(c, src.sec, w.s, Fine);
      if !r.Wait? {
        MoveCounts(Sender, w.s, r);
      }
    }
    if !Terminal(w.r) {
      ReceiverActsWell(c, src, w);
      StepHalves(c, Receiver, src.sec, w.r, Fine);
      ReceiverAdvances(c, w.r, Fine);
      HowToFinish(c, Receiver, src.sec, w.r);
      var r := ReceiverStep(c, w.r, Fine);
      if !r.Wait? {
        MoveCounts(Receiver, w.r, r);
      }
    }
  }

  lemma EffectiveActionCounts(c: Suite, src: Source, w: World, a: Action)
    requires Inv(c, src, w) && Perform(c, src, w, a) != w
    ensures Inv(c, src, Perform(c, src, w, a)) && Left(c, src, Perform(c, src, w, a)) < Left(c, src, w)
  {
    hide S.Inv; hide R.Inv; hide Lawful; hide EncodeAll; hide SenderScript; hide ReceiverScript; hide Act;
    hide ActsDone;
    PerformKeepsInv(c, src, w, a);
    PartyCounts(c, src, w);
    match a
    case SenderActs =>
      var s' := Act(c, Sender, src.sec, w.s, Fine, false);
      OutputGrows(c, Sender, src.sec, w.s);
      TransitGrows(w.s.output, w.toReceiver, s'.output);
      assert w.toReceiver + w.s.output[|w.s.output|..] == w.toReceiver;
    case ReceiverActs =>
      var r' := Act(c, Receiver, src.sec, w.r, Fine, false);
      OutputGrows(c, Receiver, src.sec, w.r);
      TransitGrows(w.r.output, w.toSender, r'.output);
      assert w.toSender + w.r.output[|w.r.output|..] == w.toSender;
    case DeliverToReceiver(n) => DeliveryCounts(w.r, w.toReceiver, n);
    case DeliverToSender(n) => DeliveryCounts(w.s, w.toSender, n);
  }

  lemma DeliveryCounts(s: Snapshot, transit: bytes, n: nat)
    ensures var k := Min(n, |transit|);
            && (k == 0 ==> Deliver(s, transit[..k]) == s && transit[k..] == transit)
            && (forall role :: ActsDone(role, Deliver(s, transit[..k])) == ActsDone(role, s))
  {
    assert s.input + transit[..0] == s.input;
  }

  /** Every action of the run changed something. */
  ghost predicate Effective(c: Suite, src: Source, actions: seq<Action>) {
    forall i :: 0 <= i < |actions| ==> RunWorld(c, src, actions[..i + 1]) != RunWorld(c, src, actions[..i])
  }

  lemma {:induction false} EffectiveRun(c: Suite, src: Source, actions: seq<Action>)
    requires Effective(c, src, actions)
    ensures Inv(c, src, Start(src))
    ensures Inv(c, src, RunWorld(c, src, actions))
    ensures Left(c, src, RunWorld(c, src, actions)) <= Left(c, src, Start(src)) - |actions|
    decreases |actions|
  {
    hide Perform; hide Lawful; hide Start; hide S.Inv; hide R.Inv; hide Left;
    StartInv(c, src);
    if |actions| > 0 {
      var k := |actions| - 1;
      var before := actions[..k];
      forall i | 0 <= i < k
        ensures RunWorld(c, src, before[..i + 1]) != RunWorld(c, src, before[..i])
      {
        assert before[..i] == actions[..i] && before[..i + 1] == actions[..i + 1];
      }
      EffectiveRun(c, src, before);
      assert actions[..k + 1] == actions && RunWorld(c, src, actions[..k + 1]) != RunWorld(c, src, actions[..k]);
      EffectiveActionCounts(c, src, RunWorld(c, src, before), actions[k]);
    }
  }

  /**
   Every honest run ends: no run makes more than 9n + 8 effective actions and as many as there are
   bytes to deliver. With StuckIffFinished: a run that goes on as long as anything can happen ends
   with both sides finished, and with CopiesTheFile the file is then copied.
   */
  lemma {:induction false} RunsAreBounded(c: Suite, src: Source, actions: seq<Action>)
    requires Effective(c, src, actions)
    ensures |actions| <= 9 * Count(src) as nat + 8
                         + |EncodeAll(SenderScript(c, src))| + |EncodeAll(ReceiverScript(Count(src)))|
  {
    hide Lawful; hide S.Inv; hide R.Inv; hide EncodeAll; hide SenderScript; hide ReceiverScript; hide RunWorld;
    hide Effective;
    EffectiveRun(c, src, actions);
    LeftIsNat(c, src, RunWorld(c, src, actions));
  }

  /** A run that has gone on until nothing more can happen has copied the file, exactly when the size allows it. */
  lemma {:induction false} MaximalRunsCopy(c: Suite, src: Source, actions: seq<Action>)
    requires forall a :: Perform(c, src, RunWorld(c, src, actions), a) == RunWorld(c, src, actions)
    ensures RunWorld(c, src, actions).r.file == src.file <==> |src.file| <= MAX_FILE
  {
    hide RunWorld; hide Perform; hide Lawful;
    StuckIffFinished(c, src, actions);
    CopiesTheFile(c, src, actions);
  }

  ghost predicate InOrder(w: World) {
    w.s.state == Finished ==> w.r.state == Finished
  }

  lemma FinishesInOrder(c: Suite, src: Source, actions: seq<Action>)
    requires Count(src) > 0
    ensures InOrder(RunWorld(c, src, actions))
  {
    hide RunWorld; hide Inv; hide Lawful; hide EncodeAll; hide SenderScript; hide ReceiverScript;
    ReachableInv(c, src, actions);
    Channels(c, src, RunWorld(c, src, actions));
  }

  /** With no chunks the sender is through when it has written the header. */
  lemma FinishesAtOnce(c: Suite, src: Source)
    requires Count(src) == 0
    ensures !InOrder(RunWorld(c, src, [SenderActs, SenderActs]))
  {
    hide Lawful; hide Encode; hide Written; hide Reps; hide ReceiverStep; hide Decode; hide Root; hide LeafOf;
    var once := [SenderActs];
    assert (once + once)[..1] == once && once[..0] == [];
    assert RunWorld(c, src, []) == Start(src);
    var w := RunWorld(c, src, once);
    assert w == Perform(c, src, Start(src), SenderActs);
    assert RunWorld(c, src, once + once) == Perform(c, src, w, SenderActs);
  }

  /** With one or more chunks the sender finishes last in every run, and with none it can finish first. */
  lemma {:induction false} SenderFinishesLast(c: Suite, src: Source)
    ensures (forall actions :: InOrder(RunWorld(c, src, actions))) <==> Count(src) > 0
  {
    hide RunWorld; hide Lawful; hide InOrder; hide Reps;
    if Count(src) > 0 {
      forall actions
        ensures InOrder(RunWorld(c, src, actions))
      {
        FinishesInOrder(c, src, actions);
      }
    } else {
      FinishesAtOnce(c, src);
    }
  }
}
