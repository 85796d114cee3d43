/** What a failure of local I/O does to a round and to a run. */
module Faults {
  import opened Bytes
  import opened Crypto
  import opened Merkle
  import opened Partition
  import opened Protocol
  import opened Wire
  import opened Controllers
  import opened Scripts
  import S = SenderProof
  import SR = SenderRun
  import R = ReceiverProof
  import RR = ReceiverRun

  /** The states whose step writes to the stream or touches a file. */
  predicate DoesIo(role: Role, st: State) {
    match role
    case Sender => st in {SendHeader, SendChunkResponse, SendKeyReveal, VerifyMerkle}
    case Receiver => st in {ReceiveHeader, SendChunkRequest, SendLotteryTicket, VerifyChunk, VerifyMerkle}
  }

  // ---------- one round ----------

  /** `broken` is an error that leaves of the round `fine` just the first n bytes it writes. */
  ghost predicate CutOff(s: Snapshot, fine: Snapshot, broken: Snapshot, n: nat) {
    && broken.state == Error
    && broken.output == fine.output[..Min(|s.output| + n, |fine.output|)]
    && broken.file == fine.file[..Min(|s.file| + n, |fine.file|)]
  }

  lemma WrittenCut(a: bytes, b: bytes, n: nat)
    ensures a + Written(b, Broken(n)) == (a + b)[..Min(|a| + n, |a + b|)]
    ensures a + Written(b, Fine) == a + b && a == a[..Min(|a| + n, |a|)]
  {
  }

  /** Sending on the value of a step: cut off, or with whatever else the step does when it works. */
  lemma SendBreaks(s: Snapshot, b: bytes, n: nat, fine: Snapshot)
    requires fine.output == s.output + b && fine.file == s.file
    ensures CutOff(s, fine, Failed(s.(output := s.output + Written(b, Broken(n)))), n)
  {
    hide Written;
    WrittenCut(s.file, [], n);
    WrittenCut(s.output, b, n);
  }

  lemma SenderBreaks(c: Suite, sec: Secrets, s: Snapshot, n: nat)
    requires DoesIo(Sender, s.state) && s.state != VerifyMerkle
    ensures CutOff(s, Round(c, Sender, sec, s, Fine), Round(c, Sender, sec, s, Broken(n)), n)
  {
    hide Lawful; hide Encode; hide Decode; hide Root; hide LeafOf; hide Piece; hide ReceiverStep; hide BuildChunk;
    hide KeyFor; hide NonceFor; hide HeaderOf; hide ExpectIndex; hide Hash; hide CutOff;
    var (i, fine) := (s.currentChunk, Round(c, Sender, sec, s, Fine));
    match s.state
    case SendHeader => SendBreaks(s, Encode(HeaderOf(s)), n, fine);
    case SendChunkResponse =>
      var ch := BuildChunk(c, s.fileID, i, Piece(s.file, i), KeyFor(sec, i), NonceFor(sec, i));
      SendBreaks(s, Encode(Response(i, ch.ciphertext, ch.nonce, ch.hresp)), n, fine);
    case SendKeyReveal =>
      var b := if s.pending.Some? then Encode(KeyReveal(i, s.pending.value.key)) else [];
      assert s.output + [] == s.output;
      SendBreaks(s, b, n, fine);
  }

  lemma SenderRootBreaks(c: Suite, sec: Secrets, s: Snapshot, n: nat)
    requires s.state == VerifyMerkle && !s.midStep
    ensures CutOff(s, Round(c, Sender, sec, s, Fine), Round(c, Sender, sec, s, Broken(n)), n)
  {
    hide Lawful; hide Encode; hide Decode; hide Root; hide LeafOf; hide Piece; hide Written; hide ReceiverStep;
    WrittenCut(s.file, [], n);
    WrittenCut(s.output, Encode(RootMsg(Root(c, s.leaves))), n);
  }

  lemma ReceiverSendBreaks(c: Suite, sec: Secrets, s: Snapshot, n: nat)
    requires s.state == SendChunkRequest || s.state == SendLotteryTicket
    ensures CutOff(s, Round(c, Receiver, sec, s, Fine), Round(c, Receiver, sec, s, Broken(n)), n)
  {
    hide Lawful; hide Encode; hide Root; hide Written; hide SenderStep; hide TakeHeader; hide TakeResponse;
    hide TakeKey; hide CheckChunk; hide Decode;
    WrittenCut(s.file, [], n);
    WrittenCut(s.output, Encode(Request(s.currentChunk)), n);
    WrittenCut(s.output, Encode(Ticket(s.currentChunk)), n);
  }

  lemma ReceiverHeaderBreaks(c: Suite, sec: Secrets, s: Snapshot, n: nat)
    requires s.state == ReceiveHeader
    ensures CutOff(s, Round(c, Receiver, sec, s, Fine), Round(c, Receiver, sec, s, Broken(n)), n)
  {
    hide Lawful; hide Root; hide SenderStep; hide TakeResponse; hide TakeKey; hide CheckChunk; hide Decode;
    hide SendIndex;
    WrittenCut(s.output, [], n);
    WrittenCut(s.file, [], n);
  }

  lemma ReceiverChunkBreaks(c: Suite, sec: Secrets, s: Snapshot, n: nat)
    requires s.state == VerifyChunk
    ensures CutOff(s, Round(c, Receiver, sec, s, Fine), Round(c, Receiver, sec, s, Broken(n)), n)
  {
    hide Lawful; hide Root; hide Written; hide SenderStep; hide TakeHeader; hide TakeResponse; hide TakeKey;
    hide LeafOf; hide Unseal; hide Hash; hide CommitInput; hide Decode; hide SendIndex;
    WrittenCut(s.output, [], n);
    WrittenCut(s.file, [], n);
    if s.pending.Some? {
      var p := Unseal(c, s.pending.value.key, s.pending.value.nonce, s.pending.value.ciphertext);
      WrittenCut(s.file, if p.Some? then p.value else [], n);
    }
  }

  lemma ReceiverRootBreaks(c: Suite, sec: Secrets, s: Snapshot, n: nat)
    requires s.state == VerifyMerkle && !s.midStep
    ensures CutOff(s, Round(c, Receiver, sec, s, Fine), Round(c, Receiver, sec, s, Broken(n)), n)
  {
    hide Lawful; hide Encode; hide Decode; hide Root; hide Written; hide SenderStep; hide TakeHeader;
    hide TakeResponse; hide TakeKey; hide CheckChunk;
    WrittenCut(s.output, [], n);
    WrittenCut(s.file, [], n);
    WrittenCut(s.output, Encode(FinalAck), n);
  }

  /**
   Failures are never passed over: in a state that does I/O, a failure after n bytes ends the round
   in an error, and what it has written is what the round would have written, cut off after n bytes.
   */
  lemma {:induction false} BreakCutsOff(c: Suite, role: Role, sec: Secrets, s: Snapshot, n: nat)
    requires DoesIo(role, s.state) && !s.midStep
    ensures CutOff(s, Round(c, role, sec, s, Fine), Round(c, role, sec, s, Broken(n)), n)
  {
    hide Lawful; hide Round; hide CutOff;
    if role == Sender {
      if s.state == VerifyMerkle {
        SenderRootBreaks(c, sec, s, n);
      } else {
        SenderBreaks(c, sec, s, n);
      }
    } else if s.state == VerifyMerkle {
      ReceiverRootBreaks(c, sec, s, n);
    } else if s.state == SendChunkRequest || s.state == SendLotteryTicket {
      ReceiverSendBreaks(c, sec, s, n);
    } else if s.state == ReceiveHeader {
      ReceiverHeaderBreaks(c, sec, s, n);
    } else {
      ReceiverChunkBreaks(c, sec, s, n);
    }
  }

  /** In every other state local I/O plays no part. */
  lemma {:induction false} OthersDoNone(c: Suite, role: Role, sec: Secrets, s: Snapshot, io: Io)
    requires !DoesIo(role, s.state)
    ensures Round(c, role, sec, s, io) == Round(c, role, sec, s, Fine)
  {
    hide Lawful; hide Encode; hide Decode; hide Root; hide LeafOf; hide Piece; hide Written; hide CheckChunk;
    hide BuildChunk; hide TakeHeader; hide SendIndex; hide ConfirmChunk; hide ReceivedChunk;
  }

  // ---------- nothing is taken back ----------

  /** What a session has put out so far: on the stream, into its file, and into its list of leaves. */
  ghost predicate Extends(s: Snapshot, s': Snapshot) {
    s.output <= s'.output && s.file <= s'.file && s.leaves <= s'.leaves
  }

  /** Also when the session is then settled in some state. */
  lemma ExtendsOn(a: Snapshot, b: Snapshot, d: Snapshot)
    requires (a == b || Extends(a, b)) && (b == d || Extends(b, d))
    ensures forall st :: Extends(a, d.(state := st)) && Extends(a, Failed(d))
    ensures Extends(a, d)
  {
  }

  lemma SenderExtends(c: Suite, sec: Secrets, s: Snapshot, io: Io)
    ensures var r := SenderStep(c, sec, s, io); r.Next? || r.Continue? || r.Fail? ==> Extends(s, r.s)
  {
    hide Encode; hide Decode; hide Root; hide LeafOf; hide BuildChunk; hide Piece; hide Lawful; hide KeyFor;
    hide NonceFor; hide HeaderOf; hide Written; hide Hash;
  }

  lemma ReceiverExtends(c: Suite, s: Snapshot, io: Io)
    requires s.state == ReceiveHeader ==> s.file == []
    ensures var r := ReceiverStep(c, s, io); r.Next? || r.Continue? || r.Fail? ==> Extends(s, r.s)
  {
    hide Encode; hide Decode; hide Root; hide LeafOf; hide Lawful; hide Hash; hide Unseal; hide CommitInput;
    hide ReceivedChunk; hide Written;
  }

  lemma StepExtends(c: Suite, role: Role, sec: Secrets, s: Snapshot, io: Io)
    requires s.state == ReceiveHeader ==> s.file == []
    ensures var r := Step(c, role, sec, s, io); r.Next? || r.Continue? || r.Fail? ==> Extends(s, r.s)
  {
    hide SenderStep; hide ReceiverStep; hide Lawful; hide Extends;
    SenderExtends(c, sec, s, io);
    ReceiverExtends(c, s, io);
  }

  lemma RoundExtends(c: Suite, role: Role, sec: Secrets, s: Snapshot, io: Io)
    requires !s.midStep && (s.state == ReceiveHeader ==> s.file == [])
    ensures Extends(s, Round(c, role, sec, s, io))
  {
    hide Step; hide Lawful; hide Extends; hide HasStep; hide IsAllowed;
    StepExtends(c, role, sec, s, io);
    StepHalves(c, role, sec, s, io);
    ExtendsOn(s, s, s);
    var r := Step(c, role, sec, s, io);
    if r.Continue? {
      StepExtends(c, role, sec, r.s, io);
      var r' := Step(c, role, sec, r.s, io);
      ExtendsOn(s, r.s, r.s);
      if r'.Next? || r'.Continue? || r'.Fail? {
        ExtendsOn(s, r.s, r'.s);
      }
    } else if r.Next? || r.Fail? {
      ExtendsOn(s, s, r.s);
    }
  }

  // ---------- runs ----------

  lemma NoRounds(c: Suite, role: Role, sec: Secrets, s: Snapshot, io: nat -> Io)
    ensures RunFor(c, role, sec, s, io, 0) == s
  {
  }

  lemma {:induction false} OneRound(c: Suite, role: Role, sec: Secrets, s: Snapshot, io: nat -> Io, k: nat)
    requires k > 0
    ensures var before := RunFor(c, role, sec, s, io, k - 1);
            && RunFor(c, role, sec, s, io, k) == Round(c, role, sec, before, io(k - 1))
            && (Terminal(before) ==> RunFor(c, role, sec, s, io, k) == before)
  {
    hide WholeStep; hide Lawful;
  }

  lemma {:induction false} TerminalStays(c: Suite, role: Role, sec: Secrets, s: Snapshot, io: nat -> Io, i: nat, k: nat)
    requires i <= k && Terminal(RunFor(c, role, sec, s, io, i))
    ensures RunFor(c, role, sec, s, io, k) == RunFor(c, role, sec, s, io, i)
  {
    hide Round; hide Lawful;
    if i < k {
      TerminalStays(c, role, sec, s, io, i, k - 1);
      OneRound(c, role, sec, s, io, k);
    }
  }

  /** A failure in round i, in a state that does I/O, ends the run. */
  lemma {:induction false} BreakEndsRun(c: Suite, role: Role, sec: Secrets, s: Snapshot, io: nat -> Io, i: nat, k: nat)
    requires var before := RunFor(c, role, sec, s, io, i); DoesIo(role, before.state) && !before.midStep
    requires io(i).Broken? && i < k
    ensures RunFor(c, role, sec, s, io, k).state == Error
  {
    hide Round; hide Lawful; hide RunFor;
    var before := RunFor(c, role, sec, s, io, i);
    OneRound(c, role, sec, s, io, i + 1);
    BreakCutsOff(c, role, sec, before, io(i).done);
    TerminalStays(c, role, sec, s, io, i + 1, k);
  }

  /** A run whose I/O works wherever it does any is the run in which all I/O works. */
  lemma {:induction false} SameRun(c: Suite, role: Role, sec: Secrets, s: Snapshot, io: nat -> Io, k: nat)
    requires forall i: nat :: i < k && DoesIo(role, RunFor(c, role, sec, s, io, i).state) ==> io(i).Fine?
    ensures RunFor(c, role, sec, s, io, k) == RunFor(c, role, sec, s, AllFine(), k)
  {
    hide Round; hide Lawful; hide DoesIo; hide RunFor;
    if k == 0 {
      NoRounds(c, role, sec, s, io);
      NoRounds(c, role, sec, s, AllFine());
    } else {
      SameRun(c, role, sec, s, io, k - 1);
      var before := RunFor(c, role, sec, s, io, k - 1);
      OneRound(c, role, sec, s, io, k);
      OneRound(c, role, sec, s, AllFine(), k);
      if !DoesIo(role, before.state) {
        OthersDoNone(c, role, sec, before, io(k - 1));
      }
    }
  }

  function AllFine(): nat -> Io {
    i => Fine
  }

  // ---------- the exact acceptors, with failures ----------

  /** The rounds of a sender of n chunks that do I/O: every other one, and the root. */
  predicate SenderIo(n: nat, k: nat) {
    (k % 2 == 1 && k < 4 * n + 2) || (n > 0 && k == 4 * n + 2)
  }

  /** The rounds of a receiver of n chunks that do I/O: the header, three of five for each chunk, and the root. */
  predicate ReceiverIo(n: nat, k: nat) {
    k == 1 || (n > 0 && 2 <= k <= 5 * n + 2 && (k - 2) % 5 in {0, 2, 4})
  }

  lemma SenderIoRounds(c: Suite, src: Source, input: bytes, io: nat -> Io, k: nat)
    ensures var s := SR.After(c, src, input, io, k);
            && !s.midStep
            && (!Terminal(s) ==> (DoesIo(Sender, s.state) <==> SenderIo(Count(src), k)))
            && (s.state == Finished ==> !SenderIo(Count(src), k))
  {
    hide Lawful; hide EncodeAll; hide SenderScript; hide ReceiverScript; hide Leaves; hide SentChunk; hide Reps;
    hide SentChunks; hide S.Released; hide RunFor;
    SR.RunIsGood(c, src, input, io, k);
  }

  /**
   The sender's exact acceptor under arbitrary failures: it finishes if and only if its input
   begins with the receiver's script and every round that does I/O gets through.
   */
  lemma {:induction false} SenderFinishesIff(c: Suite, src: Source, input: bytes, io: nat -> Io)
    ensures var n := Count(src) as nat;
            SR.After(c, src, input, io, 4 * n + 3).state == Finished <==>
              && EncodeAll(ReceiverScript(Count(src))) <= input
              && forall k: nat :: SenderIo(n, k) ==> io(k).Fine?
  {
    hide Lawful; hide EncodeAll; hide ReceiverScript; hide RunFor; hide S.Inv; hide SenderScript; hide S.Released;
    hide DoesIo; hide SenderIo; hide Reps;
    var n := Count(src) as nat;
    var last := 4 * n + 3;
    var start := S.Start(src, input);
    SR.RunIsGood(c, src, input, io, last);
    if SR.After(c, src, input, io, last).state == Finished {
      SR.FinishedMeans(c, src, SR.After(c, src, input, io, last), input);
      forall k: nat | SenderIo(n, k)
        ensures io(k).Fine?
      {
        SenderIoBound(n, k);
        SenderIoRounds(c, src, input, io, k);
        if Terminal(SR.After(c, src, input, io, k)) {
          TerminalStays(c, Sender, src.sec, start, io, k, last);
        } else if io(k).Broken? {
          BreakEndsRun(c, Sender, src.sec, start, io, k, last);
        }
      }
    } else if EncodeAll(ReceiverScript(Count(src))) <= input && forall k: nat :: SenderIo(n, k) ==> io(k).Fine? {
      forall i: nat | i < last && DoesIo(Sender, RunFor(c, Sender, src.sec, start, io, i).state)
        ensures io(i).Fine?
      {
        SenderIoRounds(c, src, input, io, i);
        DoesIoRuns(Sender, RunFor(c, Sender, src.sec, start, io, i));
      }
      SameRun(c, Sender, src.sec, start, io, last);
      SR.FinishesIffScript(c, src, input, AllFine());
    }
  }

  lemma SenderIoBound(n: nat, k: nat)
    requires SenderIo(n, k)
    ensures k < 4 * n + 3
  {
  }

  lemma DoesIoRuns(role: Role, s: Snapshot)
    requires DoesIo(role, s.state)
    ensures !Terminal(s)
  {
  }

  lemma ReceiverIoRounds(c: Suite, sec: Secrets, input: bytes, io: nat -> Io, k: nat)
    ensures var s := RR.After(c, sec, input, io, k);
            && !s.midStep
            && (!Terminal(s) ==> (DoesIo(Receiver, s.state) <==> k == 1 || (k >= 2 && (k - 2) % 5 in {0, 2, 4})))
            && (s.state == Finished ==> !ReceiverIo(s.totalChunks, k))
  {
    hide Lawful; hide EncodeAll; hide ReceiverScript; hide Leaves; hide RunFor; hide R.ChunksOf; hide R.GoodPairs;
    hide Plaintexts; hide AllWellSized; hide R.Explains; hide R.PendingOk; hide R.RootOk;
    var told := RR.RunTranscript(c, sec, input, io, k);
  }

  /** A receiver on a valid transcript of n chunks is through after 5n + 3 rounds, 2 for none. */
  lemma InTime(c: Suite, sec: Secrets, input: bytes, told: seq<Message>)
    requires R.ValidTranscript(c, told) && EncodeAll(told) <= input
    ensures var n := told[0].reps as nat;
            RR.After(c, sec, input, AllFine(), if n == 0 then 2 else 5 * n + 3).state == Finished
  {
    hide EncodeAll; hide Lawful; hide RunFor; hide Leaves; hide Plaintexts; hide R.ChunksOf; hide R.GoodPairs;
    hide ReceiverScript; hide AllWellSized; hide Root; hide R.PendingOk; hide R.RootOk;
    var n := told[0].reps as nat;
    var k := if n == 0 then 2 else 5 * n + 3;
    RR.RunOnTranscript(c, sec, input, AllFine(), told, k);
    RR.Terminates(c, sec, input, AllFine(), k);
  }

  /** Wherever it gets through, a finished receiver of n chunks has done its I/O. */
  lemma FinishedDidIo(c: Suite, sec: Secrets, input: bytes, io: nat -> Io, last: nat, k: nat)
    requires var s := RR.After(c, sec, input, io, last); s.state == Finished && ReceiverIo(s.totalChunks, k)
    ensures io(k).Fine?
  {
    hide Lawful; hide RunFor; hide DoesIo;
    var start := ReceiverStart(input);
    ReceiverIoRounds(c, sec, input, io, k);
    if k >= last {
      TerminalStays(c, Receiver, sec, start, io, last, k);
    } else if Terminal(RR.After(c, sec, input, io, k)) {
      TerminalStays(c, Receiver, sec, start, io, k, last);
    } else if io(k).Broken? {
      BreakEndsRun(c, Receiver, sec, start, io, k, last);
    }
  }

  /** The transcript of n chunks that an input begins with, where the I/O of n chunks works. */
  ghost predicate GetsThrough(c: Suite, input: bytes, io: nat -> Io, told: seq<Message>) {
    && R.ValidTranscript(c, told) && EncodeAll(told) <= input
    && forall k: nat :: ReceiverIo(told[0].reps, k) ==> io(k).Fine?
  }

  /**
   The receiver's exact acceptor under arbitrary failures: it finishes if and only if its input
   begins with a valid transcript and every round that does I/O for its n chunks gets through.
   */
  lemma {:induction false} ReceiverFinishesIff(c: Suite, sec: Secrets, input: bytes, io: nat -> Io)
    ensures (exists k: nat :: RR.After(c, sec, input, io, k).state == Finished)
            <==> exists told :: GetsThrough(c, input, io, told)
  {
    hide Lawful; hide RunFor; hide EncodeAll; hide ReceiverIo; hide DoesIo; hide R.Inv; hide R.ValidTranscript;
    hide Leaves; hide R.ChunksOf; hide ReceiverScript; hide RR.FileOf;
    if last: nat :| RR.After(c, sec, input, io, last).state == Finished {
      var told := RR.RunTranscript(c, sec, input, io, last);
      var s := RR.After(c, sec, input, io, last);
      R.InvTaken(c, s, told, input);
      RR.FinishedMeans(c, s, told, input);
      RR.HasHeader(c, told[..Taken(Receiver, s)]);
      forall k: nat | ReceiverIo(s.totalChunks, k)
        ensures io(k).Fine?
      {
        FinishedDidIo(c, sec, input, io, last, k);
      }
      assert GetsThrough(c, input, io, told[..Taken(Receiver, s)]);
    }
    if told :| GetsThrough(c, input, io, told) {
      RR.HasHeader(c, told);
      ThenFinishes(c, sec, input, io, told);
    }
  }

  lemma ThenFinishes(c: Suite, sec: Secrets, input: bytes, io: nat -> Io, told: seq<Message>)
    requires GetsThrough(c, input, io, told)
    ensures exists k: nat :: RR.After(c, sec, input, io, k).state == Finished
  {
    hide Lawful; hide RunFor; hide EncodeAll; hide DoesIo; hide R.ValidTranscript;
    RR.HasHeader(c, told);
    var (n, start) := (told[0].reps as nat, ReceiverStart(input));
    var last := if n == 0 then 2 else 5 * n + 3;
    forall i: nat | i < last && DoesIo(Receiver, RunFor(c, Receiver, sec, start, io, i).state)
      ensures io(i).Fine?
    {
      ReceiverIoRounds(c, sec, input, io, i);
      DoesIoRuns(Receiver, RunFor(c, Receiver, sec, start, io, i));
      assert ReceiverIo(n, i);
    }
    SameRun(c, Receiver, sec, start, io, last);
    InTime(c, sec, input, told);
    assert RR.After(c, sec, input, io, last).state == Finished;
  }

  /** A receiver that cannot create its file ends in an error and never says a word. */
  lemma {:induction false} NoFileNoAnswer(c: Suite, sec: Secrets, input: bytes, io: nat -> Io, k: nat)
    requires io(1).Broken? && k >= 2
    ensures var s := RR.After(c, sec, input, io, k); s.state == Error && s.output == [] && s.file == []
  {
    hide Lawful; hide Round; hide RunFor;
    var start := ReceiverStart(input);
    var s1 := RunFor(c, Receiver, sec, start, io, 1);
    OneRound(c, Receiver, sec, start, io, 1);
    FirstRound(c, sec, input, io(0));
    NoRounds(c, Receiver, sec, start, io);
    OneRound(c, Receiver, sec, start, io, 2);
    BreakCutsOff(c, Receiver, sec, s1, io(1).done);
    HeaderIsSilent(c, sec, s1);
    TerminalStays(c, Receiver, sec, start, io, 2, k);
  }

  lemma FirstRound(c: Suite, sec: Secrets, input: bytes, io: Io)
    ensures Round(c, Receiver, sec, ReceiverStart(input), io) == ReceiverStart(input).(state := ReceiveHeader)
  {
    hide Lawful; hide SenderStep; hide TakeHeader; hide TakeResponse; hide TakeKey; hide CheckChunk;
  }

  lemma HeaderIsSilent(c: Suite, sec: Secrets, s: Snapshot)
    requires s.state == ReceiveHeader && s.file == []
    ensures var s' := Round(c, Receiver, sec, s, Fine); s'.output == s.output && s'.file == []
  {
    hide Lawful; hide SenderStep; hide TakeResponse; hide TakeKey; hide CheckChunk; hide Decode; hide SendIndex;
    hide Root;
  }

  /** Nothing that a sender has written or recorded is ever taken back, not even by an error. */
  lemma {:induction false} SenderTakesNothingBack(c: Suite, src: Source, input: bytes, io: nat -> Io, i: nat, k: nat)
    requires i <= k
    ensures Extends(SR.After(c, src, input, io, i), SR.After(c, src, input, io, k))
  {
    hide Lawful; hide Round; hide RunFor;
    if i < k {
      SenderTakesNothingBack(c, src, input, io, i, k - 1);
      var s := SR.After(c, src, input, io, k - 1);
      SenderIoRounds(c, src, input, io, k - 1);
      SenderNeverReceives(c, src, input, io, k - 1);
      OneRound(c, Sender, src.sec, S.Start(src, input), io, k);
      RoundExtends(c, Sender, src.sec, s, io(k - 1));
    }
  }

  lemma SenderNeverReceives(c: Suite, src: Source, input: bytes, io: nat -> Io, k: nat)
    ensures SR.After(c, src, input, io, k).state != ReceiveHeader
  {
    hide Lawful; hide RunFor; hide EncodeAll; hide SenderScript; hide ReceiverScript; hide Leaves; hide SentChunk;
    hide SentChunks; hide S.Released;
    SR.RunIsGood(c, src, input, io, k);
  }

  /** Nor is anything that a receiver has answered, written to its file or recorded. */
  lemma {:induction false} ReceiverTakesNothingBack(
    c: Suite, sec: Secrets, input: bytes, io: nat -> Io, i: nat, k: nat)
    requires i <= k
    ensures Extends(RR.After(c, sec, input, io, i), RR.After(c, sec, input, io, k))
  {
    hide Lawful; hide Round; hide RunFor;
    if i < k {
      ReceiverTakesNothingBack(c, sec, input, io, i, k - 1);
      var s := RR.After(c, sec, input, io, k - 1);
      ReceiverIoRounds(c, sec, input, io, k - 1);
      NoFileYet(c, sec, input, io, k - 1);
      OneRound(c, Receiver, sec, ReceiverStart(input), io, k);
      RoundExtends(c, Receiver, sec, s, io(k - 1));
    }
  }

  lemma NoFileYet(c: Suite, sec: Secrets, input: bytes, io: nat -> Io, k: nat)
    ensures var s := RR.After(c, sec, input, io, k); s.state == ReceiveHeader ==> s.file == []
  {
    hide Lawful; hide RunFor; hide EncodeAll; hide ReceiverScript; hide AllWellSized; hide R.Explains;
    var told := RR.RunTranscript(c, sec, input, io, k);
  }
}
