/**
 An honest sender and an honest receiver over two reliable byte streams. The parties act in any
 order, and the streams deliver what was written in any portions. Local I/O works.
 */
module Joint {
  import opened Bytes
  import opened Crypto
  import opened Merkle
  import opened Partition
  import opened Protocol
  import opened Wire
  import opened Controllers
  import opened Scripts
  import opened Honest
  import S = SenderProof
  import R = ReceiverProof

  datatype World = World(s: Snapshot, r: Snapshot, toReceiver: bytes, toSender: bytes)

  datatype Action = SenderActs | ReceiverActs | DeliverToReceiver(n: nat) | DeliverToSender(n: nat)

  function Start(src: Source): World {
    World(S.Start(src, []), ReceiverStart([]), [], [])
  }

  function Deliver(s: Snapshot, b: bytes): Snapshot {
    s.(input := s.input + b)
  }

  function Perform(c: Suite, src: Source, w: World, a: Action): World {
    match a
    case SenderActs =>
      var s' := Act(c, Sender, src.sec, w.s, Fine, false);
      OutputGrows(c, Sender, src.sec, w.s);
      w.(s := s', toReceiver := w.toReceiver + s'.output[|w.s.output|..])
    case ReceiverActs =>
      var r' := Act(c, Receiver, src.sec, w.r, Fine, false);
      OutputGrows(c, Receiver, src.sec, w.r);
      w.(r := r', toSender := w.toSender + r'.output[|w.r.output|..])
    case DeliverToReceiver(n) =>
      var k := Min(n, |w.toReceiver|);
      w.(r := Deliver(w.r, w.toReceiver[..k]), toReceiver := w.toReceiver[k..])
    case DeliverToSender(n) =>
      var k := Min(n, |w.toSender|);
      w.(s := Deliver(w.s, w.toSender[..k]), toSender := w.toSender[k..])
  }

  function RunWorld(c: Suite, src: Source, actions: seq<Action>): World {
    if |actions| == 0 then Start(src)
    else Perform(c, src, RunWorld(c, src, actions[..|actions| - 1]), actions[|actions| - 1])
  }

  lemma SenderOutputGrows(c: Suite, sec: Secrets, s: Snapshot)
    ensures var r := SenderStep(c, sec, s, Fine); r.Next? || r.Continue? || r.Fail? ==> s.output <= r.s.output
  {
    hide Encode; hide Decode; hide Root; hide LeafOf; hide BuildChunk; hide Piece; hide Lawful; hide KeyFor;
    hide NonceFor;
  }

  lemma ReceiverOutputGrows(c: Suite, s: Snapshot)
    ensures var r := ReceiverStep(c, s, Fine); r.Next? || r.Continue? || r.Fail? ==> s.output <= r.s.output
  {
    hide Encode; hide Decode; hide Root; hide LeafOf; hide Lawful; hide Hash; hide Unseal; hide CommitInput;
  }

  lemma OutputGrows(c: Suite, role: Role, sec: Secrets, s: Snapshot)
    ensures s.output <= Act(c, role, sec, s, Fine, false).output
  {
    hide SenderStep; hide ReceiverStep; hide Lawful;
    SenderOutputGrows(c, sec, s);
    ReceiverOutputGrows(c, s);
  }

  // ---------- the invariant ----------

  /** All that has been delivered to each side. */
  function GotR(w: World): bytes
    requires |w.toReceiver| <= |w.s.output|
  {
    w.s.output[..|w.s.output| - |w.toReceiver|]
  }

  function GotS(w: World): bytes
    requires |w.toSender| <= |w.r.output|
  {
    w.r.output[..|w.r.output| - |w.toSender|]
  }

  ghost predicate Inv(c: Suite, src: Source, w: World) {
    && |w.toReceiver| <= |w.s.output| && w.s.output == GotR(w) + w.toReceiver
    && |w.toSender| <= |w.r.output| && w.r.output == GotS(w) + w.toSender
    && S.Inv(c, src, w.s, GotS(w))
    && R.Inv(c, w.r, SenderScript(c, src), GotR(w))
  }

  lemma StartInv(c: Suite, src: Source)
    ensures Inv(c, src, Start(src))
  {
    hide Encode; hide SenderLine; hide ReceiverLine; hide SentChunk; hide LeafOf; hide Lawful;
    assert SenderScript(c, src)[..0] == [] && ReceiverScript(Count(src))[..0] == [] && ReceiverScript(0)[..0] == [];
    assert SentChunks(c, src, 0) == [];
  }

  lemma DeliverKeepsInv(c: Suite, src: Source, s: Snapshot, got: bytes, b: bytes)
    requires S.Inv(c, src, s, got)
    ensures S.Inv(c, src, Deliver(s, b), got + b)
  {
    hide EncodeAll; hide SenderScript; hide ReceiverScript; hide Leaves; hide SentChunk; hide SentChunks;
    hide Lawful;
    Assoc(EncodeAll(ReceiverScript(Count(src))[..Taken(Sender, s)]), s.input, b);
  }

  lemma DeliverKeepsRInv(c: Suite, s: Snapshot, told: seq<Message>, got: bytes, b: bytes)
    requires R.Inv(c, s, told, got)
    ensures R.Inv(c, Deliver(s, b), told, got + b)
  {
    hide EncodeAll; hide ReceiverScript; hide Leaves; hide Plaintexts; hide Lawful; hide AllWellSized;
    hide R.GoodPairs; hide R.ChunksOf; hide ReceivedChunk; hide R.Keyed; hide R.PairAt; hide Root;
    Assoc(EncodeAll(told[..Taken(Receiver, s)]), s.input, b);
  }

  /** What each side has been sent is a prefix of the other side's script. */
  lemma OutputsOnScript(c: Suite, src: Source, w: World)
    requires Inv(c, src, w)
    ensures w.s.output <= EncodeAll(SenderScript(c, src)) && w.r.output <= EncodeAll(ReceiverScript(Count(src)))
    ensures w.r.totalChunks == Count(src) || (w.r.totalChunks == 0 && (w.r.state == Idle || w.r.state == ReceiveHeader))
  {
    hide EncodeAll; hide SenderScript; hide ReceiverScript; hide Leaves; hide SentChunk; hide SentChunks;
    hide Lawful; hide Plaintexts; hide AllWellSized; hide R.GoodPairs; hide R.ChunksOf; hide R.PendingOk;
    hide R.RootOk;
    var (ss, rs) := (SenderScript(c, src), ReceiverScript(Count(src)));
    assert ss[..|ss|] == ss && rs[..|rs|] == rs;
    EncodeAllPrefix(ss, Sent(Sender, w.s), |ss|);
    FirstLine(c, src);
    if w.r.state == Idle || w.r.state == ReceiveHeader {
      assert ReceiverScript(w.r.totalChunks)[..0] == rs[..0];
      EncodeAllPrefix(rs, 0, |rs|);
    } else {
      EncodeAllPrefix(rs, Sent(Receiver, w.r), |rs|);
    }
  }

  lemma Completes(got: bytes, transit: bytes, output: bytes, whole: bytes) returns (t: bytes)
    requires output == got + transit && output <= whole
    ensures got + t == whole + []
  {
    t := transit + whole[|output|..];
    Assoc(got, transit, whole[|output|..]);
  }

  /** In an honest world a sender that acts stays on script. */
  lemma SenderActsWell(c: Suite, src: Source, w: World)
    requires Inv(c, src, w) && !Terminal(w.s)
    ensures var r := SenderStep(c, src.sec, w.s, Fine);
            && HasStep(Sender, w.s.state) && S.GoodResult(c, src, w.s, GotS(w), r)
            && (r.Next? || r.Continue? || r.Wait?)
            && (r.Wait? ==> Reading(Sender, w.s) && Incomplete(ReceiverScript(Count(src)), Taken(Sender, w.s), GotS(w)))
  {
    hide EncodeAll; hide SenderScript; hide ReceiverScript; hide Lawful; hide S.Inv; hide R.Inv; hide SenderStep;
    hide S.Released;
    OutputsOnScript(c, src, w);
    var t := Completes(GotS(w), w.toSender, w.r.output, EncodeAll(ReceiverScript(Count(src))));
    S.Progress(c, src, w.s, GotS(w), t, []);
    S.StepIsGood(c, src, w.s, GotS(w), Fine);
  }

  lemma ReceiverActsWell(c: Suite, src: Source, w: World)
    requires Inv(c, src, w) && !Terminal(w.r)
    ensures var r := ReceiverStep(c, w.r, Fine);
            && HasStep(Receiver, w.r.state) && R.GoodResult(c, w.r, SenderScript(c, src), GotR(w), r)
            && (r.Next? || r.Continue? || r.Wait?)
            && (r.Wait? ==> Reading(Receiver, w.r) && Incomplete(SenderScript(c, src), Taken(Receiver, w.r), GotR(w)))
  {
    hide EncodeAll; hide SenderScript; hide ReceiverScript; hide Lawful; hide S.Inv; hide R.Inv; hide ReceiverStep;
    hide R.ValidTranscript;
    OutputsOnScript(c, src, w);
    HonestTranscript(c, src);
    var t := Completes(GotR(w), w.toReceiver, w.s.output, EncodeAll(SenderScript(c, src)));
    R.Progress(c, w.r, SenderScript(c, src), GotR(w), t, []);
    R.StepIsGood(c, w.r, SenderScript(c, src), GotR(w), Fine);
  }

  lemma SenderActOnScript(c: Suite, src: Source, w: World)
    requires Inv(c, src, w)
    ensures S.Inv(c, src, Act(c, Sender, src.sec, w.s, Fine, false), GotS(w))
  {
    hide EncodeAll; hide SenderScript; hide ReceiverScript; hide Lawful; hide S.Inv; hide R.Inv; hide SenderStep;
    hide S.Released;
    if !Terminal(w.s) {
      SenderActsWell(c, src, w);
    }
  }

  lemma ReceiverActOnScript(c: Suite, src: Source, w: World)
    requires Inv(c, src, w)
    ensures R.Inv(c, Act(c, Receiver, src.sec, w.r, Fine, false), SenderScript(c, src), GotR(w))
  {
    hide EncodeAll; hide SenderScript; hide ReceiverScript; hide Lawful; hide S.Inv; hide R.Inv; hide ReceiverStep;
    if !Terminal(w.r) {
      ReceiverActsWell(c, src, w);
    }
  }

  lemma SenderActKeeps(c: Suite, src: Source, w: World)
    requires Inv(c, src, w)
    ensures Inv(c, src, Perform(c, src, w, SenderActs))
  {
    hide EncodeAll; hide SenderScript; hide ReceiverScript; hide Lawful; hide S.Inv; hide R.Inv; hide Act;
    OutputGrows(c, Sender, src.sec, w.s);
    SenderActOnScript(c, src, w);
    TransitGrows(w.s.output, w.toReceiver, Act(c, Sender, src.sec, w.s, Fine, false).output);
  }

  lemma ReceiverActKeeps(c: Suite, src: Source, w: World)
    requires Inv(c, src, w)
    ensures Inv(c, src, Perform(c, src, w, ReceiverActs))
  {
    hide EncodeAll; hide SenderScript; hide ReceiverScript; hide Lawful; hide S.Inv; hide R.Inv; hide Act;
    OutputGrows(c, Receiver, src.sec, w.r);
    ReceiverActOnScript(c, src, w);
    TransitGrows(w.r.output, w.toSender, Act(c, Receiver, src.sec, w.r, Fine, false).output);
  }

  lemma TransitGrows(output: bytes, transit: bytes, output': bytes)
    requires |transit| <= |output| && output == output[..|output| - |transit|] + transit && output <= output'
    ensures var transit' := transit + output'[|output|..];
            && |transit'| <= |output'|
            && output'[..|output'| - |transit'|] == output[..|output| - |transit|]
            && output' == output'[..|output'| - |transit'|] + transit'
  {
    assert output' == output + output'[|output|..];
  }

  lemma TransitShrinks(output: bytes, transit: bytes, k: nat)
    requires |transit| <= |output| && output == output[..|output| - |transit|] + transit && k <= |transit|
    ensures var transit' := transit[k..];
            && output[..|output| - |transit'|] == output[..|output| - |transit|] + transit[..k]
            && output == output[..|output| - |transit'|] + transit'
  {
  }

  lemma PerformKeepsInv(c: Suite, src: Source, w: World, a: Action)
    requires Inv(c, src, w)
    ensures Inv(c, src, Perform(c, src, w, a))
  {
    hide EncodeAll; hide SenderScript; hide ReceiverScript; hide Lawful; hide S.Inv; hide R.Inv; hide Act;
    match a
    case SenderActs => SenderActKeeps(c, src, w);
    case ReceiverActs => ReceiverActKeeps(c, src, w);
    case DeliverToReceiver(n) =>
      var k := Min(n, |w.toReceiver|);
      TransitShrinks(w.s.output, w.toReceiver, k);
      DeliverKeepsRInv(c, w.r, SenderScript(c, src), GotR(w), w.toReceiver[..k]);
    case DeliverToSender(n) =>
      var k := Min(n, |w.toSender|);
      TransitShrinks(w.r.output, w.toSender, k);
      DeliverKeepsInv(c, src, w.s, GotS(w), w.toSender[..k]);
  }

  /** Every world that can be reached, in any interleaving, satisfies the invariant. */
  lemma {:induction false} ReachableInv(c: Suite, src: Source, actions: seq<Action>)
    ensures Inv(c, src, RunWorld(c, src, actions))
    decreases |actions|
  {
    hide Inv; hide Perform; hide Lawful; hide Start;
    if |actions| == 0 {
      StartInv(c, src);
    } else {
      ReachableInv(c, src, actions[..|actions| - 1]);
      PerformKeepsInv(c, src, RunWorld(c, src, actions[..|actions| - 1]), actions[|actions| - 1]);
    }
  }
}
