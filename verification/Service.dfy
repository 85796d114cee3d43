/**
 Request and transfer together: a client that writes its request and goes straight on to its
 session, and a server that starts its session on whatever follows the request. The server reads
 both off one stream, which delivers in arbitrary portions.
 */
module Service {
  import opened Bytes
  import opened Crypto
  import opened Partition
  import opened Protocol
  import opened Wire
  import opened Controllers
  import opened Scripts
  import opened Joint
  import opened JointRun
  import opened Endpoints
  import S = SenderProof

  /** The sessions of both ends, the part of the request still under way, and whether the server is past it. */
  datatype Call = Call(w: World, left: bytes, started: bool)

  datatype Event = ClientActs | ServerActs | ServerStarts | ToServer(n: nat) | ToClient(n: nat)

  /** The session on the server's side: the sender's for GET, the receiver's for POST. */
  function Server(m: Method, w: World): Snapshot {
    if m == Get then w.s else w.r
  }

  function WithServer(m: Method, w: World, v: Snapshot): World {
    if m == Get then w.(s := v) else w.(r := v)
  }

  function ServerAction(m: Method): Action {
    if m == Get then SenderActs else ReceiverActs
  }

  function ClientAction(m: Method): Action {
    if m == Get then ReceiverActs else SenderActs
  }

  function DeliverToServer(m: Method, n: nat): Action {
    if m == Get then DeliverToSender(n) else DeliverToReceiver(n)
  }

  function DeliverToClient(m: Method, n: nat): Action {
    if m == Get then DeliverToReceiver(n) else DeliverToSender(n)
  }

  function Begin(src: Source, m: Method, path: bytes): Call {
    Call(Joint.Start(src), Preamble(m, path), false)
  }

  /** What has reached a server that has read nothing yet: its part of the request, and session bytes behind it. */
  function Heard(m: Method, path: bytes, k: Call): bytes {
    var pre := Preamble(m, path);
    pre[..Max(0, |pre| - |k.left|)] + Server(m, k.w).input
  }

  function Max(a: int, b: int): int {
    if a >= b then a else b
  }

  /** One event. A server that has not parsed its request does not act, and one that has goes on with the rest. */
  function Happen(c: Suite, src: Source, m: Method, path: bytes, k: Call, e: Event): Call {
    match e
    case ClientActs => k.(w := Perform(c, src, k.w, ClientAction(m)))
    case ServerActs => if k.started then k.(w := Perform(c, src, k.w, ServerAction(m))) else k
    case ServerStarts => (
      match Parse(Heard(m, path, k))
      case Got(v, rest) =>
        if k.started || !Complementary(ClientJob(m, path), ServerJob(v.0, v.1), path) then k
        else k.(started := true, w := WithServer(m, k.w, Server(m, k.w).(input := rest)))
      case _ => k
    )
    case ToServer(n) =>
      var d := Min(n, |k.left|);
      var k' := k.(left := k.left[d..]);
      if d < |k.left| then k' else k'.(w := Perform(c, src, k.w, DeliverToServer(m, n - d)))
    case ToClient(n) => k.(w := Perform(c, src, k.w, DeliverToClient(m, n)))
  }

  function RunCall(c: Suite, src: Source, m: Method, path: bytes, events: seq<Event>): Call {
    if |events| == 0 then Begin(src, m, path)
    else Happen(c, src, m, path, RunCall(c, src, m, path, events[..|events| - 1]), events[|events| - 1])
  }

  // ---------- the request changes nothing about the transfer ----------

  /** A server that has not started has done nothing. */
  ghost predicate Untouched(src: Source, m: Method, w: World) {
    Server(m, w).(input := []) == Server(m, Joint.Start(src))
  }

  /** The transfer is one that two sessions reach without any request, and the request is delivered first. */
  ghost predicate Inv(c: Suite, src: Source, m: Method, path: bytes, k: Call, actions: seq<Action>) {
    && k.w == RunWorld(c, src, actions)
    && |k.left| <= |Preamble(m, path)| && k.left == Preamble(m, path)[|Preamble(m, path)| - |k.left|..]
    && (k.left != [] ==> !k.started && Server(m, k.w).input == [])
    && (!k.started ==> Untouched(src, m, k.w))
  }

  lemma {:induction false} OneMore(c: Suite, src: Source, actions: seq<Action>, a: Action)
    ensures RunWorld(c, src, actions + [a]) == Perform(c, src, RunWorld(c, src, actions), a)
  {
    hide Perform; hide Joint.Start; hide Lawful;
    assert (actions + [a])[..|actions|] == actions;
  }

  /** What the client does, and what reaches the client, does not touch the server. */
  lemma ClientSide(c: Suite, src: Source, m: Method, w: World, n: nat)
    ensures Server(m, Perform(c, src, w, ClientAction(m))) == Server(m, w)
    ensures Server(m, Perform(c, src, w, DeliverToClient(m, n))) == Server(m, w)
  {
    hide Act; hide Lawful;
  }

  /** What reaches the server only adds to its unread input. */
  lemma ServerHears(c: Suite, src: Source, m: Method, w: World, n: nat)
    ensures Server(m, Perform(c, src, w, DeliverToServer(m, n))).(input := []) == Server(m, w).(input := [])
  {
    hide Act; hide Lawful;
  }

  lemma BeginInv(c: Suite, src: Source, m: Method, path: bytes)
    ensures Inv(c, src, m, path, Begin(src, m, path), [])
  {
    hide Preamble; hide Perform; hide Lawful;
    assert RunWorld(c, src, []) == Joint.Start(src);
  }

  /** The server starts exactly when the request is in, and its session gets exactly what is behind it. */
  lemma Starting(c: Suite, src: Source, m: Method, path: bytes, k: Call, actions: seq<Action>)
    requires (m == Get || m == Post) && |path| < U32_LIMIT && Inv(c, src, m, path, k, actions) && !k.started
    ensures Happen(c, src, m, path, k, ServerStarts) == k.(started := k.left == [])
  {
    hide Preamble; hide Parse; hide RunWorld; hide Lawful; hide Perform; hide Untouched;
    var (pre, input) := (Preamble(m, path), Server(m, k.w).input);
    var heard := Heard(m, path, k);
    if k.left == [] {
      assert pre[..|pre|] == pre && heard == pre + input;
    } else {
      assert heard == pre[..|pre| - |k.left|];
    }
    assert heard <= pre + input;
    ParsePartial(m, path, heard, input);
    PreambleComposes(m, path, input);
    if k.left == [] {
      assert heard[|pre|..] == input;
      assert WithServer(m, k.w, Server(m, k.w).(input := input)) == k.w;
    }
  }

  lemma Shorter(pre: bytes, left: bytes, d: nat)
    requires |left| <= |pre| && left == pre[|pre| - |left|..] && d <= |left|
    ensures left[d..] == pre[|pre| - |left[d..]|..]
  {
  }

  lemma ToServerKeepsInv(c: Suite, src: Source, m: Method, path: bytes, k: Call, actions: seq<Action>, n: nat)
    returns (actions': seq<Action>)
    requires Inv(c, src, m, path, k, actions)
    ensures Inv(c, src, m, path, Happen(c, src, m, path, k, ToServer(n)), actions')
  {
    hide Preamble; hide Parse; hide RunWorld; hide Lawful; hide Perform; hide Joint.Start; hide Heard;
    hide DeliverToServer;
    var d := Min(n, |k.left|);
    Shorter(Preamble(m, path), k.left, d);
    actions' := actions;
    if d == |k.left| {
      ServerHears(c, src, m, k.w, n - d);
      OneMore(c, src, actions, DeliverToServer(m, n - d));
      actions' := actions + [DeliverToServer(m, n - d)];
    }
  }

  /** Performing `a` keeps the invariant when the server has started or `a` does not touch it. */
  lemma PerformKeepsInv(c: Suite, src: Source, m: Method, path: bytes, k: Call, actions: seq<Action>, a: Action)
    requires Inv(c, src, m, path, k, actions)
    requires k.started || Server(m, Perform(c, src, k.w, a)) == Server(m, k.w)
    ensures Inv(c, src, m, path, k.(w := Perform(c, src, k.w, a)), actions + [a])
  {
    hide Preamble; hide RunWorld; hide Lawful; hide Perform; hide Joint.Start; hide Server;
    OneMore(c, src, actions, a);
  }

  lemma HappenKeepsInv(
    c: Suite, src: Source, m: Method, path: bytes, k: Call, actions: seq<Action>, e: Event)
    returns (actions': seq<Action>)
    requires (m == Get || m == Post) && |path| < U32_LIMIT && Inv(c, src, m, path, k, actions)
    ensures Inv(c, src, m, path, Happen(c, src, m, path, k, e), actions')
  {
    hide Preamble; hide Parse; hide RunWorld; hide Lawful; hide Perform; hide Joint.Start; hide Heard;
    hide Untouched; hide ClientAction; hide ServerAction; hide DeliverToClient; hide DeliverToServer;
    actions' := actions;
    match e
    case ClientActs =>
      ClientSide(c, src, m, k.w, 0);
      PerformKeepsInv(c, src, m, path, k, actions, ClientAction(m));
      actions' := actions + [ClientAction(m)];
    case ServerActs =>
      if k.started {
        PerformKeepsInv(c, src, m, path, k, actions, ServerAction(m));
        actions' := actions + [ServerAction(m)];
      }
    case ServerStarts =>
      if !k.started {
        Starting(c, src, m, path, k, actions);
      }
    case ToServer(n) =>
      actions' := ToServerKeepsInv(c, src, m, path, k, actions, n);
    case ToClient(n) =>
      ClientSide(c, src, m, k.w, n);
      PerformKeepsInv(c, src, m, path, k, actions, DeliverToClient(m, n));
      actions' := actions + [DeliverToClient(m, n)];
  }

  lemma {:induction false} CallInv(c: Suite, src: Source, m: Method, path: bytes, events: seq<Event>)
    returns (actions: seq<Action>)
    requires (m == Get || m == Post) && |path| < U32_LIMIT
    ensures Inv(c, src, m, path, RunCall(c, src, m, path, events), actions)
    decreases |events|
  {
    hide Inv; hide Happen; hide Begin; hide Lawful;
    if |events| == 0 {
      BeginInv(c, src, m, path);
      actions := [];
    } else {
      var before := events[..|events| - 1];
      actions := CallInv(c, src, m, path, before);
      actions := HappenKeepsInv(c, src, m, path, RunCall(c, src, m, path, before), actions, events[|events| - 1]);
    }
  }

  // ---------- theorems ----------

  /**
   Behind every request, in every order of events, the two sessions are in a state that they reach
   without one: the request is taken off the stream to the byte, and the roles fit. So everything
   proved of honest transfers holds of them.
   */
  lemma {:induction false} RequestIsTransparent(c: Suite, src: Source, m: Method, path: bytes, events: seq<Event>)
    requires (m == Get || m == Post) && |path| < U32_LIMIT
    ensures exists actions :: RunCall(c, src, m, path, events).w == RunWorld(c, src, actions)
  {
    hide RunCall; hide RunWorld; hide Preamble; hide Lawful; hide Untouched;
    var actions := CallInv(c, src, m, path, events);
  }

  /** Nothing more can happen exactly when both ends have finished. */
  lemma {:induction false} StuckIffServed(c: Suite, src: Source, m: Method, path: bytes, events: seq<Event>)
    requires (m == Get || m == Post) && |path| < U32_LIMIT
    ensures var k := RunCall(c, src, m, path, events);
            (forall e :: Happen(c, src, m, path, k, e) == k) <==> k.w.s.state == Finished && k.w.r.state == Finished
  {
    hide RunCall; hide RunWorld; hide Preamble; hide Lawful; hide Untouched; hide Happen; hide Perform;
    var k := RunCall(c, src, m, path, events);
    var actions := CallInv(c, src, m, path, events);
    StuckIffFinished(c, src, actions);
    if forall e :: Happen(c, src, m, path, k, e) == k {
      assert Happen(c, src, m, path, k, ToServer(|k.left|)) == k && Happen(c, src, m, path, k, ServerStarts) == k;
      StuckMeansStarted(c, src, m, path, k, actions);
      forall a
        ensures Perform(c, src, k.w, a) == k.w
      {
        Covered(c, src, m, path, k, a);
        assert Happen(c, src, m, path, k, EventOf(m, a)) == k;
      }
    } else if k.w.s.state == Finished && k.w.r.state == Finished {
      ServedIsStarted(src, m, k.w);
      var e :| Happen(c, src, m, path, k, e) != k;
      StartedStays(c, src, m, path, k, e);
    }
  }

  lemma StuckMeansStarted(c: Suite, src: Source, m: Method, path: bytes, k: Call, actions: seq<Action>)
    requires (m == Get || m == Post) && |path| < U32_LIMIT && Inv(c, src, m, path, k, actions)
    requires Happen(c, src, m, path, k, ToServer(|k.left|)) == k && Happen(c, src, m, path, k, ServerStarts) == k
    ensures k.left == [] && k.started
  {
    hide RunWorld; hide Preamble; hide Lawful; hide Untouched; hide Perform; hide Parse; hide Heard;
    assert |Happen(c, src, m, path, k, ToServer(|k.left|)).left| == 0;
    if !k.started {
      Starting(c, src, m, path, k, actions);
    }
  }

  function EventOf(m: Method, a: Action): Event {
    match a
    case SenderActs => if m == Get then ServerActs else ClientActs
    case ReceiverActs => if m == Get then ClientActs else ServerActs
    case DeliverToSender(n) => if m == Get then ToServer(n) else ToClient(n)
    case DeliverToReceiver(n) => if m == Get then ToClient(n) else ToServer(n)
  }

  /** In a started call every action of the transfer is an event. */
  lemma Covered(c: Suite, src: Source, m: Method, path: bytes, k: Call, a: Action)
    requires (m == Get || m == Post) && k.started && k.left == []
    ensures Happen(c, src, m, path, k, EventOf(m, a)) == k.(w := Perform(c, src, k.w, a))
  {
    hide Lawful; hide Perform; hide Parse; hide Heard; hide Preamble; hide WithServer; hide Server;
    hide Complementary; hide ClientJob; hide ServerJob;
    if a.DeliverToSender? || a.DeliverToReceiver? {
      assert k.left[0..] == k.left;
    }
  }

  lemma ServedIsStarted(src: Source, m: Method, w: World)
    requires w.s.state == Finished && w.r.state == Finished
    ensures !Untouched(src, m, w)
  {
  }

  /** Once both ends have finished, no event changes anything. */
  lemma StartedStays(c: Suite, src: Source, m: Method, path: bytes, k: Call, e: Event)
    requires k.started && k.left == [] && forall a :: Perform(c, src, k.w, a) == k.w
    ensures Happen(c, src, m, path, k, e) == k
  {
    hide Lawful; hide Perform; hide Parse; hide Heard; hide Preamble;
  }

  /**
   A whole GET or POST: when nothing more can happen, the end that receives, client or server, has
   the file, exactly when its size allows it.
   */
  lemma {:induction false} CallCopies(c: Suite, src: Source, m: Method, path: bytes, events: seq<Event>)
    requires (m == Get || m == Post) && |path| < U32_LIMIT
    requires var k := RunCall(c, src, m, path, events); forall e :: Happen(c, src, m, path, k, e) == k
    ensures var k := RunCall(c, src, m, path, events);
            && k.started && k.w.s.state == Finished && k.w.r.state == Finished
            && (k.w.r.file == src.file <==> |src.file| <= MAX_FILE)
  {
    hide RunCall; hide RunWorld; hide Preamble; hide Lawful; hide Happen; hide Perform;
    var k := RunCall(c, src, m, path, events);
    var actions := CallInv(c, src, m, path, events);
    StuckIffServed(c, src, m, path, events);
    CopiesTheFile(c, src, actions);
    ServedIsStarted(src, m, k.w);
  }
}
