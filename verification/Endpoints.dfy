/** SendFile and RecieveFile on a stream, and the request in front (Client/client.go, Server/server.go). */
module Endpoints {
  import opened Bytes
  import opened Crypto
  import opened Merkle
  import opened Partition
  import opened Protocol
  import opened Wire
  import opened Controllers
  import opened Scripts
  import opened Streams
  import opened Sessions
  import opened Transfer
  import S = SenderProof
  import SR = SenderRun
  import R = ReceiverProof
  import RR = ReceiverRun

  // ---------- a session does not look at what was written before it ----------

  function Later(p: bytes, s: Snapshot): Snapshot {
    s.(output := p + s.output)
  }

  function LaterResult(p: bytes, r: StepResult): StepResult {
    match r
    case Next(s, next) => Next(Later(p, s), next)
    case Continue(s) => Continue(Later(p, s))
    case Fail(s) => Fail(Later(p, s))
    case Wait => Wait
    case Crash => Crash
  }

  lemma SenderStepLater(c: Suite, sec: Secrets, s: Snapshot, io: Io, p: bytes)
    ensures SenderStep(c, sec, Later(p, s), io) == LaterResult(p, SenderStep(c, sec, s, io))
  {
    hide Encode; hide Decode; hide Root; hide LeafOf; hide BuildChunk; hide Piece; hide Lawful; hide KeyFor;
    hide NonceFor; hide Written;
    match s.state
    case SendHeader => Assoc(p, s.output, Written(Encode(HeaderOf(s)), io));
    case SendChunkResponse =>
      var i := s.currentChunk;
      var ch := BuildChunk(c, s.fileID, i, Piece(s.file, i), KeyFor(sec, i), NonceFor(sec, i));
      Assoc(p, s.output, Written(Encode(Response(i, ch.ciphertext, ch.nonce, ch.hresp)), io));
    case SendKeyReveal =>
      if s.pending.Some? {
        Assoc(p, s.output, Written(Encode(KeyReveal(s.currentChunk, s.pending.value.key)), io));
      }
    case VerifyMerkle => Assoc(p, s.output, Written(Encode(RootMsg(Root(c, s.leaves))), io));
    case _ =>
  }

  lemma TakeLater(s: Snapshot, io: Io, p: bytes)
    ensures TakeHeader(Later(p, s), io) == LaterResult(p, TakeHeader(s, io))
    ensures TakeResponse(Later(p, s)) == LaterResult(p, TakeResponse(s))
    ensures TakeKey(Later(p, s)) == LaterResult(p, TakeKey(s))
  {
    hide Decode; hide Lawful; hide ReceivedChunk;
  }

  lemma CheckLater(c: Suite, s: Snapshot, io: Io, p: bytes)
    ensures CheckChunk(c, Later(p, s), io) == LaterResult(p, CheckChunk(c, s, io))
  {
    hide LeafOf; hide Lawful; hide Hash; hide Unseal; hide CommitInput; hide Written;
  }

  lemma SendLater(s: Snapshot, m: Message, io: Io, next: State, p: bytes)
    ensures SendIndex(Later(p, s), m, io, next) == LaterResult(p, SendIndex(s, m, io, next))
  {
    hide Encode; hide Lawful; hide Written;
    Assoc(p, s.output, Written(Encode(m), io));
  }

  lemma RootLater(c: Suite, s: Snapshot, io: Io, p: bytes)
    requires s.state == VerifyMerkle
    ensures ReceiverStep(c, Later(p, s), io) == LaterResult(p, ReceiverStep(c, s, io))
  {
    hide Decode; hide Root; hide Lawful; hide TakeHeader; hide TakeResponse; hide TakeKey; hide CheckChunk;
    hide SendIndex;
    if s.midStep {
      SendLater(s.(midStep := false), FinalAck, io, Finished, p);
    }
  }

  lemma ReceiverStepLater(c: Suite, s: Snapshot, io: Io, p: bytes)
    ensures ReceiverStep(c, Later(p, s), io) == LaterResult(p, ReceiverStep(c, s, io))
  {
    hide Decode; hide Root; hide Lawful; hide TakeHeader; hide TakeResponse; hide TakeKey; hide CheckChunk;
    hide SendIndex;
    match s.state
    case SendChunkRequest => SendLater(s, Request(s.currentChunk), io, WaitingChunkResponse, p);
    case SendLotteryTicket => SendLater(s, Ticket(s.currentChunk), io, WaitingKeyReveal, p);
    case VerifyChunk => CheckLater(c, s, io, p);
    case VerifyMerkle => RootLater(c, s, io, p);
    case _ => TakeLater(s, io, p);
  }

  lemma StepLater(c: Suite, role: Role, sec: Secrets, s: Snapshot, io: Io, p: bytes)
    ensures Step(c, role, sec, Later(p, s), io) == LaterResult(p, Step(c, role, sec, s, io))
  {
    hide SenderStep; hide ReceiverStep; hide Lawful; hide Later; hide LaterResult;
    SenderStepLater(c, sec, s, io, p);
    ReceiverStepLater(c, s, io, p);
  }

  lemma WholeStepLater(c: Suite, role: Role, sec: Secrets, s: Snapshot, io: Io, p: bytes)
    ensures WholeStep(c, role, sec, Later(p, s), io) == LaterResult(p, WholeStep(c, role, sec, s, io))
  {
    hide Step; hide Lawful; hide Later;
    StepLater(c, role, sec, s, io, p);
    var r := Step(c, role, sec, s, io);
    if r.Continue? {
      StepLater(c, role, sec, r.s, io, p);
    }
  }

  lemma SettleLater(s: Snapshot, r: StepResult, p: bytes)
    ensures Settle(Later(p, s), LaterResult(p, r), true) == Later(p, Settle(s, r, true))
  {
    hide IsAllowed;
  }

  lemma RoundLater(c: Suite, role: Role, sec: Secrets, s: Snapshot, io: Io, p: bytes)
    ensures Round(c, role, sec, Later(p, s), io) == Later(p, Round(c, role, sec, s, io))
  {
    hide WholeStep; hide Settle; hide LaterResult; hide Lawful; hide HasStep;
    WholeStepLater(c, role, sec, s, io, p);
    SettleLater(s, WholeStep(c, role, sec, s, io), p);
  }

  lemma {:induction false} RunLater(c: Suite, role: Role, sec: Secrets, s: Snapshot, io: nat -> Io, k: nat, p: bytes)
    ensures RunFor(c, role, sec, Later(p, s), io, k) == Later(p, RunFor(c, role, sec, s, io, k))
  {
    hide Round; hide Lawful;
    if k > 0 {
      RunLater(c, role, sec, s, io, k - 1, p);
      RoundLater(c, role, sec, RunFor(c, role, sec, s, io, k - 1), io(k - 1), p);
    }
  }

  // ---------- the two entry points ----------

  /**
   What SendFile comes to on an input: what it writes obeys the key-release discipline; it succeeds
   only on an input that begins with the receiver's script, having written its own script; and it
   does succeed on one when local I/O works.
   */
  ghost predicate Sends(c: Suite, src: Source, input: bytes, io: nat -> Io, ok: bool, out: bytes) {
    var script := EncodeAll(ReceiverScript(Count(src)));
    && S.Released(c, src, out, input)
    && (ok ==> out == EncodeAll(SenderScript(c, src)) && script <= input)
    && (Works(io) && script <= input ==> ok)
  }

  method SendFile(c: Suite, src: Source, conn: Stream, io: nat -> Io) returns (ok: bool)
    modifies conn
    ensures exists out :: conn.outgoing == old(conn.outgoing) + out && Sends(c, src, old(conn.incoming), io, ok, out)
  {
    hide RunFor; hide Lawful; hide S.Released; hide S.Inv; hide EncodeAll; hide SenderScript; hide ReceiverScript;
    ghost var (input, p) := (conn.incoming, conn.outgoing);
    var s := new Session(conn, Sender);
    s.file := src.file;
    s.fileID := src.fileID;
    s.fileName := src.name;
    s.fileSize := Truncate32(|src.file|);
    s.totalChunks := Reps(|src.file|);
    ghost var start := S.Start(src, input);
    assert s.View() == Later(p, start);
    ok := Run(c, Sender, src.sec, s, io);
    ghost var k: nat :| s.View().(input := []) == RunFor(c, Sender, src.sec, Later(p, start), io, k).(input := []);
    RunLater(c, Sender, src.sec, start, io, k, p);
    SentWell(c, src, input, io, k);
    ghost var out := SR.After(c, src, input, io, k).output;
    assert conn.outgoing == p + out;
  }

  lemma SentWell(c: Suite, src: Source, input: bytes, io: nat -> Io, k: nat)
    ensures var v := SR.After(c, src, input, io, k);
            Terminal(v) ==> Sends(c, src, input, io, v.state == Finished, v.output)
  {
    hide RunFor; hide Lawful; hide S.Released; hide S.Inv; hide EncodeAll; hide SenderScript; hide ReceiverScript;
    var v := SR.After(c, src, input, io, k);
    SR.RunIsGood(c, src, input, io, k);
    if v.state != Error {
      S.InvReleases(c, src, v, input);
    }
    if v.state == Finished {
      SR.FinishedMeans(c, src, v, input);
    }
    if Works(io) && EncodeAll(ReceiverScript(Count(src))) <= input {
      SR.NeverFails(c, src, input, io, k);
    }
  }

  /**
   What RecieveFile comes to on an input: file and output are explained by messages in the input,
   whatever happens; it succeeds only on a valid transcript, with its file and all the answers; and
   it does succeed on one when local I/O works.
   */
  ghost predicate Receives(c: Suite, input: bytes, io: nat -> Io, ok: bool, out: bytes, file: bytes) {
    && (exists told :: R.Explains(c, file, out, told, input))
    && (ok ==> exists told: seq<Message> ::
                 && R.ValidTranscript(c, told) && EncodeAll(told) <= input && file == RR.FileOf(c, told)
                 && out == EncodeAll(ReceiverScript(told[0].reps)))
    && (Works(io) && (exists told :: R.ValidTranscript(c, told) && EncodeAll(told) <= input) ==> ok)
  }

  method ReceiveFile(c: Suite, sec: Secrets, conn: Stream, io: nat -> Io) returns (ok: bool, file: bytes)
    modifies conn
    ensures exists out :: && conn.outgoing == old(conn.outgoing) + out
                          && Receives(c, old(conn.incoming), io, ok, out, file)
  {
    hide RunFor; hide Lawful; hide Receives;
    ghost var (input, p) := (conn.incoming, conn.outgoing);
    var s := new Session(conn, Receiver);
    ghost var start := ReceiverStart(input);
    assert p + [] == p;
    assert s.View() == Later(p, start);
    ok := Run(c, Receiver, sec, s, io);
    file := s.file;
    ghost var k: nat :| s.View().(input := []) == RunFor(c, Receiver, sec, Later(p, start), io, k).(input := []);
    RunLater(c, Receiver, sec, start, io, k, p);
    ReceivedWell(c, sec, input, io, k);
    ghost var out := RR.After(c, sec, input, io, k).output;
    assert conn.outgoing == p + out;
  }

  lemma ReceivedWell(c: Suite, sec: Secrets, input: bytes, io: nat -> Io, k: nat)
    ensures var v := RR.After(c, sec, input, io, k);
            Terminal(v) ==> Receives(c, input, io, v.state == Finished, v.output, v.file)
  {
    hide RunFor; hide Lawful; hide R.Inv; hide EncodeAll; hide ReceiverScript; hide RR.FileOf; hide R.Explains;
    hide R.ValidTranscript; hide Leaves; hide R.ChunksOf;
    var v := RR.After(c, sec, input, io, k);
    RR.AnswersInOrder(c, sec, input, io, k);
    if v.state == Finished {
      var heard := RR.RunTranscript(c, sec, input, io, k);
      R.InvTaken(c, v, heard, input);
      RR.FinishedMeans(c, v, heard, input);
      RR.HasHeader(c, heard[..Taken(Receiver, v)]);
    } else if Works(io) {
      forall told | R.ValidTranscript(c, told) && EncodeAll(told) <= input
        ensures v.state != Error
      {
        RR.RunOnTranscript(c, sec, input, io, told, k);
      }
    }
  }

  // ---------- the request in front of a transfer ----------

  datatype Method = Get | Post | Other

  /** What the client writes first. Only GET and POST write a type field. */
  function Preamble(m: Method, path: bytes): bytes {
    (match m
     case Get => PutU32(0)
     case Post => PutU32(1)
     case Other => [])
    + (PutU32(Truncate32(|path|)) + path)
  }

  /** What the server makes of a stream: the type, the path, and the rest of the stream. */
  function Parse(s: bytes): Read<(u32, bytes)> {
    var (typ, s) :- TakeU32(s);
    var (path, s) :- TakeBlock(s);
    Got((typ, path), s)
  }

  datatype Job = Send(path: bytes) | Receive | Nothing

  /** What the server does after the request. */
  function ServerJob(typ: u32, path: bytes): Job {
    if typ == 0 then Send(path) else if typ == 1 then Receive else Nothing
  }

  /** What the client does after its request. */
  function ClientJob(m: Method, path: bytes): Job {
    match m
    case Get => Receive
    case Post => Send(path)
    case Other => Nothing
  }

  method RequestFile(path: bytes, conn: Stream, m: Method, io: Io) returns (ok: bool)
    modifies conn`outgoing
    ensures ok == io.Fine? && conn.outgoing == old(conn.outgoing) + Written(Preamble(m, path), io)
  {
    hide PutU32; hide Written;
    var buf: bytes := [];
    var temp := new byte[4](_ => 0);
    if m == Get {
      PutUint32(temp, 0);
      buf := buf + temp[..];
    }
    if m == Post {
      PutUint32(temp, 1);
      buf := buf + temp[..];
    }
    PutUint32(temp, Truncate32(|path|));
    buf := buf + temp[..];
    buf := buf + path;
    assert buf == Preamble(m, path);
    ok := conn.Write(buf, io);
  }

  /** The request, read off the stream: it fails exactly when the stream ends too early. */
  method ReadRequest(conn: Stream) returns (ok: bool, typ: u32, path: bytes)
    modifies conn`incoming
    ensures match Parse(old(conn.incoming))
            case Got(v, rest) => ok && v == (typ, path) && conn.incoming == rest
            case _ => !ok
  {
    hide GetU32; hide PutU32; hide TakeU32; hide TakeBlock;
    path := [];
    ok, typ := ReadUint32(conn);
    if !ok { return; }
    ok, path := ReadBlock(conn);
  }

  /** What serving a job on the rest of the stream comes to. */
  ghost predicate Serves(
    c: Suite, disk: bytes -> Source, job: Job, rest: bytes, io: nat -> Io, ok: bool, out: bytes, file: bytes)
  {
    match job
    case Send(path) => Sends(c, disk(path), rest, io, ok, out)
    case Receive => Receives(c, rest, io, ok, out, file)
    case Nothing => out == []
  }

  /**
   HandleStream: whatever arrives, the server parses it as a request and serves the rest of the
   stream accordingly, or writes nothing at all. `disk` gives the file under a path.
   */
  method HandleStream(c: Suite, disk: bytes -> Source, sec: Secrets, conn: Stream, io: nat -> Io)
    returns (job: Job, ok: bool, file: bytes)
    modifies conn
    ensures match Parse(old(conn.incoming))
            case Got(v, rest) =>
              && job == ServerJob(v.0, v.1)
              && (exists out :: && conn.outgoing == old(conn.outgoing) + out
                                && Serves(c, disk, job, rest, io, ok, out, file))
            case _ => job == Nothing
    ensures job == Nothing ==> conn.outgoing == old(conn.outgoing)
  {
    hide Lawful; hide Sends; hide Receives; hide Parse;
    ok, file := false, [];
    var heard: bool, typ: u32, path: bytes;
    heard, typ, path := ReadRequest(conn);
    job := Nothing;
    ghost var (rest, p) := (conn.incoming, conn.outgoing);
    assert p + [] == p;
    if !heard { return; }
    job := ServerJob(typ, path);
    if job.Send? {
      ok := SendFile(c, disk(path), conn, io);
      ghost var out :| conn.outgoing == p + out && Sends(c, disk(path), rest, io, ok, out);
      assert Serves(c, disk, job, rest, io, ok, out, file);
    } else if job.Receive? {
      ok, file := ReceiveFile(c, sec, conn, io);
      ghost var out :| conn.outgoing == p + out && Receives(c, rest, io, ok, out, file);
      assert Serves(c, disk, job, rest, io, ok, out, file);
    } else {
      assert Serves(c, disk, job, rest, io, ok, [], file);
    }
  }

  /** A request by position: the type, 0 for GET and 1 for POST, the length of the path, the path. */
  lemma {:induction false} RequestLayout(m: Method, path: bytes)
    ensures var (x, n) := (Preamble(m, path), PutU32(Truncate32(|path|)));
            match m
            case Get => |x| == 8 + |path| && x[..4] == [0, 0, 0, 0] && x[4..8] == n && x[8..] == path
            case Post => |x| == 8 + |path| && x[..4] == [0, 0, 0, 1] && x[4..8] == n && x[8..] == path
            case Other => |x| == 4 + |path| && x[..4] == n && x[4..] == path
  {
    assert PutU32(0) == [0, 0, 0, 0] && PutU32(1) == [0, 0, 0, 1];
    hide PutU32;
  }

  lemma TypeBytes(b: bytes)
    requires |b| == 4
    ensures (GetU32(b) == 0 <==> b == [0, 0, 0, 0]) && (GetU32(b) == 1 <==> b == [0, 0, 0, 1])
  {
    U32Canonical(b);
  }

  /** What the server makes of any bytes at all, by position: path, rest and job, or a wait for more. */
  lemma {:induction false} ServerReads(s: bytes)
    ensures Parse(s).Got? <==> |s| >= 8 && |s| - 8 >= GetU32(s[4..8])
    ensures !Parse(s).Got? ==> Parse(s) == Short
    ensures Parse(s).Got? ==>
              var (v, rest, n) := (Parse(s).value, Parse(s).rest, GetU32(s[4..8]));
              && v.1 == s[8..8 + n] && rest == s[8 + n..]
              && ServerJob(v.0, v.1) == if s[..4] == [0, 0, 0, 0] then Send(s[8..8 + n])
                                        else if s[..4] == [0, 0, 0, 1] then Receive else Nothing
  {
    hide GetU32; hide PutU32;
    if |s| >= 8 {
      TypeBytes(s[..4]);
      assert s[4..][..4] == s[4..8] && s[4..][4..] == s[8..];
      var n := GetU32(s[4..8]);
      if |s| - 8 >= n {
        assert s[8..][..n] == s[8..8 + n] && s[8..][n..] == s[8 + n..];
      }
    }
  }

  /** The two ends take complementary parts in the transfer of one path. */
  predicate Complementary(client: Job, server: Job, path: bytes) {
    (client == Receive && server == Send(path)) || (client == Send(path) && server == Receive)
  }

  /** They do so for a GET of type 0 and a POST of type 1, and in no other case. */
  lemma RolesFit(m: Method, typ: u32, path: bytes)
    ensures Complementary(ClientJob(m, path), ServerJob(typ, path), path)
            <==> (m == Get && typ == 0) || (m == Post && typ == 1)
  {
  }

  /**
   The request composes with the session: for GET and POST the server takes exactly the request
   off the stream, whatever follows it, and the complementary part, if and only if the length of
   the path fits 32 bits.
   */
  lemma {:induction false} PreambleComposes(m: Method, path: bytes, rest: bytes)
    requires m == Get || m == Post
    ensures (Parse(Preamble(m, path) + rest) == Got((if m == Get then 0 else 1, path), rest)) <==> |path| < U32_LIMIT
    ensures |path| < U32_LIMIT ==>
              var r := Parse(Preamble(m, path) + rest);
              Complementary(ClientJob(m, path), ServerJob(r.value.0, r.value.1), path)
  {
    hide PutU32; hide GetU32;
    var typ: u32 := if m == Get then 0 else 1;
    var tail := PutU32(Truncate32(|path|)) + (path + rest);
    assert Preamble(m, path) + rest == PutU32(typ) + tail by {
      Assoc(PutU32(Truncate32(|path|)), path, rest);
      Assoc(PutU32(typ), PutU32(Truncate32(|path|)) + path, rest);
    }
    TakeU32Back(typ, tail);
    TakeU32Back(Truncate32(|path|), path + rest);
    if |path| < U32_LIMIT {
      TakeBlockBack(path, rest);
    }
  }

  /** However much of a request and what follows has arrived: the server waits for the request, and takes just it. */
  lemma {:induction false} ParsePartial(m: Method, path: bytes, heard: bytes, out: bytes)
    requires (m == Get || m == Post) && |path| < U32_LIMIT && heard <= Preamble(m, path) + out
    ensures var k := |Preamble(m, path)|;
            if |heard| < k then Parse(heard) == Short
            else Parse(heard) == Got((if m == Get then 0 else 1, path), heard[k..]) && heard[k..] <= out
  {
    hide PutU32; hide GetU32;
    var typ: u32 := if m == Get then 0 else 1;
    var pre := Preamble(m, path);
    if |heard| >= |pre| {
      assert heard == pre + heard[|pre|..];
      PreambleComposes(m, path, heard[|pre|..]);
    } else if |heard| >= 4 {
      var rest := heard[4..];
      assert heard == PutU32(typ) + rest;
      TakeU32Back(typ, rest);
      if |rest| >= 4 {
        assert rest == PutU32(|path|) + rest[4..];
        TakeU32Back(|path|, rest[4..]);
      }
    }
  }
}
