/**
 The wire format of Chunk/chunk.go: seven kinds of message, each opened by a one-byte sentinel.
 Decoding has three outcomes, because a reader that runs out of bytes waits for more on an open
 stream and fails on a closed one.
 */
module Wire {
  import opened Bytes
  import opened Crypto

  datatype Kind = HeaderKind | RequestKind | ResponseKind | TicketKind | KeyKind | RootKind | AckKind

  datatype Message =
    | Header(reps: u32, fileID: bytes, name: bytes, fileSize: u32)
    | Request(index: u32)
    | Response(index: u32, ciphertext: bytes, nonce: bytes, hresp: bytes)
    | Ticket(index: u32)
    | KeyReveal(index: u32, key: bytes)
    | RootMsg(root: bytes)
    | FinalAck

  function KindOf(m: Message): Kind {
    match m
    case Header(_, _, _, _) => HeaderKind
    case Request(_) => RequestKind
    case Response(_, _, _, _) => ResponseKind
    case Ticket(_) => TicketKind
    case KeyReveal(_, _) => KeyKind
    case RootMsg(_) => RootKind
    case FinalAck => AckKind
  }

  function Sentinel(k: Kind): byte {
    match k
    case HeaderKind => 1
    case RequestKind => 2
    case ResponseKind => 3
    case TicketKind => 4
    case KeyKind => 5
    case RootKind => 6
    case AckKind => 7
  }

  /** The field sizes that the format can carry. */
  predicate WellSized(m: Message) {
    match m
    case Header(_, id, name, _) => |id| == HASH_SIZE && |name| < U32_LIMIT
    case Response(_, ct, nonce, hresp) => |ct| < U32_LIMIT && |nonce| == NONCE_SIZE && |hresp| == HASH_SIZE
    case KeyReveal(_, key) => |key| == KEY_SIZE
    case RootMsg(root) => |root| == HASH_SIZE
    case _ => true
  }

  // ---------- encoding ----------

  function Body(m: Message): bytes {
    match m
    case Header(reps, id, name, size) =>
      PutU32(reps) + (id + (PutU32(Truncate32(|name|)) + (name + PutU32(size))))
    case Request(i) => PutU32(i)
    case Response(i, ct, nonce, hresp) => PutU32(i) + (PutU32(Truncate32(|ct|)) + (ct + (nonce + hresp)))
    case Ticket(i) => PutU32(i)
    case KeyReveal(i, key) => PutU32(i) + key
    case RootMsg(root) => root
    case FinalAck => []
  }

  function Encode(m: Message): bytes {
    [Sentinel(KindOf(m))] + Body(m)
  }

  function EncodeAll(ms: seq<Message>): bytes {
    if |ms| == 0 then [] else EncodeAll(ms[..|ms| - 1]) + Encode(ms[|ms| - 1])
  }

  // ---------- decoding ----------

  /** A value and the bytes after it; or more bytes are needed; or a wrong sentinel. */
  datatype Read<+T> = Got(value: T, rest: bytes) | Short | Bad {
    predicate IsFailure() {
      !Got?
    }
    function PropagateFailure<U>(): Read<U>
      requires IsFailure()
    {
      if Short? then Short else Bad
    }
    function Extract(): (T, bytes)
      requires Got?
    {
      (value, rest)
    }
  }

  /** io.ReadFull of n bytes. */
  function Take(s: bytes, n: nat): (r: Read<bytes>)
    ensures r.Got? ==> |r.value| == n && s == r.value + r.rest
    ensures !r.Bad?
  {
    if |s| < n then Short else Got(s[..n], s[n..])
  }

  function TakeU32(s: bytes): (r: Read<u32>)
    ensures r.Got? ==> s == PutU32(r.value) + r.rest
    ensures !r.Bad?
  {
    if |s| < 4 then Short else
    U32Canonical(s[..4]);
    Got(GetU32(s[..4]), s[4..])
  }

  /** A length-prefixed field. */
  function TakeBlock(s: bytes): (r: Read<bytes>)
    ensures r.Got? ==> |r.value| < U32_LIMIT && s == PutU32(|r.value|) + (r.value + r.rest)
    ensures !r.Bad?
  {
    var (n, s) :- TakeU32(s);
    Take(s, n)
  }

  function DecodeBody(k: Kind, s: bytes): (r: Read<Message>)
    ensures !r.Bad?
  {
    match k
    case HeaderKind =>
      var (reps, s) :- TakeU32(s);
      var (id, s) :- Take(s, HASH_SIZE);
      var (name, s) :- TakeBlock(s);
      var (size, s) :- TakeU32(s);
      Got(Header(reps, id, name, size), s)
    case RequestKind =>
      var (i, s) :- TakeU32(s);
      Got(Request(i), s)
    case ResponseKind =>
      var (i, s) :- TakeU32(s);
      var (ct, s) :- TakeBlock(s);
      var (nonce, s) :- Take(s, NONCE_SIZE);
      var (hresp, s) :- Take(s, HASH_SIZE);
      Got(Response(i, ct, nonce, hresp), s)
    case TicketKind =>
      var (i, s) :- TakeU32(s);
      Got(Ticket(i), s)
    case KeyKind =>
      var (i, s) :- TakeU32(s);
      var (key, s) :- Take(s, KEY_SIZE);
      Got(KeyReveal(i, key), s)
    case RootKind =>
      var (root, s) :- Take(s, HASH_SIZE);
      Got(RootMsg(root), s)
    case AckKind => Got(FinalAck, s)
  }

  /** The reader of kind k, as readSentinel and the Read functions make it. */
  function Decode(k: Kind, s: bytes): (r: Read<Message>)
    ensures r.Bad? <==> |s| > 0 && s[0] != Sentinel(k)
  {
    if |s| == 0 then Short else if s[0] != Sentinel(k) then Bad else DecodeBody(k, s[1..])
  }

  // ---------- round trips ----------

  lemma TakeBack(a: bytes, t: bytes)
    ensures Take(a + t, |a|) == Got(a, t)
  {
  }

  lemma TakeU32Back(x: u32, t: bytes)
    ensures TakeU32(PutU32(x) + t) == Got(x, t)
  {
    U32RoundTrip(x);
    assert (PutU32(x) + t)[..4] == PutU32(x);
  }

  lemma TakeBlockBack(a: bytes, t: bytes)
    requires |a| < U32_LIMIT
    ensures TakeBlock(PutU32(|a|) + (a + t)) == Got(a, t)
  {
    TakeU32Back(|a|, a + t);
    TakeBack(a, t);
  }

  lemma HeaderRoundTrip(m: Message, t: bytes)
    requires WellSized(m) && m.Header?
    ensures DecodeBody(HeaderKind, Body(m) + t) == Got(m, t)
  {
    hide PutU32; hide GetU32;
    var s4 := PutU32(m.fileSize) + t;
    var s3 := PutU32(|m.name|) + (m.name + s4);
    var s2 := m.fileID + s3;
    assert Body(m) + t == PutU32(m.reps) + s2;
    TakeU32Back(m.reps, s2);
    TakeBack(m.fileID, s3);
    TakeBlockBack(m.name, s4);
    TakeU32Back(m.fileSize, t);
  }

  lemma ResponseRoundTrip(m: Message, t: bytes)
    requires WellSized(m) && m.Response?
    ensures DecodeBody(ResponseKind, Body(m) + t) == Got(m, t)
  {
    hide PutU32; hide GetU32;
    var s4 := m.hresp + t;
    var s3 := m.nonce + s4;
    var s2 := PutU32(|m.ciphertext|) + (m.ciphertext + s3);
    assert Body(m) + t == PutU32(m.index) + s2;
    TakeU32Back(m.index, s2);
    TakeBlockBack(m.ciphertext, s3);
    TakeBack(m.nonce, s4);
    TakeBack(m.hresp, t);
  }

  lemma BodyRoundTrip(m: Message, t: bytes)
    requires WellSized(m)
    ensures DecodeBody(KindOf(m), Body(m) + t) == Got(m, t)
  {
    hide PutU32; hide GetU32;
    match m
    case Header(_, _, _, _) => HeaderRoundTrip(m, t);
    case Request(i) => TakeU32Back(i, t);
    case Response(_, _, _, _) => ResponseRoundTrip(m, t);
    case Ticket(i) => TakeU32Back(i, t);
    case KeyReveal(i, key) =>
      assert Body(m) + t == PutU32(i) + (key + t);
      TakeU32Back(i, key + t);
      TakeBack(key, t);
    case RootMsg(root) => TakeBack(root, t);
    case FinalAck => assert Body(m) + t == t;
  }

  /** Reading back a message that was written, whatever follows it. */
  lemma {:induction false} RoundTrip(m: Message, t: bytes)
    requires WellSized(m)
    ensures Decode(KindOf(m), Encode(m) + t) == Got(m, t)
  {
    hide Body; hide DecodeBody;
    BodyRoundTrip(m, t);
    assert (Encode(m) + t)[1..] == Body(m) + t;
  }

  /** The reader of k took exactly the encoding of what it returned. */
  ghost predicate Exact(k: Kind, s: bytes, r: Read<Message>) {
    r.Got? ==> KindOf(r.value) == k && WellSized(r.value) && s == Body(r.value) + r.rest
  }

  lemma Assoc(a: bytes, b: bytes, c: bytes)
    ensures a + (b + c) == (a + b) + c
  {
  }

  lemma HeaderExact(s: bytes)
    ensures Exact(HeaderKind, s, DecodeBody(HeaderKind, s))
  {
    hide PutU32; hide GetU32;
    if DecodeBody(HeaderKind, s).Got? {
      var (reps, s1) := TakeU32(s).Extract();
      var (id, s2) := Take(s1, HASH_SIZE).Extract();
      var (name, s3) := TakeBlock(s2).Extract();
      var (size, s4) := TakeU32(s3).Extract();
      var t1 := name + PutU32(size);
      var t2 := PutU32(|name|) + t1;
      Assoc(name, PutU32(size), s4);
      Assoc(PutU32(|name|), t1, s4);
      Assoc(id, t2, s4);
      Assoc(PutU32(reps), id + t2, s4);
    }
  }

  lemma ResponseExact(s: bytes)
    ensures Exact(ResponseKind, s, DecodeBody(ResponseKind, s))
  {
    hide PutU32; hide GetU32;
    if DecodeBody(ResponseKind, s).Got? {
      var (i, s1) := TakeU32(s).Extract();
      var (ct, s2) := TakeBlock(s1).Extract();
      var (nonce, s3) := Take(s2, NONCE_SIZE).Extract();
      var (hresp, s4) := Take(s3, HASH_SIZE).Extract();
      var t1 := nonce + hresp;
      var t2 := ct + t1;
      Assoc(nonce, hresp, s4);
      Assoc(ct, t1, s4);
      Assoc(PutU32(|ct|), t2, s4);
      Assoc(PutU32(i), PutU32(|ct|) + t2, s4);
    }
  }

  lemma BodyExact(k: Kind, s: bytes)
    ensures Exact(k, s, DecodeBody(k, s))
  {
    hide PutU32; hide GetU32;
    match k
    case HeaderKind => HeaderExact(s);
    case RequestKind =>
    case ResponseKind => ResponseExact(s);
    case TicketKind =>
    case KeyKind =>
      if DecodeBody(k, s).Got? {
        var (i, s1) := TakeU32(s).Extract();
        var (key, s2) := Take(s1, KEY_SIZE).Extract();
        Assoc(PutU32(i), key, s2);
      }
    case RootKind =>
    case AckKind =>
  }

  /** A reader accepts nothing but encodings: what it takes off the stream re-encodes to itself. */
  lemma {:induction false} DecodeExact(k: Kind, s: bytes)
    requires Decode(k, s).Got?
    ensures var r := Decode(k, s);
            KindOf(r.value) == k && WellSized(r.value) && s == Encode(r.value) + r.rest
  {
    hide Body; hide DecodeBody;
    BodyExact(k, s[1..]);
    assert s == [s[0]] + s[1..];
  }

  lemma AckIsAck(s: bytes)
    requires Decode(AckKind, s).Got?
    ensures Decode(AckKind, s).value == FinalAck
  {
  }

  /**
   A reader of the right kind in front of (part of) a message: it waits exactly as long as the
   message is incomplete, never rejects it, and then takes exactly that message, however the
   stream cuts the bytes up.
   */
  lemma {:induction false} DecodePartial(m: Message, s: bytes, t: bytes, u: bytes)
    requires WellSized(m) && s + t == Encode(m) + u
    ensures |s| < |Encode(m)| ==> Decode(KindOf(m), s) == Short
    ensures |s| >= |Encode(m)| ==> Decode(KindOf(m), s) == Got(m, s[|Encode(m)|..])
  {
    hide Body; hide DecodeBody;
    var k, e := KindOf(m), Encode(m);
    if |s| >= |e| {
      var rest := s[|e|..];
      assert s == e + rest by {
        assert (s + t)[..|e|] == e && (s + t)[..|e|] == s[..|e|];
      }
      RoundTrip(m, rest);
    } else {
      var missing := e[|s|..];
      assert e == s + missing by {
        assert (e + u)[..|s|] == e[..|s|] && (s + t)[..|s|] == s;
      }
      assert |s| > 0 ==> s[0] == e[0];
      var r := Decode(k, s);
      if r.Got? {
        DecodeExact(k, s);
        assert e + [] == Encode(r.value) + (r.rest + missing);
        RoundTrip(r.value, r.rest + missing);
        RoundTrip(m, []);
        assert false;
      }
    }
  }

  // ---------- message sequences ----------

  ghost predicate AllWellSized(ms: seq<Message>) {
    forall i :: 0 <= i < |ms| ==> WellSized(ms[i])
  }

  lemma {:induction false} EncodeAllConcat(a: seq<Message>, b: seq<Message>)
    ensures EncodeAll(a + b) == EncodeAll(a) + EncodeAll(b)
    decreases |b|
  {
    hide Encode;
    if |b| == 0 {
      assert a + b == a;
    } else {
      var b' := b[..|b| - 1];
      assert (a + b)[..|a + b| - 1] == a + b';
      EncodeAllConcat(a, b');
      Assoc(EncodeAll(a), EncodeAll(b'), Encode(b[|b| - 1]));
    }
  }

  lemma EncodeOne(m: Message)
    ensures EncodeAll([m]) == Encode(m)
  {
    assert EncodeAll([m][..0]) == [];
  }

  /** Splitting the encoding of a script at message i. */
  lemma {:induction false} EncodeAllSplit(ms: seq<Message>, i: nat)
    requires i <= |ms|
    ensures EncodeAll(ms) == EncodeAll(ms[..i]) + EncodeAll(ms[i..])
    ensures i < |ms| ==> EncodeAll(ms[..i + 1]) == EncodeAll(ms[..i]) + Encode(ms[i])
    ensures i < |ms| ==> EncodeAll(ms[i..]) == Encode(ms[i]) + EncodeAll(ms[i + 1..])
  {
    hide Encode;
    assert ms == ms[..i] + ms[i..];
    EncodeAllConcat(ms[..i], ms[i..]);
    if i < |ms| {
      assert ms[..i + 1][..i] == ms[..i];
      assert ms[i..] == [ms[i]] + ms[i + 1..];
      EncodeAllConcat([ms[i]], ms[i + 1..]);
      EncodeOne(ms[i]);
    }
  }

  lemma {:induction false} EncodeAllPrefix(ms: seq<Message>, i: nat, j: nat)
    requires i <= j <= |ms|
    ensures EncodeAll(ms[..i]) <= EncodeAll(ms[..j])
    ensures i < j ==> |EncodeAll(ms[..i])| < |EncodeAll(ms[..j])|
  {
    hide Body;
    EncodeAllSplit(ms[..j], i);
    assert ms[..j][..i] == ms[..i];
  }

  /** Decoding a stream message by message, each with the reader for its expected kind. */
  function DecodeAll(kinds: seq<Kind>, s: bytes): Read<seq<Message>>
    decreases |kinds|
  {
    if |kinds| == 0 then Got([], s) else
    var (m, s) :- Decode(kinds[0], s);
    var (ms, s) :- DecodeAll(kinds[1..], s);
    Got([m] + ms, s)
  }

  function Kinds(ms: seq<Message>): (ks: seq<Kind>)
    ensures |ks| == |ms|
  {
    seq(|ms|, i requires 0 <= i < |ms| => KindOf(ms[i]))
  }

  /** Any concatenation of messages decodes to itself, leaving exactly what follows. */
  lemma {:induction false} StreamRoundTrip(ms: seq<Message>, t: bytes)
    requires AllWellSized(ms)
    ensures DecodeAll(Kinds(ms), EncodeAll(ms) + t) == Got(ms, t)
    decreases |ms|
  {
    hide Encode; hide Decode;
    if |ms| > 0 {
      EncodeAllSplit(ms, 0);
      assert ms[0..] == ms && EncodeAll(ms[..0]) == [];
      assert EncodeAll(ms) + t == Encode(ms[0]) + (EncodeAll(ms[1..]) + t);
      RoundTrip(ms[0], EncodeAll(ms[1..]) + t);
      assert Kinds(ms)[1..] == Kinds(ms[1..]);
      StreamRoundTrip(ms[1..], t);
      assert ms == [ms[0]] + ms[1..];
    } else {
      assert EncodeAll(ms) + t == t;
    }
  }

  /** The format is a prefix code: the first message of a stream is determined, and so is the rest. */
  lemma {:induction false} PrefixCode(a: Message, s: bytes, b: Message, t: bytes)
    requires WellSized(a) && WellSized(b) && Encode(a) + s == Encode(b) + t
    ensures a == b && s == t
  {
    hide Body; hide DecodeBody;
    assert (Encode(a) + s)[0] == Sentinel(KindOf(a)) && (Encode(b) + t)[0] == Sentinel(KindOf(b));
    assert KindOf(a) == KindOf(b);
    RoundTrip(a, s);
    RoundTrip(b, t);
  }

  lemma {:induction false} FirstMessage(ms: seq<Message>)
    requires |ms| > 0
    ensures EncodeAll(ms) == Encode(ms[0]) + EncodeAll(ms[1..])
  {
    hide Encode;
    EncodeAllSplit(ms, 0);
    assert ms[0..] == ms;
  }

  /** Unique parsing: two message lists with one encoding are one list, whatever their kinds. */
  lemma {:induction false} UniqueParsing(a: seq<Message>, b: seq<Message>)
    requires AllWellSized(a) && AllWellSized(b) && EncodeAll(a) == EncodeAll(b)
    ensures a == b
    decreases |a|
  {
    hide Body; hide EncodeAll;
    if |a| == 0 || |b| == 0 {
      EncodeAllPrefix(a, 0, |a|);
      EncodeAllPrefix(b, 0, |b|);
      assert a[..|a|] == a && b[..|b|] == b && a[..0] == b[..0];
    } else {
      FirstMessage(a);
      FirstMessage(b);
      PrefixCode(a[0], EncodeAll(a[1..]), b[0], EncodeAll(b[1..]));
      UniqueParsing(a[1..], b[1..]);
      assert a == [a[0]] + a[1..] && b == [b[0]] + b[1..];
    }
  }

  /** An encoding that begins another is that of a first part of its messages. */
  lemma {:induction false} PrefixParsing(a: seq<Message>, b: seq<Message>)
    requires AllWellSized(a) && AllWellSized(b) && EncodeAll(a) <= EncodeAll(b)
    ensures a <= b
    decreases |a|
  {
    hide Body; hide EncodeAll; hide Encode;
    if |a| > 0 {
      FirstMessage(a);
      NotEmpty(a[0], EncodeAll(a[1..]));
      if |b| == 0 {
        NoBytes(b);
        assert false;
      }
      FirstMessage(b);
      var (ra, rb) := (EncodeAll(a[1..]), EncodeAll(b[1..]));
      var t := EncodeAll(b)[|EncodeAll(a)|..];
      Assoc(Encode(a[0]), ra, t);
      PrefixCode(a[0], ra + t, b[0], rb);
      PrefixParsing(a[1..], b[1..]);
      assert a == [a[0]] + a[1..] && b == [b[0]] + b[1..];
    }
  }

  lemma NotEmpty(m: Message, rest: bytes)
    ensures |Encode(m) + rest| > 0
  {
  }

  lemma NoBytes(ms: seq<Message>)
    requires |ms| == 0
    ensures EncodeAll(ms) == []
  {
  }
}
