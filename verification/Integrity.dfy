/**
 End-to-end integrity: a receiver that finishes under an honest sender's Merkle root holds that
 sender's file, whoever fed it the bytes, unless two strings that the two parties hashed collide.
 The chain is root to leaves, leaf to commitment, commitment to plaintext.
 */
module Integrity {
  import opened Bytes
  import opened Crypto
  import opened Merkle
  import opened Partition
  import opened Protocol
  import opened Wire
  import opened Controllers
  import opened Scripts
  import opened ReceiverProof
  import opened ReceiverRun

  /** A chunk that stands at place i, with fields of the proper sizes and a commitment that holds. */
  ghost predicate Proper(c: Suite, ch: ChunkData, i: nat) {
    && ch.index == i && |ch.fileID| == HASH_SIZE && |ch.nonce| == NONCE_SIZE && |ch.key| == KEY_SIZE
    && ch.hresp == Hash(c, CommitInput(ch))
  }

  ghost predicate ProperList(c: Suite, chs: seq<ChunkData>) {
    forall i :: 0 <= i < |chs| ==> Proper(c, chs[i], i)
  }

  function LeafInputs(chs: seq<ChunkData>): set<bytes> {
    set i | 0 <= i < |chs| :: LeafInput(chs[i])
  }

  function CommitInputs(chs: seq<ChunkData>): set<bytes> {
    set i | 0 <= i < |chs| :: CommitInput(chs[i])
  }

  /** Every string that a party hashes over a transfer of these chunks. */
  function Hashed(c: Suite, chs: seq<ChunkData>): set<bytes> {
    LeafInputs(chs) + CommitInputs(chs) + NodeInputs(c, Leaves(c, chs))
  }

  /** The same bytes on the wire, and the same plaintext. */
  predicate SameChunk(a: ChunkData, b: ChunkData) {
    && a.fileID == b.fileID && a.index == b.index && a.nonce == b.nonce && a.ciphertext == b.ciphertext
    && a.hresp == b.hresp && a.key == b.key && a.plaintext == b.plaintext
  }

  // ---------- leaves ----------

  lemma LeafInputSize(c: Suite, ch: ChunkData, i: nat)
    requires Proper(c, ch, i)
    ensures |LeafInput(ch)| >= 80
  {
    hide Lawful; hide Hash; hide PutU32;
  }

  lemma LeafInputInjective(c: Suite, a: ChunkData, i: nat, b: ChunkData, j: nat)
    requires Proper(c, a, i) && Proper(c, b, j) && LeafInput(a) == LeafInput(b)
    ensures i == j && a.fileID == b.fileID && a.nonce == b.nonce && a.ciphertext == b.ciphertext && a.hresp == b.hresp
  {
    hide Lawful; hide Hash; hide PutU32; hide GetU32; hide CommitInput;
    var (a3, b3) := (a.ciphertext + a.hresp, b.ciphertext + b.hresp);
    var (a2, b2) := (a.nonce + a3, b.nonce + b3);
    SplitConcat(a.fileID, PutU32(a.index) + a2, b.fileID, PutU32(b.index) + b2);
    SplitConcat(PutU32(a.index), a2, PutU32(b.index), b2);
    U32RoundTrip(a.index);
    U32RoundTrip(b.index);
    SplitConcat(a.nonce, a3, b.nonce, b3);
    assert |a3| == |b3|;
    SplitConcat(a.ciphertext, a.hresp, b.ciphertext, b.hresp);
  }

  /** Equal leaves come from one chunk at one place, or something collides. */
  lemma {:induction false} LeafBinds(c: Suite, a: seq<ChunkData>, i: nat, b: seq<ChunkData>, j: nat)
    requires ProperList(c, a) && ProperList(c, b) && i < |a| && j < |b|
    requires LeafOf(c, a[i]) == LeafOf(c, b[j])
    ensures (i == j && SameChunk(a[i], b[j])) || Clash(c, Hashed(c, a), Hashed(c, b))
  {
    hide Lawful; hide Hash; hide NodeInputs; hide Leaves; hide LeafInput; hide Clash;
    assert Proper(c, a[i], i) && Proper(c, b[j], j);
    assert LeafInput(a[i]) in LeafInputs(a) && LeafInput(b[j]) in LeafInputs(b);
    ClashFound(c, Hashed(c, a), Hashed(c, b), LeafInput(a[i]), LeafInput(b[j]));
    if LeafInput(a[i]) == LeafInput(b[j]) {
      LeafInputInjective(c, a[i], i, b[j], j);
      assert CommitInput(a[i]) in CommitInputs(a) && CommitInput(b[j]) in CommitInputs(b);
      ClashFound(c, Hashed(c, a), Hashed(c, b), CommitInput(a[i]), CommitInput(b[j]));
      if CommitInput(a[i]) == CommitInput(b[j]) {
        SplitConcat(a[i].key, a[i].plaintext, b[j].key, b[j].plaintext);
      }
    }
  }

  // ---------- trees ----------

  lemma LeavesTagged(c: Suite, chs: seq<ChunkData>)
    requires ProperList(c, chs) && |chs| > 0
    ensures var h := Height(|chs|);
            && |chs| <= Pow2(h) && Perfect(Split(Leaves(c, chs), h), h)
            && Tagged(c, Split(Leaves(c, chs), h), LeafInputs(chs))
  {
    hide Lawful; hide Hash; hide LeafInput; hide Split; hide Tagged; hide Frontier; hide Perfect; hide Pow2;
    var (ls, h) := (Leaves(c, chs), Height(|chs|));
    HeightIsCeilLog2(|chs|);
    SplitIsPerfect(ls, h);
    FrontierOfSplit(ls, h);
    forall d | d in Frontier(Split(ls, h))
      ensures HasTag(c, d, LeafInputs(chs))
    {
      var i :| 0 <= i < |ls| && ls[i] == d;
      LeafInputSize(c, chs[i], i);
      assert LeafInput(chs[i]) in LeafInputs(chs) && Hash(c, LeafInput(chs[i])) == d;
    }
    TaggedFrontier(c, Split(ls, h), LeafInputs(chs));
  }

  /** One root over trees of different heights: a leaf of the lower tree collides with an inner node. */
  lemma HeightsBind(c: Suite, a: seq<ChunkData>, b: seq<ChunkData>)
    requires ProperList(c, a) && ProperList(c, b) && |a| > 0 && |b| > 0
    requires Root(c, Leaves(c, a)) == Root(c, Leaves(c, b)) && Height(|a|) < Height(|b|)
    ensures Clash(c, Hashed(c, a), Hashed(c, b))
  {
    hide Lawful; hide Leaves; hide Root; hide NodeInputs; hide Split; hide Inputs; hide Digest; hide Tagged;
    hide Perfect; hide Pow2; hide Clash; hide ProperList; hide CommitInputs; hide LeafInputs;
    var (la, lb, ha, hb) := (Leaves(c, a), Leaves(c, b), Height(|a|), Height(|b|));
    LeavesTagged(c, a);
    LeavesTagged(c, b);
    BottomUpIsTopDown(c, la);
    BottomUpIsTopDown(c, lb);
    HeightsClash(c, Split(la, ha), ha, Split(lb, hb), hb, LeafInputs(a));
    ClashGrows(c, LeafInputs(a) + Inputs(c, Split(la, ha)), Inputs(c, Split(lb, hb)), Hashed(c, a), Hashed(c, b));
  }

  /** One tree over two chunk lists: equally many chunks, or a leaf repeated at another place collides. */
  lemma CountsBind(c: Suite, a: seq<ChunkData>, b: seq<ChunkData>, h: nat)
    requires ProperList(c, a) && ProperList(c, b) && 0 < |a| < |b| <= Pow2(h)
    requires Split(Leaves(c, a), h) == Split(Leaves(c, b), h)
    ensures Clash(c, Hashed(c, a), Hashed(c, b))
  {
    hide Lawful; hide Split; hide Frontier; hide Pow2; hide Clash; hide Hashed; hide LeafOf; hide ProperList;
    var (la, lb) := (Leaves(c, a), Leaves(c, b));
    FrontierOfSplit(la, h);
    FrontierOfSplit(lb, h);
    var f := Frontier(Split(la, h));
    assert f[|a|] == lb[|a|] && f[|a|] in la;
    var i :| 0 <= i < |la| && la[i] == lb[|a|];
    LeafBinds(c, a, i, b, |a|);
  }

  lemma CountsBindEither(c: Suite, a: seq<ChunkData>, b: seq<ChunkData>, h: nat)
    requires ProperList(c, a) && ProperList(c, b) && 0 < |a| <= Pow2(h) && 0 < |b| <= Pow2(h)
    requires Split(Leaves(c, a), h) == Split(Leaves(c, b), h) && |a| != |b|
    ensures Clash(c, Hashed(c, a), Hashed(c, b))
  {
    hide Lawful; hide Split; hide Leaves; hide Pow2; hide Clash; hide Hashed; hide ProperList;
    if |a| < |b| {
      CountsBind(c, a, b, h);
    } else {
      CountsBind(c, b, a, h);
      ClashSymmetric(c, Hashed(c, b), Hashed(c, a));
    }
  }

  /** Equal leaf lists: the same chunks, or a collision. */
  lemma LeavesBind(c: Suite, a: seq<ChunkData>, b: seq<ChunkData>)
    requires ProperList(c, a) && ProperList(c, b) && Leaves(c, a) == Leaves(c, b)
    ensures |a| == |b|
    ensures (forall i :: 0 <= i < |a| ==> SameChunk(a[i], b[i])) || Clash(c, Hashed(c, a), Hashed(c, b))
  {
    hide Lawful; hide Clash; hide Hashed; hide LeafOf; hide ProperList; hide SameChunk;
    assert |Leaves(c, a)| == |a| && |Leaves(c, b)| == |b|;
    if !Clash(c, Hashed(c, a), Hashed(c, b)) {
      forall i | 0 <= i < |a|
        ensures SameChunk(a[i], b[i])
      {
        assert Leaves(c, a)[i] == LeafOf(c, a[i]) && Leaves(c, b)[i] == LeafOf(c, b[i]);
        LeafBinds(c, a, i, b, i);
      }
    }
  }

  /**
   A root binds the whole list of chunks, of whatever length: leaves carry their index, and what
   is hashed for a leaf is never as short as what is hashed for an inner node.
   */
  lemma {:induction false} RootBindsChunks(c: Suite, a: seq<ChunkData>, b: seq<ChunkData>)
    requires ProperList(c, a) && ProperList(c, b) && |a| > 0 && |b| > 0
    requires Root(c, Leaves(c, a)) == Root(c, Leaves(c, b))
    ensures (|a| == |b| && forall i :: 0 <= i < |a| ==> SameChunk(a[i], b[i])) || Clash(c, Hashed(c, a), Hashed(c, b))
  {
    hide Lawful; hide Leaves; hide Root; hide NodeInputs; hide Split; hide Pow2; hide Clash; hide ProperList;
    hide CommitInputs; hide LeafInputs; hide SameChunk; hide Height;
    var (la, lb, h) := (Leaves(c, a), Leaves(c, b), Height(|a|));
    if h < Height(|b|) {
      HeightsBind(c, a, b);
    } else if Height(|b|) < h {
      HeightsBind(c, b, a);
      ClashSymmetric(c, Hashed(c, b), Hashed(c, a));
    } else {
      RootBindsTree(c, la, lb);
      ClashGrows(c, NodeInputs(c, la), NodeInputs(c, lb), Hashed(c, a), Hashed(c, b));
      if Split(la, h) == Split(lb, h) {
        if |a| != |b| {
          CountsBindEither(c, a, b, h);
        } else {
          RootBindsLeaves(c, la, lb);
          if la == lb {
            LeavesBind(c, a, b);
          }
        }
      }
    }
  }

  // ---------- the two parties ----------

  lemma SentProper(c: Suite, src: Source)
    ensures ProperList(c, SentChunks(c, src, Count(src)))
  {
    hide Lawful; hide Hash; hide Seal; hide Piece; hide KeyFor; hide NonceFor; hide Reps;
  }

  lemma ReceivedProper(c: Suite, told: seq<Message>, n: nat)
    requires GoodPairs(c, told, n) && (forall i :: 0 <= i < 1 + 2 * n && i < |told| ==> WellSized(told[i]))
    ensures ProperList(c, ChunksOf(c, told, n))
  {
    hide Lawful; hide Hash; hide Unseal; hide ChunksOf; hide CommitInput; hide Accepted;
    forall i | 0 <= i < n
      ensures Proper(c, ChunksOf(c, told, n)[i], i)
    {
      ChunksOfAt(c, told, n, i);
      assert PairAt(told, i) && Accepted(c, ChunkAt(c, told, i));
      AcceptedIs(c, ChunkAt(c, told, i));
    }
  }

  lemma {:induction false} SamePlaintexts(a: seq<ChunkData>, b: seq<ChunkData>)
    requires |a| == |b| && forall i :: 0 <= i < |a| ==> SameChunk(a[i], b[i])
    ensures Plaintexts(a) == Plaintexts(b)
  {
    hide Flatten;
    assert seq(|a|, i requires 0 <= i < |a| => a[i].plaintext) == seq(|b|, i requires 0 <= i < |b| => b[i].plaintext);
  }

  /**
   The end-to-end theorem, for every input, every pattern of local failures and every chunk count
   the received header may claim.
   */
  lemma {:induction false} EndToEnd(c: Suite, sec: Secrets, input: bytes, io: nat -> Io, k: nat, src: Source)
    requires var s := After(c, sec, input, io, k);
             s.state == Finished && s.totalChunks > 0 && Root(c, s.leaves) == SenderRoot(c, src)
    requires Count(src) > 0
    ensures var s := After(c, sec, input, io, k);
            || (&& s.totalChunks == Count(src) && s.fileID == src.fileID
                && s.file == src.file[..Min(|src.file|, CHUNK_SIZE * Count(src))]
                && (|src.file| <= MAX_FILE ==> s.file == src.file))
            || exists told: seq<Message> :: && ValidTranscript(c, told) && EncodeAll(told) <= input
                           && Clash(c, Hashed(c, ChunksOf(c, told, told[0].reps)),
                                    Hashed(c, SentChunks(c, src, Count(src))))
  {
    hide Lawful; hide RunFor; hide Inv; hide EncodeAll; hide Leaves; hide Root; hide Clash; hide Hashed;
    hide ChunksOf; hide SentChunks; hide Plaintexts; hide ReceiverScript; hide SameChunk; hide GoodPairs;
    hide WellSized;
    var s := After(c, sec, input, io, k);
    var told := RunTranscript(c, sec, input, io, k);
    InvTaken(c, s, told, input);
    FinishedMeans(c, s, told, input);
    var valid := told[..Taken(Receiver, s)];
    var (a, b) := (ChunksOf(c, valid, valid[0].reps), SentChunks(c, src, Count(src)));
    SentProper(c, src);
    ReceivedProper(c, valid, valid[0].reps);
    RootBindsChunks(c, a, b);
    if !Clash(c, Hashed(c, a), Hashed(c, b)) {
      SameFirst(a, b, src, valid, c);
      SamePlaintexts(a, b);
      SentPlaintexts(c, src, Count(src));
      PiecesCoverPrefix(src.file, Count(src));
      PiecesAreTheFile(src.file);
    }
  }

  lemma SameFirst(a: seq<ChunkData>, b: seq<ChunkData>, src: Source, valid: seq<Message>, c: Suite)
    requires ValidTranscript(c, valid) && valid[0].reps > 0 && Count(src) > 0
    requires a == ChunksOf(c, valid, valid[0].reps) && b == SentChunks(c, src, Count(src))
    requires |a| == |b| && SameChunk(a[0], b[0])
    ensures valid[0].fileID == src.fileID
  {
    hide Lawful; hide ChunksOf; hide Root; hide Leaves; hide Accepted; hide AllWellSized;
    ChunksOfAt(c, valid, valid[0].reps, 0);
  }
}
