/** How a file is cut into chunks: Controllers/controllers.go PrepareMetadata, Chunk/chunk.go ReadChunkPlaintext. */
module Partition {
  import opened Bytes
  import opened Crypto

  /** The largest file whose chunk count fits 32 bits. */
  const MAX_FILE: nat := 32768 * 0xFFFF_FFFF

  function Reps(size: nat): u32 {
    Truncate32((size + CHUNK_SIZE - 1) / CHUNK_SIZE)
  }

  /** One chunk: a read of up to 32768 bytes at its offset, cut short by the end of the file. */
  function Piece(file: bytes, i: nat): (p: bytes)
    ensures |p| <= CHUNK_SIZE
  {
    var from := CHUNK_SIZE * i;
    if from >= |file| then [] else file[from..Min(|file|, from + CHUNK_SIZE)]
  }

  function Pieces(file: bytes, n: nat): (ps: seq<bytes>)
    ensures |ps| == n
  {
    seq(n, i requires 0 <= i < n => Piece(file, i))
  }

  lemma PieceExtends(file: bytes, i: nat)
    ensures file[..Min(|file|, CHUNK_SIZE * i)] + Piece(file, i) == file[..Min(|file|, CHUNK_SIZE * (i + 1))]
  {
  }

  lemma {:induction false} PiecesCoverPrefix(file: bytes, n: nat)
    ensures Flatten(Pieces(file, n)) == file[..Min(|file|, CHUNK_SIZE * n)]
  {
    hide Piece;
    if n > 0 {
      PiecesCoverPrefix(file, n - 1);
      assert Pieces(file, n)[..n - 1] == Pieces(file, n - 1);
      PieceExtends(file, n - 1);
    }
  }

  /**
   The chunks concatenate to the file exactly when the chunk count fits 32 bits; above that the
   truncated count leaves a proper prefix.
   */
  lemma {:induction false} PiecesAreTheFile(file: bytes)
    ensures Flatten(Pieces(file, Reps(|file|))) == file <==> |file| <= MAX_FILE
  {
    hide Piece;
    var n := Reps(|file|);
    var exact := (|file| + CHUNK_SIZE - 1) / CHUNK_SIZE;
    PiecesCoverPrefix(file, n);
    assert CHUNK_SIZE * exact < |file| + CHUNK_SIZE <= CHUNK_SIZE * exact + CHUNK_SIZE;
    if |file| <= MAX_FILE {
      assert n == exact;
      assert file[..|file|] == file;
    } else {
      assert exact >= U32_LIMIT;
      assert n <= exact - U32_LIMIT;
      assert CHUNK_SIZE * n < |file|;
    }
  }

  /** All chunks that are sent are full but the last, which has between 1 and 32768 bytes. */
  lemma {:induction false} PieceSizes(file: bytes, i: nat)
    requires i < Reps(|file|)
    ensures i < Reps(|file|) - 1 ==> |Piece(file, i)| == CHUNK_SIZE
    ensures i == Reps(|file|) - 1 ==> 1 <= |Piece(file, i)| <= CHUNK_SIZE
  {
    var exact := (|file| + CHUNK_SIZE - 1) / CHUNK_SIZE;
    assert CHUNK_SIZE * exact < |file| + CHUNK_SIZE <= CHUNK_SIZE * exact + CHUNK_SIZE;
    assert Reps(|file|) <= exact;
    assert CHUNK_SIZE * (Reps(|file|) - 1) < |file|;
  }

  /** The size field of the header is exact exactly below 2^32 bytes; then there are at most 131072 chunks. */
  lemma {:induction false} FileSizeField(size: nat)
    ensures Truncate32(size) == size <==> size < U32_LIMIT
    ensures size < U32_LIMIT ==> Reps(size) <= 131072
  {
  }

  /** Above that, size field and chunk count are off by multiples of 2^32, and by nothing else. */
  lemma {:induction false} Truncation(size: nat)
    ensures exists q: nat :: size == q * U32_LIMIT + Truncate32(size)
    ensures exists q: nat :: var count := q * U32_LIMIT + Reps(size);
                             CHUNK_SIZE * (count - 1) < size <= CHUNK_SIZE * count
  {
    var exact := (size + CHUNK_SIZE - 1) / CHUNK_SIZE;
    assert CHUNK_SIZE * exact < size + CHUNK_SIZE <= CHUNK_SIZE * exact + CHUNK_SIZE;
    var q1, q2 := size / U32_LIMIT, exact / U32_LIMIT;
    assert size == q1 * U32_LIMIT + Truncate32(size);
    var count := q2 * U32_LIMIT + Reps(size);
    assert count == exact;
    assert CHUNK_SIZE * (count - 1) < size <= CHUNK_SIZE * count;
  }
}
