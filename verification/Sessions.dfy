/** Protocol/session.go and the chunk objects of Protocol/protocol.go, with what fills them in. */
module Sessions {
  import opened Bytes
  import opened Crypto
  import opened Partition
  import opened Protocol
  import opened Wire
  import opened Controllers
  import opened Streams

  class Chunk {
    var fileID: bytes
    var index: u32
    var length: u32
    var plaintext: bytes
    var ciphertext: bytes
    var key: bytes
    var nonce: bytes
    var hresp: bytes
    var leaf: bytes

    ghost function Data(): ChunkData
      reads this
    {
      ChunkData(fileID, index, length, plaintext, ciphertext, key, nonce, hresp, leaf)
    }

    constructor (fileID: bytes, index: u32, data: bytes)
      ensures Data() == ChunkData(fileID, index, Truncate32(|data|), data, [], [], [], [], [])
    {
      this.fileID, this.index, this.length, this.plaintext := fileID, index, Truncate32(|data|), data;
      this.ciphertext, this.key, this.nonce, this.hresp, this.leaf := [], [], [], [], [];
    }

    constructor Received(fileID: bytes, index: u32, ciphertext: bytes, nonce: bytes, hresp: bytes)
      ensures Data() == ReceivedChunk(fileID, Response(index, ciphertext, nonce, hresp))
    {
      this.fileID, this.index, this.length, this.plaintext := fileID, index, Truncate32(|ciphertext|), [];
      this.ciphertext, this.key, this.nonce, this.hresp, this.leaf := ciphertext, [], nonce, hresp, [];
    }
  }

  lemma FlattenFive(a: bytes, b: bytes, c: bytes, d: bytes, e: bytes)
    ensures Flatten([a, b, c, d, e]) == a + (b + (c + (d + e)))
  {
    hide Flatten;
    FlattenTwo(a, b);
    FlattenSnoc([a, b], c);
    FlattenSnoc([a, b, c], d);
    FlattenSnoc([a, b, c, d], e);
    assert [a, b] + [c] == [a, b, c] && [a, b, c] + [d] == [a, b, c, d] && [a, b, c, d] + [e] == [a, b, c, d, e];
    Assoc((a + b) + c, d, e);
    Assoc(a + b, c, d + e);
    Assoc(a, b, c + (d + e));
  }

  method ComputeResponseCommitment(c: Suite, chunk: Chunk) returns (h: bytes)
    ensures h == c.keccak(chunk.key + chunk.plaintext)
  {
    FlattenTwo(chunk.key, chunk.plaintext);
    h := Keccak(c, [chunk.key, chunk.plaintext]);
  }

  method GenerateLeaf(c: Suite, chunk: Chunk) returns (leaf: bytes)
    ensures leaf == LeafOf(c, chunk.Data())
    ensures leaf == c.keccak(chunk.fileID + PutU32(chunk.index) + chunk.nonce + chunk.ciphertext + chunk.hresp)
  {
    hide PutU32;
    var index := new byte[4](_ => 0);
    PutUint32(index, chunk.index);
    assert LeafInput(chunk.Data()) == chunk.fileID + index[..] + chunk.nonce + chunk.ciphertext + chunk.hresp;
    FlattenFive(chunk.fileID, index[..], chunk.nonce, chunk.ciphertext, chunk.hresp);
    leaf := Keccak(c, [chunk.fileID, index[..], chunk.nonce, chunk.ciphertext, chunk.hresp]);
  }

  method EncryptChunk(c: Suite, chunk: Chunk, nonce: bytes)
    modifies chunk
    ensures var before := old(chunk.Data());
            chunk.Data() == before.(nonce := nonce, ciphertext := Seal(c, before.key, nonce, before.plaintext))
  {
    chunk.nonce := nonce;
    chunk.ciphertext := Seal(c, chunk.key, nonce, chunk.plaintext);
  }

  method BuildAndEncryptChunk(c: Suite, fileID: bytes, index: u32, plaintext: bytes, key: bytes, nonce: bytes)
    returns (chunk: Chunk)
    ensures fresh(chunk) && chunk.Data() == BuildChunk(c, fileID, index, plaintext, key, nonce)
    ensures chunk.ciphertext == c.seal(key, nonce, plaintext) && chunk.hresp == c.keccak(key + plaintext)
  {
    hide Lawful;
    chunk := new Chunk(fileID, index, plaintext);
    chunk.key := key;
    EncryptChunk(c, chunk, nonce);
    var h := ComputeResponseCommitment(c, chunk);
    chunk.hresp := h;
  }

  /** Opens the chunk, stores the plaintext, and only then compares it with the commitment. */
  method DecryptAndCheck(c: Suite, chunk: Chunk) returns (ok: bool, plaintext: bytes)
    modifies chunk`plaintext
    ensures match c.open(chunk.key, chunk.nonce, chunk.ciphertext)
            case None => !ok && chunk.Data() == old(chunk.Data())
            case Some(p) =>
              && ok == (c.keccak(chunk.key + p) == chunk.hresp)
              && chunk.Data() == old(chunk.Data()).(plaintext := p)
              && (ok ==> plaintext == p)
    ensures !ok ==> plaintext == []
  {
    hide Lawful;
    plaintext := [];
    var plain := Unseal(c, chunk.key, chunk.nonce, chunk.ciphertext);
    if plain.None? {
      return false, [];
    }
    chunk.plaintext := plain.value;
    var got := ComputeResponseCommitment(c, chunk);
    if got != chunk.hresp {
      return false, [];
    }
    return true, plain.value;
  }

  /** A read at an offset into a buffer of one chunk, of which the filled part is returned. */
  method ReadChunkPlaintext(file: bytes, index: u32, chunkSize: u32) returns (b: bytes)
    requires chunkSize == CHUNK_SIZE
    ensures b == Piece(file, index)
  {
    var buf := new byte[chunkSize](_ => 0);
    var n := 0;
    var offset := chunkSize * index as nat;
    while n < buf.Length && offset + n < |file|
      invariant 0 <= n <= buf.Length
      invariant n > 0 ==> offset + n <= |file|
      invariant n > 0 ==> buf[..n] == file[offset..offset + n]
    {
      buf[n] := file[offset + n];
      n := n + 1;
    }
    b := buf[..n];
  }

  class Session {
    var state: State
    const role: Role
    const conn: Stream
    var fileID: bytes
    var fileName: bytes
    var fileSize: nat
    const chunkSize: u32
    var currentChunk: u32
    var totalChunks: u32
    var file: bytes
    var pendingChunk: Chunk?
    var leaves: seq<bytes>

    ghost function View(): Snapshot
      reads this, conn, pendingChunk
    {
      Snapshot(state, fileID, fileName, fileSize, currentChunk, totalChunks, file,
               if pendingChunk == null then None else Some(pendingChunk.Data()),
               leaves, conn.incoming, conn.outgoing, false)
    }

    constructor (conn: Stream, role: Role)
      ensures this.conn == conn && this.role == role && chunkSize == CHUNK_SIZE && pendingChunk == null
      ensures View() == ReceiverStart(conn.incoming).(output := conn.outgoing)
    {
      state := Idle;
      this.conn, this.role, chunkSize := conn, role, 32768;
      fileID, fileName, fileSize, currentChunk, totalChunks, file := [], [], 0, 0, 0, [];
      pendingChunk, leaves := null, [];
    }

    /** The transition table, searched entry by entry. */
    method Transition(next: State) returns (ok: bool)
      modifies this`state
      ensures ok == IsAllowed(old(state), next) && state == if ok then next else old(state)
    {
      var allowed := ValidTransitions(state);
      ok := false;
      for i := 0 to |allowed|
        invariant ok <==> next in allowed[..i]
      {
        if allowed[i] == next {
          ok := true;
        }
      }
      assert allowed[..|allowed|] == allowed;
      if ok {
        state := next;
      }
    }

    method Advance()
      modifies this`currentChunk
      ensures currentChunk == Truncate32(old(currentChunk) + 1)
    {
      currentChunk := Truncate32(currentChunk + 1);
    }

    method IsLast() returns (last: bool)
      ensures last == IsLastChunk(View())
    {
      last := totalChunks > 0 && currentChunk == totalChunks - 1;
    }

    method Fail()
      modifies this`state
      ensures state == Error
    {
      state := Error;
    }
  }
}
