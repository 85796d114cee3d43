/**
 The hash and the cipher of Utils/utils.go, as opaque total functions. Nothing is known of them
 but the laws below: Keccak has a fixed digest size, and AES-GCM opens what it sealed under the
 same key and nonce (sections 7.1 and 7.2 of NIST SP 800-38D). In particular the hash is not
 assumed to be injective.
 */
module Crypto {
  import opened Bytes

  const HASH_SIZE: nat := 32
  const KEY_SIZE: nat := 32
  const NONCE_SIZE: nat := 12
  const TAG_SIZE: nat := 16
  const CHUNK_SIZE: nat := 32768

  datatype RawSuite = Suite(
    keccak: bytes -> bytes,
    seal: (bytes, bytes, bytes) -> bytes,
    open: (bytes, bytes, bytes) -> Option<bytes>)

  ghost predicate Lawful(c: RawSuite) {
    && (forall m: bytes :: |c.keccak(m)| == HASH_SIZE)
    && (forall k: bytes, n: bytes, p: bytes {:trigger c.seal(k, n, p)} ::
          |k| == KEY_SIZE && |n| == NONCE_SIZE && |p| <= CHUNK_SIZE ==>
          && |c.seal(k, n, p)| == |p| + TAG_SIZE
          && c.open(k, n, c.seal(k, n, p)) == Some(p))
  }

  function Zeros(n: nat): (z: bytes)
    ensures |z| == n
  {
    seq(n, _ => 0)
  }

  /** A lawful suite exists: a constant hash and a cipher that appends an all-zero tag. */
  const TOY: RawSuite := Suite(
    m => Zeros(HASH_SIZE),
    (k, n, p) => p + Zeros(TAG_SIZE),
    (k, n, s) => if |s| < TAG_SIZE then None else Some(s[..|s| - TAG_SIZE]))

  type Suite = c: RawSuite | Lawful(c) witness TOY

  function Hash(c: Suite, m: bytes): (digest: bytes)
    ensures |digest| == HASH_SIZE
  {
    c.keccak(m)
  }

  function Seal(c: Suite, key: bytes, nonce: bytes, p: bytes): (s: bytes)
    ensures |key| == KEY_SIZE && |nonce| == NONCE_SIZE && |p| <= CHUNK_SIZE ==> |s| == |p| + TAG_SIZE
  {
    c.seal(key, nonce, p)
  }

  function Unseal(c: Suite, key: bytes, nonce: bytes, s: bytes): Option<bytes> {
    c.open(key, nonce, s)
  }

  lemma UnsealSeal(c: Suite, key: bytes, nonce: bytes, p: bytes)
    requires |key| == KEY_SIZE && |nonce| == NONCE_SIZE && |p| <= CHUNK_SIZE
    ensures Unseal(c, key, nonce, Seal(c, key, nonce, p)) == Some(p)
  {
  }

  /**
   Two different strings, one from `a` and one from `b`, with the same digest. The sets are always
   the finitely many strings that two parties really hashed, so this is a collision in hand, not
   the mere existence of one (which the digest size alone would give).
   */
  ghost predicate Clash(c: Suite, a: set<bytes>, b: set<bytes>) {
    exists x, y :: x in a && y in b && x != y && Hash(c, x) == Hash(c, y)
  }

  lemma ClashFound(c: Suite, a: set<bytes>, b: set<bytes>, x: bytes, y: bytes)
    requires x in a && y in b && Hash(c, x) == Hash(c, y)
    ensures x == y || Clash(c, a, b)
  {
  }

  lemma ClashGrows(c: Suite, a: set<bytes>, b: set<bytes>, a': set<bytes>, b': set<bytes>)
    requires a <= a' && b <= b'
    ensures Clash(c, a, b) ==> Clash(c, a', b')
  {
    if Clash(c, a, b) {
      var x, y :| x in a && y in b && x != y && Hash(c, x) == Hash(c, y);
      assert x in a' && y in b';
    }
  }

  lemma ClashSymmetric(c: Suite, a: set<bytes>, b: set<bytes>)
    ensures Clash(c, a, b) ==> Clash(c, b, a)
  {
  }

  /** The variadic hash: the hasher absorbs its arguments one after another. */
  method Keccak(c: Suite, data: seq<bytes>) returns (digest: bytes)
    ensures digest == c.keccak(Flatten(data)) && |digest| == HASH_SIZE
  {
    var absorbed: bytes := [];
    for i := 0 to |data|
      invariant absorbed == Flatten(data[..i])
    {
      assert data[..i + 1] == data[..i] + [data[i]];
      FlattenSnoc(data[..i], data[i]);
      absorbed := absorbed + data[i];
    }
    assert data[..|data|] == data;
    digest := Hash(c, absorbed);
  }
}
