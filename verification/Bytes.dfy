/** Bytes, unsigned 32-bit integers and their big-endian form (Go's encoding/binary). */
module Bytes {
  type byte = x: int | 0 <= x < 256
  type bytes = seq<byte>

  const U32_LIMIT: nat := 0x1_0000_0000
  type u32 = x: nat | x < 0x1_0000_0000

  datatype Option<+T> = None | Some(value: T)

  /** Go's conversion uint32(x) of a non-negative integer. */
  function Truncate32(x: nat): u32 {
    x % 0x1_0000_0000
  }

  function Min(a: nat, b: nat): nat {
    if a <= b then a else b
  }

  function PutU32(x: u32): (b: bytes)
    ensures |b| == 4
  {
    [x / 256 / 256 / 256, x / 256 / 256 % 256, x / 256 % 256, x % 256]
  }

  function GetU32(b: bytes): u32
    requires |b| == 4
  {
    ((b[0] as nat * 256 + b[1]) * 256 + b[2]) * 256 + b[3]
  }

  /** The two conversions are inverse to each other. */
  lemma {:induction false} U32RoundTrip(x: u32)
    ensures GetU32(PutU32(x)) == x
  {
  }

  lemma {:induction false} U32Canonical(b: bytes)
    requires |b| == 4
    ensures PutU32(GetU32(b)) == b
  {
    var high := b[0] as nat * 256 + b[1];
    assert high / 256 == b[0] && high % 256 == b[1];
    var x := GetU32(b);
    assert x / 256 == high * 256 + b[2];
    assert x / 256 / 256 == high;
  }

  /** The order of strings that a comparison from the front gives. */
  ghost predicate Below(a: bytes, b: bytes) {
    exists i :: 0 <= i < |a| && i < |b| && a[..i] == b[..i] && a[i] < b[i]
  }

  lemma OneWay(a: bytes, b: bytes)
    requires Below(a, b)
    ensures !Below(b, a) && a != b
  {
    var i :| 0 <= i < |a| && i < |b| && a[..i] == b[..i] && a[i] < b[i];
    if j :| 0 <= j < |a| && j < |b| && b[..j] == a[..j] && b[j] < a[j] {
      assert false;
    }
  }

  lemma Ordered(x: u32, y: u32)
    requires x < y
    ensures Below(PutU32(x), PutU32(y))
  {
    var (a, b) := (PutU32(x), PutU32(y));
    U32RoundTrip(x);
    U32RoundTrip(y);
    var i := if a[0] != b[0] then 0 else if a[1] != b[1] then 1 else if a[2] != b[2] then 2 else 3;
    assert a[..i] == b[..i] && a[i] < b[i];
  }

  /** Big-endian: the order of the numbers is the order of their bytes from the front. */
  lemma {:induction false} BigEndian(x: u32, y: u32)
    ensures x < y <==> Below(PutU32(x), PutU32(y))
  {
    hide PutU32; hide Below;
    if x < y {
      Ordered(x, y);
    } else if Below(PutU32(x), PutU32(y)) {
      OneWay(PutU32(x), PutU32(y));
      if y < x {
        Ordered(y, x);
      }
    }
  }

  /** Concatenation of a list of byte strings. */
  function Flatten(parts: seq<bytes>): bytes {
    if |parts| == 0 then [] else Flatten(parts[..|parts| - 1]) + parts[|parts| - 1]
  }

  lemma FlattenSnoc(parts: seq<bytes>, p: bytes)
    ensures Flatten(parts + [p]) == Flatten(parts) + p
  {
    assert (parts + [p])[..|parts|] == parts;
  }

  lemma FlattenTwo(a: bytes, b: bytes)
    ensures Flatten([a, b]) == a + b
  {
    FlattenSnoc([a], b);
    FlattenSnoc([], a);
    assert [] + [a] == [a] && [a] + [b] == [a, b];
  }
}
