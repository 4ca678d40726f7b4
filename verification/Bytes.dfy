/** Bytes and the big-endian length fields of the TLS wire format. */
module Bytes {
  type byte = x: int | 0 <= x < 256

  function Min(a: nat, b: nat): nat { if a < b then a else b }

  function U16(hi: byte, lo: byte): nat { hi * 0x100 + lo }

  function U24(hi: byte, mid: byte, lo: byte): nat { hi * 0x10000 + mid * 0x100 + lo }

  function Put16(n: nat): (r: seq<byte>)
    requires n < 0x10000
    ensures |r| == 2 && U16(r[0], r[1]) == n
  {
    [n / 0x100, n % 0x100]
  }

  function Put24(n: nat): (r: seq<byte>)
    requires n < 0x1000000
    ensures |r| == 3 && U24(r[0], r[1], r[2]) == n
  {
    [n / 0x10000, n / 0x100 % 0x100, n % 0x100]
  }

  /** The concatenation of a list of pieces. */
  function Flatten<T>(pieces: seq<seq<T>>): seq<T>
  {
    if pieces == [] then [] else pieces[0] + Flatten(pieces[1..])
  }

  lemma Assoc<T>(a: seq<T>, b: seq<T>, c: seq<T>)
    ensures a + b + c == a + (b + c)
  {
  }

  /** A memory copy into an array. */
  method MemCopy(a: array<byte>, off: nat, bytes: seq<byte>)
    requires off + |bytes| <= a.Length
    modifies a
    ensures a[..off] == old(a[..off]) && a[off..off + |bytes|] == bytes
    ensures a[off + |bytes|..] == old(a[off + |bytes|..])
    ensures a[..off + |bytes|] == old(a[..off]) + bytes
    ensures a[..] == old(a[..off]) + bytes + old(a[off + |bytes|..])
  {
    forall i | 0 <= i < |bytes| { a[off + i] := bytes[i]; }
    assert a[..] == a[..off] + a[off..off + |bytes|] + a[off + |bytes|..];
  }
}
