/** Words of memory, least significant byte first, and alignment to 8 bytes. */
module Words {
  import opened Bytes

  function Put(n: nat, k: nat): (r: seq<byte>)
    ensures |r| == k
  {
    if k == 0 then [] else [n % 0x100] + Put(n / 0x100, k - 1)
  }

  function Get(b: seq<byte>): nat {
    if b == [] then 0 else b[0] + 0x100 * Get(b[1..])
  }

  function Limit(k: nat): nat {
    if k == 0 then 1 else 0x100 * Limit(k - 1)
  }

  lemma {:induction false} GetPut(n: nat, k: nat)
    requires n < Limit(k)
    ensures Get(Put(n, k)) == n
  {
    if k > 0 {
      GetPut(n / 0x100, k - 1);
      assert Put(n, k)[1..] == Put(n / 0x100, k - 1);
    }
  }

  lemma WordLimits()
    ensures Limit(2) == 0x10000 && Limit(4) == 0x1_0000_0000 && Limit(8) == 0x1_0000_0000_0000_0000
  {
    assert Limit(3) == 0x1000000;
    assert Limit(5) == 0x100 * Limit(4);
    assert Limit(6) == 0x100 * Limit(5);
    assert Limit(7) == 0x100 * Limit(6);
  }

  function Zeros(n: nat): (r: seq<byte>)
    ensures |r| == n
  {
    seq(n, _ => 0)
  }

  function Align8(n: nat): nat { (n + 7) / 8 * 8 }
}
