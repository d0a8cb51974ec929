/**
 The fixed-width integers of the segment files and of the hinted-handoff
 blocks: eight bytes, most significant byte first.
 */
module BigEndian {

  type byte = x: int | 0 <= x < 256

  const TWO_63: nat := 0x8000_0000_0000_0000
  const TWO_64: nat := 0x1_0000_0000_0000_0000

  /** How many values fit in k bytes. */
  function Capacity(k: nat): (n: nat)
    ensures n >= 1
  {
    if k == 0 then 1 else 256 * Capacity(k - 1)
  }

  /** The k low-order bytes of n, most significant first. */
  function Put(n: nat, k: nat): (b: seq<byte>)
    ensures |b| == k
  {
    if k == 0 then [] else Put(n / 256, k - 1) + [n % 256]
  }

  /** The number that a big-endian byte string denotes. */
  function Get(b: seq<byte>): (n: nat)
    ensures n < Capacity(|b|)
  {
    if b == [] then 0 else 256 * Get(b[..|b| - 1]) + b[|b| - 1]
  }

  function PutUint64(n: nat): (b: seq<byte>)
    ensures |b| == 8
  {
    Put(n, 8)
  }

  function Uint64(b: seq<byte>): (n: nat)
    requires |b| == 8
    ensures n < TWO_64
  {
    CapacityOfEight();
    Get(b)
  }

  lemma CapacityOfEight()
    ensures Capacity(8) == TWO_64
  {
    assert Capacity(4) == 0x1_0000_0000;
  }

  lemma {:induction false} GetPut(n: nat, k: nat)
    requires n < Capacity(k)
    ensures Get(Put(n, k)) == n
  {
    if k == 0 {
    } else {
      GetPut(n / 256, k - 1);
      assert Put(n, k)[..k - 1] == Put(n / 256, k - 1);
    }
  }

  lemma {:induction false} PutGet(b: seq<byte>)
    ensures Put(Get(b), |b|) == b
  {
    if b == [] {
    } else {
      PutGet(b[..|b| - 1]);
      assert Get(b) / 256 == Get(b[..|b| - 1]) && Get(b) % 256 == b[|b| - 1];
    }
  }

  /** The first byte is the heaviest: of two numbers, the first byte that differs decides. */
  lemma {:induction false} MostSignificantFirst(a: seq<byte>, b: seq<byte>, k: nat)
    requires |a| == |b| && k < |a| && a[..k] == b[..k] && a[k] < b[k]
    ensures Get(a) < Get(b)
  {
    var n := |a| - 1;
    if k == n {
    } else {
      assert a[..n][..k] == a[..k] && b[..n][..k] == b[..k];
      MostSignificantFirst(a[..n], b[..n], k);
    }
  }

  /** Writing a 64-bit number and reading it back is the identity, in both directions. */
  lemma Uint64RoundTrip(n: nat, b: seq<byte>)
    requires n < TWO_64 && |b| == 8
    ensures Uint64(PutUint64(n)) == n
    ensures PutUint64(Uint64(b)) == b
  {
    CapacityOfEight();
    GetPut(n, 8);
    PutGet(b);
  }
}
