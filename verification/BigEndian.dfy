/** Fixed-width big-endian integers, as `IntToBytes` and `encoding/binary` write them. */
module BigEndian {
  import opened Terms

  function Pow256(k: nat): (r: nat)
    ensures r > 0
  {
    if k == 0 then 1 else 256 * Pow256(k - 1)
  }

  /** The low `len` bytes of `n` in two's complement, most significant first. */
  function Put(n: int, len: nat): (b: Bytes)
    ensures |b| == len
    decreases len
  {
    if len == 0 then [] else Put(n / 256, len - 1) + [n % 256]
  }

  function Get(b: Bytes): nat {
    if b == [] then 0 else 256 * Get(b[..|b| - 1]) + b[|b| - 1]
  }

  /** Reading back gives the number modulo the width: writing truncates and nothing else. */
  lemma {:induction false} GetPut(n: int, len: nat)
    ensures Get(Put(n, len)) == n % Pow256(len)
    decreases len
  {
    if len > 0 {
      GetPut(n / 256, len - 1);
      var b := Put(n, len);
      assert b[..len - 1] == Put(n / 256, len - 1);
      SplitMod(n, Pow256(len - 1));
    }
  }

  lemma SplitMod(n: int, p: nat)
    requires p > 0
    ensures 256 * ((n / 256) % p) + n % 256 == n % (256 * p)
  {
    var q, r := n / 256, n % 256;
    var k, m := q / p, q % p;
    assert q == p * k + m;
    assert n == 256 * q + r == (256 * p) * k + (256 * m + r);
    assert 0 <= 256 * m + r < 256 * p;
    ModOf(n, 256 * p, k, 256 * m + r);
  }

  lemma ModOf(n: int, d: nat, k: int, r: nat)
    requires d > 0 && n == d * k + r && r < d
    ensures n % d == r
  {
    var q := n / d;
    assert n == d * q + n % d;
    assert d * (k - q) == n % d - r;
    assert k - q >= 1 ==> d * (k - q) >= d;
    assert q - k >= 1 ==> d * (q - k) >= d;
  }

  lemma RoundTrip(n: nat, len: nat)
    requires n < Pow256(len)
    ensures Get(Put(n, len)) == n
  {
    GetPut(n, len);
  }

  lemma {:induction false} PutGet(b: Bytes)
    ensures Get(b) < Pow256(|b|) && Put(Get(b), |b|) == b
  {
    if b != [] {
      var n := |b| - 1;
      PutGet(b[..n]);
      assert b == b[..n] + [b[n]];
    }
  }

  lemma Pow256Of8()
    ensures Pow256(8) == 0x1_0000_0000_0000_0000 && Pow256(4) == 0x1_0000_0000
  {
    assert Pow256(2) == 65536;
    assert Pow256(4) == 256 * (256 * Pow256(2));
    assert Pow256(6) == 256 * (256 * Pow256(4));
    assert Pow256(8) == 256 * (256 * Pow256(6));
  }

  /** IntToBytes fills the buffer from its last byte, shifting `n` right as it goes; the shift
      of a negative number keeps its sign. */
  method IntToBytes(n: int, length: nat) returns (b: array<Byte>)
    ensures b[..] == Put(n, length)
  {
    b := new Byte[length](_ => 0);
    var m, i := n, length;
    while i > 0
      invariant 0 <= i <= length == b.Length
      invariant Put(m, i) + b[i..] == Put(n, length)
    {
      i := i - 1;
      ghost var before := b[i + 1..];
      b[i] := m % 256;
      assert b[i..] == [m % 256] + before;
      assert Put(m, i + 1) + before == Put(m / 256, i) + ([m % 256] + before);
      m := m / 256;
    }
    assert b[..] == b[0..];
  }
}
