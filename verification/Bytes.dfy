/** Raw bytes and the little-endian integers that the memory bank headers are made of. */
module Bytes {
  newtype byte = x: int | 0 <= x < 256

  const TWO_TO_16 := 0x1_0000
  const TWO_TO_32 := 0x1_0000_0000
  const TWO_TO_64 := 0x1_0000_0000_0000_0000

  function Pow256(k: nat): (p: nat)
    ensures p > 0
  {
    if k == 0 then 1 else 256 * Pow256(k - 1)
  }

  /** The `k` low-order bytes of `n`, lowest first: what storing `n` in a `k`-byte field leaves there. */
  function LittleEndian(n: nat, k: nat): (s: seq<byte>)
    ensures |s| == k
  {
    if k == 0 then [] else [(n % 256) as byte] + LittleEndian(n / 256, k - 1)
  }

  function FromLittleEndian(s: seq<byte>): nat {
    if s == [] then 0 else s[0] as nat + 256 * FromLittleEndian(s[1..])
  }

  /** A field reads back what was stored in it, cut to the width of the field. */
  lemma {:induction false} FieldRoundTrip(n: nat, k: nat)
    ensures FromLittleEndian(LittleEndian(n, k)) == n % Pow256(k)
  {
    if k == 0 {
    } else {
      FieldRoundTrip(n / 256, k - 1);
      assert LittleEndian(n, k)[1..] == LittleEndian(n / 256, k - 1);
      ModSplit(n, Pow256(k - 1));
    }
  }

  lemma ModSplit(n: nat, m: nat)
    requires m > 0
    ensures n % (256 * m) == n % 256 + 256 * (n / 256 % m)
  {
    var q := n / 256;
    var r := n % 256 + 256 * (q % m);
    assert q == m * (q / m) + q % m;
    assert n == 256 * m * (q / m) + r by {
      assert 256 * q == 256 * (m * (q / m)) + 256 * (q % m);
      assert 256 * (m * (q / m)) == 256 * m * (q / m);
    }
    assert 0 <= r < 256 * m;
    ModUnique(n, 256 * m, q / m, r);
  }

  lemma ModUnique(n: nat, m: nat, q: int, r: nat)
    requires m > 0 && r < m && n == m * q + r
    ensures n % m == r && n / m == q
  {
    var d := n / m - q;
    assert m * d == r - n % m;
    assert d > 0 ==> m * d >= m;
    assert d < 0 ==> m * d <= 0 - m;
  }

  lemma DivSplit(n: nat, m: nat)
    requires m > 0
    ensures n / 256 / m == n / (256 * m)
  {
    var q := n / 256;
    assert q == m * (q / m) + q % m;
    assert 256 * (m * (q / m)) == 256 * m * (q / m);
    ModUnique(n, 256 * m, q / m, n % 256 + 256 * (q % m));
  }

  /** The byte order: byte `i` of a field is the digit of weight 256^i. */
  lemma {:induction false} FieldByte(n: nat, k: nat, i: nat)
    requires i < k
    ensures LittleEndian(n, k)[i] as nat == n / Pow256(i) % 256
  {
    if i == 0 {
    } else {
      FieldByte(n / 256, k - 1, i - 1);
      DivSplit(n, Pow256(i - 1));
    }
  }

  /** Reading takes byte `i` of a field for the digit of weight 256^i, and nothing lies above the
      last one. */
  lemma {:induction false} FieldDigits(s: seq<byte>)
    ensures FromLittleEndian(s) < Pow256(|s|)
    ensures forall i :: 0 <= i < |s| ==> FromLittleEndian(s) / Pow256(i) % 256 == s[i] as nat
  {
    if s == [] {
    } else {
      var n, high := FromLittleEndian(s), FromLittleEndian(s[1..]);
      FieldDigits(s[1..]);
      assert n / 256 == high && n % 256 == s[0] as nat;
      forall i | 0 <= i < |s|
        ensures n / Pow256(i) % 256 == s[i] as nat
      {
        if i > 0 {
          DivSplit(n, Pow256(i - 1));
          assert s[i] == s[1..][i - 1];
        }
      }
    }
  }

  /** Only the part of a number that fits the field matters. */
  lemma {:induction false} FieldWraps(n: nat, k: nat)
    ensures LittleEndian(n % Pow256(k), k) == LittleEndian(n, k)
  {
    if k == 0 {
    } else {
      var m := Pow256(k - 1);
      ModSplit(n, m);
      var low := n % 256;
      var high := n / 256 % m;
      assert (low + 256 * high) % 256 == low && (low + 256 * high) / 256 == high;
      FieldWraps(n / 256, k - 1);
    }
  }

  lemma ModAdd(n: nat, more: nat, m: nat)
    requires m > 0
    ensures (n % m + more) % m == (n + more) % m
  {
    var low := n % m + more;
    var q := n / m + low / m;
    assert m * q == m * (n / m) + m * (low / m);
    ModUnique(n + more, m, q, low % m);
  }

  /** Adding to a field and adding before storing leave the same bytes. */
  lemma FieldAdd(n: nat, more: nat, k: nat)
    ensures LittleEndian(FromLittleEndian(LittleEndian(n, k)) + more, k) == LittleEndian(n + more, k)
  {
    var m := Pow256(k);
    FieldRoundTrip(n, k);
    ModAdd(n, more, m);
    FieldWraps(n % m + more, k);
    FieldWraps(n + more, k);
  }

  /** Eight-byte fields hold every size below 2^64. */
  lemma Field64(n: nat)
    requires n < TWO_TO_64
    ensures FromLittleEndian(LittleEndian(n, 8)) == n
  {
    FieldRoundTrip(n, 8);
    assert Pow256(8) == TWO_TO_64;
  }

  /** Two-byte fields hold every count below 2^16. */
  lemma Field16(n: nat)
    ensures FromLittleEndian(LittleEndian(n, 2)) == n % TWO_TO_16
  {
    FieldRoundTrip(n, 2);
    assert Pow256(2) == TWO_TO_16;
  }

  /** Overwrites the `|v|` bytes at offset `at`. */
  function Overwrite(s: seq<byte>, at: nat, v: seq<byte>): (r: seq<byte>)
    requires at + |v| <= |s|
    ensures |r| == |s|
    ensures forall i :: 0 <= i < |s| ==> r[i] == if at <= i < at + |v| then v[i - at] else s[i]
  {
    s[..at] + v + s[at + |v|..]
  }

  /** What was written can be read back. */
  lemma OverwriteReads(s: seq<byte>, at: nat, v: seq<byte>)
    requires at + |v| <= |s|
    ensures Overwrite(s, at, v)[at..at + |v|] == v
  {
  }

  /** Bytes outside the field keep their values. */
  lemma OverwriteKeeps(s: seq<byte>, at: nat, v: seq<byte>, i: nat, j: nat)
    requires at + |v| <= |s| && i <= j <= |s| && (j <= at || at + |v| <= i)
    ensures Overwrite(s, at, v)[i..j] == s[i..j]
  {
  }

  lemma SliceOfSlice(b: seq<byte>, at: nat, n: nat, i: nat, j: nat)
    requires at + n <= |b| && i <= j <= n
    ensures b[at..at + n][i..j] == b[at + i..at + j]
  {
    var x, y := b[at..at + n][i..j], b[at + i..at + j];
    assert forall k :: 0 <= k < |x| ==> x[k] == y[k];
  }
}
