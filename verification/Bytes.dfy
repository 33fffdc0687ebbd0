// Bytes and little-endian integers.
module Bytes {
  newtype byte = x: int | 0 <= x < 256

  type Bytes = seq<byte>

  const U32_LIMIT: nat := 0x1_0000_0000
  const U64_LIMIT: nat := 0x1_0000_0000_0000_0000

  type u32 = x: nat | x < U32_LIMIT
  type u64 = x: nat | x < U64_LIMIT

  // The `n` low bytes of `x`, least significant first.
  function LittleEndian(x: nat, n: nat): (b: Bytes)
    ensures |b| == n
  {
    if n == 0 then [] else [(x % 256) as byte] + LittleEndian(x / 256, n - 1)
  }

  function Pow256(n: nat): nat {
    if n == 0 then 1 else 256 * Pow256(n - 1)
  }

  lemma {:induction false} Pow256Values()
    ensures Pow256(3) == 0x100_0000 && Pow256(4) == U32_LIMIT && Pow256(8) == U64_LIMIT
  {
    assert Pow256(1) == 256;
    assert Pow256(2) == 0x1_0000;
    assert Pow256(4) == U32_LIMIT;
    assert Pow256(6) == 0x1_0000_0000_0000;
  }

  // The little-endian number in the `n` bytes at `pos`.
  function ReadLE(s: Bytes, pos: nat, n: nat): (x: nat)
    requires pos + n <= |s|
    decreases |s| - pos
  {
    if n == 0 then 0 else s[pos] as nat + 256 * ReadLE(s, pos + 1, n - 1)
  }

  lemma {:induction false} ReadLEBound(s: Bytes, pos: nat, n: nat)
    requires pos + n <= |s|
    ensures ReadLE(s, pos, n) < Pow256(n)
    decreases n
  {
    if n > 0 {
      ReadLEBound(s, pos + 1, n - 1);
    }
  }

  function Zeros(n: nat): (b: Bytes)
    ensures |b| == n && forall i :: 0 <= i < n ==> b[i] == 0
  {
    seq(n, _ => 0)
  }

  // `b` stands in `s` at `pos`.
  predicate Occurs(s: Bytes, pos: nat, b: Bytes) {
    pos + |b| <= |s| && forall k :: 0 <= k < |b| ==> s[pos + k] == b[k]
  }

  lemma {:induction false} OccursSlice(s: Bytes, pos: nat, b: Bytes)
    requires pos + |b| <= |s|
    ensures Occurs(s, pos, b) <==> s[pos..pos + |b|] == b
  {
    if s[pos..pos + |b|] == b {
      forall k | 0 <= k < |b| ensures s[pos + k] == b[k] {
        assert s[pos..pos + |b|][k] == s[pos + k];
      }
    }
  }

  lemma {:induction false} OccursSplit(s: Bytes, pos: nat, a: Bytes, b: Bytes)
    ensures Occurs(s, pos, a + b) <==> Occurs(s, pos, a) && Occurs(s, pos + |a|, b)
  {
    if Occurs(s, pos, a + b) {
      forall k | 0 <= k < |b| ensures s[pos + |a| + k] == b[k] {
        assert (a + b)[|a| + k] == b[k];
      }
      forall k | 0 <= k < |a| ensures s[pos + k] == a[k] {
        assert (a + b)[k] == a[k];
      }
    }
  }

  lemma {:induction false} NumberRoundTrip(s: Bytes, pos: nat, x: nat, n: nat)
    requires x < Pow256(n) && Occurs(s, pos, LittleEndian(x, n))
    ensures ReadLE(s, pos, n) == x
    decreases n
  {
    if n > 0 {
      var low: Bytes := [(x % 256) as byte];
      OccursSplit(s, pos, low, LittleEndian(x / 256, n - 1));
      NumberRoundTrip(s, pos + 1, x / 256, n - 1);
      assert s[pos + 0] == low[0];
    }
  }

  // One more part between what is out already and what is still to come.
  lemma {:induction false} Regroup(out: Bytes, part: Bytes, rest: Bytes)
    ensures out + (part + rest) == (out + part) + rest
  {
  }

  lemma {:induction false} NothingLeft(out: Bytes, rest: Bytes)
    requires |rest| == 0
    ensures out + rest == out
  {
  }

  lemma {:induction false} OccursWhole(s: Bytes)
    ensures Occurs(s, 0, s)
  {
  }
}
