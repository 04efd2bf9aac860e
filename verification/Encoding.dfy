/** Fixed-width integers as bytes. */
module Encoding {
  import opened Events

  function Pow2(n: nat): nat {
    if n == 0 then 1 else 2 * Pow2(n - 1)
  }

  function Pow256(k: nat): nat {
    if k == 0 then 1 else 256 * Pow256(k - 1)
  }

  lemma Widths()
    ensures Pow256(4) == U32_MAX + 1 && Pow256(8) == U64_MAX + 1 && Pow256(32) == ID_LIMIT
  {
    assert Pow256(2) == 0x1_0000;
    assert Pow256(4) == 0x1_0000_0000;
    assert Pow256(8) == 0x1_0000_0000_0000_0000;
    PowAdd(8, 8);
    PowAdd(16, 16);
  }

  lemma {:induction false} PowAdd(a: nat, b: nat)
    ensures Pow256(a + b) == Pow256(a) * Pow256(b)
  {
    if a > 0 {
      PowAdd(a - 1, b);
    }
  }

  /** Least significant byte first. */
  function Le(width: nat, n: nat): (b: Bytes)
    ensures |b| == width
  {
    if width == 0 then [] else [n % 256] + Le(width - 1, n / 256)
  }

  function UnLe(b: Bytes): nat {
    if b == [] then 0 else b[0] + 256 * UnLe(b[1..])
  }

  lemma {:induction false} LeRoundTrip(width: nat, n: nat)
    requires n < Pow256(width)
    ensures UnLe(Le(width, n)) == n
  {
    if width > 0 {
      LeRoundTrip(width - 1, n / 256);
      assert Le(width, n)[1..] == Le(width - 1, n / 256);
    }
  }

  lemma {:induction false} UnLeRoundTrip(b: Bytes)
    ensures UnLe(b) < Pow256(|b|) && Le(|b|, UnLe(b)) == b
  {
    if b != [] {
      UnLeRoundTrip(b[1..]);
    }
  }

  /** Most significant byte first: the bytes of an id. */
  function Be(width: nat, n: nat): (b: Bytes)
    ensures |b| == width
  {
    if width == 0 then [] else Be(width - 1, n / 256) + [n % 256]
  }

  lemma {:induction false} BeIsInjective(width: nat, m: nat, n: nat)
    requires m < Pow256(width) && n < Pow256(width) && Be(width, m) == Be(width, n)
    ensures m == n
  {
    if width > 0 {
      assert Be(width, m)[..width - 1] == Be(width - 1, m / 256);
      assert Be(width, n)[..width - 1] == Be(width - 1, n / 256);
      assert m % 256 == Be(width, m)[width - 1] == Be(width, n)[width - 1] == n % 256;
      BeIsInjective(width - 1, m / 256, n / 256);
    }
  }

  function UnBe(b: Bytes): nat {
    if b == [] then 0 else 256 * UnBe(b[..|b| - 1]) + b[|b| - 1]
  }

  lemma {:induction false} BeRoundTrip(width: nat, n: nat)
    requires n < Pow256(width)
    ensures UnBe(Be(width, n)) == n
  {
    if width > 0 {
      BeRoundTrip(width - 1, n / 256);
      assert Be(width, n)[..width - 1] == Be(width - 1, n / 256);
    }
  }

  lemma {:induction false} UnBeBound(b: Bytes)
    ensures UnBe(b) < Pow256(|b|)
  {
    if b != [] {
      UnBeBound(b[..|b| - 1]);
    }
  }
}
