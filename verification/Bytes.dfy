/** Bytes and big-endian integers, as every wire format of the program writes them.

    A number that is written into fewer bytes than it needs loses its high bytes, as the shifts and masks of the
    program do; reading it back gives it modulo a power of 256. Multiplication of unknowns is kept in small lemmas
    of its own, so that no proof about a wire format meets it. `Option` is shared by all modules. */
module Bytes {

  datatype Option<+T> = None | Some(value: T) {
    predicate IsFailure() { None? }
    function PropagateFailure<U>(): Option<U>
      requires None?
    {
      None
    }
    function Extract(): T
      requires Some?
    {
      value
    }
  }

  type byte = b: int | 0 <= b < 256

  type Data = seq<byte>

  function Pow256(k: nat): (p: nat)
    ensures p > 0
  {
    if k == 0 then 1 else 256 * Pow256(k - 1)
  }

  /** The `width` low bytes of `n`, most significant first. */
  function ToBE(n: nat, width: nat): (s: Data)
    ensures |s| == width
  {
    if width == 0 then [] else ToBE(n / 256, width - 1) + [n % 256]
  }

  function FromBE(s: Data): nat {
    if s == [] then 0 else FromBE(s[..|s| - 1]) * 256 + s[|s| - 1]
  }

  lemma {:induction false} ModOfQuotient(n: nat, p: nat)
    requires p > 0
    ensures n % (256 * p) == (n / 256) % p * 256 + n % 256
  {
    var q, r := n / 256, n % 256;
    var t, u := q / p, q % p;
    assert q == t * p + u;
    assert n == (256 * p) * t + (u * 256 + r) by {
      assert n == q * 256 + r;
      assert (t * p + u) * 256 == t * p * 256 + u * 256;
      assert t * p * 256 == (256 * p) * t;
    }
    assert u * 256 + r < 256 * p by {
      assert u <= p - 1;
    }
    DivModUnique(n, 256 * p, t, u * 256 + r);
  }

  lemma {:induction false} DivModUnique(n: nat, d: nat, q: nat, r: nat)
    requires d > 0 && r < d && n == d * q + r
    ensures n % d == r
  {
    var q', r' := n / d, n % d;
    assert d * (q - q') == r' - r by {
      assert n == d * q' + r';
      Distribute(d, q, q');
    }
    if q != q' {
      Grows(d, q - q');
    }
  }

  lemma {:induction false} Distribute(d: int, x: int, y: int)
    ensures d * (x - y) == d * x - d * y
  {
  }

  lemma {:induction false} Grows(d: int, k: int)
    requires d > 0 && k != 0
    ensures d * k >= d || d * k <= -d
  {
    if k > 0 {
      Distribute(d, k, 1);
      Product(d, k - 1);
    } else {
      Distribute(d, -1, k);
      Product(d, -1 - k);
    }
  }

  lemma {:induction false} Product(x: nat, y: nat)
    ensures x * y >= 0
  {
  }

  /** Reading back what was written loses exactly the bytes that did not fit. */
  lemma {:induction false} FromToBE(n: nat, width: nat)
    ensures FromBE(ToBE(n, width)) == n % Pow256(width)
  {
    if width > 0 {
      FromToBE(n / 256, width - 1);
      ModOfQuotient(n, Pow256(width - 1));
      assert ToBE(n, width)[..width - 1] == ToBE(n / 256, width - 1);
    }
  }

  lemma {:induction false} ToFromBE(s: Data)
    ensures ToBE(FromBE(s), |s|) == s
    ensures FromBE(s) < Pow256(|s|)
  {
    if s != [] {
      ToFromBE(s[..|s| - 1]);
      assert s == s[..|s| - 1] + [s[|s| - 1]];
    }
  }

  lemma Widths()
    ensures Pow256(1) == 0x100 && Pow256(2) == 0x1_0000 && Pow256(4) == 0x1_0000_0000
    ensures Pow256(6) == 0x1_0000_0000_0000
  {
    assert Pow256(3) == 0x100_0000;
    assert Pow256(5) == 0x100_0000_0000;
  }

  /** Two, four and six bytes spelt out with the shifts of the source. */
  lemma {:induction false} Spelt(n: nat)
    ensures ToBE(n, 2) == [n / 0x100 % 256, n % 256]
    ensures ToBE(n, 4) == [n / 0x100_0000 % 256, n / 0x1_0000 % 256, n / 0x100 % 256, n % 256]
  {
    assert ToBE(n, 1) == [n % 256];
    assert ToBE(n / 256, 1) == [n / 256 % 256];
    assert ToBE(n, 2) == [n / 0x100 % 256, n % 256];
    var m := n / 0x1_0000;
    assert ToBE(m, 2) == [m / 256 % 256, m % 256] by {
      assert ToBE(m / 256, 1) == [m / 256 % 256];
    }
    assert n / 256 / 256 == m;
    assert m / 256 == n / 0x100_0000;
    assert ToBE(n / 256, 3) == ToBE(m, 2) + [n / 256 % 256];
  }
}
