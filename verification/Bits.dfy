/** Bit sequences, most significant bit first, and the machine operations on naturals. */
module BitStrings {

  type Byte = x: int | 0 <= x < 256

  function Pow2(n: nat): (r: nat)
    ensures r > 0
  {
    if n == 0 then 1 else 2 * Pow2(n - 1)
  }

  lemma {:induction false} Pow2Add(a: nat, b: nat)
    ensures Pow2(a + b) == Pow2(a) * Pow2(b)
  {
    if b != 0 {
      Pow2Add(a, b - 1);
      assert Pow2(a) * (2 * Pow2(b - 1)) == 2 * (Pow2(a) * Pow2(b - 1));
    }
  }

  lemma Pow2Values()
    ensures Pow2(5) == 32 && Pow2(6) == 64 && Pow2(8) == 256 && Pow2(12) == 4096
    ensures Pow2(16) == 65536 && Pow2(18) == 262144
  {
    assert Pow2(2) == 4;
    assert Pow2(4) == 16;
    assert Pow2(6) == 64;
    assert Pow2(8) == 256;
    Pow2Add(6, 6);
    Pow2Add(8, 8);
    Pow2Add(12, 6);
  }

  /** The number a bit sequence denotes. */
  ghost function Num(bs: seq<bool>): (r: nat)
    ensures r < Pow2(|bs|)
  {
    if bs == [] then 0 else 2 * Num(bs[..|bs| - 1]) + (if bs[|bs| - 1] then 1 else 0)
  }

  /** The low `n` bits of `x`. */
  ghost function Bits(x: nat, n: nat): (bs: seq<bool>)
    ensures |bs| == n
  {
    if n == 0 then [] else Bits(x / 2, n - 1) + [x % 2 == 1]
  }

  ghost function Zeros(n: nat): (bs: seq<bool>)
    ensures |bs| == n && forall i | 0 <= i < n :: !bs[i]
  {
    seq(n, i => false)
  }

  lemma {:induction false} NumOfBits(x: nat, n: nat)
    requires x < Pow2(n)
    ensures Num(Bits(x, n)) == x
  {
    if n != 0 {
      NumOfBits(x / 2, n - 1);
      assert Bits(x, n)[..n - 1] == Bits(x / 2, n - 1);
    }
  }

  lemma {:induction false} BitsOfNum(bs: seq<bool>)
    ensures Bits(Num(bs), |bs|) == bs
  {
    if bs != [] {
      BitsOfNum(bs[..|bs| - 1]);
      assert bs == bs[..|bs| - 1] + [bs[|bs| - 1]];
    }
  }

  lemma Twice(n: int, p: int)
    ensures n * (2 * p) == 2 * (n * p)
  {
  }

  lemma NumSnoc(bs: seq<bool>, x: bool)
    ensures Num(bs + [x]) == 2 * Num(bs) + (if x then 1 else 0)
  {
    assert (bs + [x])[..|bs|] == bs;
  }

  lemma {:induction false} NumAppend(a: seq<bool>, b: seq<bool>)
    ensures Num(a + b) == Shl(Num(a), |b|) + Num(b)
  {
    if b == [] {
      assert a + b == a;
    } else {
      hide Num;
      var c, x := b[..|b| - 1], b[|b| - 1];
      assert b == c + [x] && a + b == a + c + [x];
      NumAppend(a, c);
      NumSnoc(a + c, x);
      NumSnoc(c, x);
      Twice(Num(a), Pow2(|c|));
    }
  }

  lemma {:induction false} NumZeros(n: nat)
    ensures Num(Zeros(n)) == 0
  {
    if n != 0 {
      assert Zeros(n)[..n - 1] == Zeros(n - 1);
      NumZeros(n - 1);
    }
  }

  /** A sequence denoting zero holds no set bit. */
  lemma {:induction false} NumIsZero(bs: seq<bool>)
    requires Num(bs) == 0
    ensures bs == Zeros(|bs|)
  {
    if bs != [] {
      NumIsZero(bs[..|bs| - 1]);
      assert bs == bs[..|bs| - 1] + [bs[|bs| - 1]];
    }
  }

  // `<<` and `>>` on naturals that do not overflow, `|` and `&` bit by bit

  function Shl(x: nat, k: nat): nat { x * Pow2(k) }

  function Shr(x: nat, k: nat): nat {
    QuotientIsNat(x, Pow2(k));
    x / Pow2(k)
  }

  lemma QuotientIsNat(x: nat, m: nat)
    requires m > 0
    ensures x / m >= 0
  {
    var q := x / m;
    assert x == q * m + x % m;
    assert q < 0 ==> (q + 1) * m <= 0;
  }

  /** The left shifts by the widths the codecs use. */
  lemma ShlValues(x: nat)
    ensures Shl(x, 6) == x * 64 && Shl(x, 8) == x * 256 && Shl(x, 12) == x * 4096
    ensures Shl(x, 16) == x * 65536 && Shl(x, 18) == x * 262144
  {
    Pow2Values();
  }

  lemma ShlAdd(x: nat, y: nat, k: nat)
    ensures Shl(x + y, k) == Shl(x, k) + Shl(y, k)
  {
  }

  lemma ShlShl(x: nat, a: nat, b: nat)
    ensures Shl(Shl(x, a), b) == Shl(x, a + b)
  {
    Pow2Add(a, b);
    MulAssoc(x, Pow2(a), Pow2(b));
  }

  lemma MulAssoc(a: int, b: int, c: int)
    ensures a * b * c == a * (b * c)
  {
  }

  lemma ShlBound(x: nat, a: nat, k: nat)
    requires x < Pow2(a)
    ensures Shl(x, k) < Pow2(a + k)
  {
    Pow2Add(a, k);
    MulBelow(x, Pow2(a), Pow2(k));
  }

  lemma MulBelow(x: nat, y: nat, p: nat)
    requires x < y && p > 0
    ensures x * p < y * p
  {
  }

  /** The number its low `k` bits denote. */
  ghost function Low(x: nat, k: nat): int { x % Pow2(k) }

  /** A number split at bit `k`: what is above... */
  lemma HighBits(x: nat, r: nat, k: nat)
    requires r < Pow2(k)
    ensures Shr(Shl(x, k) + r, k) == x
  {
    DivModUnique(Shl(x, k) + r, Pow2(k), x, r);
  }

  /** ... and what is below. */
  lemma LowBits(x: nat, r: nat, k: nat)
    requires r < Pow2(k)
    ensures Low(Shl(x, k) + r, k) == r
  {
    DivModUnique(Shl(x, k) + r, Pow2(k), x, r);
  }

  function Or(x: nat, y: nat): nat
    decreases x + y
  {
    if x == 0 && y == 0 then 0
    else 2 * Or(x / 2, y / 2) + (if x % 2 == 1 || y % 2 == 1 then 1 else 0)
  }

  function And(x: nat, y: nat): nat
    decreases x + y
  {
    if x == 0 && y == 0 then 0
    else 2 * And(x / 2, y / 2) + (if x % 2 == 1 && y % 2 == 1 then 1 else 0)
  }

  lemma {:induction false} OrZero(x: nat)
    ensures Or(x, 0) == x
  {
    if x != 0 {
      OrZero(x / 2);
    }
  }

  lemma {:induction false} OrCommutes(x: nat, y: nat)
    ensures Or(x, y) == Or(y, x)
    decreases x + y
  {
    if x + y != 0 {
      OrCommutes(x / 2, y / 2);
    }
  }

  /** Or-ing into free low bits is adding. */
  lemma {:induction false} OrDisjoint(a: nat, b: nat, k: nat)
    requires b < Pow2(k)
    ensures Or(Shl(a, k), b) == Shl(a, k) + b
  {
    if k == 0 {
      OrZero(a);
    } else {
      var x := a * Pow2(k - 1);
      assert a * Pow2(k) == 2 * x;
      OrDisjoint(a, b / 2, k - 1);
    }
  }

  /** Masking with `2^k - 1` keeps the low `k` bits. */
  lemma {:induction false} AndMask(x: nat, k: nat)
    ensures And(x, Pow2(k) - 1) == x % Pow2(k)
  {
    if k == 0 {
      AndZero(x);
    } else {
      var m := Pow2(k - 1);
      assert (Pow2(k) - 1) / 2 == m - 1 && (Pow2(k) - 1) % 2 == 1;
      AndMask(x / 2, k - 1);
      HalfMod(x, m);
    }
  }

  lemma {:induction false} AndZero(x: nat)
    ensures And(x, 0) == 0
  {
    if x != 0 {
      AndZero(x / 2);
    }
  }

  lemma DivModUnique(x: nat, m: nat, q: nat, r: nat)
    requires m > 0 && r < m && x == q * m + r
    ensures x / m == q && x % m == r
  {
    var d := x / m - q;
    assert x == (x / m) * m + x % m;
    assert d * m == (x / m) * m - q * m;
    assert d >= 1 ==> d * m >= m;
    assert d <= -1 ==> d * m + m <= 0;
  }

  lemma HalfMod(x: nat, m: nat)
    requires m > 0
    ensures x % (2 * m) == 2 * ((x / 2) % m) + x % 2
  {
    var q, r := (x / 2) / m, (x / 2) % m;
    assert x / 2 == q * m + r;
    assert q * (2 * m) == 2 * (q * m);
    DivModUnique(x, 2 * m, q, 2 * r + x % 2);
  }

  ghost predicate Below(xs: seq<nat>, bound: nat) {
    forall i | 0 <= i < |xs| :: xs[i] < bound
  }

  // Numbers of a fixed width, flattened to bits and regrouped

  ghost function Flat(xs: seq<nat>, k: nat): (bs: seq<bool>)
    ensures |bs| == k * |xs|
  {
    if xs == [] then [] else Bits(xs[0], k) + Flat(xs[1..], k)
  }

  ghost function Chunks(bs: seq<bool>, k: nat): (xs: seq<nat>)
    requires k > 0
    ensures Below(xs, Pow2(k))
    decreases |bs|
  {
    if |bs| < k then [] else [Num(bs[..k])] + Chunks(bs[k..], k)
  }

  lemma {:induction false} ChunksOfFlat(xs: seq<nat>, k: nat, tail: seq<bool>)
    requires k > 0 && |tail| < k && Below(xs, Pow2(k))
    ensures Chunks(Flat(xs, k) + tail, k) == xs
  {
    if xs != [] {
      var bs := Flat(xs, k) + tail;
      assert bs[..k] == Bits(xs[0], k);
      assert bs[k..] == Flat(xs[1..], k) + tail;
      NumOfBits(xs[0], k);
      ChunksOfFlat(xs[1..], k, tail);
    }
  }

  lemma {:induction false} FlatOfChunks(bs: seq<bool>, k: nat)
    requires k > 0
    ensures |Flat(Chunks(bs, k), k)| <= |bs|
    ensures Flat(Chunks(bs, k), k) == bs[..|Flat(Chunks(bs, k), k)|]
    ensures |bs| - |Flat(Chunks(bs, k), k)| < k
    decreases |bs|
  {
    if |bs| >= k {
      FlatOfChunks(bs[k..], k);
      BitsOfNum(bs[..k]);
      assert Chunks(bs, k)[1..] == Chunks(bs[k..], k);
    }
  }

  lemma {:induction false} FlatAppend(xs: seq<nat>, ys: seq<nat>, k: nat)
    ensures Flat(xs + ys, k) == Flat(xs, k) + Flat(ys, k)
  {
    if xs == [] {
      assert xs + ys == ys;
    } else {
      assert (xs + ys)[1..] == xs[1..] + ys;
      FlatAppend(xs[1..], ys, k);
    }
  }

  lemma FlatInjective(xs: seq<nat>, ys: seq<nat>, k: nat)
    requires k > 0 && Below(xs, Pow2(k)) && Below(ys, Pow2(k))
    requires Flat(xs, k) == Flat(ys, k)
    ensures xs == ys
  {
    ChunksOfFlat(xs, k, []);
    ChunksOfFlat(ys, k, []);
  }

  lemma FlatStep(x: nat, xs: seq<nat>, k: nat)
    ensures Flat([x] + xs, k) == Bits(x, k) + Flat(xs, k)
  {
    assert ([x] + xs)[1..] == xs;
  }

  /** The number that fixed-width numbers denote together. */
  lemma NumFlatStep(x: nat, xs: seq<nat>, k: nat)
    requires x < Pow2(k)
    ensures Num(Flat([x] + xs, k)) == Shl(x, k * |xs|) + Num(Flat(xs, k))
  {
    FlatStep(x, xs, k);
    NumAppend(Bits(x, k), Flat(xs, k));
    NumOfBits(x, k);
  }

  lemma SameNumber(a: seq<bool>, b: seq<bool>)
    requires |a| == |b| && Num(a) == Num(b)
    ensures a == b
  {
    BitsOfNum(a);
    BitsOfNum(b);
  }
}
