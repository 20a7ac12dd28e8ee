/** Converting amounts between decimal scales. */
module Conversion {
  import opened Basics
  import opened Arithmetic

  datatype ConversionError = BadDecimals | ZeroInput | ScaleOverflow | AmountTooSmall

  const MAX_DECIMALS: nat := 18

  function Pow10(n: nat): (p: nat)
    ensures p > 0
  {
    if n == 0 then 1 else 10 * Pow10(n - 1)
  }

  function NormalizeAmount(amount: nat, from: nat, to: nat): Result<nat, ConversionError> {
    if from > MAX_DECIMALS || to > MAX_DECIMALS then Err(BadDecimals)
    else if amount == 0 then Err(ZeroInput)
    else if from == to then Ok(amount)
    else if from < to then
      var scale := Pow10(to - from);
      if scale > U64_MAX || amount * scale > U64_MAX then Err(ScaleOverflow) else Ok(amount * scale)
    else
      var scale := Pow10(from - to);
      if scale > U64_MAX then Err(ScaleOverflow)
      else if Div(amount, scale) == 0 then Err(AmountTooSmall)
      else Ok(Div(amount, scale))
  }

  /** Lost when an amount goes to a coarser scale and back. */
  function Dust(amount: nat, from: nat, to: nat): (d: nat)
    ensures d <= amount
  {
    if from <= to then 0 else amount - Div(amount, Pow10(from - to)) * Pow10(from - to)
  }

  /** Whatever converts one way converts back, to the amount less its dust, and the dust is
      less than one unit of the coarser scale. */
  lemma {:induction false} ConvertsBack(amount: nat, from: nat, to: nat)
    requires amount <= U64_MAX && NormalizeAmount(amount, from, to).Ok?
    ensures NormalizeAmount(NormalizeAmount(amount, from, to).value, to, from) == Ok(amount - Dust(amount, from, to))
    ensures 0 < amount - Dust(amount, from, to)
    ensures from > to ==> Dust(amount, from, to) < Pow10(from - to)
  {
    if from < to {
      DivExact(amount, Pow10(to - from));
    } else if to < from {
      var scale := Pow10(from - to);
      var q := Div(amount, scale);
      assert (q + 1) * scale == q * scale + scale;
      MulMono(1, q, scale);
    }
  }

  lemma {:induction false} ConvertsToSome(amount: nat, from: nat, to: nat)
    ensures NormalizeAmount(amount, from, to).Ok? ==> NormalizeAmount(amount, from, to).value > 0
  {
    if from < to && amount > 0 { MulMono(1, amount, Pow10(to - from)); }
  }

  // ----- in plain numbers -----

  /** One decimal more is ten times the number, one less a tenth of it, rounded down. */
  lemma {:induction false} OneDecimal(a: nat, d: nat)
    requires 0 < a && d < 18
    ensures NormalizeAmount(a, d, d) == Ok(a)
    ensures NormalizeAmount(a, d, d + 1) == if 10 * a <= U64_MAX then Ok(10 * a) else Err(ScaleOverflow)
    ensures NormalizeAmount(a, d + 1, d) == if a < 10 then Err(AmountTooSmall) else Ok(a / 10)
  {
    assert Pow10(1) == 10;
    var q := Div(a, 10);
    assert q == a / 10;
  }

  /** No amount of nothing converts, and no scale beyond eighteen decimals. */
  lemma {:induction false} NeverConverts(a: nat, from: nat, to: nat)
    requires a == 0 || from > 18 || to > 18
    ensures NormalizeAmount(a, from, to).Err?
  {
  }

  lemma {:induction false} PowSum(i: nat, j: nat)
    ensures Pow10(i + j) == Pow10(i) * Pow10(j)
  {
    if i > 0 {
      PowSum(i - 1, j);
      assert 10 * (Pow10(i - 1) * Pow10(j)) == 10 * Pow10(i - 1) * Pow10(j);
    }
  }

  lemma {:induction false} PowFits(n: nat)
    requires n <= 18
    ensures Pow10(n) <= 1_000_000_000_000_000_000
  {
    PowMono(n, 18);
    assert Pow10(3) == 1000;
    PowSum(3, 3);
    PowSum(6, 6);
    PowSum(12, 6);
  }

  lemma {:induction false} PowMono(i: nat, j: nat)
    requires i <= j
    ensures Pow10(i) <= Pow10(j)
  {
    if i < j { PowMono(i, j - 1); }
  }

  lemma {:induction false} DivDiv(n: nat, d: nat, e: nat)
    requires d > 0 && e > 0
    ensures d * e > 0 && Div(Div(n, d), e) == Div(n, d * e)
  {
    var q := Div(n, d);
    var r := Div(q, e);
    assert d * e > 0;
    MulMono(r * e, q, d);
    assert r * e * d == r * (d * e);
    DivGreatest(n, d * e, r);
    MulMono(q + 1, (r + 1) * e, d);
    assert (r + 1) * e * d == (r + 1) * (d * e);
    DivBelow(n, d * e, r + 1);
  }

  lemma {:induction false} UpExactly(a: nat, from: nat, to: nat, n: nat)
    requires from < to
    ensures NormalizeAmount(a, from, to) == Ok(n) <==> to <= 18 && 0 < a && n == a * Pow10(to - from) <= U64_MAX
  {
    if to <= 18 { PowFits(to - from); }
  }

  lemma {:induction false} DownExactly(a: nat, from: nat, to: nat, n: nat)
    requires from > to
    ensures NormalizeAmount(a, from, to) == Ok(n) <==> from <= 18 && 0 < n == Div(a, Pow10(from - to))
  {
    if from <= 18 { PowFits(from - to); }
  }

  lemma {:induction false} UpTwice(a: nat, from: nat, mid: nat, to: nat, m: nat, n: nat)
    requires from < mid < to && NormalizeAmount(a, from, mid) == Ok(m) && NormalizeAmount(m, mid, to) == Ok(n)
    ensures NormalizeAmount(a, from, to) == Ok(n)
  {
    UpExactly(a, from, mid, m);
    UpExactly(m, mid, to, n);
    UpExactly(a, from, to, n);
    PowSum(mid - from, to - mid);
    Regroup(a, Pow10(mid - from), Pow10(to - mid));
  }

  lemma {:induction false} Regroup(a: nat, x: nat, y: nat)
    ensures a * (x * y) == a * x * y
  {
  }

  lemma {:induction false} DownTwice(a: nat, from: nat, mid: nat, to: nat, m: nat, n: nat)
    requires from > mid > to && NormalizeAmount(a, from, mid) == Ok(m) && NormalizeAmount(m, mid, to) == Ok(n)
    ensures NormalizeAmount(a, from, to) == Ok(n)
  {
    DownExactly(a, from, mid, m);
    DownExactly(m, mid, to, n);
    DownExactly(a, from, to, n);
    PowSum(from - mid, mid - to);
    DivDiv(a, Pow10(from - mid), Pow10(mid - to));
  }

  /** Going over a scale in between gives the same amount. */
  lemma {:induction false} OverAnotherScale(a: nat, from: nat, mid: nat, to: nat, m: nat, n: nat)
    requires (from <= mid <= to) || (from >= mid >= to)
    requires NormalizeAmount(a, from, mid) == Ok(m) && NormalizeAmount(m, mid, to) == Ok(n)
    ensures NormalizeAmount(a, from, to) == Ok(n)
  {
    if from < mid < to { UpTwice(a, from, mid, to, m, n); }
    if from > mid > to { DownTwice(a, from, mid, to, m, n); }
  }

  /** `n` with `k` more zeros. */
  function Tens(n: nat, k: nat): nat
    decreases k
  {
    if k == 0 then n else Tens(10 * n, k - 1)
  }

  lemma {:induction false} TensIs(n: nat, k: nat)
    ensures Tens(n, k) == n * Pow10(k)
    decreases k
  {
    if k > 0 {
      TensIs(10 * n, k - 1);
      assert 10 * n * Pow10(k - 1) == n * (10 * Pow10(k - 1));
    }
  }

  /** What an amount converts to: as many zeros more as the scale has decimals more, or the
      largest number that so many zeros more keep within the amount. */
  lemma {:induction false} ConvertsInTens(a: nat, from: nat, to: nat, n: nat)
    requires NormalizeAmount(a, from, to) == Ok(n)
    ensures 0 < a && 0 < n && from <= 18 && to <= 18
    ensures from <= to ==> n == Tens(a, to - from) && (n <= U64_MAX || from == to)
    ensures from >= to ==> Tens(n, from - to) <= a < Tens(n + 1, from - to)
  {
    ConvertsToSome(a, from, to);
    if from <= to {
      TensIs(a, to - from);
    }
    if from >= to {
      TensIs(n, from - to);
      TensIs(n + 1, from - to);
    }
  }

  /** When an amount converts: it is not nothing, no scale is beyond eighteen decimals, its zeros fit
      64 bits, and it makes at least one unit of a coarser scale. */
  lemma {:induction false} ConvertsExactly(a: nat, from: nat, to: nat)
    ensures NormalizeAmount(a, from, to).Ok? <==>
      && 0 < a && from <= 18 && to <= 18
      && (from < to ==> Tens(a, to - from) <= U64_MAX) && (from > to ==> Tens(1, from - to) <= a)
  {
    if 0 < a && from <= 18 && to <= 18 {
      if from < to {
        TensIs(a, to - from);
        PowFits(to - from);
      } else if to < from {
        TensIs(1, from - to);
        PowFits(from - to);
        var scale := Pow10(from - to);
        if scale <= a { DivGreatest(a, scale, 1); } else { DivBelow(a, scale, 1); }
      }
    }
  }
}
