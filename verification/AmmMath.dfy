/** The arithmetic of the constant-product pool. */
module AmmMath {
  import opened Basics
  import opened Arithmetic

  const FEE_NUMERATOR: nat := 3
  const FEE_DENOMINATOR: nat := 1000

  // ----- payout of a swap -----

  /** Input with the fee taken off, in thousandths. */
  function AfterFee(x: nat): nat {
    x * (FEE_DENOMINATOR - FEE_NUMERATOR)
  }

  function Denominator(reserveIn: nat, x: nat): (d: nat)
    ensures reserveIn > 0 ==> d > 0
  {
    reserveIn * FEE_DENOMINATOR + AfterFee(x)
  }

  /** A 128-bit unsigned product keeps its low bits. */
  function Wrap128(n: nat): (w: nat)
    ensures w <= n && (n <= U128_MAX ==> w == n)
  {
    n % (U128_MAX + 1)
  }

  /** The output of a swap. */
  function Payout(reserveIn: nat, reserveOut: nat, x: nat): nat
    requires reserveIn > 0
  {
    Div(Wrap128(AfterFee(x) * reserveOut), Denominator(reserveIn, x))
  }

  /** The output if the product had no width. */
  function FullPayout(reserveIn: nat, reserveOut: nat, x: nat): nat
    requires reserveIn > 0
  {
    Div(AfterFee(x) * reserveOut, Denominator(reserveIn, x))
  }

  predicate Fits(reserveOut: nat, x: nat) {
    AfterFee(x) * reserveOut <= U128_MAX
  }

  lemma {:induction false} PayoutFloor(ri: nat, ro: nat, x: nat)
    requires ri > 0
    ensures Payout(ri, ro, x) * Denominator(ri, x) <= AfterFee(x) * ro
  {
  }

  lemma {:induction false} PayoutGreatest(ri: nat, ro: nat, x: nat, o: nat)
    requires ri > 0 && o * Denominator(ri, x) <= AfterFee(x) * ro
    ensures o <= FullPayout(ri, ro, x) && (Fits(ro, x) ==> o <= Payout(ri, ro, x))
  {
    DivGreatest(AfterFee(x) * ro, Denominator(ri, x), o);
  }

  /** A swap pays in full exactly when its product fits. The bound on the denominator holds for
      all 64-bit reserves and amounts. */
  lemma {:induction false} PaysInFull(ri: nat, ro: nat, x: nat)
    requires ri > 0 && Denominator(ri, x) <= U128_MAX
    ensures Payout(ri, ro, x) == FullPayout(ri, ro, x) <==> Fits(ro, x)
    ensures Payout(ri, ro, x) <= FullPayout(ri, ro, x)
  {
    var n, d := AfterFee(x) * ro, Denominator(ri, x);
    PayoutFloor(ri, ro, x);
    PayoutGreatest(ri, ro, x, Payout(ri, ro, x));
    if n > U128_MAX {
      assert Wrap128(n) + U128_MAX + 1 <= n;
      var p := Payout(ri, ro, x);
      assert (p + 1) * d == p * d + d;
      PayoutGreatest(ri, ro, x, p + 1);
    }
  }

  /** What is left of the output reserve after paying `o`, scaled by the denominator, covers
      the old product. */
  lemma {:induction false} Leaves(ri: nat, ro: nat, x: nat, o: nat)
    requires ri > 0 && ro > 0 && o * Denominator(ri, x) <= AfterFee(x) * ro
    ensures o < ro && (ro - o) * Denominator(ri, x) >= ro * (ri * FEE_DENOMINATOR)
  {
    var d, f := Denominator(ri, x), AfterFee(x);
    assert ro * d == ro * (ri * FEE_DENOMINATOR) + f * ro;
    assert ro * (ri * FEE_DENOMINATOR) > 0;
    if ro <= o { MulMono(ro, o, d); }
    assert (ro - o) * d == ro * d - o * d;
  }

  lemma {:induction false} LeftOver(ri: nat, ro: nat, x: nat)
    requires ri > 0 && ro > 0
    ensures Payout(ri, ro, x) < ro
    ensures (ro - Payout(ri, ro, x)) * Denominator(ri, x) >= ro * (ri * FEE_DENOMINATOR)
  {
    PayoutFloor(ri, ro, x);
    Leaves(ri, ro, x, Payout(ri, ro, x));
  }

  /** A swap pays less than the whole output reserve and never lowers the product. */
  lemma {:induction false} SwapKeepsProduct(ri: nat, ro: nat, x: nat)
    requires ri > 0 && ro > 0
    ensures Payout(ri, ro, x) < ro
    ensures (ri + x) * (ro - Payout(ri, ro, x)) >= ri * ro
  {
    LeftOver(ri, ro, x);
    var rest := ro - Payout(ri, ro, x);
    MulMono(Denominator(ri, x), (ri + x) * FEE_DENOMINATOR, rest);
    assert rest * Denominator(ri, x) == Denominator(ri, x) * rest;
    assert ((ri + x) * FEE_DENOMINATOR) * rest == ((ri + x) * rest) * FEE_DENOMINATOR;
    assert ro * (ri * FEE_DENOMINATOR) == (ri * ro) * FEE_DENOMINATOR;
    MulCancel(ri * ro, (ri + x) * rest, FEE_DENOMINATOR);
  }

  // ----- splitting a swap -----

  /** The total paid by successive swaps of `xs` in one direction. */
  function SplitPayout(ri: nat, ro: nat, xs: seq<nat>): nat
    requires ri > 0 && ro > 0
    decreases |xs|
  {
    if xs == [] then 0
    else
      LeftOver(ri, ro, xs[0]);
      var o := Payout(ri, ro, xs[0]);
      o + SplitPayout(ri + xs[0], ro - o, xs[1..])
  }

  function Sum(xs: seq<nat>): nat {
    if xs == [] then 0 else xs[0] + Sum(xs[1..])
  }

  /** Weighting by a larger share keeps more: r1*t*(u+b) covers r1*u*(t+b) when u <= t. */
  lemma {:induction false} LargerShare(r: nat, u: nat, t: nat, b: nat)
    requires u <= t
    ensures r * u * (t + b) <= r * t * (u + b)
  {
    MulMono(u, t, b);
    assert u * (t + b) <= t * (u + b) by {
      assert u * (t + b) == u * t + u * b;
      assert t * (u + b) == u * t + t * b;
    }
    MulMono(u * (t + b), t * (u + b), r);
    assert r * u * (t + b) == u * (t + b) * r;
    assert r * t * (u + b) == t * (u + b) * r;
  }

  /** Two swaps leave at least what one swap of the sum would leave, before rounding. */
  lemma {:induction false} TwoLeaveMore(ro: nat, r1: nat, r2: nat, s: nat, u: nat, t: nat, b: nat)
    requires 0 < u <= t
    requires r1 * u >= ro * s          // after the first swap
    requires r2 * (t + b) >= r1 * t    // after the second
    ensures r2 * (u + b) >= ro * s
  {
    LargerShare(r1, u, t, b);
    MulMono(r1 * t, r2 * (t + b), u + b);
    assert r1 * t * (u + b) <= r2 * (t + b) * (u + b);
    assert r2 * (t + b) * (u + b) == r2 * (u + b) * (t + b);
    MulCancel(r1 * u, r2 * (u + b), t + b);
  }

  lemma {:induction false} SpentBound(ro: nat, rest: nat, s: nat, f: nat)
    requires rest <= ro && rest * (s + f) >= ro * s
    ensures (ro - rest) * (s + f) <= f * ro
  {
    assert (ro - rest) * (s + f) == ro * (s + f) - rest * (s + f);
    assert ro * (s + f) == ro * s + f * ro;
  }

  /** Swapping `x` and then `y` never pays more than the full payout of `x + y`. */
  lemma {:induction false} TwoSwapsPayNoMore(ri: nat, ro: nat, x: nat, y: nat)
    requires ri > 0 && ro > 0
    ensures Payout(ri, ro, x) < ro
    ensures Payout(ri, ro, x) + FullPayout(ri + x, ro - Payout(ri, ro, x), y) <= FullPayout(ri, ro, x + y)
  {
    LeftOver(ri, ro, x);
    var r1 := ro - Payout(ri, ro, x);
    var o := FullPayout(ri + x, r1, y);
    Leaves(ri + x, r1, y, o);
    var r2 := r1 - o;
    var s, t := ri * FEE_DENOMINATOR, (ri + x) * FEE_DENOMINATOR;
    TwoLeaveMore(ro, r1, r2, s, Denominator(ri, x), t, AfterFee(y));
    SpentBound(ro, r2, s, AfterFee(x + y));
    PayoutGreatest(ri, ro, x + y, ro - r2);
  }

  /** However an amount is split into successive swaps, the pieces pay no more than the full
      payout of the whole. */
  lemma {:induction false} SplitPaysNoMore(ri: nat, ro: nat, xs: seq<nat>)
    requires ri > 0 && ro > 0
    ensures SplitPayout(ri, ro, xs) <= FullPayout(ri, ro, Sum(xs))
    decreases |xs|
  {
    if xs != [] {
      LeftOver(ri, ro, xs[0]);
      SplitPaysNoMore(ri + xs[0], ro - Payout(ri, ro, xs[0]), xs[1..]);
      TwoSwapsPayNoMore(ri, ro, xs[0], Sum(xs[1..]));
    }
  }

  // ----- swaps that wrap -----

  /** The largest amount whose product fits. */
  function LargestFitting(reserveOut: nat): nat
    requires reserveOut > 0
  {
    Div(U128_MAX, AfterFee(reserveOut))
  }

  lemma {:induction false} LargestFittingIs(ro: nat, s: nat)
    requires ro > 0 && !Fits(ro, s)
    ensures var x := LargestFitting(ro);
      x < s && AfterFee(x) * ro <= U128_MAX < AfterFee(x) * ro + AfterFee(ro)
  {
    var x, d := LargestFitting(ro), AfterFee(ro);
    assert AfterFee(x) * ro == x * d && AfterFee(s) * ro == s * d;
    assert (x + 1) * d == x * d + d;
    if s <= x { MulMono(s, x, d); }
  }

  /** The cross product decides which quotient is larger, with a unit to spare. */
  lemma {:induction false} LargerQuotient(n: nat, dx: nat, r: nat, ds: nat)
    requires dx > 0 && ds > 0 && (r + ds) * dx <= n * ds
    ensures Div(r, ds) < Div(n, dx)
  {
    var q := Div(r, ds);
    assert (q + 1) * ds == q * ds + ds;
    MulMono((q + 1) * ds, r + ds, dx);
    assert (q + 1) * ds * dx == (q + 1) * dx * ds;
    MulCancel((q + 1) * dx, n, ds);
    DivGreatest(n, dx, q + 1);
  }

  /** A rest of the whole product that is nearly a whole turn comes with an amount so much
      larger that it still pays less. */
  lemma {:induction false} NearlyATurn(n: nat, dx: nat, r: nat, ds: nat, g: nat)
    requires r <= n + g && n >= 0x8000_0000_0000_0000_0000_0000_0000_0000
    requires g <= 997 * U64_MAX && dx <= ds <= 1997 * U64_MAX && ds - dx >= 0x8000_0000_0000_0000
    ensures (r + ds) * dx <= n * ds
  {
    MulMono2(g + ds, 2994 * U64_MAX, dx, 1997 * U64_MAX);
    MulMono2(0x8000_0000_0000_0000_0000_0000_0000_0000, n, 0x8000_0000_0000_0000, ds - dx);
    MulMono(r + ds, n + g + ds, dx);
    assert (n + g + ds) * dx == n * dx + (g + ds) * dx;
    assert n * ds == n * dx + n * (ds - dx);
  }

  /** A product of `ro` that is large has a large other factor. */
  lemma {:induction false} LargeFactor(d: nat, ro: nat)
    requires d * ro >= 0x8000_0000_0000_0000_0000_0000_0000_0000 && ro <= U64_MAX
    ensures d >= 0x8000_0000_0000_0000
  {
    if d < 0x8000_0000_0000_0000 { MulMono2(d, 0x8000_0000_0000_0000, ro, U64_MAX); }
  }

  lemma {:induction false} WrapLosesTurns(n: nat)
    requires n > U128_MAX
    ensures Wrap128(n) <= U128_MAX && Wrap128(n) + U128_MAX + 1 <= n
  {
  }

  /** The cross product of the largest fitting amount and of one that wraps. */
  lemma {:induction false} FittingCrosses(ri: nat, ro: nat, s: nat)
    requires 0 < ri <= U64_MAX && 0 < ro <= U64_MAX && s <= U64_MAX && !Fits(ro, s)
    ensures var x := LargestFitting(ro);
      (Wrap128(AfterFee(s) * ro) + Denominator(ri, s)) * Denominator(ri, x) <= AfterFee(x) * ro * Denominator(ri, s)
  {
    LargestFittingIs(ro, s);
    var x := LargestFitting(ro);
    var n, r, dx, ds := AfterFee(x) * ro, Wrap128(AfterFee(s) * ro), Denominator(ri, x), Denominator(ri, s);
    WrapLosesTurns(AfterFee(s) * ro);
    if r + ds <= n {
      MulMono(r + ds, n, dx);
      MulMono(dx, ds, n);
      assert n * dx == dx * n && n * ds == ds * n;
    } else {
      assert AfterFee(s) * ro == n + (ds - dx) * ro;
      LargeFactor(ds - dx, ro);
      NearlyATurn(n, dx, r, ds, AfterFee(ro));
    }
  }

  /** Whatever amount wraps, the largest that does not is smaller and pays more. */
  lemma {:induction false} FittingPaysMore(ri: nat, ro: nat, s: nat)
    requires 0 < ri <= U64_MAX && 0 < ro <= U64_MAX && s <= U64_MAX && !Fits(ro, s)
    ensures LargestFitting(ro) < s && Payout(ri, ro, LargestFitting(ro)) > Payout(ri, ro, s)
  {
    LargestFittingIs(ro, s);
    FittingCrosses(ri, ro, s);
    var x := LargestFitting(ro);
    LargerQuotient(AfterFee(x) * ro, Denominator(ri, x), Wrap128(AfterFee(s) * ro), Denominator(ri, s));
  }

  /** No way of splitting the amount pays more than one swap of it. */
  ghost predicate NoSplitPaysMore(ri: nat, ro: nat, s: nat)
    requires ri > 0 && ro > 0
  {
    forall xs :: Sum(xs) == s ==> SplitPayout(ri, ro, xs) <= Payout(ri, ro, s)
  }

  /** For all 64-bit reserves and amounts, no split pays more than the whole exactly when the
      product of the whole fits 128 bits. */
  lemma {:induction false} NoSplitPaysMoreIffFits(ri: nat, ro: nat, s: nat)
    requires 0 < ri <= U64_MAX && 0 < ro <= U64_MAX && s <= U64_MAX
    ensures NoSplitPaysMore(ri, ro, s) <==> Fits(ro, s)
  {
    if Fits(ro, s) {
      FittingIsBest(ri, ro, s);
    } else {
      FittingPaysMore(ri, ro, s);
      FirstPiece(ri, ro, LargestFitting(ro), s - LargestFitting(ro));
    }
  }

  lemma {:induction false} FittingIsBest(ri: nat, ro: nat, s: nat)
    requires ri > 0 && ro > 0 && Fits(ro, s)
    ensures NoSplitPaysMore(ri, ro, s)
  {
    assert Payout(ri, ro, s) == FullPayout(ri, ro, s);
    forall xs | Sum(xs) == s
      ensures SplitPayout(ri, ro, xs) <= Payout(ri, ro, s)
    {
      SplitPaysNoMore(ri, ro, xs);
    }
  }

  lemma {:induction false} FirstPiece(ri: nat, ro: nat, x: nat, y: nat)
    requires ri > 0 && ro > 0
    ensures Sum([x, y]) == x + y && SplitPayout(ri, ro, [x, y]) >= Payout(ri, ro, x)
  {
    assert [x, y][1..] == [y] && [y][1..] == [];
    assert Sum([y]) == y;
  }

  /** Past 128 bits the product wraps around, and then a small piece can pay more than the whole. */
  lemma {:induction false} WrappedSwapPaysLess()
    ensures !Fits(0x8000_0000_0000_0000, 0x1000_0000_0000_0000)
    ensures Payout(1, 0x8000_0000_0000_0000, 1) > Payout(1, 0x8000_0000_0000_0000, 0x1000_0000_0000_0000)
  {
    var ro, x, k := 0x8000_0000_0000_0000, 0x1000_0000_0000_0000, 0x0400_0000_0000_0000;
    PayoutGreatest(1, ro, 1, k);
    var n := Wrap128(AfterFee(x) * ro);
    assert n == 5 * 0x0800_0000_0000_0000_0000_0000_0000_0000;
    DivBelow(n, Denominator(1, x), k);
  }

  // ----- shares -----

  /** The share of `reserve` that `shares` of `supply` stand for, rounded down. */
  function ShareOf(amount: nat, total: nat, of: nat): nat
    requires of > 0
  {
    Div(amount * total, of)
  }

  /** The product per squared share, compared by cross-multiplication. */
  predicate NoDilution(ra: nat, rb: nat, lp: nat, ra': nat, rb': nat, lp': nat) {
    ra * rb * (lp' * lp') <= ra' * rb' * (lp * lp)
  }

  lemma {:induction false} SideBySide(ra: nat, rb: nat, lp: nat, ra': nat, rb': nat, lp': nat)
    requires ra * lp' <= ra' * lp && rb * lp' <= rb' * lp
    ensures NoDilution(ra, rb, lp, ra', rb', lp')
  {
    MulMono2(ra * lp', ra' * lp, rb * lp', rb' * lp);
    assert (ra * lp') * (rb * lp') == ra * rb * (lp' * lp');
    assert (ra' * lp) * (rb' * lp) == ra' * rb' * (lp * lp);
  }

  /** Comparing the product per squared share is transitive through positive states. */
  lemma {:induction false} NoDilutionTrans(a0: nat, b0: nat, l0: nat, a1: nat, b1: nat, l1: nat, a2: nat, b2: nat,
                                           l2: nat)
    requires l1 > 0 && NoDilution(a0, b0, l0, a1, b1, l1) && NoDilution(a1, b1, l1, a2, b2, l2)
    ensures NoDilution(a0, b0, l0, a2, b2, l2)
  {
    var k0, k1, k2, s0, s1, s2 := a0 * b0, a1 * b1, a2 * b2, l0 * l0, l1 * l1, l2 * l2;
    CrossTrans(k0, s0, k1, s1, k2, s2);
  }

  lemma {:induction false} CrossTrans(k0: nat, s0: nat, k1: nat, s1: nat, k2: nat, s2: nat)
    requires s1 > 0 && k0 * s1 <= k1 * s0 && k1 * s2 <= k2 * s1
    ensures k0 * s2 <= k2 * s0
  {
    MulMono(k0 * s1, k1 * s0, s2);
    MulMono(k1 * s2, k2 * s1, s0);
    assert k0 * s1 * s2 == k0 * s2 * s1;
    assert k1 * s0 * s2 == k1 * s2 * s0;
    assert k2 * s1 * s0 == k2 * s0 * s1;
    MulCancel(k0 * s2, k2 * s0, s1);
  }

  /** Minting at most the smaller proportional share dilutes nobody. */
  lemma {:induction false} MintKeepsShare(r: nat, lp: nat, amount: nat, minted: nat)
    requires r > 0 && minted <= ShareOf(amount, lp, r)
    ensures r * (lp + minted) <= (r + amount) * lp
  {
    MulMono(minted, ShareOf(amount, lp, r), r);
    assert r * (lp + minted) == r * lp + minted * r;
    assert (r + amount) * lp == r * lp + amount * lp;
  }

  /** Paying out at most the proportional share dilutes nobody. */
  lemma {:induction false} BurnKeepsShare(r: nat, lp: nat, burned: nat)
    requires lp > 0 && burned <= lp
    ensures ShareOf(burned, r, lp) <= r
    ensures r * (lp - burned) <= (r - ShareOf(burned, r, lp)) * lp
  {
    var o := ShareOf(burned, r, lp);
    MulMono(burned, lp, r);
    assert lp * r == r * lp;
    MulCancel(o, r, lp);
    assert (r - o) * lp == r * lp - o * lp;
    assert r * (lp - burned) == r * lp - burned * r;
  }

  // ----- integer square root -----

  ghost predicate IsRoot(n: nat, r: nat) {
    r * r <= n < (r + 1) * (r + 1)
  }

  /** The product of two numbers is at most the square of half their sum. */
  lemma {:induction false} MeanSquare(a: nat, b: nat)
    ensures 4 * (a * b) <= (a + b) * (a + b)
  {
    assert (a + b) * (a + b) - 4 * (a * b) == (a - b) * (a - b);
    assert (a - b) * (a - b) >= 0;
  }

  /** One step of the iteration never falls below the root. */
  lemma {:induction false} HeronAbove(n: nat, x: nat, q: nat, y: nat)
    requires n < (q + 1) * x && x + q <= 2 * y + 1
    ensures n < (y + 1) * (y + 1)
  {
    MeanSquare(q + 1, x);
    MulMono2(q + 1 + x, 2 * y + 2, q + 1 + x, 2 * y + 2);
    assert (2 * y + 2) * (2 * y + 2) == 4 * ((y + 1) * (y + 1));
  }

  /** The iteration stops only at the root. */
  lemma {:induction false} HeronStops(n: nat, x: nat, q: nat)
    requires q * x <= n && (x + q) / 2 >= x
    ensures x * x <= n
  {
    MulMono(x, q, x);
  }

  /** The Babylonian method. */
  method Isqrt(n: nat) returns (r: nat)
    requires n < U128_MAX
    ensures IsRoot(n, r)
  {
    if n == 0 { return 0; }
    var x := n;
    var y := (x + 1) / 2;
    ghost var q: nat := 1;
    assert n < (n + 1) * (n + 1) by { assert (n + 1) * (n + 1) == n * n + 2 * n + 1; }
    while y < x
      invariant 0 < x <= n && q > 0 && q * x <= n < (q + 1) * x && y == (x + q) / 2
      invariant n < (x + 1) * (x + 1)
      decreases x
    {
      HeronAbove(n, x, q, y);
      x := y;
      q := Div(n, x);
      y := (x + Div(n, x)) / 2;
    }
    HeronStops(n, x, q);
    return x;
  }

  lemma {:induction false} RootUnique(n: nat, r: nat, s: nat)
    requires IsRoot(n, r) && IsRoot(n, s)
    ensures r == s
  {
    if r < s { MulMono2(r + 1, s, r + 1, s); }
    if s < r { MulMono2(s + 1, r, s + 1, r); }
  }
}
