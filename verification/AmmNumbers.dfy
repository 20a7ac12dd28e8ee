/** What quotes, swaps and first deposits come to, in plain numbers. */
module AmmNumbers {
  import opened Basics
  import opened Arithmetic
  import opened AmmMath
  import opened Tokens
  import opened Amm
  import opened AmmRuns

  /** `o` is what `x` buys at reserves `ri` and `ro` after a fee of three thousandths, rounded down. */
  predicate Buys(ri: nat, ro: nat, x: nat, o: nat) {
    o * (1000 * ri + 997 * x) <= 997 * x * ro < (o + 1) * (1000 * ri + 997 * x)
  }

  lemma {:induction false} PayoutBuys(ri: nat, ro: nat, x: nat, o: nat)
    requires 0 < ri && 997 * x * ro <= U128_MAX
    ensures Payout(ri, ro, x) == o <==> Buys(ri, ro, x, o)
  {
    assert Denominator(ri, x) == 1000 * ri + 997 * x && AfterFee(x) * ro == 997 * x * ro;
    var d, n, q := 1000 * ri + 997 * x, 997 * x * ro, Payout(ri, ro, x);
    assert q * d <= n < (q + 1) * d;
    if Buys(ri, ro, x, o) {
      DivGreatest(n, d, o);
      DivBelow(n, d, o + 1);
    }
  }

  /** What the quote of a pool says, and only that. */
  lemma {:induction false} QuoteInNumbers(p: Pool, tokenIn: AccountId, tokenOut: AccountId, x: nat, o: nat)
    requires p.tokenA != p.tokenB && p.reserveA <= U64_MAX && p.reserveB <= U64_MAX
    requires 997 * x * (if tokenIn == p.tokenA then p.reserveB else p.reserveA) <= U128_MAX
    ensures QuoteSwap(p, tokenIn, tokenOut, x) == Ok(o) <==>
      && ((tokenIn == p.tokenA && tokenOut == p.tokenB) || (tokenIn == p.tokenB && tokenOut == p.tokenA))
      && p.reserveA > 0 && p.reserveB > 0
      && if tokenIn == p.tokenA then Buys(p.reserveA, p.reserveB, x, o) else Buys(p.reserveB, p.reserveA, x, o)
  {
    var (ri, ro) := Reserves(p, tokenIn == p.tokenA);
    if ri > 0 && ro > 0 {
      PayoutBuys(ri, ro, x, o);
      LeftOver(ri, ro, x);
      assert Payout(ri, ro, x) % (U64_MAX + 1) == Payout(ri, ro, x);
    }
  }

  /** A swap of a covered pool succeeds, and pays `o`, exactly when `o` is that amount, not nothing
      and not below the limit, and the tokens are there and fit. */
  lemma {:induction false} SwapExactly(s: State, tokenIn: AccountId, tokenOut: AccountId, sender: AccountId, x: nat,
                                       minOut: nat, o: nat)
    requires PoolInv(s) && sender != s.pool.id
    requires 997 * x * (if tokenIn == s.pool.tokenA then s.pool.reserveB else s.pool.reserveA) <= U128_MAX
    ensures Swap(s, tokenIn, tokenOut, sender, x, minOut).1 == Ok(o) <==>
      && QuoteSwap(s.pool, tokenIn, tokenOut, x) == Ok(o) && 0 < x && 0 < o && minOut <= o
      && x <= BalanceOf(s.ledger, tokenIn, sender) && BalanceOf(s.ledger, tokenIn, s.pool.id) + x <= U64_MAX
      && BalanceOf(s.ledger, tokenOut, sender) + o <= U64_MAX
      && tokenIn in s.ledger.supply && tokenOut in s.ledger.supply
  {
    var p := s.pool;
    if x > 0 && SamePair(p, tokenIn, tokenOut) && p.reserveA > 0 {
      var (ri, ro) := Reserves(p, tokenIn == p.tokenA);
      LeftOver(ri, ro, x);
      var out := Payout(ri, ro, x);
      assert out % (U64_MAX + 1) == out;
      SwapPays(s, tokenIn, tokenOut, sender, x, minOut, out);
    }
  }

  lemma {:induction false} SwapPays(s: State, tokenIn: AccountId, tokenOut: AccountId, sender: AccountId, x: nat,
                                    minOut: nat, o: nat)
    requires PoolInv(s) && sender != s.pool.id && x > 0 && SamePair(s.pool, tokenIn, tokenOut)
    requires QuoteSwap(s.pool, tokenIn, tokenOut, x) == Ok(o) && o < Reserves(s.pool, tokenIn == s.pool.tokenA).1
    ensures var r := Swap(s, tokenIn, tokenOut, sender, x, minOut).1;
      && (r.Ok? ==> r.value == o)
      && (r.Ok? <==>
            && 0 < o && minOut <= o && x <= BalanceOf(s.ledger, tokenIn, sender)
            && BalanceOf(s.ledger, tokenIn, s.pool.id) + x <= U64_MAX
            && BalanceOf(s.ledger, tokenOut, sender) + o <= U64_MAX
            && tokenIn in s.ledger.supply && tokenOut in s.ledger.supply)
  {
    ExchangeExactly(s.ledger, s.pool, sender, tokenIn, tokenOut, x, o);
  }

  lemma {:induction false} ExchangeExactly(l: Ledger, p: Pool, sender: AccountId, tokenIn: AccountId,
                                           tokenOut: AccountId, x: nat, o: nat)
    requires sender != p.id && tokenIn != tokenOut && x > 0 && o <= BalanceOf(l, tokenOut, p.id)
    ensures Exchange(l, p, sender, tokenIn, tokenOut, x, o).Ok? <==>
      && tokenIn in l.supply && x <= BalanceOf(l, tokenIn, sender) && BalanceOf(l, tokenIn, p.id) + x <= U64_MAX
      && (o > 0 ==> tokenOut in l.supply && BalanceOf(l, tokenOut, sender) + o <= U64_MAX)
  {
    if Transfer(l, tokenIn, sender, p.id, x).Ok? {
      TransferEffect(l, tokenIn, sender, p.id, x, tokenOut, p.id);
      TransferEffect(l, tokenIn, sender, p.id, x, tokenOut, sender);
    }
  }

  /** The first deposit gets the integer square root of the product of its amounts. */
  lemma {:induction false} FirstShares(s: State, x: AccountId, y: AccountId, provider: AccountId, amountX: nat,
                                       amountY: nat)
    requires PoolInv(s) && provider != s.pool.id && s.pool.lpSupply == 0
    requires AddLiquidity(s, x, y, provider, amountX, amountY).1.Ok?
    ensures var r := AddLiquidity(s, x, y, provider, amountX, amountY).1.value;
      r * r <= amountX * amountY < (r + 1) * (r + 1)
  {
    var a, b := if x <= y then amountX else amountY, if x <= y then amountY else amountX;
    AddInOrderOutcome(s, provider, a, b);
    assert a * b == amountX * amountY;
  }

  // ----- adding and removing -----

  /** `n` of a token can go from one account to another. */
  predicate CanSend(l: Ledger, mint: AccountId, from: AccountId, to: AccountId, n: nat) {
    mint in l.supply && n <= BalanceOf(l, mint, from) && BalanceOf(l, mint, to) + n <= U64_MAX
  }

  lemma {:induction false} PairExactly(l: Ledger, p: Pool, from: AccountId, to: AccountId, a: nat, b: nat)
    requires from != to && p.tokenA != p.tokenB && a > 0 && b > 0
    ensures TransferPair(l, p, from, to, a, b).Ok? <==>
      CanSend(l, p.tokenA, from, to, a) && CanSend(l, p.tokenB, from, to, b)
  {
    if Transfer(l, p.tokenA, from, to, a).Ok? {
      TransferEffect(l, p.tokenA, from, to, a, p.tokenB, from);
      TransferEffect(l, p.tokenA, from, to, a, p.tokenB, to);
    }
  }

  lemma {:induction false} PayOutExactly(l: Ledger, p: Pool, provider: AccountId, lp: nat, a: nat, b: nat)
    requires Distinct(p) && provider != p.id && lp > 0 && a > 0 && b > 0
    ensures PayOut(l, p, provider, lp, a, b).Ok? <==>
      && CanSend(l, p.lpMint, provider, p.id, lp)
      && CanSend(l, p.tokenA, p.id, provider, a) && CanSend(l, p.tokenB, p.id, provider, b)
  {
    var r := Transfer(l, p.lpMint, provider, p.id, lp);
    if r.Ok? {
      PairExactly(r.value, p, p.id, provider, a, b);
      BothEndsKept(l, p.lpMint, provider, p.id, lp, r.value, p.tokenA);
      BothEndsKept(l, p.lpMint, provider, p.id, lp, r.value, p.tokenB);
    }
  }

  lemma {:induction false} BothEndsKept(l: Ledger, m: AccountId, from: AccountId, to: AccountId, n: nat, k: Ledger,
                                        other: AccountId)
    requires Transfer(l, m, from, to, n) == Ok(k) && other != m
    ensures k.supply == l.supply && forall u :: BalanceOf(k, other, u) == BalanceOf(l, other, u)
  {
  }

  /** Shares can be taken out exactly when they are there, their part of both reserves is not
      nothing, and the tokens fit; `a` and `b` are those parts, rounded down. */
  lemma {:induction false} RemoveExactly(s: State, x: AccountId, y: AccountId, provider: AccountId, lp: nat, a: nat,
                                         b: nat)
    requires PoolInv(s) && provider != s.pool.id
    ensures var p, l := s.pool, s.ledger;
      RemoveLiquidity(s, x, y, provider, lp).1 == Ok((a, b)) <==>
        && ((x == p.tokenA && y == p.tokenB) || (x == p.tokenB && y == p.tokenA))
        && 0 < lp <= p.lpSupply && a > 0 && b > 0
        && a * p.lpSupply <= lp * p.reserveA < (a + 1) * p.lpSupply
        && b * p.lpSupply <= lp * p.reserveB < (b + 1) * p.lpSupply
        && CanSend(l, p.lpMint, provider, p.id, lp)
        && CanSend(l, p.tokenA, p.id, provider, a) && CanSend(l, p.tokenB, p.id, provider, b)
  {
    var p := s.pool;
    if 0 < lp <= p.lpSupply {
      PartIs(lp, p.reserveA, p.lpSupply, a);
      PartIs(lp, p.reserveB, p.lpSupply, b);
      BurnKeepsShare(p.reserveA, p.lpSupply, lp);
      BurnKeepsShare(p.reserveB, p.lpSupply, lp);
      if a > 0 && b > 0 { PayOutExactly(s.ledger, p, provider, lp, a, b); }
    }
  }

  /** The rounded-down part is the only number between those bounds. */
  lemma {:induction false} PartIs(n: nat, reserve: nat, supply: nat, o: nat)
    requires supply > 0
    ensures ShareOf(n, reserve, supply) == o <==> o * supply <= n * reserve < (o + 1) * supply
  {
    if o * supply <= n * reserve < (o + 1) * supply {
      DivGreatest(n * reserve, supply, o);
      DivBelow(n * reserve, supply, o + 1);
    }
  }

  /** Liquidity is added, for `n` shares, exactly when the named tokens are there and fit, `n` is the
      number due and not nothing, and the shares fit. */
  lemma {:induction false} AddExactly(s: State, x: AccountId, y: AccountId, provider: AccountId, amountX: nat,
                                      amountY: nat, n: nat)
    requires PoolInv(s) && provider != s.pool.id
    ensures var p, l := s.pool, s.ledger;
      AddLiquidity(s, x, y, provider, amountX, amountY).1 == Ok(n) <==>
        && ((x == p.tokenA && y == p.tokenB) || (x == p.tokenB && y == p.tokenA)) && 0 < amountX && 0 < amountY
        && CanSend(l, x, provider, p.id, amountX) && CanSend(l, y, provider, p.id, amountY)
        && Minted(p, if x <= y then amountX else amountY, if x <= y then amountY else amountX) == Ok(n)
        && CanMint(l, p.lpMint, provider, n)
  {
    var a, b := if x <= y then amountX else amountY, if x <= y then amountY else amountX;
    if a > 0 && b > 0 { AddInOrderExactly(s, provider, a, b, n); }
  }

  predicate CanMint(l: Ledger, mint: AccountId, owner: AccountId, n: nat) {
    && 0 < n && mint in l.supply && l.supply[mint] + n <= U64_MAX && BalanceOf(l, mint, owner) + n <= U64_MAX
  }

  lemma {:induction false} AddInOrderExactly(s: State, provider: AccountId, a: nat, b: nat, n: nat)
    requires PoolInv(s) && provider != s.pool.id && a > 0 && b > 0
    ensures var p, l := s.pool, s.ledger;
      AddInOrder(s, provider, a, b).1 == Ok(n) <==>
        && CanSend(l, p.tokenA, provider, p.id, a) && CanSend(l, p.tokenB, provider, p.id, b)
        && Minted(p, a, b) == Ok(n) && CanMint(l, p.lpMint, provider, n)
  {
    var p, l := s.pool, s.ledger;
    PairExactly(l, p, provider, p.id, a, b);
    var moved := TransferPair(l, p, provider, p.id, a, b);
    if moved.Ok? {
      PairKeeps(l, p, provider, p.id, a, b, moved.value);
      var lp := Minted(p, a, b);
      if lp.Ok? && 0 < lp.value <= U64_MAX {
        var minted := MintTo(moved.value, p.lpMint, provider, lp.value);
        if minted.Ok? { GrownBacking(l, p, provider, a, b, lp.value, moved.value, minted.value); }
      }
    }
  }

  lemma {:induction false} PairKeeps(l: Ledger, p: Pool, from: AccountId, to: AccountId, a: nat, b: nat, k: Ledger)
    requires Distinct(p) && TransferPair(l, p, from, to, a, b) == Ok(k)
    ensures k.supply == l.supply && forall u :: BalanceOf(k, p.lpMint, u) == BalanceOf(l, p.lpMint, u)
  {
    var l1 := Transfer(l, p.tokenA, from, to, a).value;
    BothEndsKept(l, p.tokenA, from, to, a, l1, p.lpMint);
    BothEndsKept(l1, p.tokenB, from, to, b, k, p.lpMint);
  }
}
