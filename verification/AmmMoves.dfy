/** Who pays what to whom in a pool operation. */
module AmmMoves {
  import opened Basics
  import opened Arithmetic
  import opened AmmMath
  import opened Tokens
  import opened Amm
  import opened AmmRuns

  /** A successful swap takes exactly the input from the sender and pays exactly the output. */
  lemma {:induction false} SwapMoves(s: State, tokenIn: AccountId, tokenOut: AccountId, sender: AccountId, x: nat,
                                     minOut: nat)
    requires PoolInv(s) && sender != s.pool.id && Swap(s, tokenIn, tokenOut, sender, x, minOut).1.Ok?
    ensures var (t, r) := Swap(s, tokenIn, tokenOut, sender, x, minOut);
      && BalanceOf(t.ledger, tokenIn, sender) == BalanceOf(s.ledger, tokenIn, sender) - x
      && BalanceOf(t.ledger, tokenOut, sender) == BalanceOf(s.ledger, tokenOut, sender) + r.value
      && BalanceOf(t.ledger, tokenIn, s.pool.id) == BalanceOf(s.ledger, tokenIn, s.pool.id) + x
      && BalanceOf(t.ledger, tokenOut, s.pool.id) == BalanceOf(s.ledger, tokenOut, s.pool.id) - r.value
  {
    var (t, r) := Swap(s, tokenIn, tokenOut, sender, x, minOut);
    var id := s.pool.id;
    ExchangeIs(s, tokenIn, tokenOut, sender, x, minOut);
    var l1 := Transfer(s.ledger, tokenIn, sender, id, x).value;
    BothEnds(s.ledger, tokenIn, sender, id, x, l1, tokenOut);
    BothEnds(l1, tokenOut, id, sender, r.value, t.ledger, tokenIn);
  }

  lemma {:induction false} ExchangeIs(s: State, tokenIn: AccountId, tokenOut: AccountId, sender: AccountId, x: nat,
                                      minOut: nat)
    requires PoolInv(s) && sender != s.pool.id && Swap(s, tokenIn, tokenOut, sender, x, minOut).1.Ok?
    ensures tokenIn != tokenOut
    ensures var (t, r) := Swap(s, tokenIn, tokenOut, sender, x, minOut);
      Exchange(s.ledger, s.pool, sender, tokenIn, tokenOut, x, r.value) == Ok(t.ledger)
  {
  }

  /** What a transfer does to its two ends, and that another token is not touched. */
  lemma {:induction false} BothEnds(l: Ledger, m: AccountId, from: AccountId, to: AccountId, n: nat, k: Ledger,
                                    other: AccountId)
    requires Transfer(l, m, from, to, n) == Ok(k) && from != to && other != m
    ensures BalanceOf(k, m, from) == BalanceOf(l, m, from) - n && BalanceOf(k, m, to) == BalanceOf(l, m, to) + n
    ensures forall u :: BalanceOf(k, other, u) == BalanceOf(l, other, u)
  {
  }

  /** A successful addition takes exactly the named amounts of the named tokens and gives the minted shares. */
  lemma {:induction false} AddMoves(s: State, x: AccountId, y: AccountId, provider: AccountId, amountX: nat,
                                    amountY: nat)
    requires PoolInv(s) && provider != s.pool.id && AddLiquidity(s, x, y, provider, amountX, amountY).1.Ok?
    ensures var (t, r) := AddLiquidity(s, x, y, provider, amountX, amountY);
      && BalanceOf(t.ledger, x, provider) == BalanceOf(s.ledger, x, provider) - amountX
      && BalanceOf(t.ledger, y, provider) == BalanceOf(s.ledger, y, provider) - amountY
      && BalanceOf(t.ledger, s.pool.lpMint, provider) == BalanceOf(s.ledger, s.pool.lpMint, provider) + r.value
  {
    var a, b := if x <= y then amountX else amountY, if x <= y then amountY else amountX;
    var p := s.pool;
    var (t, r) := AddLiquidity(s, x, y, provider, amountX, amountY);
    AddInOrderIs(s, provider, a, b);
    var l1 := Transfer(s.ledger, p.tokenA, provider, p.id, a).value;
    var l2 := Transfer(l1, p.tokenB, provider, p.id, b).value;
    BothEnds(s.ledger, p.tokenA, provider, p.id, a, l1, p.tokenB);
    BothEnds(s.ledger, p.tokenA, provider, p.id, a, l1, p.lpMint);
    BothEnds(l1, p.tokenB, provider, p.id, b, l2, p.tokenA);
    BothEnds(l1, p.tokenB, provider, p.id, b, l2, p.lpMint);
    MintMoves(l2, p.lpMint, provider, r.value, t.ledger, p.tokenA);
    MintMoves(l2, p.lpMint, provider, r.value, t.ledger, p.tokenB);
  }

  lemma {:induction false} AddInOrderIs(s: State, provider: AccountId, a: nat, b: nat)
    requires AddInOrder(s, provider, a, b).1.Ok?
    ensures var (t, r) := AddInOrder(s, provider, a, b);
      && TransferPair(s.ledger, s.pool, provider, s.pool.id, a, b).Ok?
      && MintTo(TransferPair(s.ledger, s.pool, provider, s.pool.id, a, b).value, s.pool.lpMint, provider, r.value)
         == Ok(t.ledger)
  {
  }

  lemma {:induction false} MintMoves(l: Ledger, m: AccountId, owner: AccountId, n: nat, k: Ledger, other: AccountId)
    requires MintTo(l, m, owner, n) == Ok(k) && other != m
    ensures BalanceOf(k, m, owner) == BalanceOf(l, m, owner) + n
    ensures forall u :: BalanceOf(k, other, u) == BalanceOf(l, other, u)
  {
  }

  /** The shares minted into a pool that has some are the most that dilute nobody: one more
      would be more than its part of one of the two deposits. */
  lemma {:induction false} MintedIsGreatest(p: Pool, a: nat, b: nat, lp: nat)
    requires Shares(p) && p.lpSupply > 0
    ensures Minted(p, a, b).Ok?
    ensures lp <= Minted(p, a, b).value <==> lp * p.reserveA <= a * p.lpSupply && lp * p.reserveB <= b * p.lpSupply
  {
    var m := Minted(p, a, b).value;
    if lp <= m {
      MulMono(lp, ShareOf(a, p.lpSupply, p.reserveA), p.reserveA);
      MulMono(lp, ShareOf(b, p.lpSupply, p.reserveB), p.reserveB);
    }
    if lp * p.reserveA <= a * p.lpSupply && lp * p.reserveB <= b * p.lpSupply {
      DivGreatest(a * p.lpSupply, p.reserveA, lp);
      DivGreatest(b * p.lpSupply, p.reserveB, lp);
    }
  }

  /** A successful removal takes the shares and pays the exact rounded-down part of each reserve. */
  lemma {:induction false} RemoveMoves(s: State, x: AccountId, y: AccountId, provider: AccountId, lp: nat)
    requires PoolInv(s) && provider != s.pool.id && RemoveLiquidity(s, x, y, provider, lp).1.Ok?
    ensures var (t, r) := RemoveLiquidity(s, x, y, provider, lp);
      var p := s.pool;
      && r.value.0 > 0 && r.value.1 > 0
      && r.value.0 * p.lpSupply <= lp * p.reserveA < (r.value.0 + 1) * p.lpSupply
      && r.value.1 * p.lpSupply <= lp * p.reserveB < (r.value.1 + 1) * p.lpSupply
      && BalanceOf(t.ledger, p.lpMint, provider) == BalanceOf(s.ledger, p.lpMint, provider) - lp
      && BalanceOf(t.ledger, p.tokenA, provider) == BalanceOf(s.ledger, p.tokenA, provider) + r.value.0
      && BalanceOf(t.ledger, p.tokenB, provider) == BalanceOf(s.ledger, p.tokenB, provider) + r.value.1
  {
    var p := s.pool;
    var (t, r) := RemoveLiquidity(s, x, y, provider, lp);
    RemoveIs(s, x, y, provider, lp);
    PayOutMoves(s.ledger, p, provider, lp, r.value.0, r.value.1, t.ledger);
  }

  lemma {:induction false} RemoveIs(s: State, x: AccountId, y: AccountId, provider: AccountId, lp: nat)
    requires RemoveLiquidity(s, x, y, provider, lp).1.Ok?
    ensures var (t, r) := RemoveLiquidity(s, x, y, provider, lp);
      && s.pool.lpSupply > 0
      && r.value == (ShareOf(lp, s.pool.reserveA, s.pool.lpSupply), ShareOf(lp, s.pool.reserveB, s.pool.lpSupply))
      && PayOut(s.ledger, s.pool, provider, lp, r.value.0, r.value.1) == Ok(t.ledger)
  {
  }

  lemma {:induction false} PayOutMoves(l: Ledger, p: Pool, provider: AccountId, lp: nat, a: nat, b: nat, k: Ledger)
    requires Distinct(p) && provider != p.id && PayOut(l, p, provider, lp, a, b) == Ok(k)
    ensures BalanceOf(k, p.lpMint, provider) == BalanceOf(l, p.lpMint, provider) - lp
    ensures BalanceOf(k, p.tokenA, provider) == BalanceOf(l, p.tokenA, provider) + a
    ensures BalanceOf(k, p.tokenB, provider) == BalanceOf(l, p.tokenB, provider) + b
  {
    var l1 := Transfer(l, p.lpMint, provider, p.id, lp).value;
    var l2 := Transfer(l1, p.tokenA, p.id, provider, a).value;
    BothEnds(l, p.lpMint, provider, p.id, lp, l1, p.tokenA);
    BothEnds(l, p.lpMint, provider, p.id, lp, l1, p.tokenB);
    BothEnds(l1, p.tokenA, p.id, provider, a, l2, p.lpMint);
    BothEnds(l1, p.tokenA, p.id, provider, a, l2, p.tokenB);
    BothEnds(l2, p.tokenB, p.id, provider, b, k, p.lpMint);
    BothEnds(l2, p.tokenB, p.id, provider, b, k, p.tokenA);
  }
}
