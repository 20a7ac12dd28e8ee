/** What every pool operation keeps, over whole runs. */
module AmmRuns {
  import opened Basics
  import opened Arithmetic
  import opened AmmMath
  import opened Tokens
  import opened Amm

  predicate Distinct(p: Pool) {
    p.tokenA < p.tokenB && p.lpMint != p.tokenA && p.lpMint != p.tokenB
  }

  /** The pool's account holds what the pool records. */
  predicate Backing(l: Ledger, p: Pool) {
    && p.reserveA <= BalanceOf(l, p.tokenA, p.id) <= U64_MAX
    && p.reserveB <= BalanceOf(l, p.tokenB, p.id) <= U64_MAX
    && p.lpMint in l.supply && p.lpSupply <= l.supply[p.lpMint] <= U64_MAX
  }

  /** Shares exist exactly while both reserves are positive. */
  predicate Shares(p: Pool) {
    (p.lpSupply > 0 <==> p.reserveA > 0) && (p.lpSupply > 0 <==> p.reserveB > 0)
  }

  predicate PoolInv(s: State) {
    Distinct(s.pool) && Backing(s.ledger, s.pool) && Shares(s.pool)
  }

  /** Value per share did not fall. */
  predicate Undiluted(p: Pool, q: Pool) {
    NoDilution(p.reserveA, p.reserveB, p.lpSupply, q.reserveA, q.reserveB, q.lpSupply)
  }

  // ----- transfers -----

  lemma {:induction false} PairEffect(l: Ledger, p: Pool, from: AccountId, to: AccountId, a: nat, b: nat)
    requires p.tokenA != p.tokenB && from != to && TransferPair(l, p, from, to, a, b).Ok?
    requires BalanceOf(l, p.tokenA, p.id) <= U64_MAX && BalanceOf(l, p.tokenB, p.id) <= U64_MAX
    ensures var k := TransferPair(l, p, from, to, a, b).value;
      && k.supply == l.supply
      && BalanceOf(k, p.tokenA, p.id) == BalanceOf(l, p.tokenA, p.id) + (if to == p.id then a else 0)
         - (if from == p.id then a else 0)
      && BalanceOf(k, p.tokenB, p.id) == BalanceOf(l, p.tokenB, p.id) + (if to == p.id then b else 0)
         - (if from == p.id then b else 0)
      && BalanceOf(k, p.tokenA, p.id) <= U64_MAX && BalanceOf(k, p.tokenB, p.id) <= U64_MAX
      && BalanceOf(k, p.tokenA, from) == BalanceOf(l, p.tokenA, from) - a
  {
    var l1 := Transfer(l, p.tokenA, from, to, a).value;
    TransferEffect(l, p.tokenA, from, to, a, p.tokenA, p.id);
    TransferEffect(l, p.tokenA, from, to, a, p.tokenB, p.id);
    TransferEffect(l1, p.tokenB, from, to, b, p.tokenA, p.id);
    TransferEffect(l1, p.tokenB, from, to, b, p.tokenB, p.id);
    TransferEffect(l, p.tokenA, from, to, a, p.tokenA, from);
    TransferEffect(l1, p.tokenB, from, to, b, p.tokenA, from);
  }

  // ----- adding -----

  function Grown(p: Pool, a: nat, b: nat, lp: nat): Pool {
    p.(reserveA := p.reserveA + a, reserveB := p.reserveB + b, lpSupply := p.lpSupply + lp)
  }

  lemma {:induction false} MintedShares(p: Pool, a: nat, b: nat)
    requires a > 0 && b > 0 && Shares(p)
    ensures Minted(p, a, b).Ok?
    ensures Undiluted(p, Grown(p, a, b, Minted(p, a, b).value))
  {
    var lp := Minted(p, a, b).value;
    if p.lpSupply > 0 {
      MintKeepsShare(p.reserveA, p.lpSupply, a, lp);
      MintKeepsShare(p.reserveB, p.lpSupply, b, lp);
    }
    SideBySide(p.reserveA, p.reserveB, p.lpSupply, p.reserveA + a, p.reserveB + b, p.lpSupply + lp);
  }

  /** Tokens moved and shares minted are room enough in the pool's own counters. */
  lemma {:induction false} GrownBacking(l: Ledger, p: Pool, provider: AccountId, a: nat, b: nat, lp: nat, l1: Ledger,
                                        l2: Ledger)
    requires Distinct(p) && Backing(l, p) && provider != p.id
    requires TransferPair(l, p, provider, p.id, a, b) == Ok(l1) && MintTo(l1, p.lpMint, provider, lp) == Ok(l2)
    ensures Backing(l1, p) && Backing(l2, Grown(p, a, b, lp)) && Record(p, a, b, lp) == (Grown(p, a, b, lp), None)
  {
    PairEffect(l, p, provider, p.id, a, b);
  }

  lemma {:induction false} MovedBacking(l: Ledger, p: Pool, provider: AccountId, a: nat, b: nat, l1: Ledger)
    requires Distinct(p) && Backing(l, p) && provider != p.id && TransferPair(l, p, provider, p.id, a, b) == Ok(l1)
    ensures Backing(l1, p) && BalanceOf(l1, p.tokenA, provider) == BalanceOf(l, p.tokenA, provider) - a
  {
    PairEffect(l, p, provider, p.id, a, b);
  }

  /** Adding either grows the pool by what it took and minted, or leaves the pool alone. */
  lemma {:induction false} AddInOrderOutcome(s: State, provider: AccountId, a: nat, b: nat)
    requires PoolInv(s) && provider != s.pool.id && a > 0 && b > 0
    ensures var (t, r) := AddInOrder(s, provider, a, b);
      && Backing(t.ledger, t.pool) && Minted(s.pool, a, b).Ok?
      && t.pool == (if r.Ok? then Grown(s.pool, a, b, r.value) else s.pool)
      && (r.Ok? ==> 0 < r.value == Minted(s.pool, a, b).value)
      && (r.Err? ==> (t.ledger != s.ledger <==>
            TransferPair(s.ledger, s.pool, provider, s.pool.id, a, b).Ok?
            && !(0 < Minted(s.pool, a, b).value <= U64_MAX)))
  {
    var p := s.pool;
    MintedShares(p, a, b);
    var lp := Minted(p, a, b).value;
    var moved := TransferPair(s.ledger, p, provider, p.id, a, b);
    if moved.Ok? {
      MovedBacking(s.ledger, p, provider, a, b, moved.value);
      if 0 < lp <= U64_MAX {
        var minted := MintTo(moved.value, p.lpMint, provider, lp);
        if minted.Ok? { GrownBacking(s.ledger, p, provider, a, b, lp, moved.value, minted.value); }
      }
    }
  }

  predicate SamePool(p: Pool, q: Pool) {
    q.id == p.id && q.tokenA == p.tokenA && q.tokenB == p.tokenB && q.lpMint == p.lpMint
  }

  lemma {:induction false} AddKeeps(s: State, x: AccountId, y: AccountId, provider: AccountId, amountX: nat,
                                    amountY: nat)
    requires PoolInv(s) && provider != s.pool.id
    ensures var t := AddLiquidity(s, x, y, provider, amountX, amountY).0;
      PoolInv(t) && SamePool(s.pool, t.pool) && Undiluted(s.pool, t.pool)
  {
    var a, b := if x <= y then amountX else amountY, if x <= y then amountY else amountX;
    if a > 0 && b > 0 {
      AddInOrderOutcome(s, provider, a, b);
      MintedShares(s.pool, a, b);
    }
  }

  /** A failed addition leaves everything as it was exactly when it failed before the tokens
      moved, or because the transfers or the mint failed: not when the shares came to nothing
      or did not fit, for then the tokens stay in the pool. */
  lemma {:induction false} FailedAddIsClean(s: State, provider: AccountId, a: nat, b: nat)
    requires PoolInv(s) && provider != s.pool.id && a > 0 && b > 0
    requires BalanceOf(s.ledger, s.pool.tokenA, provider) >= a && BalanceOf(s.ledger, s.pool.tokenB, provider) >= b
    requires AddLiquidity(s, s.pool.tokenA, s.pool.tokenB, provider, a, b).1.Err?
    ensures Minted(s.pool, a, b).Ok?
    ensures AddLiquidity(s, s.pool.tokenA, s.pool.tokenB, provider, a, b).0 == s <==>
      TransferPair(s.ledger, s.pool, provider, s.pool.id, a, b).Err? || 0 < Minted(s.pool, a, b).value <= U64_MAX
  {
    AddInOrderOutcome(s, provider, a, b);
  }

  /** A deposit too small for one share is kept without any. */
  lemma {:induction false} FailedAddKeepsTokens()
    ensures exists s: State, provider: AccountId ::
      && PoolInv(s) && provider != s.pool.id
      && AddLiquidity(s, s.pool.tokenA, s.pool.tokenB, provider, 1, 1).1 == Err(ZeroAmount)
      && AddLiquidity(s, s.pool.tokenA, s.pool.tokenB, provider, 1, 1).0 != s
  {
    var pool := Pool(9, 1, 2, 3, 4, 4, 2);
    var s := State(Ledger(map[1 := 10, 2 := 10, 3 := 2],
                          map[(1, 9) := 4, (2, 9) := 4, (1, 7) := 1, (2, 7) := 1]), pool);
    assert ShareOf(1, 2, 4) == 0 by { DivBelow(2, 4, 1); }
    assert Minted(pool, 1, 1) == Ok(0);
    AddInOrderOutcome(s, 7, 1, 1);
    assert TransferPair(s.ledger, pool, 7, 9, 1, 1).Ok?;
    assert AddLiquidity(s, 1, 2, 7, 1, 1).1 == Err(ZeroAmount);
  }

  // ----- removing -----

  function Shrunk(p: Pool, a: nat, b: nat, lp: nat): Pool
    requires a <= p.reserveA && b <= p.reserveB && lp <= p.lpSupply
  {
    p.(reserveA := p.reserveA - a, reserveB := p.reserveB - b, lpSupply := p.lpSupply - lp)
  }

  lemma {:induction false} BurnShares(p: Pool, lp: nat)
    requires Shares(p) && 0 < lp <= p.lpSupply
    ensures ShareOf(lp, p.reserveA, p.lpSupply) <= p.reserveA && ShareOf(lp, p.reserveB, p.lpSupply) <= p.reserveB
    ensures var q := Shrunk(p, ShareOf(lp, p.reserveA, p.lpSupply), ShareOf(lp, p.reserveB, p.lpSupply), lp);
      Shares(q) && Undiluted(p, q)
  {
    var L := p.lpSupply;
    BurnKeepsShare(p.reserveA, L, lp);
    BurnKeepsShare(p.reserveB, L, lp);
    var a, b := ShareOf(lp, p.reserveA, L), ShareOf(lp, p.reserveB, L);
    SideBySide(p.reserveA, p.reserveB, L, p.reserveA - a, p.reserveB - b, L - lp);
    LastShare(p.reserveA, L, lp);
    LastShare(p.reserveB, L, lp);
  }

  /** Something stays exactly while some share stays. */
  lemma {:induction false} LastShare(r: nat, lp: nat, burned: nat)
    requires r > 0 && 0 < burned <= lp
    ensures ShareOf(burned, r, lp) <= r
    ensures r - ShareOf(burned, r, lp) > 0 <==> burned < lp
  {
    BurnKeepsShare(r, lp, burned);
    if burned == lp {
      assert lp * r == r * lp;
      DivGreatest(burned * r, lp, r);
    } else {
      MulMono(1, lp - burned, r);
      assert r * (lp - burned) == (lp - burned) * r;
    }
  }

  lemma {:induction false} ShrunkBacking(l: Ledger, p: Pool, provider: AccountId, lp: nat, a: nat, b: nat, l1: Ledger)
    requires Distinct(p) && Backing(l, p) && provider != p.id && a <= p.reserveA && b <= p.reserveB && lp <= p.lpSupply
    requires PayOut(l, p, provider, lp, a, b) == Ok(l1)
    ensures Backing(l1, Shrunk(p, a, b, lp))
  {
    var l0 := Transfer(l, p.lpMint, provider, p.id, lp).value;
    TransferEffect(l, p.lpMint, provider, p.id, lp, p.tokenA, p.id);
    TransferEffect(l, p.lpMint, provider, p.id, lp, p.tokenB, p.id);
    PairEffect(l0, p, p.id, provider, a, b);
  }

  /** Removing pays the proportional share of both reserves, or changes nothing. */
  lemma {:induction false} RemoveKeeps(s: State, x: AccountId, y: AccountId, provider: AccountId, lp: nat)
    requires PoolInv(s) && provider != s.pool.id
    ensures var (t, r) := RemoveLiquidity(s, x, y, provider, lp);
      && PoolInv(t) && SamePool(s.pool, t.pool) && Undiluted(s.pool, t.pool)
      && (r.Err? ==> t == s)
      && (r.Ok? ==> 0 < lp <= s.pool.lpSupply && r.value.0 * s.pool.lpSupply <= lp * s.pool.reserveA
                    && r.value.1 * s.pool.lpSupply <= lp * s.pool.reserveB)
  {
    var p := s.pool;
    if 0 < lp <= p.lpSupply {
      BurnShares(p, lp);
      var a, b := ShareOf(lp, p.reserveA, p.lpSupply), ShareOf(lp, p.reserveB, p.lpSupply);
      var paid := PayOut(s.ledger, p, provider, lp, a, b);
      if paid.Ok? { ShrunkBacking(s.ledger, p, provider, lp, a, b, paid.value); }
    }
  }

  // ----- swapping -----

  lemma {:induction false} ExchangeBacking(l: Ledger, p: Pool, inIsA: bool, sender: AccountId, x: nat, o: nat,
                                           l1: Ledger)
    requires Distinct(p) && Backing(l, p) && sender != p.id && o <= Reserves(p, inIsA).1
    requires Exchange(l, p, sender, if inIsA then p.tokenA else p.tokenB, if inIsA then p.tokenB else p.tokenA,
                      x, o) == Ok(l1)
    ensures Reserves(p, inIsA).0 + x <= U64_MAX
    ensures Backing(l1, SetReserves(p, inIsA, Reserves(p, inIsA).0 + x, Reserves(p, inIsA).1 - o))
  {
    var tin, tout := if inIsA then p.tokenA else p.tokenB, if inIsA then p.tokenB else p.tokenA;
    var l0 := Transfer(l, tin, sender, p.id, x).value;
    TransferEffect(l, tin, sender, p.id, x, tin, p.id);
    TransferEffect(l, tin, sender, p.id, x, tout, p.id);
    TransferEffect(l0, tout, p.id, sender, o, tin, p.id);
    TransferEffect(l0, tout, p.id, sender, o, tout, p.id);
  }

  lemma {:induction false} SwappedShares(p: Pool, inIsA: bool, x: nat)
    requires Shares(p) && p.reserveA > 0 && x > 0
    ensures var (ri, ro) := Reserves(p, inIsA);
      && Payout(ri, ro, x) < ro
      && var q := SetReserves(p, inIsA, ri + x, ro - Payout(ri, ro, x));
        Shares(q) && Undiluted(p, q) && q.reserveA * q.reserveB >= p.reserveA * p.reserveB
  {
    var (ri, ro) := Reserves(p, inIsA);
    SwapKeepsProduct(ri, ro, x);
    MulMono(ri * ro, (ri + x) * (ro - Payout(ri, ro, x)), p.lpSupply * p.lpSupply);
  }

  lemma {:induction false} SwapOutcome(s: State, tokenIn: AccountId, tokenOut: AccountId, sender: AccountId, x: nat,
                                       minOut: nat)
    requires PoolInv(s) && sender != s.pool.id
    ensures var (t, r) := Swap(s, tokenIn, tokenOut, sender, x, minOut);
      && (r.Err? ==> t == s)
      && (r.Ok? ==>
            && x > 0 && SamePair(s.pool, tokenIn, tokenOut) && s.pool.reserveA > 0 && s.pool.reserveB > 0
            && var (ri, ro) := Reserves(s.pool, tokenIn == s.pool.tokenA);
              && 0 < r.value == Payout(ri, ro, x) < ro && minOut <= r.value
              && t.pool == SetReserves(s.pool, tokenIn == s.pool.tokenA, ri + x, ro - r.value)
              && Backing(t.ledger, t.pool))
  {
    var p := s.pool;
    if x > 0 && SamePair(p, tokenIn, tokenOut) && p.reserveA > 0 {
      var inIsA := tokenIn == p.tokenA;
      var (ri, ro) := Reserves(p, inIsA);
      SwapKeepsProduct(ri, ro, x);
      var o := Payout(ri, ro, x);
      assert o % (U64_MAX + 1) == o;
      var moved := Exchange(s.ledger, p, sender, tokenIn, tokenOut, x, o);
      if moved.Ok? { ExchangeBacking(s.ledger, p, inIsA, sender, x, o, moved.value); }
    }
  }

  /** A swap that fails changes nothing; one that succeeds leaves the product of the reserves no smaller. */
  lemma {:induction false} SwapKeeps(s: State, tokenIn: AccountId, tokenOut: AccountId, sender: AccountId, x: nat,
                                     minOut: nat)
    requires PoolInv(s) && sender != s.pool.id
    ensures var (t, r) := Swap(s, tokenIn, tokenOut, sender, x, minOut);
      && PoolInv(t) && SamePool(s.pool, t.pool) && Undiluted(s.pool, t.pool) && t.pool.lpSupply == s.pool.lpSupply
      && t.pool.reserveA * t.pool.reserveB >= s.pool.reserveA * s.pool.reserveB
      && (r.Err? ==> t == s)
  {
    SwapOutcome(s, tokenIn, tokenOut, sender, x, minOut);
    var (t, r) := Swap(s, tokenIn, tokenOut, sender, x, minOut);
    if r.Ok? { SwappedShares(s.pool, tokenIn == s.pool.tokenA, x); }
  }

  /** A successful swap pays exactly what was quoted, and less than the whole reserve. */
  lemma {:induction false} SwapPaysQuote(s: State, tokenIn: AccountId, tokenOut: AccountId, sender: AccountId, x: nat,
                                         minOut: nat)
    requires PoolInv(s) && sender != s.pool.id && Swap(s, tokenIn, tokenOut, sender, x, minOut).1.Ok?
    ensures Swap(s, tokenIn, tokenOut, sender, x, minOut).1 == QuoteSwap(s.pool, tokenIn, tokenOut, x)
    ensures 0 < Swap(s, tokenIn, tokenOut, sender, x, minOut).1.value < Reserves(s.pool, tokenIn == s.pool.tokenA).1
  {
    SwapOutcome(s, tokenIn, tokenOut, sender, x, minOut);
    var (ri, ro) := Reserves(s.pool, tokenIn == s.pool.tokenA);
    assert Payout(ri, ro, x) % (U64_MAX + 1) == Payout(ri, ro, x);
  }

  // ----- runs -----

  /** `Outside` is a token transfer that does not go through the pool. */
  datatype Op =
    | AddOp(x: AccountId, y: AccountId, user: AccountId, amountX: nat, amountY: nat)
    | RemoveOp(x: AccountId, y: AccountId, user: AccountId, lp: nat)
    | SwapOp(x: AccountId, y: AccountId, user: AccountId, amount: nat, minOut: nat)
    | Outside(mint: AccountId, user: AccountId, to: AccountId, amount: nat)

  ghost function Apply(s: State, op: Op): State {
    match op
    case AddOp(x, y, u, a, b) => AddLiquidity(s, x, y, u, a, b).0
    case RemoveOp(x, y, u, lp) => RemoveLiquidity(s, x, y, u, lp).0
    case SwapOp(x, y, u, n, m) => Swap(s, x, y, u, n, m).0
    case Outside(m, u, v, n) => (match Transfer(s.ledger, m, u, v, n) case Ok(l) => s.(ledger := l) case Err(_) => s)
  }

  ghost function Run(s: State, ops: seq<Op>): State
    decreases |ops|
  {
    if ops == [] then s else Run(Apply(s, ops[0]), ops[1..])
  }

  /** Nobody acts as the pool's own account. */
  predicate ByUsers(id: AccountId, ops: seq<Op>) {
    forall i :: 0 <= i < |ops| ==> ops[i].user != id
  }

  lemma {:induction false} ApplyKeeps(s: State, op: Op)
    requires PoolInv(s) && op.user != s.pool.id
    ensures PoolInv(Apply(s, op)) && SamePool(s.pool, Apply(s, op).pool) && Undiluted(s.pool, Apply(s, op).pool)
  {
    match op
    case AddOp(x, y, u, a, b) => AddKeeps(s, x, y, u, a, b);
    case RemoveOp(x, y, u, lp) => RemoveKeeps(s, x, y, u, lp);
    case SwapOp(x, y, u, n, m) => SwapKeeps(s, x, y, u, n, m);
    case Outside(m, u, v, n) =>
      if Transfer(s.ledger, m, u, v, n).Ok? {
        TransferEffect(s.ledger, m, u, v, n, s.pool.tokenA, s.pool.id);
        TransferEffect(s.ledger, m, u, v, n, s.pool.tokenB, s.pool.id);
      }
  }

  /** The pool's account always covers the reserves, and shares exist exactly while both
      reserves are positive: the guard against empty reserves in adding never fires. */
  lemma {:induction false} RunKeeps(s: State, ops: seq<Op>)
    requires PoolInv(s) && ByUsers(s.pool.id, ops)
    ensures PoolInv(Run(s, ops)) && SamePool(s.pool, Run(s, ops).pool)
    decreases |ops|
  {
    if ops != [] {
      ApplyKeeps(s, ops[0]);
      RunKeeps(Apply(s, ops[0]), ops[1..]);
    }
  }

  /** Some share is left after every step of the run. */
  ghost predicate NeverEmptied(s: State, ops: seq<Op>)
    decreases |ops|
  {
    s.pool.lpSupply > 0 && (ops != [] ==> NeverEmptied(Apply(s, ops[0]), ops[1..]))
  }

  // ----- share value -----

  /** Shares and reserves go together and fit their 64-bit counters; whether the pool's account
      covers them does not matter here. */
  predicate PoolOk(p: Pool) {
    Shares(p) && p.reserveA <= U64_MAX && p.reserveB <= U64_MAX && p.lpSupply <= U64_MAX
  }

  /** Also a record that stops half way leaves the pool worth no less per share. */
  lemma {:induction false} RecordValue(p: Pool, a: nat, b: nat, lp: nat)
    requires PoolOk(p) && 0 < a <= U64_MAX && 0 < b <= U64_MAX && 0 < lp <= U64_MAX && Minted(p, a, b) == Ok(lp)
    ensures PoolOk(Record(p, a, b, lp).0) && Undiluted(p, Record(p, a, b, lp).0)
  {
    MintedShares(p, a, b);
    MoreReserves(p, p.reserveA + a, p.reserveB);
    MoreReserves(p, p.reserveA + a, p.reserveB + b);
    MoreReserves(p, p.reserveA, p.reserveB);
  }

  lemma {:induction false} MoreReserves(p: Pool, ra: nat, rb: nat)
    requires p.reserveA <= ra && p.reserveB <= rb
    ensures Undiluted(p, p.(reserveA := ra, reserveB := rb))
  {
    MulMono2(p.reserveA, ra, p.reserveB, rb);
    MulMono(p.reserveA * p.reserveB, ra * rb, p.lpSupply * p.lpSupply);
  }

  lemma {:induction false} AddValue(s: State, x: AccountId, y: AccountId, provider: AccountId, amountX: nat,
                                    amountY: nat)
    requires PoolOk(s.pool) && amountX <= U64_MAX && amountY <= U64_MAX
    ensures var t := AddLiquidity(s, x, y, provider, amountX, amountY).0; PoolOk(t.pool) && Undiluted(s.pool, t.pool)
  {
    var a, b := if x <= y then amountX else amountY, if x <= y then amountY else amountX;
    MoreReserves(s.pool, s.pool.reserveA, s.pool.reserveB);
    if a > 0 && b > 0 {
      MintedShares(s.pool, a, b);
      var lp := Minted(s.pool, a, b).value;
      if 0 < lp <= U64_MAX { RecordValue(s.pool, a, b, lp); }
    }
  }

  lemma {:induction false} RemoveValue(s: State, x: AccountId, y: AccountId, provider: AccountId, lp: nat)
    requires PoolOk(s.pool)
    ensures var t := RemoveLiquidity(s, x, y, provider, lp).0; PoolOk(t.pool) && Undiluted(s.pool, t.pool)
  {
    MoreReserves(s.pool, s.pool.reserveA, s.pool.reserveB);
    if 0 < lp <= s.pool.lpSupply { BurnShares(s.pool, lp); }
  }

  lemma {:induction false} SwapValue(s: State, tokenIn: AccountId, tokenOut: AccountId, sender: AccountId, x: nat,
                                     minOut: nat)
    requires PoolOk(s.pool)
    ensures var q := Swap(s, tokenIn, tokenOut, sender, x, minOut).0.pool;
      && PoolOk(q) && Undiluted(s.pool, q) && q.lpSupply == s.pool.lpSupply
      && q.reserveA * q.reserveB >= s.pool.reserveA * s.pool.reserveB
  {
    var p := s.pool;
    MoreReserves(p, p.reserveA, p.reserveB);
    if x > 0 && p.reserveA > 0 {
      var (ri, ro) := Reserves(p, tokenIn == p.tokenA);
      SwappedShares(p, tokenIn == p.tokenA, x);
      assert Payout(ri, ro, x) % (U64_MAX + 1) == Payout(ri, ro, x);
    }
  }

  /** Amounts to add are 64-bit numbers. */
  predicate AmountsFit(op: Op) {
    op.AddOp? ==> op.amountX <= U64_MAX && op.amountY <= U64_MAX
  }

  lemma {:induction false} ApplyValue(s: State, op: Op)
    requires PoolOk(s.pool) && AmountsFit(op)
    ensures PoolOk(Apply(s, op).pool) && Undiluted(s.pool, Apply(s, op).pool)
  {
    match op
    case AddOp(x, y, u, a, b) => AddValue(s, x, y, u, a, b);
    case RemoveOp(x, y, u, lp) => RemoveValue(s, x, y, u, lp);
    case SwapOp(x, y, u, n, m) => SwapValue(s, x, y, u, n, m);
    case Outside(m, u, v, n) => MoreReserves(s.pool, s.pool.reserveA, s.pool.reserveB);
  }

  /** Shares exist exactly while both reserves are positive, after every run. */
  lemma {:induction false} RunPoolOk(s: State, ops: seq<Op>)
    requires PoolOk(s.pool) && forall i :: 0 <= i < |ops| ==> AmountsFit(ops[i])
    ensures PoolOk(Run(s, ops).pool)
    decreases |ops|
  {
    if ops != [] {
      ApplyValue(s, ops[0]);
      RunPoolOk(Apply(s, ops[0]), ops[1..]);
    }
  }

  /** The cover does turn on who acts: the pool's own account as trader moves no tokens, but
      the reserves move. */
  lemma {:induction false} PoolAsTraderUncovers()
    ensures exists s: State ::
      PoolInv(s) && var t := Swap(s, 1, 2, s.pool.id, 5, 0).0; !Backing(t.ledger, t.pool)
  {
    var pool := Pool(9, 1, 2, 3, 10, 10, 10);
    var s := State(Ledger(map[1 := 10, 2 := 10, 3 := 10], map[(1, 9) := 10, (2, 9) := 10]), pool);
    PayoutGreatest(10, 10, 5, 3);
    SwapKeepsProduct(10, 10, 5);
    var o := Payout(10, 10, 5);
    assert o % (U64_MAX + 1) == o;
    var t := Swap(s, 1, 2, 9, 5, 0).0;
    assert t.pool.reserveA == 15 && BalanceOf(t.ledger, 1, 9) == 10;
  }

  /** While shares exist, the product of the reserves per squared share never falls, whoever
      acts and whatever the pool's account holds. */
  lemma {:induction false} ShareValueNeverFalls(s: State, ops: seq<Op>)
    requires PoolOk(s.pool) && NeverEmptied(s, ops) && forall i :: 0 <= i < |ops| ==> AmountsFit(ops[i])
    ensures Undiluted(s.pool, Run(s, ops).pool)
    decreases |ops|
  {
    if ops != [] {
      var t := Apply(s, ops[0]);
      ApplyValue(s, ops[0]);
      ShareValueNeverFalls(t, ops[1..]);
      var p, q, r := s.pool, t.pool, Run(s, ops).pool;
      NoDilutionTrans(p.reserveA, p.reserveB, p.lpSupply, q.reserveA, q.reserveB, q.lpSupply, r.reserveA, r.reserveB,
                      r.lpSupply);
    }
  }

  /** Traders together take no token out of the pool for free: however they swap, if one reserve
      is back where it was, or lower, the other is at least where it was. */
  lemma {:induction false} NoFreeRoundTrip(s: State, ops: seq<Op>)
    requires PoolOk(s.pool) && s.pool.lpSupply > 0 && forall i :: 0 <= i < |ops| ==> ops[i].SwapOp?
    ensures Run(s, ops).pool.reserveA <= s.pool.reserveA ==> Run(s, ops).pool.reserveB >= s.pool.reserveB
    ensures Run(s, ops).pool.reserveB <= s.pool.reserveB ==> Run(s, ops).pool.reserveA >= s.pool.reserveA
  {
    SwapsKeepProduct(s, ops);
    BothFactors(s.pool, Run(s, ops).pool);
  }

  lemma {:induction false} BothFactors(p: Pool, q: Pool)
    requires p.reserveA > 0 && p.reserveB > 0 && q.reserveA * q.reserveB >= p.reserveA * p.reserveB
    ensures q.reserveA <= p.reserveA ==> q.reserveB >= p.reserveB
    ensures q.reserveB <= p.reserveB ==> q.reserveA >= p.reserveA
  {
    OtherFactor(p.reserveA, p.reserveB, q.reserveA, q.reserveB);
    assert p.reserveA * p.reserveB == p.reserveB * p.reserveA && q.reserveA * q.reserveB == q.reserveB * q.reserveA;
    OtherFactor(p.reserveB, p.reserveA, q.reserveB, q.reserveA);
  }

  lemma {:induction false} OtherFactor(a: nat, b: nat, c: nat, d: nat)
    requires a > 0 && c * d >= a * b
    ensures c <= a ==> d >= b
  {
    if c <= a {
      MulMono(c, a, d);
      assert a * d == d * a && a * b == b * a;
      MulCancel(b, d, a);
    }
  }

  lemma {:induction false} SwapsKeepProduct(s: State, ops: seq<Op>)
    requires PoolOk(s.pool) && forall i :: 0 <= i < |ops| ==> ops[i].SwapOp?
    ensures Run(s, ops).pool.reserveA * Run(s, ops).pool.reserveB >= s.pool.reserveA * s.pool.reserveB
    decreases |ops|
  {
    if ops != [] {
      var op := ops[0];
      SwapValue(s, op.x, op.y, op.user, op.amount, op.minOut);
      SwapsKeepProduct(Apply(s, op), ops[1..]);
    }
  }
}
