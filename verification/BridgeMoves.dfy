/** What one deposit or request moves, and that a deposit counts once. */
module BridgeMoves {
  import opened Basics
  import opened Tokens
  import opened Conversion
  import opened Bridges
  import opened BridgeBooks
  import opened BridgeRuns

  /** A deposit mints the converted amount to its recipient and to nobody else, and what is
      minted is worth at most what was deposited, to within one unit of the coarser scale. */
  lemma {:induction false} DepositMints(b: Bridge, d: Deposit, slot: nat, verified: bool, allowed: bool, a: Bridge)
    returns (mint: AccountId, n: nat, back: nat)
    requires ProcessDeposit(b, d, slot, verified, allowed) == Ok(a) && d.amount <= U64_MAX
    ensures verified && allowed && n > 0
    ensures d.asset in b.mappings
    ensures var m := b.mappings[d.asset];
      && m.canonical in b.canonicals && mint == b.canonicals[m.canonical].mint
      && NormalizeAmount(n, m.canonicalDecimals, m.externalDecimals) == Ok(back)
      && back == d.amount - Dust(d.amount, m.externalDecimals, m.canonicalDecimals)
    ensures var m := b.mappings[d.asset];
      && (m.externalDecimals <= m.canonicalDecimals ==> n == Tens(d.amount, m.canonicalDecimals - m.externalDecimals))
      && (m.externalDecimals >= m.canonicalDecimals ==>
            var k := m.externalDecimals - m.canonicalDecimals; Tens(n, k) <= d.amount < Tens(n + 1, k))
    ensures forall x, u ::
      BalanceOf(a.ledger, x, u) == BalanceOf(b.ledger, x, u) + if x == mint && u == d.recipient then n else 0
  {
    var c, k := DepositParts(b, d, slot, verified, allowed, a);
    var m := b.mappings[d.asset];
    mint, n := b.canonicals[c].mint, k;
    ConvertsBack(d.amount, m.externalDecimals, m.canonicalDecimals);
    ConvertsInTens(d.amount, m.externalDecimals, m.canonicalDecimals, n);
    back := d.amount - Dust(d.amount, m.externalDecimals, m.canonicalDecimals);
    CreditedLedger(b, d, c, mint, n, slot, a);
  }

  lemma {:induction false} CreditedLedger(b: Bridge, d: Deposit, c: CanonicalId, mint: AccountId, n: nat, slot: nat,
                                          a: Bridge)
    requires Credited(b, d, c, mint, n, slot) == Ok(a)
    ensures n > 0 && MintTo(b.ledger, mint, d.recipient, n) == Ok(a.ledger) && a.processed == b.processed + {d.id}
  {
  }

  /** A request burns exactly the amount: it leaves the sender for the authority's account. */
  lemma {:induction false} RequestBurns(b: Bridge, q: Request, slot: nat, allowed: bool, destOk: bool, a: Bridge,
                                        x: AccountId, u: AccountId)
    requires RequestWithdrawal(b, q, slot, allowed, destOk) == Ok(a)
    ensures q.canonical in b.canonicals && allowed && destOk
    ensures BalanceOf(a.ledger, x, u) == BalanceOf(b.ledger, x, u)
      + (if x == b.canonicals[q.canonical].mint && u == b.authority then q.amount else 0)
      - (if x == b.canonicals[q.canonical].mint && u == q.sender then q.amount else 0)
  {
    var external := RequestParts(b, q, slot, allowed, destOk, a);
    var mint := b.canonicals[q.canonical].mint;
    DebitedIs(b, q, mint, external, slot);
    TransferEffect(b.ledger, mint, q.sender, b.authority, q.amount, x, u);
  }

  /** What was processed stays processed. */
  lemma {:induction false} ApplyProcessed(b: Bridge, op: Op)
    ensures b.processed <= Apply(b, op).processed
  {
    if Try(b, op).Ok? {
      var a := Try(b, op).value;
      match op
      case DepositOp(d, slot, verified, allowed) =>
        var c, n := DepositParts(b, d, slot, verified, allowed, a);
        CreditedLedger(b, d, c, b.canonicals[c].mint, n, slot, a);
      case RequestOp(q, slot, allowed, destOk) =>
        var external := RequestParts(b, q, slot, allowed, destOk, a);
        DebitedIs(b, q, b.canonicals[q.canonical].mint, external, slot);
      case _ =>
    }
  }

  lemma {:induction false} RunProcessed(b: Bridge, ops: seq<Op>)
    ensures b.processed <= Run(b, ops).processed
    decreases |ops|
  {
    if ops != [] {
      ApplyProcessed(b, ops[0]);
      RunProcessed(Apply(b, ops[0]), ops[1..]);
    }
  }

  /** No deposit is credited twice, whatever happens in between. */
  lemma {:induction false} DepositCountsOnce(b: Bridge, d: Deposit, slot: nat, verified: bool, allowed: bool, a: Bridge,
                                              ops: seq<Op>, again: Deposit, later: nat,
                                              verifiedAgain: bool, allowedAgain: bool)
    requires ProcessDeposit(b, d, slot, verified, allowed) == Ok(a) && again.id == d.id
    ensures ProcessDeposit(Run(a, ops), again, later, verifiedAgain, allowedAgain).Err?
  {
    var c, n := DepositParts(b, d, slot, verified, allowed, a);
    CreditedLedger(b, d, c, b.canonicals[c].mint, n, slot, a);
    RunProcessed(a, ops);
  }
}
