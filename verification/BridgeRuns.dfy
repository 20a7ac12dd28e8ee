/** Runs of the bridge: the books always balance, and every open withdrawal can be completed,
    once. */
module BridgeRuns {
  import opened Basics
  import opened Tokens
  import opened Conversion
  import opened Bridges
  import opened BridgeBooks

  datatype Op =
    | RegisterOp(c: CanonicalId, decimals: nat, mint: AccountId)
    | MapOp(e: ExternalAsset, c: CanonicalId, decimals: nat, wrapped: AccountId)
    | DepositOp(d: Deposit, slot: nat, verified: bool, allowed: bool)
    | RequestOp(q: Request, slot: nat, allowed: bool, destOk: bool)
    | WrappedOp(r: Record, mint: AccountId, destOk: bool)
    | CompleteOp(done: Completion, verified: bool)
    | OutsideOp(mint: AccountId, from: AccountId, to: AccountId, amount: nat)

  function Try(b: Bridge, op: Op): Result<Bridge, Error> {
    match op
    case RegisterOp(c, n, mint) => RegisterCanonical(b, c, n, mint)
    case MapOp(e, c, n, wrapped) => MapExternal(b, e, c, n, wrapped)
    case DepositOp(d, slot, verified, allowed) => ProcessDeposit(b, d, slot, verified, allowed)
    case RequestOp(q, slot, allowed, destOk) => RequestWithdrawal(b, q, slot, allowed, destOk)
    case WrappedOp(r, mint, destOk) => RequestWrapped(b, r, mint, destOk)
    case CompleteOp(c, verified) => CompleteWithdrawal(b, c, verified)
    case OutsideOp(mint, u, v, n) =>
      var l :- OrToken(Transfer(b.ledger, mint, u, v, n));
      Ok(b.(ledger := l))
  }

  /** A failed operation leaves the state as it was. */
  function Apply(b: Bridge, op: Op): Bridge {
    match Try(b, op) case Ok(a) => a case Err(_) => b
  }

  function Run(b: Bridge, ops: seq<Op>): Bridge
    decreases |ops|
  {
    if ops == [] then b else Run(Apply(b, ops[0]), ops[1..])
  }

  /** Nobody spends from the account that burnt tokens go to. */
  predicate Honest(b: Bridge, op: Op) {
    match op
    case RequestOp(q, _, _, _) => q.sender != b.authority
    case WrappedOp(r, _, _) => r.sender != b.authority
    case OutsideOp(_, from, _, _) => from != b.authority
    case _ => true
  }

  // ----- the books -----

  /** The books do not look at the ledger or the records. */
  lemma {:induction false} RestAside(b: Bridge, a: Bridge)
    requires BooksOk(b)
    requires a.canonicals == b.canonicals && a.mappings == b.mappings && a.positions == b.positions
    requires a.supplies == b.supplies && a.backing == b.backing
    ensures BooksOk(a)
  {
    forall x | x in a.canonicals
      ensures TotalsOk(a, x)
    {
      assert TotalsOk(b, x);
    }
  }

  lemma {:induction false} CompleteBooks(b: Bridge, c: Completion, verified: bool, a: Bridge)
    requires BooksOk(b) && CompleteWithdrawal(b, c, verified) == Ok(a)
    ensures BooksOk(a)
  {
    var r := b.records[c.id].(completed := true);
    var b1 := b.(records := b.records[c.id := r]);
    RestAside(b, b1);
    var b2 := Released(b1, r).value;
    if r.asset in b1.mappings {
      var m := b1.mappings[r.asset];
      FinalizeBooks(b1, r.asset, NormalizeAmount(r.amount, m.externalDecimals, m.canonicalDecimals).value,
                    r.requestedAt, b2);
    }
    RestAside(b2, a);
  }

  /** What a successful deposit or request went through. */
  lemma {:induction false} DepositParts(b: Bridge, d: Deposit, slot: nat, verified: bool, allowed: bool, a: Bridge)
    returns (c: CanonicalId, n: nat)
    requires ProcessDeposit(b, d, slot, verified, allowed) == Ok(a)
    ensures d.asset in b.mappings && b.mappings[d.asset].canonical == c && c in b.canonicals
    ensures NormalizeAmount(d.amount, b.mappings[d.asset].externalDecimals, b.mappings[d.asset].canonicalDecimals)
         == Ok(n)
    ensures Credited(b, d, c, b.canonicals[c].mint, n, slot) == Ok(a)
  {
    var m := b.mappings[d.asset];
    c, n := m.canonical, NormalizeAmount(d.amount, m.externalDecimals, m.canonicalDecimals).value;
  }

  lemma {:induction false} RequestParts(b: Bridge, q: Request, slot: nat, allowed: bool, destOk: bool, a: Bridge)
    returns (external: nat)
    requires RequestWithdrawal(b, q, slot, allowed, destOk) == Ok(a)
    ensures q.asset in b.mappings && b.mappings[q.asset].canonical == q.canonical && q.canonical in b.canonicals
    ensures NormalizeAmount(q.amount, b.mappings[q.asset].canonicalDecimals, b.mappings[q.asset].externalDecimals)
         == Ok(external)
    ensures Debited(b, q, b.canonicals[q.canonical].mint, external, slot) == Ok(a)
  {
    var m := b.mappings[q.asset];
    external := NormalizeAmount(q.amount, m.canonicalDecimals, m.externalDecimals).value;
  }

  lemma {:induction false} ProcessDepositBooks(b: Bridge, d: Deposit, slot: nat, verified: bool, allowed: bool,
                                               a: Bridge)
    requires BooksOk(b) && ProcessDeposit(b, d, slot, verified, allowed) == Ok(a)
    ensures BooksOk(a)
  {
    var c, n := DepositParts(b, d, slot, verified, allowed, a);
    DepositBooks(b, d, c, n, slot);
  }

  lemma {:induction false} RequestWithdrawalBooks(b: Bridge, q: Request, slot: nat, allowed: bool, destOk: bool,
                                                  a: Bridge)
    requires BooksOk(b) && RequestWithdrawal(b, q, slot, allowed, destOk) == Ok(a)
    ensures BooksOk(a)
  {
    var external := RequestParts(b, q, slot, allowed, destOk, a);
    RequestBooks(b, q, external, slot);
  }

  lemma {:induction false} ApplyBooks(b: Bridge, op: Op)
    requires BooksOk(b)
    ensures BooksOk(Apply(b, op))
  {
    if Try(b, op).Ok? {
      var a := Try(b, op).value;
      match op
      case RegisterOp(c, n, mint) => RegisterBooks(b, c, n, mint, a);
      case MapOp(e, c, n, wrapped) => MapBooks(b, e, c, n, wrapped, a);
      case DepositOp(d, slot, verified, allowed) => ProcessDepositBooks(b, d, slot, verified, allowed, a);
      case RequestOp(q, slot, allowed, destOk) => RequestWithdrawalBooks(b, q, slot, allowed, destOk, a);
      case WrappedOp(r, mint, destOk) => RestAside(b, a);
      case CompleteOp(c, verified) => CompleteBooks(b, c, verified, a);
      case OutsideOp(mint, u, v, n) => RestAside(b, a);
    }
  }

  lemma {:induction false} CreditedKeeps(b: Bridge, d: Deposit, c: CanonicalId, mint: AccountId, n: nat, slot: nat,
                                         a: Bridge)
    requires Credited(b, d, c, mint, n, slot) == Ok(a)
    ensures a.records == b.records && a.authority == b.authority
  {
  }

  lemma {:induction false} DebitedKeeps(b: Bridge, q: Request, mint: AccountId, external: nat, slot: nat, a: Bridge)
    requires Debited(b, q, mint, external, slot) == Ok(a)
    ensures a.records == b.records[q.id := Record(q.id, q.asset, external, q.sender, q.dest, slot, false)]
    ensures a.authority == b.authority
  {
    DebitedIs(b, q, mint, external, slot);
  }

  /** Who the authority is never changes, and only requests and completions write records. */
  lemma {:induction false} ApplyWrites(b: Bridge, op: Op)
    ensures Apply(b, op).authority == b.authority
    ensures (op.RequestOp? || op.WrappedOp? || op.CompleteOp?) || Apply(b, op).records == b.records
    ensures forall id :: id in b.records ==> id in Apply(b, op).records
    ensures op.RequestOp? ==>
      forall id :: id in b.records && id != op.q.id ==> Apply(b, op).records[id] == b.records[id]
  {
    if Try(b, op).Ok? {
      var a := Try(b, op).value;
      match op
      case DepositOp(d, slot, verified, allowed) =>
        var c, n := DepositParts(b, d, slot, verified, allowed, a);
        CreditedKeeps(b, d, c, b.canonicals[c].mint, n, slot, a);
      case RequestOp(q, slot, allowed, destOk) =>
        var external := RequestParts(b, q, slot, allowed, destOk, a);
        DebitedKeeps(b, q, b.canonicals[q.canonical].mint, external, slot, a);
      case _ =>
    }
  }

  /** Whatever happens, each position adds up, each canonical asset's totals are the sums over
      its positions, and so the reserve check passes. */
  lemma {:induction false} RunBooks(b: Bridge, ops: seq<Op>)
    requires BooksOk(b)
    ensures BooksOk(Run(b, ops)) && forall c :: CheckInvariant(Run(b, ops), c) == None
    decreases |ops|
  {
    if ops == [] {
      forall c ensures CheckInvariant(b, c) == None { InvariantHolds(b, c); }
    } else {
      ApplyBooks(b, ops[0]);
      RunBooks(Apply(b, ops[0]), ops[1..]);
    }
  }

  // ----- the tokens -----

  lemma {:induction false} LedgerTokens(b: Bridge, mint: AccountId, from: AccountId, to: AccountId, n: nat, a: Bridge)
    requires TokensOk(b) && from != b.authority && Transfer(b.ledger, mint, from, to, n) == Ok(a.ledger)
    requires a.canonicals == b.canonicals && a.supplies == b.supplies && a.authority == b.authority
    ensures TokensOk(a)
  {
    forall x | x in a.canonicals
      ensures TokenOk(a, x)
    {
      assert TokenOk(b, x);
      TransferEffect(b.ledger, mint, from, to, n, b.canonicals[x].mint, b.authority);
    }
  }

  lemma {:induction false} CompleteTokens(b: Bridge, c: Completion, verified: bool, a: Bridge)
    requires TokensOk(b) && CompleteWithdrawal(b, c, verified) == Ok(a)
    ensures TokensOk(a)
  {
    forall x | x in a.canonicals
      ensures TokenOk(a, x)
    {
      assert TokenOk(b, x);
    }
  }

  lemma {:induction false} ApplyTokens(b: Bridge, op: Op)
    requires BooksOk(b) && TokensOk(b) && Honest(b, op)
    ensures TokensOk(Apply(b, op))
  {
    if Try(b, op).Ok? {
      var a := Try(b, op).value;
      match op
      case RegisterOp(c, n, mint) => RegisterTokens(b, c, n, mint, a);
      case MapOp(e, c, n, wrapped) => MapTokens(b, e, c, n, wrapped, a);
      case DepositOp(d, slot, verified, allowed) =>
        var c, n := DepositParts(b, d, slot, verified, allowed, a);
        DepositTokens(b, d, c, n, slot);
      case RequestOp(q, slot, allowed, destOk) =>
        var external := RequestParts(b, q, slot, allowed, destOk, a);
        RequestTokens(b, q, external, slot);
      case WrappedOp(r, mint, destOk) => LedgerTokens(b, mint, r.sender, b.authority, r.amount, a);
      case CompleteOp(c, verified) => CompleteTokens(b, c, verified, a);
      case OutsideOp(mint, u, v, n) => LedgerTokens(b, mint, u, v, n, a);
    }
  }

  /** While nobody spends what was burnt, the token supply is what was minted and all of it that
      circulates is backed, after every run. */
  lemma {:induction false} RunTokens(b: Bridge, ops: seq<Op>)
    requires BooksOk(b) && TokensOk(b) && forall i :: 0 <= i < |ops| ==> Honest(b, ops[i])
    ensures BooksOk(Run(b, ops)) && TokensOk(Run(b, ops))
    decreases |ops|
  {
    if ops != [] {
      ApplyBooks(b, ops[0]);
      ApplyTokens(b, ops[0]);
      ApplyWrites(b, ops[0]);
      RunTokens(Apply(b, ops[0]), ops[1..]);
    }
  }

  lemma {:induction false} RunCirculationIsBacked(b: Bridge, ops: seq<Op>, c: CanonicalId)
    requires BooksOk(b) && TokensOk(b) && forall i :: 0 <= i < |ops| ==> Honest(b, ops[i])
    requires c in Run(b, ops).canonicals
    ensures var a := Run(b, ops);
      var mint := a.canonicals[c].mint;
      mint in a.ledger.supply && c in a.backing
      && a.ledger.supply[mint] - BalanceOf(a.ledger, mint, a.authority) <= a.backing[c]
  {
    RunTokens(b, ops);
    CirculationIsBacked(Run(b, ops), c);
  }
}
