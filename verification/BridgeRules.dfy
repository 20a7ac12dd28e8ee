/** Exactly when the bridge takes a registration, a mapping, a deposit or a withdrawal, and what
    it then stores. */
module BridgeRules {
  import opened Basics
  import opened Tokens
  import opened Conversion
  import opened Bridges
  import opened BridgeBooks
  import opened BridgeRuns

  lemma {:induction false} MintExactly(l: Ledger, mint: AccountId, owner: AccountId, n: nat)
    requires n > 0
    ensures MintTo(l, mint, owner, n).Ok? <==>
      mint in l.supply && l.supply[mint] + n <= U64_MAX && BalanceOf(l, mint, owner) + n <= U64_MAX
  {
  }

  lemma {:induction false} TransferExactly(l: Ledger, mint: AccountId, from: AccountId, to: AccountId, n: nat)
    requires n > 0
    ensures Transfer(l, mint, from, to, n).Ok? <==>
      mint in l.supply && BalanceOf(l, mint, from) >= n && (from == to || BalanceOf(l, mint, to) + n <= U64_MAX)
  {
  }

  // ----- registration -----

  /** A canonical asset is registered once, with at most eighteen decimals, under a new mint. */
  lemma {:induction false} RegisterExactly(b: Bridge, c: CanonicalId, decimals: nat, mint: AccountId)
    ensures RegisterCanonical(b, c, decimals, mint).Ok? <==>
      decimals <= 18 && c !in b.canonicals && mint !in b.ledger.supply
    ensures RegisterCanonical(b, c, decimals, mint).Ok? ==>
      var a := RegisterCanonical(b, c, decimals, mint).value;
      && a.canonicals == b.canonicals[c := CanonicalAsset(decimals, mint, true)] && a.mappings == b.mappings
      && mint in a.ledger.supply && a.ledger.supply[mint] == 0 && c in a.supplies
  {
  }

  /** An external asset is mapped once, to an active canonical asset whose decimals it records
      beside its own. */
  lemma {:induction false} MapExactly(b: Bridge, e: ExternalAsset, c: CanonicalId, decimals: nat, wrapped: AccountId)
    ensures MapExternal(b, e, c, decimals, wrapped).Ok? <==>
      decimals <= 18 && c in b.canonicals && b.canonicals[c].active && e !in b.mappings
    ensures MapExternal(b, e, c, decimals, wrapped).Ok? ==>
      var a := MapExternal(b, e, c, decimals, wrapped).value;
      && a.mappings == b.mappings[e := Mapping(c, decimals, b.canonicals[c].decimals, true, true)]
      && a.canonicals == b.canonicals && a.records == b.records
  {
  }

  // ----- deposits -----

  /** The deposit is new, verified, within limits, and of an asset whose mapping mints into an
      active canonical asset. */
  predicate Depositable(b: Bridge, d: Deposit, verified: bool, allowed: bool) {
    && verified && allowed && d.id !in b.processed && d.asset in b.mappings && b.mappings[d.asset].mintEnabled
    && b.mappings[d.asset].canonical in b.canonicals && b.canonicals[b.mappings[d.asset].canonical].active
  }

  /** There is room for `n` more in every counter. */
  predicate DepositFits(b: Bridge, d: Deposit, c: CanonicalId, mint: AccountId, n: nat)
    requires d.asset in b.positions && c in b.supplies && c in b.backing
  {
    && b.positions[d.asset].deposited + n <= U64_MAX && b.backing[c] + n <= U64_MAX
    && b.supplies[c].minted + n <= U64_MAX
    && mint in b.ledger.supply && b.ledger.supply[mint] + n <= U64_MAX
    && BalanceOf(b.ledger, mint, d.recipient) + n <= U64_MAX
  }

  lemma {:induction false} CreditExactly(b: Bridge, d: Deposit, c: CanonicalId, mint: AccountId, n: nat, slot: nat)
    requires BooksOk(b) && d.asset in b.mappings && b.mappings[d.asset].canonical == c && c in b.canonicals && n > 0
    ensures Credited(b, d, c, mint, n, slot).Ok? <==> DepositFits(b, d, c, mint, n)
  {
    assert TotalsOk(b, c);
    FreeWithinHeld(b.positions, c);
    CreditParts(b, d, c, mint, n, slot);
  }

  lemma {:induction false} CreditParts(b: Bridge, d: Deposit, c: CanonicalId, mint: AccountId, n: nat, slot: nat)
    requires d.asset in b.positions && c in b.supplies && c in b.backing && n > 0
    requires b.positions[d.asset].canonical == c && b.positions[d.asset].available <= b.positions[d.asset].deposited
    requires b.supplies[c].active <= b.supplies[c].minted && b.supplies[c].active + b.supplies[c].buffer <= b.backing[c]
    ensures Credited(b, d, c, mint, n, slot).Ok? <==> DepositFits(b, d, c, mint, n)
  {
    MintExactly(b.ledger, mint, d.recipient, n);
  }

  /** With balanced books a deposit is credited exactly when it may be, it converts, and it fits. */
  lemma {:induction false} DepositExactly(b: Bridge, d: Deposit, slot: nat, verified: bool, allowed: bool)
    requires BooksOk(b)
    ensures ProcessDeposit(b, d, slot, verified, allowed).Ok? <==>
      && Depositable(b, d, verified, allowed)
      && var m := b.mappings[d.asset];
        && NormalizeAmount(d.amount, m.externalDecimals, m.canonicalDecimals).Ok?
        && DepositFits(b, d, m.canonical, b.canonicals[m.canonical].mint,
                       NormalizeAmount(d.amount, m.externalDecimals, m.canonicalDecimals).value)
  {
    DepositGoes(b, d, slot, verified, allowed);
    if Depositable(b, d, verified, allowed) {
      var m := b.mappings[d.asset];
      var n := NormalizeAmount(d.amount, m.externalDecimals, m.canonicalDecimals);
      ConvertsToSome(d.amount, m.externalDecimals, m.canonicalDecimals);
      if n.Ok? { CreditExactly(b, d, m.canonical, b.canonicals[m.canonical].mint, n.value, slot); }
    }
  }

  lemma {:induction false} DepositGoes(b: Bridge, d: Deposit, slot: nat, verified: bool, allowed: bool)
    ensures ProcessDeposit(b, d, slot, verified, allowed).Ok? <==>
      && Depositable(b, d, verified, allowed)
      && var m := b.mappings[d.asset];
        var n := NormalizeAmount(d.amount, m.externalDecimals, m.canonicalDecimals);
        n.Ok? && Credited(b, d, m.canonical, b.canonicals[m.canonical].mint, n.value, slot).Ok?
  {
  }

  /** A deposit is booked where its asset is kept, and marked. */
  lemma {:induction false} DepositBooked(b: Bridge, d: Deposit, slot: nat, verified: bool, allowed: bool, a: Bridge)
    returns (n: nat)
    requires BooksOk(b) && ProcessDeposit(b, d, slot, verified, allowed) == Ok(a)
    ensures d.asset in b.mappings && d.asset in b.positions && d.asset in a.positions
    ensures NormalizeAmount(d.amount, b.mappings[d.asset].externalDecimals, b.mappings[d.asset].canonicalDecimals)
         == Ok(n)
    ensures a.positions[d.asset].deposited == b.positions[d.asset].deposited + n
    ensures a.positions[d.asset].available == b.positions[d.asset].available + n
    ensures a.positions[d.asset].pending == b.positions[d.asset].pending
    ensures d.id in a.processed && a.records == b.records && a.mappings == b.mappings
  {
    var c;
    c, n := DepositParts(b, d, slot, verified, allowed, a);
    assert TotalsOk(b, c);
    CreditedIs(b, d, c, b.canonicals[c].mint, n, slot);
  }

  // ----- withdrawals -----

  /** The request is within limits, has a destination, and is for an active canonical asset to an
      external one that is mapped to it and open for withdrawals. */
  predicate Requestable(b: Bridge, q: Request, allowed: bool, destOk: bool) {
    && q.amount > 0 && allowed && destOk && q.canonical in b.canonicals && b.canonicals[q.canonical].active
    && q.asset in b.mappings && b.mappings[q.asset].canonical == q.canonical && b.mappings[q.asset].withdrawEnabled
  }

  /** The sender holds the tokens, the reserve holds as much, and it fits. */
  predicate RequestFits(b: Bridge, q: Request, mint: AccountId)
    requires q.asset in b.positions && q.canonical in b.supplies
  {
    && BalanceOf(b.ledger, mint, q.sender) >= q.amount && mint in b.ledger.supply
    && (q.sender == b.authority || BalanceOf(b.ledger, mint, b.authority) + q.amount <= U64_MAX)
    && b.positions[q.asset].available >= q.amount
  }

  /** What the books say of the position and the totals a request draws on. */
  predicate Drawable(b: Bridge, q: Request)
    requires q.asset in b.positions && q.canonical in b.supplies && q.canonical in b.backing
  {
    var p, s := b.positions[q.asset], b.supplies[q.canonical];
    && p.canonical == q.canonical && p.available + p.pending <= U64_MAX && p.available <= s.active
    && s.buffer == 0 && s.active + s.burned <= U64_MAX && s.active <= b.backing[q.canonical]
  }

  lemma {:induction false} BooksDraw(b: Bridge, q: Request)
    requires BooksOk(b) && q.asset in b.mappings && b.mappings[q.asset].canonical == q.canonical
    requires q.canonical in b.canonicals
    ensures q.asset in b.positions && q.canonical in b.supplies && q.canonical in b.backing && Drawable(b, q)
  {
    assert TotalsOk(b, q.canonical);
    HeldAtLeast(b.positions, q.asset);
    FreeWithinHeld(b.positions, q.canonical);
  }

  lemma {:induction false} DebitExactly(b: Bridge, q: Request, mint: AccountId, external: nat, slot: nat)
    requires q.asset in b.positions && q.canonical in b.supplies && q.canonical in b.backing && Drawable(b, q)
    requires q.amount > 0
    ensures Debited(b, q, mint, external, slot).Ok? <==> RequestFits(b, q, mint)
  {
    TransferExactly(b.ledger, mint, q.sender, b.authority, q.amount);
  }

  /** With balanced books a request is taken exactly when it may be, it converts, and it fits. */
  lemma {:induction false} RequestExactly(b: Bridge, q: Request, slot: nat, allowed: bool, destOk: bool)
    requires BooksOk(b)
    ensures RequestWithdrawal(b, q, slot, allowed, destOk).Ok? <==>
      && Requestable(b, q, allowed, destOk)
      && NormalizeAmount(q.amount, b.mappings[q.asset].canonicalDecimals, b.mappings[q.asset].externalDecimals).Ok?
      && RequestFits(b, q, b.canonicals[q.canonical].mint)
  {
    if Requestable(b, q, allowed, destOk) {
      var m := b.mappings[q.asset];
      var n := NormalizeAmount(q.amount, m.canonicalDecimals, m.externalDecimals);
      if n.Ok? { BookedDebit(b, q, b.canonicals[q.canonical].mint, n.value, slot); }
    }
  }

  lemma {:induction false} BookedDebit(b: Bridge, q: Request, mint: AccountId, external: nat, slot: nat)
    requires BooksOk(b) && q.asset in b.mappings && b.mappings[q.asset].canonical == q.canonical
    requires q.canonical in b.canonicals && q.amount > 0
    ensures Debited(b, q, mint, external, slot).Ok? <==> RequestFits(b, q, mint)
  {
    BooksDraw(b, q);
    DebitExactly(b, q, mint, external, slot);
  }

  /** What a request stores: an open record of the converted amount, for its sender and
      destination, with the amount moved from available to pending. */
  lemma {:induction false} RequestStored(b: Bridge, q: Request, slot: nat, allowed: bool, destOk: bool, a: Bridge)
    returns (external: nat)
    requires RequestWithdrawal(b, q, slot, allowed, destOk) == Ok(a)
    ensures q.asset in b.mappings && q.asset in b.positions && q.asset in a.positions
    ensures NormalizeAmount(q.amount, b.mappings[q.asset].canonicalDecimals, b.mappings[q.asset].externalDecimals)
         == Ok(external)
    ensures a.records == b.records[q.id := Record(q.id, q.asset, external, q.sender, q.dest, slot, false)]
    ensures a.positions[q.asset].available == b.positions[q.asset].available - q.amount
    ensures a.positions[q.asset].pending == b.positions[q.asset].pending + q.amount
  {
    external := RequestParts(b, q, slot, allowed, destOk, a);
    DebitedIs(b, q, b.canonicals[q.canonical].mint, external, slot);
  }

  /** A plain wrapped withdrawal burns the wrapped tokens and stores its record as open, and that
      is all. */
  lemma {:induction false} WrappedExactly(b: Bridge, r: Record, mint: AccountId, destOk: bool)
    ensures RequestWrapped(b, r, mint, destOk).Ok? <==>
      && r.amount > 0 && destOk && mint in b.ledger.supply && BalanceOf(b.ledger, mint, r.sender) >= r.amount
      && (r.sender == b.authority || BalanceOf(b.ledger, mint, b.authority) + r.amount <= U64_MAX)
    ensures RequestWrapped(b, r, mint, destOk).Ok? ==>
      var a := RequestWrapped(b, r, mint, destOk).value;
      && a.records == b.records[r.id := r.(completed := false)]
      && a.positions == b.positions && a.supplies == b.supplies
      && Transfer(b.ledger, mint, r.sender, b.authority, r.amount) == Ok(a.ledger)
  {
    if r.amount > 0 { TransferExactly(b.ledger, mint, r.sender, b.authority, r.amount); }
  }

  /** A completion closes its record, marks it, and takes its converted amount out of what is
      pending, or nothing for an asset that is not mapped. */
  lemma {:induction false} CompletionStored(b: Bridge, c: Completion, verified: bool, a: Bridge)
    requires CompleteWithdrawal(b, c, verified) == Ok(a)
    ensures c.id in b.records && c.id in a.markers && a.ledger == b.ledger
    ensures a.records == b.records[c.id := b.records[c.id].(completed := true)]
    ensures c.asset !in b.mappings ==> a.positions == b.positions && a.backing == b.backing
    ensures c.asset in b.mappings ==>
      var m := b.mappings[c.asset];
      var n := NormalizeAmount(c.amount, m.externalDecimals, m.canonicalDecimals);
      && n.Ok? && c.asset in b.positions && c.asset in a.positions
      && a.positions[c.asset].pending == b.positions[c.asset].pending - n.value
      && a.positions[c.asset].withdrawn == b.positions[c.asset].withdrawn + n.value
      && a.positions[c.asset].available == b.positions[c.asset].available
  {
  }
}
