/** The books of the bridge balance after every step. */
module BridgeBooks {
  import opened Basics
  import opened MapSums
  import opened Tokens
  import opened Bridges

  /** What a canonical asset's positions hold, and what of it is not promised to a withdrawal. */
  function Held(positions: map<ExternalAsset, Position>, c: CanonicalId): map<nat, nat> {
    map e | e in positions :: if positions[e].canonical == c then positions[e].available + positions[e].pending else 0
  }

  function Free(positions: map<ExternalAsset, Position>, c: CanonicalId): map<nat, nat> {
    map e | e in positions :: if positions[e].canonical == c then positions[e].available else 0
  }

  predicate PositionOk(p: Position) {
    p.deposited == p.available + p.pending + p.withdrawn <= U64_MAX
  }

  /** A position belongs to a mapped asset and to the same canonical asset as its mapping. */
  ghost predicate PositionsIn(positions: map<ExternalAsset, Position>, mappings: map<ExternalAsset, Mapping>,
                              canonicals: map<CanonicalId, CanonicalAsset>) {
    && positions.Keys == mappings.Keys
    && (forall e :: e in mappings ==> PositionOk(positions[e]))
    && (forall e :: e in mappings ==>
          positions[e].canonical == mappings[e].canonical && mappings[e].canonical in canonicals)
  }

  ghost predicate PositionsOk(b: Bridge) {
    PositionsIn(b.positions, b.mappings, b.canonicals)
  }

  lemma {:induction false} PositionsUpdate(b: Bridge, e: ExternalAsset, p: Position)
    requires PositionsOk(b) && e in b.mappings && PositionOk(p) && p.canonical == b.positions[e].canonical
    ensures PositionsIn(b.positions[e := p], b.mappings, b.canonicals)
  {
  }

  /** The totals of canonical asset `c` are the sums over its positions. */
  ghost predicate TotalsOk(b: Bridge, c: CanonicalId) {
    && c in b.supplies && c in b.backing
    && b.backing[c] == MapSum(Held(b.positions, c))
    && b.supplies[c].active == MapSum(Free(b.positions, c))
    && b.supplies[c].buffer == 0 && b.supplies[c].minted == b.supplies[c].active + b.supplies[c].burned
    && b.supplies[c].minted <= U64_MAX && b.backing[c] <= U64_MAX
  }

  /** The token supply is what was minted, and the authority holds what was burnt. */
  ghost predicate TokenOk(b: Bridge, c: CanonicalId) {
    && c in b.canonicals && c in b.supplies
    && var mint := b.canonicals[c].mint;
      && mint in b.ledger.supply && b.ledger.supply[mint] == b.supplies[c].minted
      && b.supplies[c].burned <= BalanceOf(b.ledger, mint, b.authority)
  }

  ghost predicate MintsDiffer(canonicals: map<CanonicalId, CanonicalAsset>) {
    forall c, d :: c in canonicals && d in canonicals && c != d ==> canonicals[c].mint != canonicals[d].mint
  }

  ghost predicate KeysOk(b: Bridge) {
    b.supplies.Keys == b.canonicals.Keys && b.backing.Keys == b.canonicals.Keys
  }

  /** The positions and the totals agree. */
  ghost predicate BooksOk(b: Bridge) {
    PositionsOk(b) && KeysOk(b) && forall c :: c in b.canonicals ==> TotalsOk(b, c)
  }

  /** The totals and the token ledger agree. */
  ghost predicate TokensOk(b: Bridge) {
    MintsDiffer(b.canonicals) && forall c :: c in b.canonicals ==> TokenOk(b, c)
  }

  // ----- sums -----

  lemma {:induction false} HeldUpdate(positions: map<ExternalAsset, Position>, e: ExternalAsset, p: Position,
                                      c: CanonicalId)
    requires e in positions && p.canonical == positions[e].canonical
    ensures p.canonical == c ==>
      MapSum(Held(positions[e := p], c)) + positions[e].available + positions[e].pending
      == MapSum(Held(positions, c)) + p.available + p.pending
    ensures p.canonical == c ==>
      MapSum(Free(positions[e := p], c)) + positions[e].available == MapSum(Free(positions, c)) + p.available
    ensures p.canonical != c ==>
      MapSum(Held(positions[e := p], c)) == MapSum(Held(positions, c))
      && MapSum(Free(positions[e := p], c)) == MapSum(Free(positions, c))
  {
    var h, f := if p.canonical == c then p.available + p.pending else 0, if p.canonical == c then p.available else 0;
    assert Held(positions[e := p], c) == Held(positions, c)[e := h];
    assert Free(positions[e := p], c) == Free(positions, c)[e := f];
    MapSumUpdate(Held(positions, c), e, h);
    MapSumUpdate(Free(positions, c), e, f);
  }

  lemma {:induction false} FreeWithinHeld(positions: map<ExternalAsset, Position>, c: CanonicalId)
    ensures MapSum(Free(positions, c)) <= MapSum(Held(positions, c))
  {
    MapSumMono(Free(positions, c), Held(positions, c));
  }

  lemma {:induction false} HeldAtLeast(positions: map<ExternalAsset, Position>, e: ExternalAsset)
    requires e in positions
    ensures positions[e].available + positions[e].pending <= MapSum(Held(positions, positions[e].canonical))
    ensures positions[e].available <= MapSum(Free(positions, positions[e].canonical))
  {
    MapSumAtLeast(Held(positions, positions[e].canonical), e);
    MapSumAtLeast(Free(positions, positions[e].canonical), e);
  }

  /** The supply a user could still redeem never exceeds what the positions hold: the
      invariant check passes in every state whose books balance. */
  lemma {:induction false} InvariantHolds(b: Bridge, c: CanonicalId)
    requires BooksOk(b)
    ensures CheckInvariant(b, c) == None
  {
    if c in b.canonicals {
      assert TotalsOk(b, c);
      FreeWithinHeld(b.positions, c);
    }
  }

  /** Every canonical token outside the authority's hands is backed by a position. */
  lemma {:induction false} CirculationIsBacked(b: Bridge, c: CanonicalId)
    requires BooksOk(b) && TokensOk(b) && c in b.canonicals
    ensures var mint := b.canonicals[c].mint;
      mint in b.ledger.supply && c in b.backing
      && b.ledger.supply[mint] - BalanceOf(b.ledger, mint, b.authority) <= b.backing[c]
  {
    assert TotalsOk(b, c) && TokenOk(b, c);
    FreeWithinHeld(b.positions, c);
  }

  // ----- deposits -----

  /** The state after a deposit of canonical amount `n`, all effects at once. */
  function AfterDeposit(b: Bridge, d: Deposit, c: CanonicalId, mint: AccountId, n: nat, slot: nat, l: Ledger): Bridge
    requires d.asset in b.positions && c in b.supplies && c in b.backing
  {
    var p, s := b.positions[d.asset], b.supplies[c];
    var q := p.(deposited := p.deposited + n, available := p.available + n, slot := slot);
    b.(ledger := l, processed := b.processed + {d.id},
       positions := b.positions[d.asset := q],
       supplies := b.supplies[c := s.(minted := s.minted + n, active := s.active + n)],
       backing := b.backing[c := b.backing[c] + n])
  }

  lemma {:induction false} CreditedIs(b: Bridge, d: Deposit, c: CanonicalId, mint: AccountId, n: nat, slot: nat)
    requires d.asset in b.positions && c in b.supplies && c in b.backing && Credited(b, d, c, mint, n, slot).Ok?
    ensures n > 0 && b.positions[d.asset].canonical == c && MintTo(b.ledger, mint, d.recipient, n).Ok?
    ensures b.positions[d.asset].deposited + n <= U64_MAX && b.backing[c] + n <= U64_MAX
    ensures b.supplies[c].minted + n <= U64_MAX
    ensures Credited(b, d, c, mint, n, slot).value
         == AfterDeposit(b, d, c, mint, n, slot, MintTo(b.ledger, mint, d.recipient, n).value)
  {
  }

  lemma {:induction false} AfterDepositTotals(b: Bridge, d: Deposit, c: CanonicalId, mint: AccountId, n: nat, slot: nat,
                                              l: Ledger, x: CanonicalId)
    requires d.asset in b.positions && b.positions[d.asset].canonical == c && TotalsOk(b, c) && TotalsOk(b, x)
    requires b.backing[c] + n <= U64_MAX && b.supplies[c].minted + n <= U64_MAX
    ensures TotalsOk(AfterDeposit(b, d, c, mint, n, slot, l), x)
  {
    var p := b.positions[d.asset];
    var q := p.(deposited := p.deposited + n, available := p.available + n, slot := slot);
    var a := AfterDeposit(b, d, c, mint, n, slot, l);
    assert a.positions == b.positions[d.asset := q];
    HeldUpdate(b.positions, d.asset, q, x);
  }

  lemma {:induction false} AfterDepositToken(b: Bridge, d: Deposit, c: CanonicalId, n: nat, slot: nat, l: Ledger,
                                             x: CanonicalId)
    requires d.asset in b.positions && c in b.backing && TokenOk(b, c) && TokenOk(b, x) && MintsDiffer(b.canonicals)
    requires MintTo(b.ledger, b.canonicals[c].mint, d.recipient, n) == Ok(l)
    ensures TokenOk(AfterDeposit(b, d, c, b.canonicals[c].mint, n, slot, l), x)
  {
  }

  lemma {:induction false} AfterDepositPositions(b: Bridge, d: Deposit, c: CanonicalId, mint: AccountId, n: nat,
                                                 slot: nat, l: Ledger)
    requires PositionsOk(b) && d.asset in b.mappings && c in b.supplies && c in b.backing
    requires b.positions[d.asset].deposited + n <= U64_MAX
    ensures PositionsOk(AfterDeposit(b, d, c, mint, n, slot, l))
  {
    var p := b.positions[d.asset];
    PositionsUpdate(b, d.asset, p.(deposited := p.deposited + n, available := p.available + n, slot := slot));
  }

  lemma {:induction false} AfterDepositKeys(b: Bridge, d: Deposit, c: CanonicalId, mint: AccountId, n: nat, slot: nat,
                                            l: Ledger)
    requires KeysOk(b) && d.asset in b.positions && c in b.supplies && c in b.backing
    ensures KeysOk(AfterDeposit(b, d, c, mint, n, slot, l))
  {
  }

  lemma {:induction false} DepositBooks(b: Bridge, d: Deposit, c: CanonicalId, n: nat, slot: nat)
    requires BooksOk(b) && d.asset in b.mappings && b.mappings[d.asset].canonical == c && c in b.canonicals
    requires Credited(b, d, c, b.canonicals[c].mint, n, slot).Ok?
    ensures BooksOk(Credited(b, d, c, b.canonicals[c].mint, n, slot).value)
  {
    var mint := b.canonicals[c].mint;
    assert TotalsOk(b, c);
    CreditedIs(b, d, c, mint, n, slot);
    var l := MintTo(b.ledger, mint, d.recipient, n).value;
    AfterDepositPositions(b, d, c, mint, n, slot, l);
    AfterDepositKeys(b, d, c, mint, n, slot, l);
    forall x | x in b.canonicals
      ensures TotalsOk(AfterDeposit(b, d, c, mint, n, slot, l), x)
    {
      AfterDepositTotals(b, d, c, mint, n, slot, l, x);
    }
  }

  lemma {:induction false} DepositTokens(b: Bridge, d: Deposit, c: CanonicalId, n: nat, slot: nat)
    requires TokensOk(b) && d.asset in b.positions && c in b.canonicals && c in b.supplies && c in b.backing
    requires Credited(b, d, c, b.canonicals[c].mint, n, slot).Ok?
    ensures TokensOk(Credited(b, d, c, b.canonicals[c].mint, n, slot).value)
  {
    var mint := b.canonicals[c].mint;
    CreditedIs(b, d, c, mint, n, slot);
    var l := MintTo(b.ledger, mint, d.recipient, n).value;
    forall x | x in b.canonicals
      ensures TokenOk(AfterDeposit(b, d, c, mint, n, slot, l), x)
    {
      assert TokenOk(b, c) && TokenOk(b, x);
      AfterDepositToken(b, d, c, n, slot, l, x);
    }
  }

  // ----- withdrawal requests -----

  /** The state after a request, all effects at once. */
  function AfterRequest(b: Bridge, q: Request, external: nat, slot: nat, l: Ledger): Bridge
    requires q.asset in b.positions && q.amount <= b.positions[q.asset].available
    requires q.canonical in b.supplies && q.amount <= b.supplies[q.canonical].active
  {
    var p, s, c, n := b.positions[q.asset], b.supplies[q.canonical], q.canonical, q.amount;
    var r := Record(q.id, q.asset, external, q.sender, q.dest, slot, false);
    b.(ledger := l,
       positions := b.positions[q.asset := p.(available := p.available - n, pending := p.pending + n, slot := slot)],
       supplies := b.supplies[c := s.(burned := s.burned + n, active := s.active - n)],
       index := if q.id in b.records then b.index else b.index + [q.id],
       records := b.records[q.id := r])
  }

  lemma {:induction false} DebitedIs(b: Bridge, q: Request, mint: AccountId, external: nat, slot: nat)
    requires Debited(b, q, mint, external, slot).Ok?
    ensures q.amount > 0 && q.asset in b.positions && b.positions[q.asset].canonical == q.canonical
    ensures q.amount <= b.positions[q.asset].available
    ensures q.canonical in b.supplies && q.amount <= b.supplies[q.canonical].active
    ensures Transfer(b.ledger, mint, q.sender, b.authority, q.amount).Ok?
    ensures Debited(b, q, mint, external, slot).value
         == AfterRequest(b, q, external, slot, Transfer(b.ledger, mint, q.sender, b.authority, q.amount).value)
  {
  }

  lemma {:induction false} AfterRequestTotals(b: Bridge, q: Request, external: nat, slot: nat, l: Ledger,
                                              x: CanonicalId)
    requires q.asset in b.positions && q.amount <= b.positions[q.asset].available
    requires b.positions[q.asset].canonical == q.canonical
    requires TotalsOk(b, q.canonical) && q.amount <= b.supplies[q.canonical].active && TotalsOk(b, x)
    ensures TotalsOk(AfterRequest(b, q, external, slot, l), x)
  {
    var p := b.positions[q.asset];
    var p' := p.(available := p.available - q.amount, pending := p.pending + q.amount, slot := slot);
    assert AfterRequest(b, q, external, slot, l).positions == b.positions[q.asset := p'];
    HeldUpdate(b.positions, q.asset, p', x);
  }

  lemma {:induction false} AfterRequestToken(b: Bridge, q: Request, external: nat, slot: nat, l: Ledger, x: CanonicalId)
    requires q.asset in b.positions && q.amount <= b.positions[q.asset].available
    requires TokenOk(b, q.canonical) && q.amount <= b.supplies[q.canonical].active && TokenOk(b, x)
    requires MintsDiffer(b.canonicals)
    requires q.sender != b.authority
    requires Transfer(b.ledger, b.canonicals[q.canonical].mint, q.sender, b.authority, q.amount) == Ok(l)
    ensures TokenOk(AfterRequest(b, q, external, slot, l), x)
  {
    TransferEffect(b.ledger, b.canonicals[q.canonical].mint, q.sender, b.authority, q.amount, b.canonicals[x].mint,
                   b.authority);
  }

  lemma {:induction false} AfterRequestPositions(b: Bridge, q: Request, external: nat, slot: nat, l: Ledger)
    requires PositionsOk(b) && q.asset in b.mappings && q.amount <= b.positions[q.asset].available
    requires q.canonical in b.supplies && q.amount <= b.supplies[q.canonical].active
    ensures PositionsOk(AfterRequest(b, q, external, slot, l))
  {
    var p := b.positions[q.asset];
    PositionsUpdate(b, q.asset, p.(available := p.available - q.amount, pending := p.pending + q.amount, slot := slot));
  }

  lemma {:induction false} AfterRequestKeys(b: Bridge, q: Request, external: nat, slot: nat, l: Ledger)
    requires KeysOk(b) && q.asset in b.positions && q.amount <= b.positions[q.asset].available
    requires q.canonical in b.supplies && q.amount <= b.supplies[q.canonical].active
    ensures KeysOk(AfterRequest(b, q, external, slot, l))
  {
  }

  lemma {:induction false} RequestBooks(b: Bridge, q: Request, external: nat, slot: nat)
    requires BooksOk(b) && q.asset in b.mappings && q.canonical in b.canonicals
    requires Debited(b, q, b.canonicals[q.canonical].mint, external, slot).Ok?
    ensures BooksOk(Debited(b, q, b.canonicals[q.canonical].mint, external, slot).value)
  {
    var mint := b.canonicals[q.canonical].mint;
    assert TotalsOk(b, q.canonical);
    DebitedIs(b, q, mint, external, slot);
    var l := Transfer(b.ledger, mint, q.sender, b.authority, q.amount).value;
    AfterRequestPositions(b, q, external, slot, l);
    AfterRequestKeys(b, q, external, slot, l);
    forall x | x in b.canonicals
      ensures TotalsOk(AfterRequest(b, q, external, slot, l), x)
    {
      AfterRequestTotals(b, q, external, slot, l, x);
    }
  }

  lemma {:induction false} RequestTokens(b: Bridge, q: Request, external: nat, slot: nat)
    requires TokensOk(b) && q.canonical in b.canonicals && q.sender != b.authority
    requires Debited(b, q, b.canonicals[q.canonical].mint, external, slot).Ok?
    ensures TokensOk(Debited(b, q, b.canonicals[q.canonical].mint, external, slot).value)
  {
    var mint := b.canonicals[q.canonical].mint;
    DebitedIs(b, q, mint, external, slot);
    var l := Transfer(b.ledger, mint, q.sender, b.authority, q.amount).value;
    forall x | x in b.canonicals
      ensures TokenOk(AfterRequest(b, q, external, slot, l), x)
    {
      assert TokenOk(b, q.canonical) && TokenOk(b, x);
      AfterRequestToken(b, q, external, slot, l, x);
    }
  }

  // ----- releases -----

  lemma {:induction false} FinalizeTotals(b: Bridge, e: ExternalAsset, n: nat, slot: nat, x: CanonicalId)
    requires FinalizeWithdrawal(b, e, n, slot).Ok? && TotalsOk(b, b.positions[e].canonical) && TotalsOk(b, x)
    ensures TotalsOk(FinalizeWithdrawal(b, e, n, slot).value, x)
  {
    var p := b.positions[e];
    var p' := p.(pending := p.pending - n, withdrawn := p.withdrawn + n, slot := slot);
    assert FinalizeWithdrawal(b, e, n, slot).value.positions == b.positions[e := p'];
    HeldUpdate(b.positions, e, p', x);
  }

  lemma {:induction false} FinalizeRest(b: Bridge, e: ExternalAsset, n: nat, slot: nat, a: Bridge)
    requires PositionsOk(b) && FinalizeWithdrawal(b, e, n, slot) == Ok(a)
    ensures PositionsOk(a) && a.backing.Keys == b.backing.Keys
    ensures a == b.(positions := a.positions, backing := a.backing)
  {
    var p := b.positions[e];
    PositionsUpdate(b, e, p.(pending := p.pending - n, withdrawn := p.withdrawn + n, slot := slot));
  }

  lemma {:induction false} FinalizeBooks(b: Bridge, e: ExternalAsset, n: nat, slot: nat, a: Bridge)
    requires BooksOk(b) && FinalizeWithdrawal(b, e, n, slot) == Ok(a)
    ensures BooksOk(a)
  {
    FinalizeRest(b, e, n, slot, a);
    forall x | x in b.canonicals
      ensures TotalsOk(a, x)
    {
      assert TotalsOk(b, x) && TotalsOk(b, b.positions[e].canonical);
      FinalizeTotals(b, e, n, slot, x);
    }
  }

  /** A release fits: what is pending is part of what was deposited and of what backs the asset. */
  lemma {:induction false} FinalizeFits(b: Bridge, e: ExternalAsset, n: nat, slot: nat)
    requires BooksOk(b) && e in b.mappings && n <= b.positions[e].pending
    ensures FinalizeWithdrawal(b, e, n, slot).Ok?
  {
    assert TotalsOk(b, b.positions[e].canonical);
    HeldAtLeast(b.positions, e);
  }

  // ----- registration -----

  lemma {:induction false} UnusedTotals(b: Bridge, c: CanonicalId)
    requires PositionsOk(b) && c !in b.canonicals
    ensures MapSum(Held(b.positions, c)) == 0 && MapSum(Free(b.positions, c)) == 0
  {
    MapSumZero(Held(b.positions, c));
    MapSumZero(Free(b.positions, c));
  }

  lemma {:induction false} RegisterBooks(b: Bridge, c: CanonicalId, decimals: nat, mint: AccountId, a: Bridge)
    requires BooksOk(b) && RegisterCanonical(b, c, decimals, mint) == Ok(a)
    ensures BooksOk(a)
  {
    assert a.canonicals == b.canonicals[c := CanonicalAsset(decimals, mint, true)];
    UnusedTotals(b, c);
    forall x | x in a.canonicals
      ensures TotalsOk(a, x)
    {
      if x != c { assert TotalsOk(b, x); }
    }
  }

  lemma {:induction false} RegisterTokens(b: Bridge, c: CanonicalId, decimals: nat, mint: AccountId, a: Bridge)
    requires KeysOk(b) && TokensOk(b) && RegisterCanonical(b, c, decimals, mint) == Ok(a)
    ensures TokensOk(a)
  {
    assert a.canonicals == b.canonicals[c := CanonicalAsset(decimals, mint, true)];
    forall x | x in b.canonicals
      ensures b.canonicals[x].mint != mint && TokenOk(a, x)
    {
      RegisterToken(b, c, decimals, mint, a, x);
    }
    NewMintDiffers(b.canonicals, c, CanonicalAsset(decimals, mint, true));
    RegisteredToken(b, c, decimals, mint, a);
  }

  lemma {:induction false} NewMintDiffers(canonicals: map<CanonicalId, CanonicalAsset>, c: CanonicalId,
                                          n: CanonicalAsset)
    requires MintsDiffer(canonicals) && forall x :: x in canonicals ==> canonicals[x].mint != n.mint
    ensures MintsDiffer(canonicals[c := n])
  {
  }

  lemma {:induction false} RegisteredToken(b: Bridge, c: CanonicalId, decimals: nat, mint: AccountId, a: Bridge)
    requires KeysOk(b) && RegisterCanonical(b, c, decimals, mint) == Ok(a)
    ensures TokenOk(a, c)
  {
  }

  lemma {:induction false} RegisterToken(b: Bridge, c: CanonicalId, decimals: nat, mint: AccountId, a: Bridge,
                                         x: CanonicalId)
    requires TokenOk(b, x) && x != c && RegisterCanonical(b, c, decimals, mint) == Ok(a)
    ensures b.canonicals[x].mint != mint && TokenOk(a, x)
  {
  }

  lemma {:induction false} NewPositionSums(positions: map<ExternalAsset, Position>, e: ExternalAsset, c: CanonicalId,
                                           x: CanonicalId)
    requires e !in positions
    ensures MapSum(Held(positions[e := Position(c, 0, 0, 0, 0, 0)], x)) == MapSum(Held(positions, x))
    ensures MapSum(Free(positions[e := Position(c, 0, 0, 0, 0, 0)], x)) == MapSum(Free(positions, x))
  {
    var next := positions[e := Position(c, 0, 0, 0, 0, 0)];
    assert Held(next, x) == Held(positions, x)[e := 0] && Free(next, x) == Free(positions, x)[e := 0];
    MapSumUpdate(Held(positions, x), e, 0);
    MapSumUpdate(Free(positions, x), e, 0);
  }

  lemma {:induction false} MapRest(b: Bridge, e: ExternalAsset, m: Mapping)
    requires PositionsOk(b) && e !in b.mappings && m.canonical in b.canonicals
    ensures PositionsIn(b.positions[e := Position(m.canonical, 0, 0, 0, 0, 0)], b.mappings[e := m], b.canonicals)
  {
  }

  lemma {:induction false} MapBooks(b: Bridge, e: ExternalAsset, c: CanonicalId, decimals: nat, wrapped: AccountId,
                                    a: Bridge)
    requires BooksOk(b) && MapExternal(b, e, c, decimals, wrapped) == Ok(a)
    ensures BooksOk(a)
  {
    forall x | x in a.canonicals
      ensures TotalsOk(a, x)
    {
      assert TotalsOk(b, x);
      NewPositionSums(b.positions, e, c, x);
    }
    MapRest(b, e, a.mappings[e]);
  }

  /** The mint made for the wrapped token is no canonical one. */
  lemma {:induction false} MapTokens(b: Bridge, e: ExternalAsset, c: CanonicalId, decimals: nat, wrapped: AccountId,
                                     a: Bridge)
    requires TokensOk(b) && MapExternal(b, e, c, decimals, wrapped) == Ok(a)
    ensures TokensOk(a) && wrapped in a.ledger.supply
  {
    forall x | x in a.canonicals
      ensures TokenOk(a, x)
    {
      assert TokenOk(b, x);
    }
  }
}
