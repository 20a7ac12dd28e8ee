/** The bridge as the program runs it: each step loads a record, changes it and writes it back,
    and a failing operation is rolled back to its snapshot. */
module ReserveBridges {
  import opened Basics
  import opened Tokens
  import opened Conversion
  import opened Bridges

  class ReserveBridge {
    var state: Bridge

    constructor (authority: AccountId, ledger: Ledger)
      ensures state == Bridge(authority, ledger, map[], map[], map[], map[], map[], {}, [], map[], {})
    {
      state := Bridge(authority, ledger, map[], map[], map[], map[], map[], {}, [], map[], {});
    }

    // ----- reserve accounting: on failure a record may already be written -----

    method RecordDeposit(e: ExternalAsset, c: CanonicalId, amount: nat, slot: nat) returns (failure: Option<Error>)
      modifies this
      ensures match Bridges.RecordDeposit(old(state), e, c, amount, slot)
              case Ok(b) => failure == None && state == b
              case Err(x) => failure == Some(x)
    {
      if amount == 0 { return Some(InvalidAmount); }
      var p := Position(c, 0, 0, 0, 0, 0);
      if e in state.positions { p := state.positions[e]; }
      if p.canonical != c { return Some(MappingMismatch); }
      if p.deposited + amount > U64_MAX { return Some(ArithmeticOverflow); }
      p := p.(deposited := p.deposited + amount);
      if p.available + amount > U64_MAX { return Some(ArithmeticOverflow); }
      p := p.(available := p.available + amount, slot := slot);
      state := state.(positions := state.positions[e := p]);
      failure := IncreaseReserveTotal(c, amount);
    }

    method IncreaseReserveTotal(c: CanonicalId, amount: nat) returns (failure: Option<Error>)
      modifies this
      ensures
        if BackingOr(old(state), c) + amount > U64_MAX then failure == Some(ArithmeticOverflow)
        else
          && failure == None
          && state == old(state).(backing := old(state).backing[c := BackingOr(old(state), c) + amount])
    {
      var total := if c in state.backing then state.backing[c] else 0;
      if total + amount > U64_MAX { return Some(ArithmeticOverflow); }
      state := state.(backing := state.backing[c := total + amount]);
      return None;
    }

    method ReserveWithdrawal(e: ExternalAsset, c: CanonicalId, amount: nat, slot: nat) returns (failure: Option<Error>)
      modifies this
      ensures match Bridges.ReserveWithdrawal(old(state), e, c, amount, slot)
              case Ok(b) => failure == None && state == b
              case Err(x) => failure == Some(x)
    {
      if amount == 0 { return Some(InvalidAmount); }
      if e !in state.positions { return Some(AssetNotMapped); }
      var p := state.positions[e];
      if p.canonical != c { return Some(MappingMismatch); }
      if p.available < amount { return Some(InsufficientReserve(p.available, amount)); }
      p := p.(available := p.available - amount);
      if p.pending + amount > U64_MAX { return Some(ArithmeticOverflow); }
      p := p.(pending := p.pending + amount, slot := slot);
      state := state.(positions := state.positions[e := p]);
      return None;
    }

    method FinalizeWithdrawal(e: ExternalAsset, amount: nat, slot: nat) returns (failure: Option<Error>)
      modifies this
      ensures match Bridges.FinalizeWithdrawal(old(state), e, amount, slot)
              case Ok(b) => failure == None && state == b
              case Err(x) => failure == Some(x)
    {
      if e !in state.positions { return Some(AssetNotMapped); }
      var p := state.positions[e];
      if p.pending < amount { return Some(InsufficientReserve(p.pending, amount)); }
      p := p.(pending := p.pending - amount);
      if p.withdrawn + amount > U64_MAX { return Some(ArithmeticOverflow); }
      p := p.(withdrawn := p.withdrawn + amount, slot := slot);
      state := state.(positions := state.positions[e := p]);
      if p.canonical !in state.backing { return Some(CanonicalAssetNotFound); }
      var total := state.backing[p.canonical];
      if total < amount { return Some(InsufficientReserve(total, amount)); }
      state := state.(backing := state.backing[p.canonical := total - amount]);
      return None;
    }

    method IncreaseSupply(c: CanonicalId, amount: nat) returns (failure: Option<Error>)
      modifies this
      ensures match Bridges.IncreaseSupply(old(state), c, amount)
              case Ok(b) => failure == None && state == b
              case Err(x) => failure == Some(x)
    {
      var s := if c in state.supplies then state.supplies[c] else Supply(0, 0, 0, 0);
      if s.minted + amount > U64_MAX { return Some(ArithmeticOverflow); }
      s := s.(minted := s.minted + amount);
      if s.active + amount > U64_MAX { return Some(ArithmeticOverflow); }
      s := s.(active := s.active + amount);
      state := state.(supplies := state.supplies[c := s]);
      return None;
    }

    method DecreaseSupply(c: CanonicalId, amount: nat) returns (failure: Option<Error>)
      modifies this
      ensures match Bridges.DecreaseSupply(old(state), c, amount)
              case Ok(b) => failure == None && state == b
              case Err(x) => failure == Some(x)
    {
      if c !in state.supplies { return Some(CanonicalAssetNotFound); }
      var s := state.supplies[c];
      if s.active < amount { return Some(InsufficientBalance(s.active, amount)); }
      if s.burned + amount > U64_MAX { return Some(ArithmeticOverflow); }
      s := s.(burned := s.burned + amount, active := s.active - amount);
      state := state.(supplies := state.supplies[c := s]);
      return None;
    }

    // ----- deposits -----

    /** The steps of a deposit once its amount is converted. */
    method CreditDeposit(d: Deposit, c: CanonicalId, mint: AccountId, amount: nat, slot: nat)
      returns (failure: Option<Error>)
      modifies this
      ensures match Credited(old(state), d, c, mint, amount, slot)
              case Ok(b) => failure == None && state == b
              case Err(x) => failure == Some(x)
    {
      failure := RecordDeposit(d.asset, c, amount, slot);
      if failure != None { return; }
      var minted := MintTo(state.ledger, mint, d.recipient, amount);
      if minted.Err? { return Some(Token(minted.error)); }
      state := state.(ledger := minted.value);
      failure := IncreaseSupply(c, amount);
      if failure != None { return; }
      state := state.(processed := state.processed + {d.id});
      failure := CheckInvariant(state, c);
    }

    method ProcessDepositInner(d: Deposit, slot: nat, verified: bool, allowed: bool) returns (failure: Option<Error>)
      modifies this
      ensures match Bridges.ProcessDeposit(old(state), d, slot, verified, allowed)
              case Ok(b) => failure == None && state == b
              case Err(x) => failure == Some(x)
    {
      if !verified { return Some(InvalidDepositProof); }
      if d.amount == 0 { return Some(InvalidAmount); }
      if d.id in state.processed { return Some(DepositAlreadyProcessed); }
      if d.asset !in state.mappings { return Some(AssetNotMapped); }
      var m := state.mappings[d.asset];
      if !m.mintEnabled { return Some(MintDisabled); }
      if !allowed { return Some(RiskLimit); }
      if m.canonical !in state.canonicals { return Some(CanonicalAssetNotFound); }
      var canonical := state.canonicals[m.canonical];
      if !canonical.active { return Some(CanonicalAssetInactive); }
      var amount := NormalizeAmount(d.amount, m.externalDecimals, m.canonicalDecimals);
      if amount.Err? { return Some(Convert(amount.error)); }
      failure := CreditDeposit(d, m.canonical, canonical.mint, amount.value, slot);
    }

    /** All or nothing. */
    method ProcessDeposit(d: Deposit, slot: nat, verified: bool, allowed: bool) returns (failure: Option<Error>)
      modifies this
      ensures match Bridges.ProcessDeposit(old(state), d, slot, verified, allowed)
              case Ok(b) => failure == None && state == b
              case Err(x) => failure == Some(x) && state == old(state)
    {
      var snapshot := state;
      failure := ProcessDepositInner(d, slot, verified, allowed);
      if failure != None { state := snapshot; }
    }

    // ----- withdrawals -----

    method IndexWithdrawalRecord(r: Record)
      modifies this
      ensures state == IndexRecord(old(state), r)
    {
      if r.id !in state.records {
        state := state.(index := state.index + [r.id]);
      }
      state := state.(records := state.records[r.id := r]);
    }

    /** The steps of a request once its amount is converted. */
    method DebitRequest(q: Request, mint: AccountId, external: nat, slot: nat) returns (failure: Option<Error>)
      modifies this
      ensures match Debited(old(state), q, mint, external, slot)
              case Ok(b) => failure == None && state == b
              case Err(x) => failure == Some(x)
    {
      failure := ReserveWithdrawal(q.asset, q.canonical, q.amount, slot);
      if failure != None { return; }
      var burnt := Transfer(state.ledger, mint, q.sender, state.authority, q.amount);
      if burnt.Err? { return Some(Token(burnt.error)); }
      state := state.(ledger := burnt.value);
      failure := DecreaseSupply(q.canonical, q.amount);
      if failure != None { return; }
      IndexWithdrawalRecord(Record(q.id, q.asset, external, q.sender, q.dest, slot, false));
      failure := CheckInvariant(state, q.canonical);
    }

    method RequestWithdrawalInner(q: Request, slot: nat, allowed: bool, destOk: bool) returns (failure: Option<Error>)
      modifies this
      ensures match Bridges.RequestWithdrawal(old(state), q, slot, allowed, destOk)
              case Ok(b) => failure == None && state == b
              case Err(x) => failure == Some(x)
    {
      if q.amount == 0 { return Some(InvalidAmount); }
      if q.canonical !in state.canonicals { return Some(CanonicalAssetNotFound); }
      var canonical := state.canonicals[q.canonical];
      if !canonical.active { return Some(CanonicalAssetInactive); }
      if q.asset !in state.mappings { return Some(AssetNotMapped); }
      var m := state.mappings[q.asset];
      if m.canonical != q.canonical { return Some(MappingMismatch); }
      if !m.withdrawEnabled { return Some(WithdrawDisabled); }
      if !allowed { return Some(RiskLimit); }
      if !destOk { return Some(InvalidDestination); }
      var external := NormalizeAmount(q.amount, m.canonicalDecimals, m.externalDecimals);
      if external.Err? { return Some(Convert(external.error)); }
      var have := BalanceOf(state.ledger, canonical.mint, q.sender);
      if have < q.amount { return Some(InsufficientBalance(have, q.amount)); }
      failure := DebitRequest(q, canonical.mint, external.value, slot);
    }

    /** All or nothing. */
    method RequestWithdrawal(q: Request, slot: nat, allowed: bool, destOk: bool) returns (failure: Option<Error>)
      modifies this
      ensures match Bridges.RequestWithdrawal(old(state), q, slot, allowed, destOk)
              case Ok(b) => failure == None && state == b
              case Err(x) => failure == Some(x) && state == old(state)
    {
      var snapshot := state;
      failure := RequestWithdrawalInner(q, slot, allowed, destOk);
      if failure != None { state := snapshot; }
    }

    // ----- completions -----

    method CompleteInner(c: Completion, verified: bool) returns (failure: Option<Error>)
      modifies this
      ensures match CompleteWithdrawal(old(state), c, verified)
              case Ok(b) => failure == None && state == b
              case Err(x) => failure == Some(x)
    {
      if !verified || !Matches(state, c) { return Some(InvalidDepositProof); }
      var r := state.records[c.id].(completed := true);
      state := state.(records := state.records[c.id := r]);
      if r.asset in state.mappings {
        var m := state.mappings[r.asset];
        var amount := NormalizeAmount(r.amount, m.externalDecimals, m.canonicalDecimals);
        if amount.Err? { return Some(Convert(amount.error)); }
        failure := FinalizeWithdrawal(r.asset, amount.value, r.requestedAt);
        if failure != None { return; }
      }
      state := state.(markers := state.markers + {c.id});
      return None;
    }

    /** All or nothing. */
    method CompleteIndexedWithdrawal(c: Completion, verified: bool) returns (failure: Option<Error>)
      modifies this
      ensures match CompleteWithdrawal(old(state), c, verified)
              case Ok(b) => failure == None && state == b
              case Err(x) => failure == Some(x) && state == old(state)
    {
      var snapshot := state;
      failure := CompleteInner(c, verified);
      if failure != None { state := snapshot; }
    }
  }
}
