/** Reserve accounting of the canonical assets: deposits mint, withdrawals burn and wait, and
    completions release. */
module Bridges {
  import opened Basics
  import opened Tokens
  import opened Conversion

  type ExternalAsset = nat
  type CanonicalId = nat

  datatype Error =
    | InvalidAmount | InvalidDepositProof | DepositAlreadyProcessed | AssetNotMapped | ExternalAssetAlreadyMapped
    | MintDisabled | WithdrawDisabled | RiskLimit | CanonicalAssetNotFound | CanonicalAssetAlreadyExists
    | CanonicalAssetInactive | MappingMismatch | InvalidDestination | ArithmeticOverflow | ReserveInvariantViolation
    | InsufficientReserve(have: nat, need: nat) | InsufficientBalance(have: nat, need: nat)
    | Convert(why: ConversionError) | Token(cause: TokenError)

  datatype CanonicalAsset = CanonicalAsset(decimals: nat, mint: AccountId, active: bool)
  datatype Mapping = Mapping(canonical: CanonicalId, externalDecimals: nat, canonicalDecimals: nat,
                             mintEnabled: bool, withdrawEnabled: bool)
  datatype Position = Position(canonical: CanonicalId, deposited: nat, withdrawn: nat, pending: nat,
                               available: nat, slot: nat)
  datatype Supply = Supply(minted: nat, burned: nat, active: nat, buffer: nat)
  datatype Record = Record(id: nat, asset: ExternalAsset, amount: nat, sender: AccountId, dest: nat,
                           requestedAt: nat, completed: bool)

  /** The bridge's records. `authority` is the account that mints, and that burnt tokens go to. */
  datatype Bridge = Bridge(
    authority: AccountId,
    ledger: Ledger,
    canonicals: map<CanonicalId, CanonicalAsset>,
    mappings: map<ExternalAsset, Mapping>,
    positions: map<ExternalAsset, Position>,
    supplies: map<CanonicalId, Supply>,
    backing: map<CanonicalId, nat>,
    processed: set<nat>,
    index: seq<nat>,
    records: map<nat, Record>,
    markers: set<nat>)

  // ----- reserve accounting -----

  function PositionOr(b: Bridge, e: ExternalAsset, c: CanonicalId): Position {
    if e in b.positions then b.positions[e] else Position(c, 0, 0, 0, 0, 0)
  }

  function SupplyOr(b: Bridge, c: CanonicalId): Supply {
    if c in b.supplies then b.supplies[c] else Supply(0, 0, 0, 0)
  }

  function BackingOr(b: Bridge, c: CanonicalId): nat {
    if c in b.backing then b.backing[c] else 0
  }

  function RecordDeposit(b: Bridge, e: ExternalAsset, c: CanonicalId, amount: nat, slot: nat): Result<Bridge, Error> {
    var p := PositionOr(b, e, c);
    if amount == 0 then Err(InvalidAmount)
    else if p.canonical != c then Err(MappingMismatch)
    else if p.deposited + amount > U64_MAX || p.available + amount > U64_MAX then Err(ArithmeticOverflow)
    else if BackingOr(b, c) + amount > U64_MAX then Err(ArithmeticOverflow)
    else
      var q := p.(deposited := p.deposited + amount, available := p.available + amount, slot := slot);
      Ok(b.(positions := b.positions[e := q],
            backing := b.backing[c := BackingOr(b, c) + amount]))
  }

  function ReserveWithdrawal(b: Bridge, e: ExternalAsset, c: CanonicalId, amount: nat, slot: nat)
    : Result<Bridge, Error>
  {
    if amount == 0 then Err(InvalidAmount)
    else if e !in b.positions then Err(AssetNotMapped)
    else
      var p := b.positions[e];
      if p.canonical != c then Err(MappingMismatch)
      else if p.available < amount then Err(InsufficientReserve(p.available, amount))
      else if p.pending + amount > U64_MAX then Err(ArithmeticOverflow)
      else
        var q := p.(available := p.available - amount, pending := p.pending + amount, slot := slot);
        Ok(b.(positions := b.positions[e := q]))
  }

  function FinalizeWithdrawal(b: Bridge, e: ExternalAsset, amount: nat, slot: nat): Result<Bridge, Error> {
    if e !in b.positions then Err(AssetNotMapped)
    else
      var p := b.positions[e];
      if p.pending < amount then Err(InsufficientReserve(p.pending, amount))
      else if p.withdrawn + amount > U64_MAX then Err(ArithmeticOverflow)
      else if p.canonical !in b.backing then Err(CanonicalAssetNotFound)
      else if b.backing[p.canonical] < amount then Err(InsufficientReserve(b.backing[p.canonical], amount))
      else
        var q := p.(pending := p.pending - amount, withdrawn := p.withdrawn + amount, slot := slot);
        Ok(b.(positions := b.positions[e := q],
              backing := b.backing[p.canonical := b.backing[p.canonical] - amount]))
  }

  function IncreaseSupply(b: Bridge, c: CanonicalId, amount: nat): Result<Bridge, Error> {
    var s := SupplyOr(b, c);
    if s.minted + amount > U64_MAX || s.active + amount > U64_MAX then Err(ArithmeticOverflow)
    else Ok(b.(supplies := b.supplies[c := s.(minted := s.minted + amount, active := s.active + amount)]))
  }

  function DecreaseSupply(b: Bridge, c: CanonicalId, amount: nat): Result<Bridge, Error> {
    if c !in b.supplies then Err(CanonicalAssetNotFound)
    else
      var s := b.supplies[c];
      if s.active < amount then Err(InsufficientBalance(s.active, amount))
      else if s.burned + amount > U64_MAX then Err(ArithmeticOverflow)
      else Ok(b.(supplies := b.supplies[c := s.(burned := s.burned + amount, active := s.active - amount)]))
  }

  function CheckInvariant(b: Bridge, c: CanonicalId): Option<Error> {
    var s := SupplyOr(b, c);
    if s.active + s.buffer > U64_MAX then Some(ArithmeticOverflow)
    else if s.active + s.buffer > BackingOr(b, c) then Some(ReserveInvariantViolation)
    else None
  }

  // ----- registration -----

  /** The id and mint are hashes of the symbol and decimals. */
  function RegisterCanonical(b: Bridge, c: CanonicalId, decimals: nat, mint: AccountId): Result<Bridge, Error> {
    if decimals > MAX_DECIMALS then Err(Convert(BadDecimals))
    else if c in b.canonicals then Err(CanonicalAssetAlreadyExists)
    else if mint in b.ledger.supply then Err(Token(MintExists))
    else
      var b1 := b.(ledger := b.ledger.(supply := b.ledger.supply[mint := 0]),
                   canonicals := b.canonicals[c := CanonicalAsset(decimals, mint, true)]);
      Ok(if c in b.supplies then b1
         else b1.(supplies := b.supplies[c := Supply(0, 0, 0, 0)], backing := b.backing[c := 0]))
  }

  /** `wrapped` is the mint of the asset's plain wrapped token, made here if it is new. */
  function MapExternal(b: Bridge, e: ExternalAsset, c: CanonicalId, externalDecimals: nat, wrapped: AccountId)
    : Result<Bridge, Error>
  {
    if externalDecimals > MAX_DECIMALS then Err(Convert(BadDecimals))
    else if c !in b.canonicals then Err(CanonicalAssetNotFound)
    else if !b.canonicals[c].active then Err(CanonicalAssetInactive)
    else if e in b.mappings then Err(ExternalAssetAlreadyMapped)
    else
      var supply := if wrapped in b.ledger.supply then b.ledger.supply else b.ledger.supply[wrapped := 0];
      Ok(b.(ledger := b.ledger.(supply := supply),
            mappings := b.mappings[e := Mapping(c, externalDecimals, b.canonicals[c].decimals, true, true)],
            positions := if e in b.positions then b.positions else b.positions[e := Position(c, 0, 0, 0, 0, 0)]))
  }

  // ----- deposits -----

  datatype Deposit = Deposit(id: nat, asset: ExternalAsset, amount: nat, recipient: AccountId)

  /** Lift the error of a helper. */
  function OrToken(r: Result<Ledger, TokenError>): Result<Ledger, Error> {
    match r case Ok(l) => Ok(l) case Err(e) => Err(Token(e))
  }

  function OrConvert(r: Result<nat, ConversionError>): Result<nat, Error> {
    match r case Ok(n) => Ok(n) case Err(e) => Err(Convert(e))
  }

  /** `verified`: the relayer is approved and the signature is good; `allowed`: the risk limits
      of the mapping admit the amount. */
  function ProcessDeposit(b: Bridge, d: Deposit, slot: nat, verified: bool, allowed: bool): Result<Bridge, Error> {
    if !verified then Err(InvalidDepositProof)
    else if d.amount == 0 then Err(InvalidAmount)
    else if d.id in b.processed then Err(DepositAlreadyProcessed)
    else if d.asset !in b.mappings then Err(AssetNotMapped)
    else
      var m := b.mappings[d.asset];
      if !m.mintEnabled then Err(MintDisabled)
      else if !allowed then Err(RiskLimit)
      else if m.canonical !in b.canonicals then Err(CanonicalAssetNotFound)
      else if !b.canonicals[m.canonical].active then Err(CanonicalAssetInactive)
      else
        var amount :- OrConvert(NormalizeAmount(d.amount, m.externalDecimals, m.canonicalDecimals));
        Credited(b, d, m.canonical, b.canonicals[m.canonical].mint, amount, slot)
  }

  /** Book the deposit, mint, raise the supply, mark the deposit, and check. */
  function Credited(b: Bridge, d: Deposit, c: CanonicalId, mint: AccountId, amount: nat, slot: nat)
    : Result<Bridge, Error>
  {
    var b1 :- RecordDeposit(b, d.asset, c, amount, slot);
    var l :- OrToken(MintTo(b1.ledger, mint, d.recipient, amount));
    var b2 :- IncreaseSupply(b1.(ledger := l), c, amount);
    var b3 := b2.(processed := b2.processed + {d.id});
    match CheckInvariant(b3, c) case Some(e) => Err(e) case None => Ok(b3)
  }

  // ----- withdrawals -----

  datatype Request = Request(id: nat, sender: AccountId, canonical: CanonicalId, amount: nat,
                             asset: ExternalAsset, dest: nat)

  /** A new record under a known id replaces the old one and is not listed again. */
  function IndexRecord(b: Bridge, r: Record): Bridge {
    b.(index := if r.id in b.records then b.index else b.index + [r.id], records := b.records[r.id := r])
  }

  function RequestWithdrawal(b: Bridge, q: Request, slot: nat, allowed: bool, destOk: bool): Result<Bridge, Error> {
    if q.amount == 0 then Err(InvalidAmount)
    else if q.canonical !in b.canonicals then Err(CanonicalAssetNotFound)
    else if !b.canonicals[q.canonical].active then Err(CanonicalAssetInactive)
    else if q.asset !in b.mappings then Err(AssetNotMapped)
    else
      var m, mint := b.mappings[q.asset], b.canonicals[q.canonical].mint;
      if m.canonical != q.canonical then Err(MappingMismatch)
      else if !m.withdrawEnabled then Err(WithdrawDisabled)
      else if !allowed then Err(RiskLimit)
      else if !destOk then Err(InvalidDestination)
      else
        var external :- OrConvert(NormalizeAmount(q.amount, m.canonicalDecimals, m.externalDecimals));
        if BalanceOf(b.ledger, mint, q.sender) < q.amount then
          Err(InsufficientBalance(BalanceOf(b.ledger, mint, q.sender), q.amount))
        else Debited(b, q, mint, external, slot)
  }

  /** Reserve, burn, lower the supply, index the record, and check. */
  function Debited(b: Bridge, q: Request, mint: AccountId, external: nat, slot: nat): Result<Bridge, Error> {
    var b1 :- ReserveWithdrawal(b, q.asset, q.canonical, q.amount, slot);
    var l :- OrToken(Transfer(b1.ledger, mint, q.sender, b.authority, q.amount));
    var b2 :- DecreaseSupply(b1.(ledger := l), q.canonical, q.amount);
    var b3 := IndexRecord(b2, Record(q.id, q.asset, external, q.sender, q.dest, slot, false));
    match CheckInvariant(b3, q.canonical) case Some(e) => Err(e) case None => Ok(b3)
  }

  /** A withdrawal of the plain wrapped token of `asset`: it burns that token and indexes a
      record, without touching the reserves. */
  function RequestWrapped(b: Bridge, r: Record, mint: AccountId, destOk: bool): Result<Bridge, Error> {
    if r.amount == 0 then Err(InvalidAmount)
    else if !destOk then Err(InvalidDestination)
    else if mint !in b.ledger.supply then Err(AssetNotMapped)
    else if BalanceOf(b.ledger, mint, r.sender) < r.amount then
      Err(InsufficientBalance(BalanceOf(b.ledger, mint, r.sender), r.amount))
    else
      var l :- OrToken(Transfer(b.ledger, mint, r.sender, b.authority, r.amount));
      Ok(IndexRecord(b.(ledger := l), r.(completed := false)))
  }

  // ----- completions -----

  datatype Completion = Completion(id: nat, asset: ExternalAsset, recipient: nat, amount: nat)

  /** The completion speaks of a stored record that is still open. */
  predicate Matches(b: Bridge, c: Completion) {
    && c.id in b.records && !b.records[c.id].completed
    && b.records[c.id].asset == c.asset && b.records[c.id].dest == c.recipient && b.records[c.id].amount == c.amount
  }

  /** `verified`: the relayer is approved, its signature is good and it signed the record's hash. */
  function CompleteWithdrawal(b: Bridge, c: Completion, verified: bool): Result<Bridge, Error> {
    if !verified || !Matches(b, c) then Err(InvalidDepositProof)
    else
      var r := b.records[c.id].(completed := true);
      var b1 := b.(records := b.records[c.id := r]);
      var b2 :- Released(b1, r);
      Ok(b2.(markers := b2.markers + {c.id}))
  }

  function Released(b: Bridge, r: Record): Result<Bridge, Error> {
    if r.asset !in b.mappings then Ok(b)
    else
      var m := b.mappings[r.asset];
      var amount :- OrConvert(NormalizeAmount(r.amount, m.externalDecimals, m.canonicalDecimals));
      FinalizeWithdrawal(b, r.asset, amount, r.requestedAt)
  }
}
