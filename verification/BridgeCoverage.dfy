/** What is pending always covers the open withdrawals. */
module BridgeCoverage {
  import opened Basics
  import opened MapSums
  import opened Conversion
  import opened Bridges
  import opened BridgeBooks
  import opened BridgeRuns

  function BackAmount(m: Mapping, amount: nat): Result<nat, ConversionError> {
    NormalizeAmount(amount, m.externalDecimals, m.canonicalDecimals)
  }

  /** What completing a record of asset `e` takes out of its position. */
  function Due(r: Record, e: ExternalAsset, m: Mapping): nat {
    if r.completed || r.asset != e then 0
    else match BackAmount(m, r.amount) case Ok(n) => n case Err(_) => 0
  }

  function Owed(records: map<nat, Record>, e: ExternalAsset, m: Mapping): map<nat, nat> {
    map id | id in records :: Due(records[id], e, m)
  }

  /** Every open record of a mapped asset can be converted back. */
  predicate Convertible(m: Mapping, e: ExternalAsset, r: Record) {
    !r.completed && r.asset == e ==> BackAmount(m, r.amount).Ok?
  }

  ghost predicate CoveredAt(records: map<nat, Record>, e: ExternalAsset, m: Mapping, pending: nat) {
    MapSum(Owed(records, e, m)) <= pending && forall id :: id in records ==> Convertible(m, e, records[id])
  }

  ghost predicate Covered(b: Bridge) {
    forall e :: e in b.mappings ==> e in b.positions && CoveredAt(b.records, e, b.mappings[e], b.positions[e].pending)
  }

  /** What is pending for `r`'s asset has room for one more record, in place of the record
      that is stored under its identifier. */
  ghost predicate HasRoom(b: Bridge, r: Record)
    requires r.asset in b.mappings && r.asset in b.positions
  {
    var m := b.mappings[r.asset];
    && BackAmount(m, r.amount).Ok?
    && MapSum(Owed(b.records, r.asset, m)) + BackAmount(m, r.amount).value
       <= b.positions[r.asset].pending + if r.id in b.records then Due(b.records[r.id], r.asset, m) else 0
  }

  /** The step leaves what is pending enough: a plain wrapped withdrawal of a mapped asset
      finds room, and an asset is mapped while none of its records is open. */
  ghost predicate Quiet(b: Bridge, op: Op)
    requires PositionsOk(b)
  {
    match op
    case WrappedOp(r, _, _) => r.asset in b.mappings ==> HasRoom(b, r)
    case MapOp(e, _, _, _) => NoneOpen(b.records, e)
    case _ => true
  }

  // ----- one record -----

  lemma {:induction false} OwedStore(records: map<nat, Record>, id: nat, r: Record, e: ExternalAsset, m: Mapping)
    ensures MapSum(Owed(records[id := r], e, m)) + (if id in records then Due(records[id], e, m) else 0)
         == MapSum(Owed(records, e, m)) + Due(r, e, m)
  {
    assert Owed(records[id := r], e, m) == Owed(records, e, m)[id := Due(r, e, m)];
    MapSumUpdate(Owed(records, e, m), id, Due(r, e, m));
  }

  /** A new open record needs at most its due added to what is pending. */
  lemma {:induction false} StoreCovered(records: map<nat, Record>, r: Record, e: ExternalAsset, m: Mapping,
                                        pending: nat)
    requires CoveredAt(records, e, m, pending) && Convertible(m, e, r)
    ensures CoveredAt(records[r.id := r], e, m, pending + Due(r, e, m))
  {
    OwedStore(records, r.id, r, e, m);
  }

  /** A completed record frees its due. */
  lemma {:induction false} CompleteCovered(records: map<nat, Record>, id: nat, e: ExternalAsset, m: Mapping,
                                           pending: nat)
    requires CoveredAt(records, e, m, pending) && id in records
    ensures Due(records[id], e, m) <= pending
    ensures CoveredAt(records[id := records[id].(completed := true)], e, m, pending - Due(records[id], e, m))
  {
    OwedStore(records, id, records[id].(completed := true), e, m);
    MapSumAtLeast(Owed(records, e, m), id);
  }

  // ----- one step -----

  /** No record finalizes more than it reserved. */
  lemma {:induction false} RequestReservesEnough(m: Mapping, amount: nat, external: nat)
    requires amount <= U64_MAX && NormalizeAmount(amount, m.canonicalDecimals, m.externalDecimals) == Ok(external)
    ensures BackAmount(m, external).Ok? && 0 < BackAmount(m, external).value <= amount
  {
    ConvertsBack(amount, m.canonicalDecimals, m.externalDecimals);
  }

  lemma {:induction false} RequestCovered(b: Bridge, q: Request, slot: nat, allowed: bool, destOk: bool, a: Bridge)
    requires PositionsOk(b) && Covered(b) && RequestWithdrawal(b, q, slot, allowed, destOk) == Ok(a)
    ensures Covered(a)
  {
    var external := RequestParts(b, q, slot, allowed, destOk, a);
    DebitedIs(b, q, b.canonicals[q.canonical].mint, external, slot);
    RequestReservesEnough(b.mappings[q.asset], q.amount, external);
    var r := Record(q.id, q.asset, external, q.sender, q.dest, slot, false);
    forall e | e in a.mappings
      ensures e in a.positions && CoveredAt(a.records, e, a.mappings[e], a.positions[e].pending)
    {
      StoreCovered(b.records, r, e, b.mappings[e], b.positions[e].pending);
    }
  }

  /** A plain wrapped withdrawal keeps the cover exactly when there is room for it. */
  lemma {:induction false} WrappedCovered(b: Bridge, r: Record, mint: AccountId, destOk: bool, a: Bridge)
    requires PositionsOk(b) && Covered(b) && RequestWrapped(b, r, mint, destOk) == Ok(a)
    ensures Covered(a) <==> (r.asset in b.mappings ==> HasRoom(b, r))
  {
    var open := r.(completed := false);
    forall e | e in b.mappings && e != r.asset
      ensures CoveredAt(a.records, e, b.mappings[e], b.positions[e].pending)
    {
      StoreCovered(b.records, open, e, b.mappings[e], b.positions[e].pending);
    }
    if r.asset in b.mappings {
      OwedStore(b.records, r.id, open, r.asset, b.mappings[r.asset]);
      assert a.records[r.id] == open;
      assert CoveredAt(b.records, r.asset, b.mappings[r.asset], b.positions[r.asset].pending);
      RoomIsCover(b, r, open);
    }
  }

  lemma {:induction false} RoomIsCover(b: Bridge, r: Record, open: Record)
    requires r.asset in b.mappings && r.asset in b.positions && open == r.(completed := false)
    requires CoveredAt(b.records, r.asset, b.mappings[r.asset], b.positions[r.asset].pending)
    ensures HasRoom(b, r) <==>
      CoveredAt(b.records[r.id := open], r.asset, b.mappings[r.asset], b.positions[r.asset].pending)
  {
    var records := b.records[r.id := open];
    OwedStore(b.records, r.id, open, r.asset, b.mappings[r.asset]);
    if CoveredAt(records, r.asset, b.mappings[r.asset], b.positions[r.asset].pending) {
      assert Convertible(b.mappings[r.asset], r.asset, records[r.id]);
    }
  }

  ghost predicate NoneOpen(records: map<nat, Record>, e: ExternalAsset) {
    forall id :: id in records && records[id].asset == e ==> records[id].completed
  }

  /** Nothing pending is enough exactly when no record is open. */
  lemma {:induction false} NothingCovers(records: map<nat, Record>, e: ExternalAsset, m: Mapping)
    ensures CoveredAt(records, e, m, 0) <==> NoneOpen(records, e)
  {
    if NoneOpen(records, e) {
      MapSumZero(Owed(records, e, m));
    } else if CoveredAt(records, e, m, 0) {
      var id :| id in records && records[id].asset == e && !records[id].completed;
      assert Convertible(m, e, records[id]);
      ConvertsToSome(records[id].amount, m.externalDecimals, m.canonicalDecimals);
      MapSumAtLeast(Owed(records, e, m), id);
    }
  }

  /** Mapping an asset keeps the cover exactly when none of its records is open. */
  lemma {:induction false} MapCovered(b: Bridge, e: ExternalAsset, c: CanonicalId, decimals: nat, wrapped: AccountId,
                                      a: Bridge)
    requires PositionsOk(b) && Covered(b) && MapExternal(b, e, c, decimals, wrapped) == Ok(a)
    ensures Covered(a) <==> NoneOpen(b.records, e)
  {
    NothingCovers(b.records, e, a.mappings[e]);
    forall x | x in b.mappings
      ensures CoveredAt(a.records, x, a.mappings[x], a.positions[x].pending)
    {
      assert CoveredAt(b.records, x, b.mappings[x], b.positions[x].pending);
    }
  }

  lemma {:induction false} CompletionCovered(b: Bridge, c: Completion, verified: bool, a: Bridge)
    requires Covered(b) && CompleteWithdrawal(b, c, verified) == Ok(a)
    ensures Covered(a)
  {
    forall e | e in a.mappings
      ensures e in a.positions && CoveredAt(a.records, e, a.mappings[e], a.positions[e].pending)
    {
      CompleteCovered(b.records, c.id, e, b.mappings[e], b.positions[e].pending);
    }
  }

  lemma {:induction false} SamePending(b: Bridge, a: Bridge)
    requires Covered(b) && a.mappings == b.mappings && a.records == b.records
    requires forall e :: e in b.positions ==> e in a.positions && a.positions[e].pending == b.positions[e].pending
    ensures Covered(a)
  {
  }

  lemma {:induction false} DepositCovered(b: Bridge, d: Deposit, slot: nat, verified: bool, allowed: bool, a: Bridge)
    requires BooksOk(b) && Covered(b) && ProcessDeposit(b, d, slot, verified, allowed) == Ok(a)
    ensures Covered(a)
  {
    var c, n := DepositParts(b, d, slot, verified, allowed, a);
    assert TotalsOk(b, c);
    CreditedIs(b, d, c, b.canonicals[c].mint, n, slot);
    SamePending(b, a);
  }

  lemma {:induction false} RegisterCovered(b: Bridge, c: CanonicalId, decimals: nat, mint: AccountId, a: Bridge)
    requires Covered(b) && RegisterCanonical(b, c, decimals, mint) == Ok(a)
    ensures Covered(a)
  {
    SamePending(b, a);
  }

  /** A step keeps the cover exactly when it is quiet or fails. */
  lemma {:induction false} ApplyCovered(b: Bridge, op: Op)
    requires BooksOk(b) && Covered(b)
    ensures Covered(Apply(b, op)) <==> (Try(b, op).Ok? ==> Quiet(b, op))
  {
    if Try(b, op).Ok? {
      var a := Try(b, op).value;
      match op
      case RegisterOp(c, n, mint) => RegisterCovered(b, c, n, mint, a);
      case MapOp(e, c, n, wrapped) => MapCovered(b, e, c, n, wrapped, a);
      case DepositOp(d, slot, verified, allowed) => DepositCovered(b, d, slot, verified, allowed, a);
      case RequestOp(q, slot, allowed, destOk) => RequestCovered(b, q, slot, allowed, destOk, a);
      case WrappedOp(r, mint, destOk) => WrappedCovered(b, r, mint, destOk, a);
      case CompleteOp(c, verified) => CompletionCovered(b, c, verified, a);
      case OutsideOp(mint, u, v, n) => SamePending(b, a);
    }
  }

  // ----- runs -----

  /** Every step that succeeds is quiet. */
  ghost predicate QuietRun(b: Bridge, ops: seq<Op>)
    decreases |ops|
  {
    ops != [] ==>
      && PositionsOk(b) && (Try(b, ops[0]).Ok? ==> Quiet(b, ops[0]))
      && QuietRun(Apply(b, ops[0]), ops[1..])
  }

  /** The cover holds in every state of the run. */
  ghost predicate CoveredAllAlong(b: Bridge, ops: seq<Op>)
    decreases |ops|
  {
    Covered(b) && (ops != [] ==> CoveredAllAlong(Apply(b, ops[0]), ops[1..]))
  }

  lemma {:induction false} RunCovered(b: Bridge, ops: seq<Op>)
    requires BooksOk(b) && Covered(b)
    ensures CoveredAllAlong(b, ops) <==> QuietRun(b, ops)
    ensures QuietRun(b, ops) ==> BooksOk(Run(b, ops)) && Covered(Run(b, ops))
    decreases |ops|
  {
    if ops != [] {
      ApplyBooks(b, ops[0]);
      ApplyCovered(b, ops[0]);
      if Covered(Apply(b, ops[0])) { RunCovered(Apply(b, ops[0]), ops[1..]); }
    }
  }

  // ----- completions -----

  /** A completion succeeds exactly when it is verified, names an open record with its asset, amount
      and destination, and what is pending for a mapped asset is enough for it. */
  lemma {:induction false} CompletionExactly(b: Bridge, c: Completion, verified: bool)
    requires BooksOk(b)
    ensures CompleteWithdrawal(b, c, verified).Ok? <==>
      && verified && c.id in b.records && !b.records[c.id].completed && b.records[c.id].asset == c.asset
      && b.records[c.id].amount == c.amount && b.records[c.id].dest == c.recipient
      && (c.asset in b.mappings ==>
            && BackAmount(b.mappings[c.asset], c.amount).Ok?
            && BackAmount(b.mappings[c.asset], c.amount).value <= b.positions[c.asset].pending)
  {
    if verified && Matches(b, c) {
      var r := b.records[c.id].(completed := true);
      RestAside(b, b.(records := b.records[c.id := r]));
      ReleasedExactly(b.(records := b.records[c.id := r]), r);
    }
  }

  lemma {:induction false} ReleasedExactly(b: Bridge, r: Record)
    requires BooksOk(b)
    ensures Released(b, r).Ok? <==>
      (r.asset in b.mappings ==>
         && BackAmount(b.mappings[r.asset], r.amount).Ok?
         && BackAmount(b.mappings[r.asset], r.amount).value <= b.positions[r.asset].pending)
  {
    if r.asset in b.mappings {
      var back := BackAmount(b.mappings[r.asset], r.amount);
      ReleasedIs(b, r, back);
      if back.Ok? { FinalizeExactly(b, r.asset, back.value, r.requestedAt); }
    }
  }

  lemma {:induction false} ReleasedIs(b: Bridge, r: Record, back: Result<nat, ConversionError>)
    requires r.asset in b.mappings && back == BackAmount(b.mappings[r.asset], r.amount)
    ensures Released(b, r).Ok? <==> back.Ok? && FinalizeWithdrawal(b, r.asset, back.value, r.requestedAt).Ok?
  {
  }

  lemma {:induction false} FinalizeExactly(b: Bridge, e: ExternalAsset, n: nat, slot: nat)
    requires BooksOk(b) && e in b.mappings
    ensures FinalizeWithdrawal(b, e, n, slot).Ok? <==> n <= b.positions[e].pending
  {
    if n <= b.positions[e].pending { FinalizeFits(b, e, n, slot); } else { FinalizeShort(b, e, n, slot); }
  }

  lemma {:induction false} FinalizeShort(b: Bridge, e: ExternalAsset, n: nat, slot: nat)
    requires e in b.positions && b.positions[e].pending < n
    ensures FinalizeWithdrawal(b, e, n, slot).Err?
  {
  }

  /** Under cover only the first two matter: the conversion and the reserve never stand in the way. */
  lemma {:induction false} CompletionSucceeds(b: Bridge, c: Completion, verified: bool)
    requires BooksOk(b) && Covered(b)
    ensures CompleteWithdrawal(b, c, verified).Ok? <==> verified && Matches(b, c)
  {
    CompletionExactly(b, c, verified);
    if Matches(b, c) && c.asset in b.mappings {
      var m := b.mappings[c.asset];
      CompleteCovered(b.records, c.id, c.asset, m, b.positions[c.asset].pending);
      assert Convertible(m, c.asset, b.records[c.id]);
    }
  }

  function CompletionOf(r: Record): Completion {
    Completion(r.id, r.asset, r.dest, r.amount)
  }

  /** A matching completion of a mapped asset turns on what is pending. */
  lemma {:induction false} CompletesIff(b: Bridge, r: Record, n: nat)
    requires BooksOk(b) && Matches(b, CompletionOf(r)) && r.asset in b.mappings
    requires BackAmount(b.mappings[r.asset], r.amount) == Ok(n)
    ensures CompleteWithdrawal(b, CompletionOf(r), true).Ok? <==> n <= b.positions[r.asset].pending
  {
    CompletionExactly(b, CompletionOf(r), true);
  }

  /** What a request changes: its amount is pending, its record `r` is open, and completing it
      takes `k`. */
  ghost predicate Opened(b: Bridge, q: Request, a: Bridge, r: Record, k: nat) {
    && r.id == q.id && r.asset == q.asset && Matches(a, CompletionOf(r)) && a.records == b.records[q.id := r]
    && a.mappings == b.mappings && q.asset in b.mappings && q.asset in a.positions && q.asset in b.positions
    && a.positions[q.asset].pending == b.positions[q.asset].pending + q.amount
    && BackAmount(b.mappings[q.asset], r.amount) == Ok(k)
  }

  lemma {:induction false} RequestOpens(b: Bridge, q: Request, slot: nat, allowed: bool, destOk: bool, a: Bridge)
    returns (r: Record, k: nat)
    requires PositionsOk(b) && RequestWithdrawal(b, q, slot, allowed, destOk) == Ok(a)
    ensures Opened(b, q, a, r, k)
    ensures k == q.amount - Dust(q.amount, b.mappings[q.asset].canonicalDecimals, b.mappings[q.asset].externalDecimals)
  {
    var external := RequestParts(b, q, slot, allowed, destOk, a);
    DebitedIs(b, q, b.canonicals[q.canonical].mint, external, slot);
    var m := b.mappings[q.asset];
    ConvertsBack(q.amount, m.canonicalDecimals, m.externalDecimals);
    r := Record(q.id, q.asset, external, q.sender, q.dest, slot, false);
    k := q.amount - Dust(q.amount, m.canonicalDecimals, m.externalDecimals);
  }

  lemma {:induction false} CompletionTakes(b: Bridge, c: Completion, n: nat, a: Bridge, other: Completion)
    requires CompleteWithdrawal(b, c, true) == Ok(a) && c.asset in b.mappings && c.asset in b.positions
    requires BackAmount(b.mappings[c.asset], c.amount) == Ok(n) && other.id != c.id && Matches(b, other)
    ensures a.mappings == b.mappings && c.asset in a.positions
    ensures a.positions[c.asset].pending == b.positions[c.asset].pending - n
    ensures Matches(a, other)
  {
  }

  /** Two open records of one asset draw on the same reserve. */
  lemma {:induction false} OneAfterTheOther(b: Bridge, w: Record, n: nat, r: Record, k: nat, done: Bridge)
    requires BooksOk(b) && Matches(b, CompletionOf(r)) && r.id != w.id && r.asset == w.asset && w.asset in b.mappings
    requires BackAmount(b.mappings[w.asset], w.amount) == Ok(n) && BackAmount(b.mappings[w.asset], r.amount) == Ok(k)
    requires CompleteWithdrawal(b, CompletionOf(w), true) == Ok(done)
    ensures Matches(done, CompletionOf(r))
    ensures CompleteWithdrawal(done, CompletionOf(r), true).Ok? <==> n + k <= b.positions[w.asset].pending
  {
    CompleteBooks(b, CompletionOf(w), true, done);
    CompletionTakes(b, CompletionOf(w), n, done, CompletionOf(r));
    CompletesIff(done, r, k);
  }

  /** Without cover an open record lives off the reserves of others: one that what is pending
      does not pay for, such as a plain wrapped withdrawal of a mapped asset, waits until a
      request of the same asset reserves enough. */
  lemma {:induction false} UncoveredWaits(b: Bridge, w: Record, n: nat, q: Request, slot: nat, allowed: bool,
                                          destOk: bool, a: Bridge)
    requires BooksOk(b) && RequestWithdrawal(b, q, slot, allowed, destOk) == Ok(a)
    requires Matches(b, CompletionOf(w)) && w.asset in b.mappings && BackAmount(b.mappings[w.asset], w.amount) == Ok(n)
    requires q.asset == w.asset && q.id != w.id
    ensures CompleteWithdrawal(b, CompletionOf(w), true).Ok? <==> n <= b.positions[w.asset].pending
    ensures CompleteWithdrawal(a, CompletionOf(w), true).Ok? <==> n <= b.positions[w.asset].pending + q.amount
  {
    RequestWithdrawalBooks(b, q, slot, allowed, destOk, a);
    var r, k := RequestOpens(b, q, slot, allowed, destOk, a);
    CompletesIff(b, w, n);
    CompletesIff(a, w, n);
  }

  /** It is then completed out of that request's reserve: the request itself can be completed
      afterwards exactly if what both take fits what was pending before and the request's amount. */
  lemma {:induction false} UncoveredTakesReserve(b: Bridge, w: Record, n: nat, q: Request, slot: nat, allowed: bool,
                                                 destOk: bool, a: Bridge, done: Bridge)
    returns (r: Record, k: nat)
    requires BooksOk(b) && RequestWithdrawal(b, q, slot, allowed, destOk) == Ok(a)
    requires w.asset in b.mappings && BackAmount(b.mappings[w.asset], w.amount) == Ok(n)
    requires q.asset == w.asset && q.id != w.id && CompleteWithdrawal(a, CompletionOf(w), true) == Ok(done)
    ensures Opened(b, q, a, r, k) && 0 < k <= q.amount && Matches(done, CompletionOf(r))
    ensures CompleteWithdrawal(done, CompletionOf(r), true).Ok? <==> n + k <= b.positions[w.asset].pending + q.amount
  {
    RequestWithdrawalBooks(b, q, slot, allowed, destOk, a);
    r, k := OpenedBy(b, q, slot, allowed, destOk, a);
    OneAfterTheOther(a, w, n, r, k, done);
  }

  lemma {:induction false} OpenedBy(b: Bridge, q: Request, slot: nat, allowed: bool, destOk: bool, a: Bridge)
    returns (r: Record, k: nat)
    requires PositionsOk(b) && RequestWithdrawal(b, q, slot, allowed, destOk) == Ok(a)
    ensures Opened(b, q, a, r, k) && 0 < k <= q.amount
  {
    r, k := RequestOpens(b, q, slot, allowed, destOk, a);
    ConvertsToSome(r.amount, b.mappings[q.asset].externalDecimals, b.mappings[q.asset].canonicalDecimals);
  }

  // ----- once -----

  predicate Closed(b: Bridge, id: nat) {
    id in b.records && b.records[id].completed
  }

  predicate Pending(b: Bridge, id: nat) {
    id in b.records && !b.records[id].completed
  }

  /** The step stores a new record under `id`, or completes the one there. */
  predicate Writes(b: Bridge, op: Op, id: nat) {
    Try(b, op).Ok? && ((op.RequestOp? && op.q.id == id) || (op.WrappedOp? && op.r.id == id))
  }

  predicate Completes(b: Bridge, op: Op, id: nat) {
    Try(b, op).Ok? && op.CompleteOp? && op.done.id == id
  }

  lemma {:induction false} StepRecord(b: Bridge, op: Op, id: nat)
    ensures Writes(b, op, id) ==> Pending(Apply(b, op), id)
    ensures Completes(b, op, id) ==> Pending(b, id) && Closed(Apply(b, op), id)
    ensures !Writes(b, op, id) && !Completes(b, op, id) ==>
      (Pending(Apply(b, op), id) <==> Pending(b, id)) && (Closed(Apply(b, op), id) <==> Closed(b, id))
  {
    ApplyWrites(b, op);
    if op.RequestOp? && Try(b, op).Ok? {
      var external := RequestParts(b, op.q, op.slot, op.allowed, op.destOk, Try(b, op).value);
      DebitedKeeps(b, op.q, b.canonicals[op.q.canonical].mint, external, op.slot, Try(b, op).value);
    }
  }

  /** A completed record stays completed until a new one is stored under its identifier. */
  lemma {:induction false} StaysClosed(b: Bridge, op: Op, id: nat)
    requires Closed(b, id)
    ensures Closed(Apply(b, op), id) <==> !Writes(b, op, id)
  {
    StepRecord(b, op, id);
  }

  predicate NeverWritten(b: Bridge, ops: seq<Op>, id: nat)
    decreases |ops|
  {
    ops != [] ==> !Writes(b, ops[0], id) && NeverWritten(Apply(b, ops[0]), ops[1..], id)
  }

  lemma {:induction false} RunClosed(b: Bridge, ops: seq<Op>, id: nat)
    requires NeverWritten(b, ops, id) && Closed(b, id)
    ensures Closed(Run(b, ops), id)
    decreases |ops|
  {
    if ops != [] {
      StaysClosed(b, ops[0], id);
      RunClosed(Apply(b, ops[0]), ops[1..], id);
    }
  }

  /** So no later completion of it succeeds, unless its identifier is used for a new record. */
  lemma {:induction false} CompletesOnce(b: Bridge, c: Completion, a: Bridge, ops: seq<Op>, again: Completion,
                                         verified: bool)
    requires CompleteWithdrawal(b, c, true) == Ok(a) && again.id == c.id && NeverWritten(a, ops, c.id)
    ensures CompleteWithdrawal(Run(a, ops), again, verified).Err?
  {
    StepRecord(b, CompleteOp(c, true), c.id);
    RunClosed(a, ops, c.id);
  }

  /** A request under a completed identifier opens it again, and it can be completed again. */
  lemma {:induction false} ReusedIdCompletesAgain(b: Bridge, q: Request, slot: nat, allowed: bool, destOk: bool,
                                                  a: Bridge)
    returns (r: Record)
    requires BooksOk(b) && Covered(b) && Closed(b, q.id)
    requires RequestWithdrawal(b, q, slot, allowed, destOk) == Ok(a)
    ensures r.id == q.id && CompleteWithdrawal(a, CompletionOf(r), true).Ok?
  {
    var k;
    r, k := RequestOpens(b, q, slot, allowed, destOk, a);
    RequestWithdrawalBooks(b, q, slot, allowed, destOk, a);
    RequestCovered(b, q, slot, allowed, destOk, a);
    CompletionSucceeds(a, CompletionOf(r), true);
  }

  // ----- every record over every run -----

  function Count(b: bool): nat {
    if b then 1 else 0
  }

  function Stored(b: Bridge, ops: seq<Op>, id: nat): nat
    decreases |ops|
  {
    if ops == [] then 0 else Count(Writes(b, ops[0], id)) + Stored(Apply(b, ops[0]), ops[1..], id)
  }

  function Completed(b: Bridge, ops: seq<Op>, id: nat): nat
    decreases |ops|
  {
    if ops == [] then 0 else Count(Completes(b, ops[0], id)) + Completed(Apply(b, ops[0]), ops[1..], id)
  }

  /** Records that were still open when another was stored in their place. */
  function Replaced(b: Bridge, ops: seq<Op>, id: nat): nat
    decreases |ops|
  {
    if ops == [] then 0
    else Count(Writes(b, ops[0], id) && Pending(b, id)) + Replaced(Apply(b, ops[0]), ops[1..], id)
  }

  /** Whatever the run, each record stored under an identifier is completed once, replaced while
      open, or still open at the end. */
  lemma {:induction false} EachRecordOnce(b: Bridge, ops: seq<Op>, id: nat)
    ensures Count(Pending(b, id)) + Stored(b, ops, id)
         == Completed(b, ops, id) + Replaced(b, ops, id) + Count(Pending(Run(b, ops), id))
    decreases |ops|
  {
    if ops != [] {
      StepRecord(b, ops[0], id);
      EachRecordOnce(Apply(b, ops[0]), ops[1..], id);
    }
  }
}
