/** Claims come before the expiry of an intent and refunds after it. */
module IntentTimes {
  import opened Basics
  import opened Intents
  import opened IntentRuns

  /** The block slot an operation runs in, where it looks at it. */
  function SlotOf(op: Op): Option<nat> {
    match op
    case CreateOp(_, _, _, slot, _) => Some(slot)
    case ExpireOp(_, slot) => Some(slot)
    case RefundOp(_, _, _, _, slot) => Some(slot)
    case ClaimOp(_, _, _, _, _, slot, _) => Some(slot)
    case _ => None
  }

  function Later(now: nat, op: Op): nat {
    if SlotOf(op).Some? then SlotOf(op).value else now
  }

  /** Blocks come in order. */
  predicate InOrder(now: nat, ops: seq<Op>)
    decreases |ops|
  {
    ops != [] ==> now <= Later(now, ops[0]) && InOrder(Later(now, ops[0]), ops[1..])
  }

  function After(now: nat, ops: seq<Op>): nat
    decreases |ops|
  {
    if ops == [] then now else After(Later(now, ops[0]), ops[1..])
  }

  /** What is marked expired has expired. */
  ghost predicate ExpiredByNow(w: World, now: nat) {
    forall id :: id in w.intents && w.intents[id].status == Expired ==> w.intents[id].expiry < now
  }

  lemma {:induction false} ApplyExpired(derive: Derive, w: World, now: nat, op: Op)
    requires IntentsOk(derive, w) && ExpiredByNow(w, now) && now <= Later(now, op)
    ensures ExpiredByNow(Apply(derive, w, op), Later(now, op))
  {
    if Try(derive, w, op).Ok? { TouchesOne(derive, w, op); }
  }

  lemma {:induction false} RunExpired(derive: Derive, w: World, now: nat, ops: seq<Op>)
    requires IntentsOk(derive, w) && ExpiredByNow(w, now) && InOrder(now, ops)
    ensures ExpiredByNow(Run(derive, w, ops), After(now, ops)) && IntentsOk(derive, Run(derive, w, ops))
    decreases |ops|
  {
    if ops != [] {
      ApplyExpired(derive, w, now, ops[0]);
      ApplyIntentsOk(derive, w, ops[0]);
      RunExpired(derive, Apply(derive, w, ops[0]), Later(now, ops[0]), ops[1..]);
    }
  }

  /** After any run of blocks in order, a refund that succeeds comes after the intent's expiry
      and a claim that succeeds not after it: no slot allows both. */
  lemma {:induction false} ClaimOrRefund(derive: Derive, w: World, now: nat, ops: seq<Op>, op: Op, id: nat)
    requires IntentsOk(derive, w) && ExpiredByNow(w, now) && InOrder(now, ops)
    requires After(now, ops) <= Later(After(now, ops), op)
    requires About(op) == Some(id) && id in Run(derive, w, ops).intents && Try(derive, Run(derive, w, ops), op).Ok?
    ensures op.RefundOp? ==> Run(derive, w, ops).intents[id].expiry < op.slot
    ensures op.ClaimOp? ==> op.slot <= Run(derive, w, ops).intents[id].expiry
  {
    RunExpired(derive, w, now, ops);
  }
}
