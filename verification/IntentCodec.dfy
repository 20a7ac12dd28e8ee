/** The fixed 287-byte encoding of an intent. */
module IntentCodec {
  import opened Basics
  import opened ChunkStores
  import opened Intents

  const INTENT_LEN: nat := 287

  function ChainTag(c: Chain): Byte {
    match c case Native => 0 case Evm => 1 case Svm => 2 case Bvm => 3 case Tvm => 4
  }

  function ChainOf(tag: Byte): Option<Chain> {
    match tag
    case 0 => Some(Native) case 1 => Some(Evm) case 2 => Some(Svm) case 3 => Some(Bvm)
    case 4 => Some(Tvm) case _ => None
  }

  function StatusTag(s: Status): Byte {
    match s case Created => 0 case Funded => 1 case Claimed => 2 case Expired => 3 case Refunded => 4
  }

  function StatusOf(tag: Byte): Option<Status> {
    match tag
    case 0 => Some(Created) case 1 => Some(Funded) case 2 => Some(Claimed) case 3 => Some(Expired)
    case 4 => Some(Refunded)
    case _ => None
  }

  // ----- fields -----

  /** An identity as its bytes: its number is read from the front. */
  function IdBytes(n: nat, width: nat): (b: seq<Byte>)
    ensures |b| == width
  {
    if width == 0 then [] else IdBytes(n / 256, width - 1) + [n % 256]
  }

  function IdOf(b: seq<Byte>): nat {
    if b == [] then 0 else 256 * IdOf(b[..|b| - 1]) + b[|b| - 1]
  }

  lemma {:induction false} IdReadsBack(n: nat, width: nat)
    requires n < Pow256(width)
    ensures IdOf(IdBytes(n, width)) == n
  {
    if width > 0 {
      IdReadsBack(n / 256, width - 1);
      assert IdBytes(n, width)[..width - 1] == IdBytes(n / 256, width - 1);
    }
  }

  /** An absent identity leaves its 32 bytes zero. */
  function EncodeOption(o: Option<nat>): (b: seq<Byte>)
    ensures |b| == 33
  {
    match o case Some(n) => [1] + IdBytes(n, 32) case None => [0] + Zeros(32)
  }

  function DecodeOption(b: seq<Byte>): Option<nat>
    requires |b| == 33
  {
    if b[0] != 0 then Some(IdOf(b[1..])) else None
  }

  predicate OptionFits(o: Option<nat>) {
    o.Some? ==> o.value < Pow256(32)
  }

  lemma {:induction false} OptionReadsBack(o: Option<nat>)
    requires OptionFits(o)
    ensures DecodeOption(EncodeOption(o)) == o
  {
    if o.Some? {
      IdReadsBack(o.value, 32);
      assert EncodeOption(o)[1..] == IdBytes(o.value, 32);
    }
  }

  // ----- the three parts of an encoding -----

  function EncodeTerms(x: Intent): (b: seq<Byte>)
    ensures |b| == 138
  {
    IdBytes(x.id, 32) + IdBytes(x.binding, 32) + Encode(x.amount, 8) + [ChainTag(x.chain)]
    + EncodeOption(x.mint) + IdBytes(x.deposit, 32)
  }

  function EncodeRefund(x: Intent): (b: seq<Byte>)
    ensures |b| == 82
  {
    Encode(x.bindingEpoch, 8) + Encode(x.expiry, 8) + EncodeOption(x.refundDest) + EncodeOption(x.refundAuthorizer)
  }

  function EncodeProgress(x: Intent): (b: seq<Byte>)
    ensures |b| == 66
  {
    Encode(x.createdAt, 8) + [StatusTag(x.status)] + Encode(x.claimNonce, 8) + Encode(x.refundNonce, 8)
    + Encode(x.withdrawn, 8)
    + EncodeOption(x.owner)
  }

  function EncodeIntent(x: Intent): (b: seq<Byte>)
    ensures |b| == INTENT_LEN
  {
    [1] + EncodeTerms(x) + EncodeRefund(x) + EncodeProgress(x)
  }

  datatype CodecError = WrongLength | WrongVersion | BadChain | BadStatus

  function DecodeParts(t: seq<Byte>, r: seq<Byte>, p: seq<Byte>): Result<Intent, CodecError>
    requires |t| == 138 && |r| == 82 && |p| == 66
  {
    if ChainOf(t[72]).None? then Err(BadChain)
    else if StatusOf(p[8]).None? then Err(BadStatus)
    else
      Ok(Intent(
        IdOf(t[0..32]), IdOf(t[32..64]), Decode(t[64..72]), ChainOf(t[72]).value, DecodeOption(t[73..106]),
        IdOf(t[106..138]),
        Decode(r[0..8]), Decode(r[8..16]), DecodeOption(r[16..49]), DecodeOption(r[49..82]),
        Decode(p[0..8]), StatusOf(p[8]).value, Decode(p[9..17]), Decode(p[17..25]), Decode(p[25..33]),
        DecodeOption(p[33..66])))
  }

  function DecodeIntent(b: seq<Byte>): Result<Intent, CodecError> {
    if |b| != INTENT_LEN then Err(WrongLength)
    else if b[0] != 1 then Err(WrongVersion)
    else DecodeParts(b[1..139], b[139..221], b[221..287])
  }

  /** Identities are 32 bytes wide and counters eight. */
  predicate IntentFits(x: Intent) {
    && x.id < Pow256(32) && x.binding < Pow256(32) && x.deposit < Pow256(32)
    && OptionFits(x.mint) && OptionFits(x.refundDest) && OptionFits(x.refundAuthorizer) && OptionFits(x.owner)
    && x.amount < Pow256(8) && x.bindingEpoch < Pow256(8) && x.expiry < Pow256(8) && x.createdAt < Pow256(8)
    && x.claimNonce < Pow256(8) && x.refundNonce < Pow256(8) && x.withdrawn < Pow256(8)
  }

  predicate TermsAre(t: seq<Byte>, x: Intent) {
    && |t| == 138 && IdOf(t[0..32]) == x.id && IdOf(t[32..64]) == x.binding && Decode(t[64..72]) == x.amount
    && t[72] == ChainTag(x.chain) && DecodeOption(t[73..106]) == x.mint && IdOf(t[106..138]) == x.deposit
  }

  predicate RefundIs(r: seq<Byte>, x: Intent) {
    && |r| == 82 && Decode(r[0..8]) == x.bindingEpoch && Decode(r[8..16]) == x.expiry
    && DecodeOption(r[16..49]) == x.refundDest && DecodeOption(r[49..82]) == x.refundAuthorizer
  }

  predicate ProgressIs(p: seq<Byte>, x: Intent) {
    && |p| == 66 && Decode(p[0..8]) == x.createdAt && p[8] == StatusTag(x.status) && Decode(p[9..17]) == x.claimNonce
    && Decode(p[17..25]) == x.refundNonce && Decode(p[25..33]) == x.withdrawn && DecodeOption(p[33..66]) == x.owner
  }

  lemma {:induction false} TermsReadBack(x: Intent)
    requires IntentFits(x)
    ensures TermsAre(EncodeTerms(x), x)
  {
    var a, b, c, d, e, f := IdBytes(x.id, 32), IdBytes(x.binding, 32), Encode(x.amount, 8), [ChainTag(x.chain)],
                            EncodeOption(x.mint), IdBytes(x.deposit, 32);
    TermsCut(a, b, c, d, e, f);
    IdReadsBack(x.id, 32);
    IdReadsBack(x.binding, 32);
    DecodeEncode(x.amount, 8);
    IdReadsBack(x.deposit, 32);
    OptionReadsBack(x.mint);
  }

  lemma {:induction false} TermsCut(a: seq<Byte>, b: seq<Byte>, c: seq<Byte>, d: seq<Byte>, e: seq<Byte>, f: seq<Byte>)
    requires |a| == 32 && |b| == 32 && |c| == 8 && |d| == 1 && |e| == 33 && |f| == 32
    ensures var t := a + b + c + d + e + f;
      t[0..32] == a && t[32..64] == b && t[64..72] == c && t[72] == d[0] && t[73..106] == e && t[106..138] == f
  {
  }

  lemma {:induction false} RefundReadsBack(x: Intent)
    requires IntentFits(x)
    ensures RefundIs(EncodeRefund(x), x)
  {
    RefundCut(Encode(x.bindingEpoch, 8), Encode(x.expiry, 8), EncodeOption(x.refundDest),
              EncodeOption(x.refundAuthorizer));
    DecodeEncode(x.bindingEpoch, 8);
    DecodeEncode(x.expiry, 8);
    OptionReadsBack(x.refundDest);
    OptionReadsBack(x.refundAuthorizer);
  }

  lemma {:induction false} RefundCut(a: seq<Byte>, b: seq<Byte>, c: seq<Byte>, d: seq<Byte>)
    requires |a| == 8 && |b| == 8 && |c| == 33 && |d| == 33
    ensures var r := a + b + c + d; r[0..8] == a && r[8..16] == b && r[16..49] == c && r[49..82] == d
  {
  }

  lemma {:induction false} ProgressReadsBack(x: Intent)
    requires IntentFits(x)
    ensures ProgressIs(EncodeProgress(x), x)
  {
    ProgressCut(Encode(x.createdAt, 8), [StatusTag(x.status)], Encode(x.claimNonce, 8), Encode(x.refundNonce, 8),
                Encode(x.withdrawn, 8), EncodeOption(x.owner));
    DecodeEncode(x.createdAt, 8);
    DecodeEncode(x.claimNonce, 8);
    DecodeEncode(x.refundNonce, 8);
    DecodeEncode(x.withdrawn, 8);
    OptionReadsBack(x.owner);
  }

  lemma {:induction false} ProgressCut(a: seq<Byte>, b: seq<Byte>, c: seq<Byte>, d: seq<Byte>, e: seq<Byte>,
                                       f: seq<Byte>)
    requires |a| == 8 && |b| == 1 && |c| == 8 && |d| == 8 && |e| == 8 && |f| == 33
    ensures var p := a + b + c + d + e + f;
      p[0..8] == a && p[8] == b[0] && p[9..17] == c && p[17..25] == d && p[25..33] == e && p[33..66] == f
  {
  }

  lemma {:induction false} PartsReadBack(t: seq<Byte>, r: seq<Byte>, p: seq<Byte>, x: Intent)
    requires TermsAre(t, x) && RefundIs(r, x) && ProgressIs(p, x)
    ensures DecodeParts(t, r, p) == Ok(x)
  {
  }

  /** What is stored is what is loaded. */
  lemma {:induction false} IntentReadsBack(x: Intent)
    requires IntentFits(x)
    ensures DecodeIntent(EncodeIntent(x)) == Ok(x)
  {
    var t, r, p := EncodeTerms(x), EncodeRefund(x), EncodeProgress(x);
    var b := EncodeIntent(x);
    LayoutOf(t, r, p, b);
    assert b[1..139] == t[0..138] == t && b[139..221] == r[0..82] == r && b[221..287] == p[0..66] == p;
    TermsReadBack(x);
    RefundReadsBack(x);
    ProgressReadsBack(x);
    PartsReadBack(t, r, p, x);
  }

  /** Where each field stands in the 287 bytes. */
  lemma {:induction false} IntentLayout(x: Intent)
    ensures var b := EncodeIntent(x);
      && b[0] == 1 && b[1..33] == IdBytes(x.id, 32) && b[33..65] == IdBytes(x.binding, 32)
      && b[65..73] == Encode(x.amount, 8)
      && b[73] == (match x.chain case Native => 0 case Evm => 1 case Svm => 2 case Bvm => 3 case Tvm => 4)
      && b[74..107] == EncodeOption(x.mint) && b[107..139] == IdBytes(x.deposit, 32)
      && b[139..147] == Encode(x.bindingEpoch, 8) && b[147..155] == Encode(x.expiry, 8)
      && b[155..188] == EncodeOption(x.refundDest) && b[188..221] == EncodeOption(x.refundAuthorizer)
      && b[221..229] == Encode(x.createdAt, 8)
      && b[229] ==
         (match x.status case Created => 0 case Funded => 1 case Claimed => 2 case Expired => 3 case Refunded => 4)
      && b[230..238] == Encode(x.claimNonce, 8) && b[238..246] == Encode(x.refundNonce, 8)
      && b[246..254] == Encode(x.withdrawn, 8) && b[254..287] == EncodeOption(x.owner)
  {
    var t, r, p := EncodeTerms(x), EncodeRefund(x), EncodeProgress(x);
    TermsCut(IdBytes(x.id, 32), IdBytes(x.binding, 32), Encode(x.amount, 8), [ChainTag(x.chain)], EncodeOption(x.mint),
             IdBytes(x.deposit, 32));
    RefundCut(Encode(x.bindingEpoch, 8), Encode(x.expiry, 8), EncodeOption(x.refundDest),
              EncodeOption(x.refundAuthorizer));
    ProgressCut(Encode(x.createdAt, 8), [StatusTag(x.status)], Encode(x.claimNonce, 8), Encode(x.refundNonce, 8),
                Encode(x.withdrawn, 8), EncodeOption(x.owner));
    LayoutOf(t, r, p, EncodeIntent(x));
  }

  /** An optional identity is one and its bytes, or zeros. */
  lemma {:induction false} OptionLayout(o: Option<nat>)
    ensures o.Some? ==> EncodeOption(o)[0] == 1 && EncodeOption(o)[1..] == IdBytes(o.value, 32)
    ensures o.None? ==> forall i :: 0 <= i < 33 ==> EncodeOption(o)[i] == 0
  {
  }

  /** Bytes are read as an intent exactly when there are 287 of them, the first is the version one, and
      both tags are known. */
  lemma {:induction false} ReadsExactly(b: seq<Byte>)
    ensures DecodeIntent(b).Ok? <==> |b| == 287 && b[0] == 1 && b[73] <= 4 && b[229] <= 4
    ensures |b| != 287 ==> DecodeIntent(b) == Err(WrongLength)
    ensures |b| == 287 && b[0] != 1 ==> DecodeIntent(b) == Err(WrongVersion)
    ensures |b| == 287 && b[0] == 1 && b[73] > 4 ==> DecodeIntent(b) == Err(BadChain)
  {
    if |b| == 287 { assert b[1..139][72] == b[73] && b[221..287][8] == b[229]; }
  }

  lemma {:induction false} LayoutOf(t: seq<Byte>, r: seq<Byte>, p: seq<Byte>, b: seq<Byte>)
    requires |t| == 138 && |r| == 82 && |p| == 66 && b == [1] + t + r + p
    ensures b[0] == 1
    ensures forall i, j :: 0 <= i <= j <= 138 ==> b[1 + i..1 + j] == t[i..j]
    ensures forall i, j :: 0 <= i <= j <= 82 ==> b[139 + i..139 + j] == r[i..j]
    ensures forall i, j :: 0 <= i <= j <= 66 ==> b[221 + i..221 + j] == p[i..j]
    ensures b[73] == t[72] && b[229] == p[8]
  {
  }
}
