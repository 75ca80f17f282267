/** The terms of a renewed contract: how they travel in an offer, and what the two ends sign for them. */
module ChannelTerms {
  import opened Wrappers
  import Conversions
  import PayoutCurve
  import opened ChannelTypes

  // ---------- Over the wire ----------

  function AsError(e: PayoutCurve.Error): Error {
    match e
    case InvalidParameters => InvalidParameters
    case Panic => Panic
  }

  /** A payout function that the constructors made keeps its payouts. */
  predicate Proportioned(f: PayoutCurve.PayoutFunction) {
    PayoutCurve.AllHavePoints(f.pieces) && PayoutCurve.Continuous(f.pieces)
  }

  /** Writing the contract info of an offer, which panics where its conversion does. */
  function ToWire(t: Terms): Option<WireTerms> {
    match Conversions.InfoToSer(t.info)
    case None => None
    case Some(inner) =>
      Some(WireTerms(inner, if t.info.descriptor.Numerical? && Proportioned(t.info.descriptor.payoutFunction) then t.offers else None))
  }

  /** `get_contract_info_and_announcements`. */
  function FromWire(w: WireTerms, total: nat): Result<Terms, Error> {
    match Conversions.InfoFromSer(total, w.inner)
    case Err(e) => Err(AsError(e))
    case Ok(info) => Ok(Terms(info, w.offers))
  }

  // ---------- What is signed ----------

  predicate Within(offers: seq<nat>, total: nat) {
    forall i :: 0 <= i < |offers| ==> offers[i] <= total
  }

  /** The payouts that share out a total with the given offer payouts. */
  function Shared(offers: seq<nat>, total: nat): (payouts: seq<Payout>)
    requires Within(offers, total)
    ensures |payouts| == |offers| && forall i :: 0 <= i < |offers| ==> payouts[i] == Payout(offers[i], total - offers[i])
  {
    seq(|offers|, i requires 0 <= i < |offers| && offers[i] <= total => Payout(offers[i], total - offers[i]))
  }

  function Listed(payouts: seq<Conversions.EnumerationPayout>): (r: seq<Payout>)
    ensures |r| == |payouts| && forall i :: 0 <= i < |r| ==> r[i] == Payout(payouts[i].offer, payouts[i].accept)
  {
    seq(|payouts|, i requires 0 <= i < |payouts| => Payout(payouts[i].offer, payouts[i].accept))
  }

  function OutcomesOf(payouts: seq<Conversions.EnumerationPayout>): (r: seq<string>)
    ensures |r| == |payouts| && forall i :: 0 <= i < |r| ==> r[i] == payouts[i].outcome
  {
    seq(|payouts|, i requires 0 <= i < |payouts| => payouts[i].outcome)
  }

  /** `get_payouts`. */
  function PayoutsOf(t: Terms, total: nat): Option<seq<Payout>> {
    match t.info.descriptor
    case Enumerated(payouts) => Some(Listed(payouts))
    case Numerical(_, _, _, _, _) =>
      if t.offers.Some? && Within(t.offers.value, total) then Some(Shared(t.offers.value, total)) else None
  }

  predicate AllDigits(announcements: seq<Conversions.Announcement>) {
    forall i :: 0 <= i < |announcements| ==> announcements[i].event.DigitDecompositionEvent?
  }

  /** What `get_adaptor_info` and its verifying counterpart need of a contract info. The iteration over the
      combinations of oracles panics on a threshold of zero and on one above the number of oracles. */
  function AdaptorTermsOf(info: Conversions.ContractInfo): Result<AdaptorTerms, Error> {
    match info.descriptor
    case Enumerated(payouts) =>
      if info.threshold == 0 || info.threshold > |info.announcements| then Err(Panic)
      else Ok(ByOutcome(info.announcements, info.threshold, OutcomesOf(payouts)))
    case Numerical(f, intervals, difference, base, digits) =>
      if !AllDigits(info.announcements) || digits == [] then Err(InvalidParameters)
      else if difference.Some?
              && (info.threshold > |digits| || difference.value.minSupportExp >= difference.value.maxErrorExp)
      then Err(InvalidParameters)
      else if info.threshold == 0 || info.threshold > |digits| then Err(Panic)
      else
        Ok(ByDigits(info.announcements, info.threshold, f, intervals, base, digits,
                    if difference.Some? && info.threshold > 1
                    then Some((difference.value.minSupportExp, difference.value.maxErrorExp)) else None))
  }

  predicate Proper(payouts: seq<Payout>, total: nat) {
    forall i :: 0 <= i < |payouts| ==> payouts[i].offer + payouts[i].accept == total
  }

  /** Bit 0 of the contract flags. */
  predicate RefundsToAccepter(flags: nat) {
    flags % 2 == 1
  }

  function Output(toOffer: bool, value: nat): seq<RefundOutput> {
    if value < DUST_LIMIT then [] else [RefundOutput(toOffer, value)]
  }

  /** The refund outputs of `create_cets_and_refund_tx`. */
  function RefundOutputs(flags: nat, offerCollateral: nat, acceptCollateral: nat): seq<RefundOutput> {
    if RefundsToAccepter(flags) then Output(true, 0) + Output(false, offerCollateral + acceptCollateral)
    else Output(true, offerCollateral) + Output(false, acceptCollateral)
  }

  /** What an end signs and verifies for a contract. Payouts that do not sum to the total are refused, and without
      any payout the first CET is indexed out of range. */
  function TermsToSign(c: Contract): Result<SignedTerms, Error> {
    var payouts := PayoutsOf(c.terms, c.totalCollateral);
    if payouts.None? || !Proper(payouts.value, c.offerCollateral + c.acceptCollateral) then Err(InvalidParameters)
    else if payouts.value == [] then Err(Panic)
    else
      match AdaptorTermsOf(c.terms.info)
      case Err(e) => Err(e)
      case Ok(adaptor) =>
        Ok(SignedTerms(adaptor, payouts.value, RefundOutputs(c.flags, c.offerCollateral, c.acceptCollateral)))
  }

  /** The counterparty's signatures are on the contract as this end has it. */
  predicate SigsVerify(sigs: ContractSigs, signer: Who, c: Contract, buffer: Tx) {
    sigs.signer == signer && sigs.buffer == buffer && TermsToSign(c) == Ok(sigs.terms)
  }

  // ---------- When the two ends agree ----------

  /** The accept party's contract is the one that the offer party's message describes. */
  predicate Travelled(offered: Contract, received: Contract) {
    && ToWire(offered.terms).Some?
    && FromWire(ToWire(offered.terms).value, received.totalCollateral) == Ok(received.terms)
    && received.flags == 0
    && received.totalCollateral == offered.totalCollateral
    && received.totalCollateral == offered.offerCollateral + offered.acceptCollateral
    && received.offerCollateral == offered.offerCollateral
    && received.acceptCollateral == offered.acceptCollateral
  }

  /** The threshold that the receiver reads: a single oracle travels without one. */
  function ReadThreshold(info: Conversions.ContractInfo): nat {
    if |info.announcements| == 1 then 1 else Conversions.CastU16(info.threshold)
  }

  /** What the offer party could check before it offers: its enumerated payouts sum to the total, its threshold and the
      digits of its descriptor are those that the receiver reads, allowed differences are in order and fit their
      width where they matter, and the flags, which are not sent, make no difference to the refund. */
  predicate Shareable(c: Contract) {
    var info := c.terms.info;
    && info.threshold == ReadThreshold(info)
    && (match info.descriptor
        case Enumerated(payouts) => Proper(Listed(payouts), c.offerCollateral + c.acceptCollateral)
        case Numerical(_, _, difference, base, digits) =>
          && info.announcements != [] && Conversions.SameBase(info.announcements, base)
          && digits == Conversions.DigitsOf(info.announcements)
          && (difference.Some? ==> DifferenceHolds(difference.value, info.threshold)))
    && (RefundsToAccepter(c.flags) ==> c.offerCollateral == 0 || c.offerCollateral + c.acceptCollateral < DUST_LIMIT)
  }

  predicate DifferenceHolds(d: Conversions.DifferenceParams, threshold: nat) {
    && d.minSupportExp < d.maxErrorExp
    && (threshold > 1 ==> Conversions.FitsU16(d.minSupportExp) && Conversions.FitsU16(d.maxErrorExp))
  }

  /** A refund to the accepter differs from the usual one unless the offer party put in nothing, or all outputs are dust. */
  lemma RefundsAgree(flags: nat, offerCollateral: nat, acceptCollateral: nat)
    ensures RefundOutputs(flags, offerCollateral, acceptCollateral) == RefundOutputs(0, offerCollateral, acceptCollateral)
            <==> (RefundsToAccepter(flags) ==> offerCollateral == 0 || offerCollateral + acceptCollateral < DUST_LIMIT)
  {
    var total := offerCollateral + acceptCollateral;
    if RefundsToAccepter(flags) && total >= DUST_LIMIT {
      assert RefundOutputs(flags, offerCollateral, acceptCollateral) == [RefundOutput(false, total)];
      if offerCollateral != 0 {
        var usual := RefundOutputs(0, offerCollateral, acceptCollateral);
        assert usual != [] ==> usual[0] == RefundOutput(true, offerCollateral) || usual == [RefundOutput(false, acceptCollateral)];
      }
    }
  }

  /** The two ends sign for the same contract exactly when the offered one is shareable. */
  lemma SignedAlikeIff(offered: Contract, received: Contract)
    requires Travelled(offered, received) && TermsToSign(received).Ok?
    ensures TermsToSign(offered) == TermsToSign(received) <==> Shareable(offered)
  {
    hide RefundOutputs, ToWire, FromWire, AdaptorTermsOf;
    RefundsAgree(offered.flags, offered.offerCollateral, offered.acceptCollateral);
    match offered.terms.info.descriptor
    case Enumerated(payouts) => EnumeratedAlike(offered, received);
    case Numerical(_, _, _, _, _) => NumericalAlike(offered, received);
  }

  /** What the receiver has of an enumeration. */
  lemma EnumeratedReceived(offered: Contract, received: Contract)
    requires Travelled(offered, received) && offered.terms.info.descriptor.Enumerated?
    ensures received.terms.info.descriptor.Enumerated?
    ensures received.terms.info.announcements == offered.terms.info.announcements
    ensures received.terms.info.threshold == ReadThreshold(offered.terms.info)
    ensures var payouts, back := offered.terms.info.descriptor.payouts, received.terms.info.descriptor.payouts;
            && |back| == |payouts|
            && forall i :: 0 <= i < |back| ==>
                 && back[i].outcome == payouts[i].outcome && back[i].offer == payouts[i].offer
                 && back[i].offer + back[i].accept == offered.totalCollateral
  {
  }

  lemma EnumeratedAlike(offered: Contract, received: Contract)
    requires Travelled(offered, received) && TermsToSign(received).Ok? && offered.terms.info.descriptor.Enumerated?
    ensures received.terms.info.descriptor.Enumerated?
    ensures TermsToSign(offered).Ok? && TermsToSign(offered).value.adaptor == TermsToSign(received).value.adaptor
            && TermsToSign(offered).value.payouts == TermsToSign(received).value.payouts
            <==> Proper(Listed(offered.terms.info.descriptor.payouts), offered.totalCollateral)
                 && offered.terms.info.threshold == ReadThreshold(offered.terms.info)
  {
    hide RefundOutputs, ToWire, FromWire;
    EnumeratedReceived(offered, received);
    var payouts, back := offered.terms.info.descriptor.payouts, received.terms.info.descriptor.payouts;
    assert OutcomesOf(back) == OutcomesOf(payouts);
    if Proper(Listed(payouts), offered.totalCollateral) {
      forall i | 0 <= i < |payouts| ensures Listed(back)[i] == Listed(payouts)[i] {
        assert Listed(payouts)[i].offer + Listed(payouts)[i].accept == offered.totalCollateral;
      }
      assert Listed(back) == Listed(payouts);
    }
  }

  /** What the receiver has of a numerical info. */
  lemma NumericalReceived(offered: Contract, received: Contract)
    requires Travelled(offered, received) && offered.terms.info.descriptor.Numerical?
    ensures received.terms.info.descriptor.Numerical?
    ensures received.terms.info.announcements == offered.terms.info.announcements
    ensures received.terms.info.threshold == ReadThreshold(offered.terms.info)
    ensures received.terms.offers == if Proportioned(offered.terms.info.descriptor.payoutFunction) then offered.terms.offers else None
    ensures var d, back := offered.terms.info.descriptor, received.terms.info.descriptor;
            && offered.terms.info.announcements != [] && AllDigits(offered.terms.info.announcements)
            && Conversions.SameBase(offered.terms.info.announcements, back.base)
            && back.nbDigits == Conversions.DigitsOf(offered.terms.info.announcements)
            && back.intervals == d.intervals
            && (Proportioned(d.payoutFunction) ==> back.payoutFunction == d.payoutFunction)
            && back.difference == (if |offered.terms.info.announcements| == 1 then None else ReadDifference(d.difference))
  {
    hide Conversions.FunctionToSer, Conversions.FunctionFromSer;
    var f := offered.terms.info.descriptor.payoutFunction;
    SendableFunction(offered.terms);
    Conversions.FunctionRoundTripIff(f);
  }

  function ReadDifference(d: Option<Conversions.DifferenceParams>): Option<Conversions.DifferenceParams> {
    match d
    case None => None
    case Some(p) =>
      Some(Conversions.DifferenceParams(Conversions.CastU16(p.maxErrorExp), Conversions.CastU16(p.minSupportExp), p.maximizeCoverage))
  }

  lemma SendableFunction(t: Terms)
    requires ToWire(t).Some? && t.info.descriptor.Numerical?
    ensures Conversions.Convertible(t.info.descriptor.payoutFunction)
    ensures Conversions.FunctionToSer(t.info.descriptor.payoutFunction).Some?
  {
  }

  lemma NumericalAlike(offered: Contract, received: Contract)
    requires Travelled(offered, received) && TermsToSign(received).Ok? && offered.terms.info.descriptor.Numerical?
    ensures received.terms.info.descriptor.Numerical?
    ensures TermsToSign(offered).Ok? && TermsToSign(offered).value.adaptor == TermsToSign(received).value.adaptor
            && TermsToSign(offered).value.payouts == TermsToSign(received).value.payouts
            <==> Shareable(offered.(flags := 0))
  {
    hide RefundOutputs, ToWire, FromWire;
    NumericalReceived(offered, received);
    var info, back := offered.terms.info, received.terms.info;
    assert info.announcements[0].event.base == back.descriptor.base;
    assert Conversions.SameBase(info.announcements, info.descriptor.base) <==> info.descriptor.base == back.descriptor.base;
    assert PayoutsOf(offered.terms, offered.totalCollateral) == PayoutsOf(received.terms, received.totalCollateral);
    assert |back.descriptor.nbDigits| == |info.announcements|;
    if info.threshold == back.threshold && info.descriptor.difference.Some? && back.descriptor.difference.Some? {
      var d, e := info.descriptor.difference.value, back.descriptor.difference.value;
      CastFits(d.minSupportExp);
      CastFits(d.maxErrorExp);
    }
  }

  lemma CastFits(n: nat)
    ensures Conversions.CastU16(n) == n <==> Conversions.FitsU16(n)
  {
  }

  /** What can be sent and read: a numerical info converts and its announcements share a base, an enumerated one
      has announcements of outcomes and no offer payout above the total. */
  predicate Readable(t: Terms, total: nat) {
    match t.info.descriptor
    case Enumerated(payouts) =>
      && (forall i :: 0 <= i < |payouts| ==> payouts[i].offer <= total)
      && (forall i :: 0 <= i < |t.info.announcements| ==> t.info.announcements[i].event.EnumEvent?)
    case Numerical(f, _, _, _, digits) =>
      && Sendable(t)
      && t.info.announcements != [] && t.info.announcements[0].event.DigitDecompositionEvent?
      && Conversions.SameBase(t.info.announcements, t.info.announcements[0].event.base)
  }

  /** Sending panics on a numerical info without digits or with a payout function that is not convertible. */
  predicate Sendable(t: Terms) {
    t.info.descriptor.Numerical? ==> t.info.descriptor.nbDigits != [] && Conversions.Convertible(t.info.descriptor.payoutFunction)
  }

  lemma ReadableIff(t: Terms, total: nat)
    ensures ToWire(t).Some? <==> Sendable(t)
    ensures ToWire(t).Some? && FromWire(ToWire(t).value, total).Ok? <==> Readable(t, total)
  {
    hide ToWire, FromWire, Sendable, Readable;
    match t.info.descriptor
    case Enumerated(_) => EnumeratedReadableIff(t, total);
    case Numerical(_, _, _, _, _) => NumericalReadableIff(t, total);
  }

  lemma EnumeratedReadableIff(t: Terms, total: nat)
    requires t.info.descriptor.Enumerated?
    ensures ToWire(t).Some? && Sendable(t)
    ensures FromWire(ToWire(t).value, total).Ok? <==> Readable(t, total)
  {
    hide Conversions.FunctionFromSer, Conversions.FunctionToSer, Conversions.SameBase, Conversions.DigitsOf;
    var payouts, outcomes := t.info.descriptor.payouts, Conversions.OutcomesToSer(t.info.descriptor.payouts);
    assert ToWire(t).value.inner.descriptor == Conversions.SerEnumerated(outcomes);
    assert Conversions.AnnouncementsOf(ToWire(t).value.inner.oracles) == t.info.announcements;
    if forall i :: 0 <= i < |payouts| ==> payouts[i].offer <= total {
      assert forall i :: 0 <= i < |outcomes| ==> outcomes[i].offer <= total;
    } else {
      var i :| 0 <= i < |payouts| && payouts[i].offer > total;
      assert outcomes[i].offer > total;
    }
  }

  lemma NumericalReadableIff(t: Terms, total: nat)
    requires t.info.descriptor.Numerical?
    ensures ToWire(t).Some? <==> Sendable(t)
    ensures ToWire(t).Some? && FromWire(ToWire(t).value, total).Ok? <==> Readable(t, total)
  {
    hide Conversions.FunctionFromSer, Conversions.FunctionToSer, Conversions.Convertible, Conversions.SameBase, Conversions.DigitsOf;
    assert ToWire(t).Some? ==> Conversions.AnnouncementsOf(ToWire(t).value.inner.oracles) == t.info.announcements;
  }

  /** What can be signed for once read: there is a payout, a numerical info has its payouts within the total, the threshold
      that is read lies between one and the number of oracles, and the differences that are read are in order. */
  predicate Acceptable(t: Terms, total: nat) {
    && 1 <= ReadThreshold(t.info) <= |t.info.announcements|
    && match t.info.descriptor
       case Enumerated(payouts) => payouts != []
       case Numerical(f, _, difference, _, _) =>
         && Proportioned(f) && t.offers.Some? && t.offers.value != []
         && (forall i :: 0 <= i < |t.offers.value| ==> t.offers.value[i] <= total)
         && (difference.Some? && |t.info.announcements| != 1 ==>
               Conversions.CastU16(difference.value.minSupportExp) < Conversions.CastU16(difference.value.maxErrorExp))
  }

  /** The received terms can be signed exactly when the offered ones are acceptable. */
  lemma ReceivedTermsSignable(offered: Contract, received: Contract)
    requires Travelled(offered, received)
    ensures TermsToSign(received).Ok? <==> Acceptable(offered.terms, offered.totalCollateral)
  {
    hide RefundOutputs, ToWire, FromWire;
    match offered.terms.info.descriptor
    case Enumerated(_) => EnumeratedReceived(offered, received);
    case Numerical(_, _, _, _, _) => NumericalReceived(offered, received);
  }

  /** Where signing panics instead of failing. */
  predicate PanicsOnSigning(c: Contract) {
    var payouts, info := PayoutsOf(c.terms, c.totalCollateral), c.terms.info;
    && payouts.Some? && Proper(payouts.value, c.offerCollateral + c.acceptCollateral)
    && (|| payouts.value == []
        || (info.descriptor.Enumerated? && !(1 <= info.threshold <= |info.announcements|))
        || (info.descriptor.Numerical? && AllDigits(info.announcements) && info.descriptor.nbDigits != []
            && (if info.descriptor.difference.Some?
                then info.threshold == 0 && info.descriptor.difference.value.minSupportExp < info.descriptor.difference.value.maxErrorExp
                else !(1 <= info.threshold <= |info.descriptor.nbDigits|))))
  }

  lemma PanicsOnSigningIff(c: Contract)
    ensures TermsToSign(c) == Err(Panic) <==> PanicsOnSigning(c)
  {
  }
}
