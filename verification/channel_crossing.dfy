/** Offers that cross in flight, transactions that two ends build apart, and renewals that stall. */
module ChannelCrossing {
  import opened Wrappers
  import opened ChannelTypes
  import opened ChannelTerms
  import opened ChannelHandlers
  import opened ChannelSystem
  import opened ChannelSteps
  import opened ChannelDeliveries
  import opened ChannelTheorems

  // ---------- Building the settle transaction from both ends ----------

  /** The two ends call the builder with their own and counter roles swapped, and the accepting end
      without a signature to check. Where a payout is above the dust limit they build the same transaction, each
      verifies the other's signature, and no other signature would do; otherwise both panic. */
  lemma SettleBuildersAgree(offerer: Who, offerNext: Point, acceptNext: Point, offerPayout: nat, acceptPayout: nat)
    ensures var accepter := Other(offerer);
            var built := SettleTxAndSig(accepter, acceptNext, offerer, accepter, offerNext, offerPayout, acceptPayout, None);
            && (built.Ok? <==> SomeOutput(offerPayout, acceptPayout)) && (built.Err? ==> built.error == Panic)
            && (forall sig :: SettleTxAndSig(offerer, offerNext, offerer, accepter, acceptNext, offerPayout, acceptPayout, Some(sig)).Ok?
                  <==> built.Ok? && sig == built.value.1)
            && (built.Ok? ==>
                  var rebuilt := SettleTxAndSig(offerer, offerNext, offerer, accepter, acceptNext, offerPayout, acceptPayout,
                                                Some(built.value.1));
                  && rebuilt.Ok? && rebuilt.value.0 == built.value.0
                  && VerifyAdaptor(built.value.0, offerer, PublishKey(accepter, acceptNext), rebuilt.value.1)
                  && PayoutIn(built.value.0, offerer) == offerPayout && PayoutIn(built.value.0, accepter) == acceptPayout)
  {
  }

  // ---------- Crossing offers ----------

  /** Deliveries only, at the end each entry names. */
  function Deliveries(s: System, ends: seq<bool>): System
    decreases |ends|
  {
    if ends == [] then s
    else Step(Deliveries(s, ends[..|ends| - 1]), ends[|ends| - 1], Deliver)
  }

  /** Both ends sent an offer; `a` and `b` count the messages that the first and the second end took
      since. Each end rejects the offer it receives and rolls its own back on the rejection. */
  function Crossed(s: System, pOut: Party, pBack: Party, pOffer: Msg, qOut: Party, qBack: Party, qOffer: Msg, a: nat, b: nat): System
    requires a <= 2 && b <= 2
  {
    var fromQ := [qOffer] + (if b >= 1 then [RejectMsg] else []);
    var fromP := [pOffer] + (if a >= 1 then [RejectMsg] else []);
    System(
      if a == 2 then pBack else pOut, if b == 2 then qBack else qOut,
      if a <= |fromQ| then fromQ[a..] else [], if b <= |fromP| then fromP[b..] else [],
      s.agreed, s.disclosedP, s.disclosedQ)
  }

  /** The two answers of one end in a crossing. */
  predicate CrossingEnd(out: Party, back: Party, otherOffer: Msg, agreed: map<nat, Tx>) {
    && Receive(out, otherOffer) == Say(out, RejectMsg)
    && Receive(out, RejectMsg) == Quiet(back)
    && Record(agreed, out) == agreed && Record(agreed, back) == agreed
  }

  lemma CrossedStep(s: System, pOut: Party, pBack: Party, pOffer: Msg, qOut: Party, qBack: Party, qOffer: Msg, a: nat, b: nat)
    requires a <= 2 && b <= 2 && a <= 1 + (if b >= 1 then 1 else 0) && b <= 1 + (if a >= 1 then 1 else 0)
    requires CrossingEnd(pOut, pBack, qOffer, s.agreed)
    ensures var c := Crossed(s, pOut, pBack, pOffer, qOut, qBack, qOffer, a, b);
            if a == 2 || (a == 1 && b == 0) then c.toP == [] && StepP(c, Deliver) == c
            else c.toP != [] && StepP(c, Deliver) == Crossed(s, pOut, pBack, pOffer, qOut, qBack, qOffer, a + 1, b)
  {
    hide Receive;
    var c := Crossed(s, pOut, pBack, pOffer, qOut, qBack, qOffer, a, b);
    if !(a == 2 || (a == 1 && b == 0)) {
      var t := Crossed(s, pOut, pBack, pOffer, qOut, qBack, qOffer, a + 1, b);
      assert c.toP[0] == if a == 0 then qOffer else RejectMsg;
      assert c.toQ + (if a == 0 then [RejectMsg] else []) == t.toQ;
      assert c.toP[1..] == t.toP;
    }
  }

  lemma CrossedSwap(s: System, pOut: Party, pBack: Party, pOffer: Msg, qOut: Party, qBack: Party, qOffer: Msg, a: nat, b: nat)
    requires a <= 2 && b <= 2
    ensures Swap(Crossed(s, pOut, pBack, pOffer, qOut, qBack, qOffer, a, b))
            == Crossed(Swap(s), qOut, qBack, qOffer, pOut, pBack, pOffer, b, a)
  {
  }

  lemma {:induction false} CrossedRun(s: System, pOut: Party, pBack: Party, pOffer: Msg, qOut: Party, qBack: Party, qOffer: Msg, ends: seq<bool>)
    returns (a: nat, b: nat)
    requires CrossingEnd(pOut, pBack, qOffer, s.agreed) && CrossingEnd(qOut, qBack, pOffer, s.agreed)
    ensures a <= 2 && b <= 2 && a <= 1 + (if b >= 1 then 1 else 0) && b <= 1 + (if a >= 1 then 1 else 0)
    ensures Deliveries(Crossed(s, pOut, pBack, pOffer, qOut, qBack, qOffer, 0, 0), ends)
            == Crossed(s, pOut, pBack, pOffer, qOut, qBack, qOffer, a, b)
    decreases |ends|
  {
    hide Receive, StepP, Crossed, CrossingEnd;
    if ends == [] {
      a, b := 0, 0;
    } else {
      var n := |ends| - 1;
      a, b := CrossedRun(s, pOut, pBack, pOffer, qOut, qBack, qOffer, ends[..n]);
      if ends[n] {
        CrossedStep(s, pOut, pBack, pOffer, qOut, qBack, qOffer, a, b);
        if !(a == 2 || (a == 1 && b == 0)) { a := a + 1; }
      } else {
        CrossedSwap(s, pOut, pBack, pOffer, qOut, qBack, qOffer, a, b);
        CrossedStep(Swap(s), qOut, qBack, qOffer, pOut, pBack, pOffer, b, a) by { SwapKeepsAgreed(s, qOut, qBack, pOffer); }
        if !(b == 2 || (b == 1 && a == 0)) {
          b := b + 1;
          CrossedSwap(s, pOut, pBack, pOffer, qOut, qBack, qOffer, a, b);
        }
      }
    }
  }

  lemma SwapKeepsAgreed(s: System, out: Party, back: Party, offer: Msg)
    requires CrossingEnd(out, back, offer, s.agreed)
    ensures CrossingEnd(out, back, offer, Swap(s).agreed)
  {
  }

  /** Both ends of a quiet channel make an offer before either receives one. */
  function BothCall(s: System, atP: Call, atQ: Call): System {
    Step(Step(s, true, Act(atP)), false, Act(atQ))
  }

  lemma BothCallCrossed(s: System, atP: Call, atQ: Call, pBack: Party, qBack: Party)
    requires s.toP == [] && s.toQ == []
    requires Permitted(s.p, atP) && Permitted(s.q, atQ)
    requires var o := Perform(s.p, atP); o.reply.Done? && o.reply.msg.Some? && DisclosedBy(o.reply.msg.value).None? && Record(s.agreed, o.party) == s.agreed
    requires var o := Perform(s.q, atQ); o.reply.Done? && o.reply.msg.Some? && DisclosedBy(o.reply.msg.value).None? && Record(s.agreed, o.party) == s.agreed
    ensures var op := Perform(s.p, atP); var oq := Perform(s.q, atQ);
            BothCall(s, atP, atQ) == Crossed(s, op.party, pBack, op.reply.msg.value, oq.party, qBack, oq.reply.msg.value, 0, 0)
  {
    hide Perform;
  }

  lemma CrossedEndsQuiet(s: System, pOut: Party, pBack: Party, pOffer: Msg, qOut: Party, qBack: Party, qOffer: Msg, ends: seq<bool>)
    requires CrossingEnd(pOut, pBack, qOffer, s.agreed) && CrossingEnd(qOut, qBack, pOffer, s.agreed)
    ensures var t := Deliveries(Crossed(s, pOut, pBack, pOffer, qOut, qBack, qOffer, 0, 0), ends);
            && (t.toP == [] && t.toQ == [] ==> t == s.(p := pBack, q := qBack, toP := [], toQ := []))
            && (ends == [true, false, true, false] ==> t.toP == [] && t.toQ == [])
  {
    hide Receive, CrossingEnd, StepP;
    var a, b := CrossedRun(s, pOut, pBack, pOffer, qOut, qBack, qOffer, ends);
    if ends == [true, false, true, false] {
      AlternateDeliveries(s, pOut, pBack, pOffer, qOut, qBack, qOffer);
    }
  }

  lemma AlternateDeliveries(s: System, pOut: Party, pBack: Party, pOffer: Msg, qOut: Party, qBack: Party, qOffer: Msg)
    requires CrossingEnd(pOut, pBack, qOffer, s.agreed) && CrossingEnd(qOut, qBack, pOffer, s.agreed)
    ensures Deliveries(Crossed(s, pOut, pBack, pOffer, qOut, qBack, qOffer, 0, 0), [true, false, true, false])
            == Crossed(s, pOut, pBack, pOffer, qOut, qBack, qOffer, 2, 2)
  {
    hide Receive, CrossingEnd, StepP, Crossed;
    var u := Swap(s);
    assert CrossingEnd(qOut, qBack, pOffer, u.agreed);
    var c0 := Crossed(s, pOut, pBack, pOffer, qOut, qBack, qOffer, 0, 0);
    CrossedStep(s, pOut, pBack, pOffer, qOut, qBack, qOffer, 0, 0);
    var c1 := Crossed(s, pOut, pBack, pOffer, qOut, qBack, qOffer, 1, 0);
    CrossedStep(u, qOut, qBack, qOffer, pOut, pBack, pOffer, 0, 1);
    CrossedSwap(s, pOut, pBack, pOffer, qOut, qBack, qOffer, 1, 0);
    var c2 := Crossed(s, pOut, pBack, pOffer, qOut, qBack, qOffer, 1, 1);
    CrossedSwap(s, pOut, pBack, pOffer, qOut, qBack, qOffer, 1, 1);
    CrossedStep(s, pOut, pBack, pOffer, qOut, qBack, qOffer, 1, 1);
    var c3 := Crossed(s, pOut, pBack, pOffer, qOut, qBack, qOffer, 2, 1);
    CrossedSwap(s, pOut, pBack, pOffer, qOut, qBack, qOffer, 2, 1);
    CrossedStep(u, qOut, qBack, qOffer, pOut, pBack, pOffer, 1, 2);
    var c4 := Crossed(s, pOut, pBack, pOffer, qOut, qBack, qOffer, 2, 2);
    CrossedSwap(s, pOut, pBack, pOffer, qOut, qBack, qOffer, 2, 2);
    assert Step(c0, true, Deliver) == c1 && Step(c1, false, Deliver) == c2 && Step(c2, true, Deliver) == c3 && Step(c3, false, Deliver) == c4;
    assert [true, false, true, false][..3] == [true, false, true];
    assert [true, false, true][..2] == [true, false];
    assert [true, false][..1] == [true];
    assert [true][..0] == [];
    assert Deliveries(c0, [true]) == c1;
    assert Deliveries(c0, [true, false]) == c2;
    assert Deliveries(c0, [true, false, true]) == c3;
  }

  /** Crossing settle offers: under every delivery order, once nothing is in flight both ends are
      exactly as before, with no rollback left. */
  lemma CrossingSettleOffersRestore(s: System, payoutP: nat, payoutQ: nat, ends: seq<bool>)
    requires Reachable(s) && s.toP == [] && s.toQ == [] && s.p.updateIdx > 0
    requires s.p.state.Established? && s.q.state.Established?
    ensures var t := Deliveries(BothCall(s, CallOfferSettle(payoutP), CallOfferSettle(payoutQ)), ends);
            && (t.toP == [] && t.toQ == [] ==> t == s.(p := s.p.(rollBack := None), q := s.q.(rollBack := None)))
            && (ends == [true, false, true, false] ==> t.toP == [] && t.toQ == [])
  {
    hide Reachable, Invariant, PartyFits, AgreedFits, Deliveries, BothCall, Crossed;
    ReachableInvariant(s);
    StableEndsAgree(s);
    EndsOfInvariant(s);
    LiveAndAgreed(s);
    var pBack, qBack := s.p.(rollBack := None), s.q.(rollBack := None);
    var op, oq := OfferSettle(s.p, payoutP), OfferSettle(s.q, payoutQ);
    BothCallCrossed(s, CallOfferSettle(payoutP), CallOfferSettle(payoutQ), pBack, qBack);
    CrossedEndsQuiet(s, op.party, pBack, op.reply.msg.value, oq.party, qBack, oq.reply.msg.value, ends);
  }

  lemma LiveAndAgreed(s: System)
    requires Invariant(s) && Stable(s.p.state) && Stable(s.q.state)
    ensures s.p.lifecycle.Signed? && s.q.lifecycle.Signed?
    ensures Record(s.agreed, s.p) == s.agreed && Record(s.agreed, s.q) == s.agreed
  {
    hide Idle, Handshake, SecretsFit, WatchFits, FlagsFit, BuffersFit, ClosedAreOld, StableFits;
  }

  /** A party after its own renewal offer was rejected. */
  function OwnRenewalRejected(p: Party, input: ContractInput): Party {
    var id := Renewed(p.updateIdx);
    var contract := Contract(id, true, input.terms, input.flags, input.offerCollateral + input.acceptCollateral,
                             p.ownCollateral, p.counterCollateral);
    p.(rollBack := None, contracts := p.contracts[id := Rejected(contract)])
  }

  /** Crossing renewal offers: likewise, but for the store's note of the rejected contracts. */
  lemma CrossingRenewOffersRestore(s: System, atP: Call, atQ: Call, ends: seq<bool>)
    requires Reachable(s) && s.toP == [] && s.toQ == [] && s.p.updateIdx > 0
    requires Stable(s.p.state) && Stable(s.q.state)
    requires atP.CallOfferRenew? && Sendable(atP.input.terms) && RenewalCheck(s.p.state, atP.input.offerCollateral, atP.input.acceptCollateral).None?
    requires atQ.CallOfferRenew? && Sendable(atQ.input.terms) && RenewalCheck(s.q.state, atQ.input.offerCollateral, atQ.input.acceptCollateral).None?
    ensures var t := Deliveries(BothCall(s, atP, atQ), ends);
            && (t.toP == [] && t.toQ == [] ==>
                  t == s.(p := OwnRenewalRejected(s.p, atP.input),
                          q := OwnRenewalRejected(s.q, atQ.input)))
            && (ends == [true, false, true, false] ==> t.toP == [] && t.toQ == [])
  {
    hide Reachable, Invariant, PartyFits, AgreedFits, Deliveries, BothCall, Crossed;
    ReachableInvariant(s);
    StableEndsAgree(s);
    EndsOfInvariant(s);
    LiveAndAgreed(s);
    var pBack := OwnRenewalRejected(s.p, atP.input);
    var qBack := OwnRenewalRejected(s.q, atQ.input);
    RenewCrossingEnd(s.p, s.agreed, atP, Perform(s.q, atQ).reply.msg.value);
    RenewCrossingEnd(s.q, s.agreed, atQ, Perform(s.p, atP).reply.msg.value);
    var op, oq := Perform(s.p, atP), Perform(s.q, atQ);
    BothCallCrossed(s, atP, atQ, pBack, qBack);
    CrossedEndsQuiet(s, op.party, pBack, op.reply.msg.value, oq.party, qBack, oq.reply.msg.value, ends);
  }

  lemma RenewCrossingEnd(p: Party, agreed: map<nat, Tx>, c: Call, otherOffer: Msg)
    requires p.lifecycle.Signed? && Stable(p.state) && p.updateIdx > 0 && Record(agreed, p) == agreed
    requires c.CallOfferRenew? && Sendable(c.input.terms) && RenewalCheck(p.state, c.input.offerCollateral, c.input.acceptCollateral).None?
    requires otherOffer.RenewOfferMsg?
    ensures var o := Perform(p, c);
            && o.reply.Done? && o.reply.msg.Some? && o.reply.msg.value.RenewOfferMsg?
            && CrossingEnd(o.party, OwnRenewalRejected(p, c.input), otherOffer, agreed)
  {
    hide ToWire, Sendable;
    ReadableIff(c.input.terms, 0);
    var o := Perform(p, c);
    var back := OwnRenewalRejected(p, c.input);
    assert OnReject(o.party).party.contracts == back.contracts;
  }

  // ---------- Renewals that stall ----------

  /** `p` offered a renewal that it cannot confirm, and `q` accepted it. */
  ghost predicate Stalled(s: System) {
    && s.p.state.RenewOffered? && s.p.state.isOffer && s.q.state.RenewAccepted?
    && !Confirmable(s.p)
  }

  /** Nothing but a close ends a stalled renewal: neither end is told, and no call or message moves either. */
  lemma {:induction false} StalledForever(s: System, steps: seq<(bool, Action)>)
    requires Reachable(s) && Stalled(s)
    ensures Run(s, steps).p == s.p && Run(s, steps).q == s.q
    decreases |steps|
  {
    hide Reachable, Invariant, StepP;
    ReachableInvariant(s);
    if steps != [] {
      var n := |steps| - 1;
      var m := Run(s, steps[..n]);
      StalledForever(s, steps[..n]);
      RunKeeps(s, steps[..n]);
      InvariantSwaps(m);
      StalledStep(m, steps[n].1);
      StepStaysOrCompletes(m, steps[n].1);
      StepStaysOrCompletes(Swap(m), steps[n].1);
    }
  }

  lemma StalledStep(s: System, a: Action)
    requires Invariant(s) && Stalled(s)
    ensures StepP(s, a).p == s.p && StepP(Swap(s), a).p == s.q
  {
    hide Invariant, RenewAccepting, StepP;
    assert RenewAccepting(s) by { StalledPhase(s); }
    StalledAtOfferer(s, a);
    StalledAtAccepter(s, a);
  }

  lemma StalledAtOfferer(s: System, a: Action)
    requires Invariant(s) && Stalled(s) && RenewAccepting(s)
    ensures StepP(s, a).p == s.p
  {
    hide Invariant, PartyFits, AgreedFits, EndsFit, ProfitsFit, SameContract, IdleFlight, TermsToSign, Shareable, Travelled;
    EndsOfInvariant(s);
    if s.toP != [] {
      RenewAcceptFinds(s);
      OnRenewAcceptParty(s.p, s.agreed, s.toP[0].nextPoint, s.toP[0].contractSigs);
    }
  }

  lemma StalledAtAccepter(s: System, a: Action)
    requires Invariant(s) && Stalled(s) && RenewAccepting(s)
    ensures StepP(Swap(s), a).p == s.q
  {
    hide Invariant, PartyFits, AgreedFits, EndsFit, ProfitsFit, SameContract, IdleFlight, TermsToSign, Shareable, Travelled;
    EndsOfInvariant(s);
    StoredAsAccepted(s.q, s.agreed);
  }

  lemma StalledPhase(s: System)
    requires Invariant(s) && Stalled(s)
    ensures RenewAccepting(s)
  {
    hide PartyFits, ProfitsFit, SameContract, DisclosureFits, AgreedFits, IdleFlight;
  }

  lemma StoredAsAccepted(q: Party, agreed: map<nat, Tx>)
    requires PartyFits(q, agreed) && q.state.RenewAccepted?
    ensures q.state.contractId in q.contracts && q.contracts[q.state.contractId].Accepted?
  {
  }

  // ---------- The offer flag ----------

  /** `is_offer` tells two established ends apart only on the contract of the channel's setup: a
      renewal writes `true` at both. */
  lemma OfferFlagsTellApart(s: System)
    requires Reachable(s) && s.p.state.Established? && s.q.state.Established?
    ensures s.p.state.isOffer != s.q.state.isOffer <==> s.p.state.contractId == Initial
  {
    hide Invariant, StableTx, StableOwnSig, StableCounterSig, PartyFits, EndsFit, Reachable;
    StableEndsAgree(s);
    ReachableInvariant(s);
    OppositeEnds(s);
    EndsOfInvariant(s);
    EstablishedFlag(s.p, s.agreed);
    EstablishedFlag(s.q, s.agreed);
  }

  lemma OppositeEnds(s: System)
    requires Invariant(s)
    ensures s.q.me == Other(s.p.me)
  {
    hide Idle, Handshake, PartyFits, AgreedFits;
  }

  lemma EstablishedFlag(p: Party, agreed: map<nat, Tx>)
    requires PartyFits(p, agreed) && p.state.Established?
    ensures p.state.isOffer == (p.state.contractId.Renewed? || p.me == Offerer)
  {
    hide SecretsFit, WatchFits, FlagsFit, BuffersFit, ClosedAreOld, CurrentWatched, NegotiationFits;
  }
}
