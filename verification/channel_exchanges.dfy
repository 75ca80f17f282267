/** Undisturbed exchanges run to their end: the safety theorems are not about handlers that refuse everything. */
module ChannelExchanges {
  import opened Wrappers
  import opened ChannelTypes
  import opened ChannelTerms
  import opened ChannelHandlers
  import opened ChannelSystem
  import opened ChannelSteps
  import opened ChannelDeliveries
  import opened ChannelTheorems
  import opened ChannelCrossing

  predicate Silent(s: System) {
    s.toP == [] && s.toQ == []
  }

  predicate AtIndices(s: System, i: int, j: int) {
    s.p.updateIdx == i && s.q.updateIdx == j
  }

  lemma {:induction false} RunSnoc(s: System, steps: seq<(bool, Action)>, last: (bool, Action))
    ensures Run(s, steps + [last]) == Step(Run(s, steps), last.0, last.1)
  {
    assert (steps + [last])[..|steps|] == steps;
  }

  /** A step of the other end, seen from this one. */
  lemma AtQ(s: System, a: Action)
    ensures Step(s, false, a).q == StepP(Swap(s), a).p && Step(s, false, a).p == s.p
    ensures Step(s, false, a).toP == StepP(Swap(s), a).toQ && Step(s, false, a).toQ == StepP(Swap(s), a).toP
  {
  }

  // ---------- Settling ----------

  ghost predicate SettleOffered(s: System, cp: nat, i: nat) {
    && Invariant(s) && AtIndices(s, i, i) && s.p.state.SettledOffered? && s.p.state.counterPayout == cp && s.q.state.Established?
    && s.toP == [] && s.toQ == [SettleOfferMsg(cp, s.p.state.nextPoint)]
  }

  ghost predicate SettleHeld(s: System, cp: nat, i: nat) {
    && Invariant(s) && AtIndices(s, i, i) && s.p.state.SettledOffered? && s.p.state.counterPayout == cp
    && s.q.state.SettledReceived? && s.q.state.ownPayout == cp && Silent(s)
  }

  ghost predicate SettleAccepted(s: System, cp: nat, i: nat) {
    && Invariant(s) && AtIndices(s, i, i) && s.p.state.SettledOffered? && s.p.state.counterPayout == cp
    && s.q.state.SettledAccepted? && s.q.state.ownPayout == cp
    && s.toQ == [] && |s.toP| == 1 && s.toP[0].SettleAcceptMsg?
  }

  ghost predicate SettleConfirmed(s: System, cp: nat, i: nat) {
    && Invariant(s) && AtIndices(s, i, i) && s.p.state.SettledConfirmed? && s.p.state.counterPayout == cp
    && s.q.state.SettledAccepted? && s.q.state.ownPayout == cp
    && s.toP == [] && |s.toQ| == 1 && s.toQ[0].SettleConfirmMsg?
  }

  ghost predicate SettleFinalized(s: System, cp: nat, i: nat) {
    && Invariant(s) && AtIndices(s, i, i - 1) && s.p.state.SettledConfirmed? && s.p.state.counterPayout == cp
    && s.q.state.Settled? && s.q.state.ownPayout == cp
    && s.toQ == [] && |s.toP| == 1 && s.toP[0].SettleFinalizeMsg?
  }

  ghost predicate SettleDone(s: System, cp: nat, i: nat) {
    && Invariant(s) && AtIndices(s, i - 1, i - 1) && s.p.state.Settled? && s.p.state.counterPayout == cp
    && s.q.state.Settled? && s.q.state.ownPayout == cp && Silent(s)
  }

  lemma SettleGetsOffered(s: System, cp: nat)
    requires Invariant(s) && Silent(s) && s.p.state.Established? && s.q.state.Established?
    requires s.p.updateIdx == s.q.updateIdx && s.p.updateIdx > 0
    ensures SettleOffered(Step(s, true, Act(CallOfferSettle(cp))), cp, s.p.updateIdx)
  {
    hide Invariant, PartyFits, AgreedFits;
    EndsOfInvariant(s);
    StepKeeps(s, true, Act(CallOfferSettle(cp)));
    assert s.p.lifecycle.Signed? by { OpenEnds(s); }
  }

  lemma OpenEnds(s: System)
    requires Invariant(s)
    ensures s.p.lifecycle.Signed? && s.q.lifecycle.Signed? && TotalCollateral(s.p) == TotalCollateral(s.q)
  {
    hide Idle, Handshake, NegotiationFits, StableFits, SecretsFit, WatchFits, FlagsFit, BuffersFit, ClosedAreOld, CurrentWatched;
  }

  lemma SettleGetsHeld(s: System, cp: nat, i: nat)
    requires SettleOffered(s, cp, i) && cp <= TotalCollateral(s.q)
    ensures SettleHeld(Step(s, false, Deliver), cp, i)
  {
    hide Invariant;
    StepKeeps(s, false, Deliver);
    OpenEnds(s);
    AtQ(s, Deliver);
  }

  /** An offer that pays out more than there is gets no answer. */
  lemma SettleGetsRefused(s: System, cp: nat, i: nat)
    requires SettleOffered(s, cp, i) && cp > TotalCollateral(s.q)
    ensures Step(s, false, Deliver) == s.(toQ := [])
  {
    hide Invariant;
    OpenEnds(s);
    UnchangedRecord(s);
  }

  lemma UnchangedRecord(s: System)
    requires Invariant(s)
    ensures Record(s.agreed, s.q) == s.agreed
  {
    hide Idle, Handshake, SecretsFit, WatchFits, FlagsFit, BuffersFit, ClosedAreOld;
  }

  lemma SettleGetsAccepted(s: System, cp: nat, i: nat)
    requires SettleHeld(s, cp, i) && cp <= TotalCollateral(s.q) && SomeOutput(cp, TotalCollateral(s.q) - cp)
    ensures SettleAccepted(Step(s, false, Act(CallAcceptSettle)), cp, i)
  {
    hide Invariant, PartyFits, AgreedFits;
    StepKeeps(s, false, Act(CallAcceptSettle));
    EndsOfInvariant(s);
    OpenEnds(s);
    HeldSettleFits(s.q, s.agreed);
    AtQ(s, Act(CallAcceptSettle));
  }

  lemma HeldSettleFits(q: Party, agreed: map<nat, Tx>)
    requires PartyFits(q, agreed) && q.state.SettledReceived?
    ensures q.updateIdx > 0 && q.state.ownPayout + q.state.counterPayout == TotalCollateral(q)
  {
    hide StableFits, SecretsFit, WatchFits, FlagsFit, BuffersFit, ClosedAreOld, CurrentWatched;
  }

  lemma SettleGetsConfirmed(s: System, cp: nat, i: nat)
    requires SettleAccepted(s, cp, i)
    ensures SettleConfirmed(Step(s, true, Deliver), cp, i)
  {
    hide Invariant;
    StepKeeps(s, true, Deliver);
    HandshakeDelivers(s);
  }

  lemma SettleGetsFinalized(s: System, cp: nat, i: nat)
    requires SettleConfirmed(s, cp, i)
    ensures SettleFinalized(Step(s, false, Deliver), cp, i)
  {
    hide Invariant;
    StepKeeps(s, false, Deliver);
    InvariantSwaps(s);
    HandshakeDelivers(Swap(s));
    AtQ(s, Deliver);
  }

  lemma SettleGetsDone(s: System, cp: nat, i: nat)
    requires SettleFinalized(s, cp, i)
    ensures SettleDone(Step(s, true, Deliver), cp, i)
  {
    hide Invariant;
    StepKeeps(s, true, Deliver);
    HandshakeDelivers(s);
  }

  /** The calls and deliveries of one settlement. */
  function SettleExchange(cp: nat): seq<(bool, Action)> {
    [(true, Act(CallOfferSettle(cp))), (false, Deliver), (false, Act(CallAcceptSettle)), (true, Deliver),
     (false, Deliver), (true, Deliver)]
  }

  lemma RunSix(s: System, steps: seq<(bool, Action)>)
    requires |steps| >= 6
    ensures Run(s, steps[..1]) == Step(s, steps[0].0, steps[0].1)
    ensures forall n :: 1 <= n < 6 ==> Run(s, steps[..n + 1]) == Step(Run(s, steps[..n]), steps[n].0, steps[n].1)
  {
    hide Step;
    assert steps[..1] == [] + [steps[0]];
    RunSnoc(s, [], steps[0]);
    forall n | 1 <= n < 6 ensures Run(s, steps[..n + 1]) == Step(Run(s, steps[..n]), steps[n].0, steps[n].1) {
      assert steps[..n + 1] == steps[..n] + [steps[n]];
      RunSnoc(s, steps[..n], steps[n]);
    }
  }

  /** From two established ends with nothing in flight, a settlement completes exactly when it pays out no more
      than the collateral and leaves an output: both ends then are settled on the asked payouts, one index lower. Above the
      collateral the offer gets no answer, and without an output accepting it panics, so the offer stays held. */
  lemma SettleExchangeCompletes(s: System, cp: nat)
    requires Reachable(s) && Silent(s) && s.p.state.Established? && s.q.state.Established? && s.p.updateIdx > 0
    ensures var t := Run(s, SettleExchange(cp)); var total := TotalCollateral(s.p);
            if cp > total then t.q == s.q && t.p.state.SettledOffered? && Silent(t)
            else if !SomeOutput(cp, total - cp) then
              && SettleHeld(t, cp, s.p.updateIdx) && AcceptSettle(t.q).reply == Failed(Panic)
            else SettleDone(t, cp, s.p.updateIdx) && t.p.state.settleTx == t.q.state.settleTx
  {
    hide Reachable, Invariant, Step, TotalCollateral, AcceptSettle;
    var steps, i := SettleExchange(cp), s.p.updateIdx;
    ReachableInvariant(s);
    StableEndsAgree(s);
    RunSix(s, steps);
    OpenEnds(s);
    SettleGetsOffered(s, cp);
    var s1, s2, s3, s4, s5 := Run(s, steps[..1]), Run(s, steps[..2]), Run(s, steps[..3]), Run(s, steps[..4]), Run(s, steps[..5]);
    assert steps[..6] == steps;
    OfferKeepsTotal(s, cp);
    if cp > TotalCollateral(s.p) {
      SettleGetsRefused(s1, cp, i);
      UnchangedRecord(s1);
      OpenEnds(s1);
      NothingMoreHappens(s2, cp);
    } else {
      SettleGetsHeld(s1, cp, i);
      HeldKeepsTotal(s1);
      if SomeOutput(cp, TotalCollateral(s.p) - cp) {
        SettleGetsAccepted(s2, cp, i);
        SettleGetsConfirmed(s3, cp, i);
        SettleGetsFinalized(s4, cp, i);
        SettleGetsDone(s5, cp, i);
        SettledTogether(Run(s, steps), cp, i);
      } else {
        SettleCannotBeAccepted(s2, cp, i);
        UnchangedRecord(s2);
        NothingToSettle(s2);
      }
    }
  }

  lemma HeldKeepsTotal(s: System)
    requires Invariant(s)
    ensures TotalCollateral(Step(s, false, Deliver).q) == TotalCollateral(s.q)
  {
    hide Invariant, StepP;
    InvariantSwaps(s);
    StepStaysOrCompletes(Swap(s), Deliver);
  }

  lemma SettleCannotBeAccepted(s: System, cp: nat, i: nat)
    requires SettleHeld(s, cp, i) && cp <= TotalCollateral(s.q) && !SomeOutput(cp, TotalCollateral(s.q) - cp)
    ensures AcceptSettle(s.q) == Fail(s.q, Panic)
  {
    hide Invariant, PartyFits, AgreedFits;
    EndsOfInvariant(s);
    OpenEnds(s);
    HeldSettleFits(s.q, s.agreed);
  }

  lemma NothingToSettle(s: System)
    requires Silent(s) && FailsUnchanged(s.q, AcceptSettle(s.q)) && Record(s.agreed, s.q) == s.agreed
    ensures Step(s, false, Act(CallAcceptSettle)) == s && Step(s, true, Deliver) == s && Step(s, false, Deliver) == s
  {
    hide AcceptSettle;
    assert Swap(Swap(s)) == s;
  }

  lemma OfferKeepsTotal(s: System, cp: nat)
    ensures Step(s, true, Act(CallOfferSettle(cp))).q == s.q
  {
  }

  lemma SettledTogether(s: System, cp: nat, i: nat)
    requires SettleDone(s, cp, i)
    ensures s.p.state.settleTx == s.q.state.settleTx
  {
    hide SecretsFit, WatchFits, FlagsFit, BuffersFit, ClosedAreOld, CurrentWatched, StableFits, NegotiationFits, DisclosureFits, PointsFit;
  }

  lemma NothingMoreHappens(s: System, cp: nat)
    requires Silent(s) && s.p.state.SettledOffered? && s.q.state.Established? && s.q.lifecycle.Signed?
    requires Record(s.agreed, s.q) == s.agreed
    ensures Step(s, false, Act(CallAcceptSettle)) == s && Step(s, true, Deliver) == s && Step(s, false, Deliver) == s
  {
    assert Swap(Swap(s)) == s;
  }

  // ---------- Renewing ----------

  /** The offerer awaits the answer to its offer of the contract `c`. */
  predicate AwaitsRenewal(p: Party, cp: nat, i: nat, c: Contract) {
    && p.state.RenewOffered? && p.state.isOffer && p.state.counterPayout == cp && p.state.contractId == Renewed(i)
    && p.state.contractId in p.contracts && p.contracts[p.state.contractId].contract == c
  }

  ghost predicate RenewOfferedAt(s: System, cp: nat, i: nat, c: Contract) {
    && Invariant(s) && AtIndices(s, i, i) && AwaitsRenewal(s.p, cp, i, c)
    && Stable(s.q.state) && s.toP == [] && |s.toQ| == 1 && s.toQ[0].RenewOfferMsg? && s.toQ[0].counterPayout == cp
    && s.toQ[0].contractId == Renewed(i) && ToWire(c.terms) == Some(s.toQ[0].terms)
  }

  ghost predicate RenewHeld(s: System, cp: nat, i: nat, c: Contract) {
    && Invariant(s) && AtIndices(s, i, i) && AwaitsRenewal(s.p, cp, i, c)
    && s.q.state.RenewOffered? && !s.q.state.isOffer && s.q.state.counterPayout == cp
    && s.q.state.contractId == Renewed(i) && Silent(s)
  }

  ghost predicate RenewAcceptedAt(s: System, cp: nat, i: nat, c: Contract) {
    && Invariant(s) && AtIndices(s, i, i) && AwaitsRenewal(s.p, cp, i, c)
    && s.q.state.RenewAccepted? && s.q.state.contractId == Renewed(i)
    && s.toQ == [] && |s.toP| == 1 && s.toP[0].RenewAcceptMsg?
  }

  ghost predicate RenewConfirmedAt(s: System, i: nat) {
    && Invariant(s) && AtIndices(s, i, i) && s.p.state.RenewConfirmed? && s.p.state.contractId == Renewed(i)
    && s.q.state.RenewAccepted? && s.q.state.contractId == Renewed(i)
    && s.toP == [] && |s.toQ| == 1 && s.toQ[0].RenewConfirmMsg?
  }

  ghost predicate RenewFinalizedAt(s: System, i: nat) {
    && Invariant(s) && AtIndices(s, i, i) && s.p.state.RenewConfirmed? && s.p.state.contractId == Renewed(i)
    && s.q.state.RenewFinalized? && s.q.state.contractId == Renewed(i) && s.q.rollBack.Some?
    && s.toQ == [] && |s.toP| == 1 && s.toP[0].RenewFinalizeMsg?
  }

  ghost predicate RenewRevokedAt(s: System, i: nat) {
    && Invariant(s) && AtIndices(s, i - 1, i) && s.p.state.Established? && s.p.state.contractId == Renewed(i)
    && s.p.rollBack.None? && s.p.state.buffer.Buffer? && s.p.state.buffer.offer.base == s.p.me
    && s.q.state.RenewFinalized? && s.q.state.contractId == Renewed(i) && s.q.rollBack.Some?
    && s.toP == [] && |s.toQ| == 1 && s.toQ[0].RenewRevokeMsg?
  }

  ghost predicate RenewDone(s: System, i: nat) {
    && Invariant(s) && AtIndices(s, i - 1, i - 1) && s.p.state.Established? && s.p.state.contractId == Renewed(i)
    && s.q.state.Established? && s.q.state.contractId == Renewed(i) && Silent(s)
    && s.p.rollBack.None? && s.q.rollBack.Some? && s.p.state.buffer.Buffer? && s.p.state.buffer.offer.base == s.p.me
  }

  /** The contract that an offer of a renewal stores. */
  function OfferedContractFrom(p: Party, input: ContractInput): Contract {
    Contract(Renewed(p.updateIdx), true, input.terms, input.flags, input.offerCollateral + input.acceptCollateral,
             p.ownCollateral, p.counterCollateral)
  }

  lemma RenewGetsOffered(s: System, cp: nat, input: ContractInput)
    requires Invariant(s) && Silent(s) && Stable(s.p.state) && Stable(s.q.state)
    requires s.p.updateIdx == s.q.updateIdx && s.p.updateIdx > 0
    requires RenewalCheck(s.p.state, input.offerCollateral, input.acceptCollateral).None? && Sendable(input.terms)
    ensures var t := Step(s, true, Act(CallOfferRenew(cp, input)));
            RenewOfferedAt(t, cp, s.p.updateIdx, OfferedContractFrom(s.p, input)) && t.q == s.q
  {
    hide Invariant, ToWire, Sendable;
    ReadableIff(input.terms, 0);
    StepKeeps(s, true, Act(CallOfferRenew(cp, input)));
    OpenEnds(s);
  }

  lemma RenewGetsHeld(s: System, cp: nat, i: nat, c: Contract)
    requires RenewOfferedAt(s, cp, i, c) && Readable(c.terms, TotalCollateral(s.q))
    ensures RenewHeld(Step(s, false, Deliver), cp, i, c)
  {
    hide Invariant, FromWire, ToWire;
    ReadableIff(c.terms, TotalCollateral(s.q));
    StepKeeps(s, false, Deliver);
    OpenEnds(s);
    AtQ(s, Deliver);
  }

  /** An offer that cannot be read gets no answer. */
  lemma RenewGetsIgnored(s: System, cp: nat, i: nat, c: Contract)
    requires RenewOfferedAt(s, cp, i, c) && !Readable(c.terms, TotalCollateral(s.q))
    ensures Step(s, false, Deliver) == s.(toQ := [])
  {
    hide Invariant, FromWire, ToWire;
    ReadableIff(c.terms, TotalCollateral(s.q));
    OpenEnds(s);
    UnchangedRecord(s);
  }

  /** An end that holds no renewal it can accept leaves a silent channel as it is. */
  lemma NothingToAccept(s: System)
    requires Silent(s) && FailsUnchanged(s.q, AcceptRenew(s.q)) && Record(s.agreed, s.q) == s.agreed
    ensures Step(s, false, Act(CallAcceptRenew)) == s && Step(s, true, Deliver) == s && Step(s, false, Deliver) == s
  {
    assert Swap(Swap(s)) == s;
  }

  lemma StableHoldsNothing(s: System)
    requires Invariant(s) && Stable(s.q.state)
    ensures AcceptRenew(s.q) == Fail(s.q, InvalidState)
  {
    hide Idle, Handshake, SecretsFit, WatchFits, FlagsFit, BuffersFit, ClosedAreOld, CurrentWatched, NegotiationFits, StableFits;
  }

  /** Accepting succeeds exactly when the terms that were read can be signed. */
  lemma HeldIsAccepted(s: System, cp: nat, i: nat, c: Contract)
    requires RenewHeld(s, cp, i, c)
    ensures if Acceptable(c.terms, c.totalCollateral) then AcceptRenew(s.q).reply.Done?
            else FailsUnchanged(s.q, AcceptRenew(s.q))
  {
    hide Invariant, PartyFits, AgreedFits, TermsToSign, Acceptable, Travelled, EndsFit, AcceptRenew, Holds;
    EndsOfInvariant(s);
    OpenEnds(s);
    HeldRenewalFits(s.q, s.agreed);
    HeldFromOfferer(s);
    HeldRenewalTravelled(Swap(s));
    ReceivedTermsSignable(c, OfferedContract(s.q));
    AcceptsWhatCanBeSigned(s.q);
  }

  predicate FailsUnchanged(p: Party, o: Outcome) {
    o.reply.Failed? && o.party == p
  }

  lemma AcceptsWhatCanBeSigned(q: Party)
    requires q.lifecycle.Signed? && q.state.RenewOffered? && q.updateIdx > 0 && IsOffered(q, q.state.contractId)
    ensures if TermsToSign(OfferedContract(q)).Ok? then AcceptRenew(q).reply.Done? else FailsUnchanged(q, AcceptRenew(q))
  {
    hide TermsToSign;
  }

  lemma HeldFromOfferer(s: System)
    requires Invariant(s) && s.q.state.RenewOffered? && !s.q.state.isOffer
    ensures EndsFit(Swap(s)) && Offering(s.p) && Holds(s.q, OfferOf(s.p))
  {
    hide PartyFits, ProfitsFit, SameContract, DisclosureFits, AgreedFits;
  }

  lemma RenewGetsAccepted(s: System, cp: nat, i: nat, c: Contract)
    requires RenewHeld(s, cp, i, c) && Acceptable(c.terms, c.totalCollateral)
    ensures RenewAcceptedAt(Step(s, false, Act(CallAcceptRenew)), cp, i, c)
  {
    hide Invariant, TermsToSign, Acceptable;
    StepKeeps(s, false, Act(CallAcceptRenew));
    HeldIsAccepted(s, cp, i, c);
    AtQ(s, Act(CallAcceptRenew));
  }

  lemma HeldRenewalFits(q: Party, agreed: map<nat, Tx>)
    requires PartyFits(q, agreed) && q.state.RenewOffered?
    ensures q.updateIdx > 0 && IsOffered(q, q.state.contractId)
  {
    hide StableFits, SecretsFit, WatchFits, FlagsFit, BuffersFit, ClosedAreOld, CurrentWatched;
  }

  lemma RenewGetsConfirmed(s: System, cp: nat, i: nat, c: Contract)
    requires RenewAcceptedAt(s, cp, i, c) && cp <= TotalCollateral(s.p) && Shareable(c)
    ensures RenewConfirmedAt(Step(s, true, Deliver), i)
  {
    hide Invariant, Shareable, TermsToSign;
    StepKeeps(s, true, Deliver);
    HandshakeDelivers(s);
  }

  /** The offerer alone learns that it cannot confirm. */
  lemma RenewGetsStalled(s: System, cp: nat, i: nat, c: Contract)
    requires RenewAcceptedAt(s, cp, i, c) && !(cp <= TotalCollateral(s.p) && Shareable(c))
    ensures Stalled(Step(s, true, Deliver))
  {
    hide Invariant, Shareable, TermsToSign;
    HandshakeDelivers(s);
    FailedStays(s.p, s.toP[0]);
  }

  lemma FailedStays(p: Party, m: Msg)
    requires m.RenewAcceptMsg? && Receive(p, m).reply.Failed?
    ensures Receive(p, m).party == p
  {
  }

  lemma RenewGetsFinalized(s: System, i: nat)
    requires RenewConfirmedAt(s, i)
    ensures RenewFinalizedAt(Step(s, false, Deliver), i)
  {
    hide Invariant;
    StepKeeps(s, false, Deliver);
    InvariantSwaps(s);
    HandshakeDelivers(Swap(s));
    AtQ(s, Deliver);
  }

  lemma RenewGetsRevoked(s: System, i: nat)
    requires RenewFinalizedAt(s, i)
    ensures RenewRevokedAt(Step(s, true, Deliver), i)
  {
    hide Invariant;
    ConfirmedBuffer(s);
    StepKeeps(s, true, Deliver);
    HandshakeDelivers(s);
  }

  lemma ConfirmedBuffer(s: System)
    requires Invariant(s) && s.p.state.RenewConfirmed?
    ensures s.p.state.buffer.Buffer? && s.p.state.buffer.offer.base == s.p.me
  {
    hide Idle, Handshake, SecretsFit, WatchFits, FlagsFit, BuffersFit, ClosedAreOld, CurrentWatched;
  }

  lemma RenewGetsDone(s: System, i: nat)
    requires RenewRevokedAt(s, i)
    ensures RenewDone(Step(s, false, Deliver), i)
  {
    hide Invariant;
    StepKeeps(s, false, Deliver);
    InvariantSwaps(s);
    HandshakeDelivers(Swap(s));
    AtQ(s, Deliver);
  }

  /** The calls and deliveries of one renewal. */
  function RenewExchange(cp: nat, input: ContractInput): seq<(bool, Action)> {
    [(true, Act(CallOfferRenew(cp, input))), (false, Deliver), (false, Act(CallAcceptRenew)), (true, Deliver),
     (false, Deliver), (true, Deliver), (false, Deliver)]
  }

  /** From two stable ends with nothing in flight, a renewal with the right collaterals completes exactly when the
      offer can be read, can be accepted, pays out no more than the collateral and is shareable. One that cannot be written
      panics at its offerer, one that cannot be read is dropped without an answer, one that cannot be accepted stays
      held, and otherwise the renewal stalls. */
  lemma RenewExchangeCompletes(s: System, cp: nat, input: ContractInput)
    requires Reachable(s) && Silent(s) && Stable(s.p.state) && Stable(s.q.state) && s.p.updateIdx > 0
    requires RenewalCheck(s.p.state, input.offerCollateral, input.acceptCollateral).None?
    ensures var t := Run(s, RenewExchange(cp, input)); var c := OfferedContractFrom(s.p, input); var total := TotalCollateral(s.p);
            if !Sendable(c.terms) then t.p == s.p && t.q == s.q && Silent(t)
            else if !Readable(c.terms, total) then t.q == s.q && t.p.state.RenewOffered? && Silent(t)
            else if !Acceptable(c.terms, total) then
              t.q.state.RenewOffered? && Holding(t.q) && t.p.state.RenewOffered? && Silent(t)
            else if cp <= total && Shareable(c) then
              RenewDone(t, s.p.updateIdx) && t.p.state.buffer == t.q.state.buffer
            else Stalled(t)
  {
    hide Reachable, Invariant, Step, TotalCollateral, RenewalCheck, Stalled, Sendable, Readable, Acceptable, Shareable;
    var steps, i, c, total := RenewExchange(cp, input), s.p.updateIdx, OfferedContractFrom(s.p, input), TotalCollateral(s.p);
    ReachableInvariant(s);
    StableEndsAgree(s);
    OpenEnds(s);
    RunSix(s, steps);
    var s1, s2, s3, s4, s5, s6 :=
      Run(s, steps[..1]), Run(s, steps[..2]), Run(s, steps[..3]), Run(s, steps[..4]), Run(s, steps[..5]), Run(s, steps[..6]);
    assert steps == steps[..6] + [steps[6]];
    RunSnoc(s, steps[..6], steps[6]);
    if !Sendable(c.terms) {
      RenewIsNotSent(s, cp, input);
      UnchangedRecord(s);
      StableHoldsNothing(s);
      NothingToAccept(s);
      return;
    }
    RenewGetsOffered(s, cp, input);
    RenewedTotal(s, cp, input);
    if !Readable(c.terms, total) {
      RenewGetsIgnored(s1, cp, i, c);
      UnchangedRecord(s1);
      StableHoldsNothing(s1);
      NothingToAccept(s2);
    } else {
      RenewGetsHeld(s1, cp, i, c);
      if !Acceptable(c.terms, total) {
        HeldIsAccepted(s2, cp, i, c);
        UnchangedRecord(s2);
        NothingToAccept(s2);
      } else {
        RenewGetsAccepted(s2, cp, i, c);
        KeepsTotal(s, true, steps[0].1);
        KeepsTotal(s1, false, Deliver);
        KeepsTotal(s2, false, steps[2].1);
        AcceptedOutcome(s, s3, steps, cp, i, c);
      }
    }
  }

  lemma RenewIsNotSent(s: System, cp: nat, input: ContractInput)
    requires Invariant(s) && Stable(s.p.state) && s.p.updateIdx > 0 && !Sendable(input.terms)
    requires RenewalCheck(s.p.state, input.offerCollateral, input.acceptCollateral).None?
    ensures Step(s, true, Act(CallOfferRenew(cp, input))) == s
  {
    hide Invariant, ToWire, Sendable;
    ReadableIff(input.terms, 0);
    OpenEnds(s);
    InvariantSwaps(s);
    UnchangedRecord(Swap(s));
  }

  lemma RenewedTotal(s: System, cp: nat, input: ContractInput)
    requires Invariant(s) && Stable(s.p.state) && RenewalCheck(s.p.state, input.offerCollateral, input.acceptCollateral).None?
    ensures OfferedContractFrom(s.p, input).totalCollateral == TotalCollateral(s.p)
  {
    hide Idle, Handshake, SecretsFit, WatchFits, FlagsFit, BuffersFit, ClosedAreOld, CurrentWatched, NegotiationFits;
  }

  /** The rest of the exchange once the renewal was accepted. */
  lemma AcceptedOutcome(s: System, s3: System, steps: seq<(bool, Action)>, cp: nat, i: nat, c: Contract)
    requires Reachable(s) && |steps| == 7 && s3 == Run(s, steps[..3]) && RenewAcceptedAt(s3, cp, i, c)
    requires steps[3..] == [(true, Deliver), (false, Deliver), (true, Deliver), (false, Deliver)]
    ensures var t := Run(s, steps);
            if cp <= TotalCollateral(s3.p) && Shareable(c) then RenewDone(t, i) && t.p.state.buffer == t.q.state.buffer
            else Stalled(t)
  {
    hide Reachable, Invariant, Step, TotalCollateral, Stalled, Shareable;
    RunSix(s, steps);
    assert steps[3] == steps[3..][0] && steps[4] == steps[3..][1] && steps[5] == steps[3..][2] && steps[6] == steps[3..][3];
    assert steps == steps[..6] + [steps[6]];
    RunSnoc(s, steps[..6], steps[6]);
    var s4, s5, s6 := Run(s, steps[..4]), Run(s, steps[..5]), Run(s, steps[..6]);
    if cp <= TotalCollateral(s3.p) && Shareable(c) {
      RenewGetsConfirmed(s3, cp, i, c);
      RenewGetsFinalized(s4, i);
      RenewGetsRevoked(s5, i);
      RenewGetsDone(s6, i);
      RenewedTogether(Run(s, steps), i);
    } else {
      RenewGetsStalled(s3, cp, i, c);
      ReachableRuns(s, steps[..4]);
      StalledForever(s4, steps[4..]);
      RunAppend(s, steps[..4], steps[4..]);
      assert steps[..4] + steps[4..] == steps;
      StalledSame(s4, Run(s, steps));
    }
  }

  lemma RenewedTogether(s: System, i: nat)
    requires RenewDone(s, i)
    ensures s.p.state.buffer == s.q.state.buffer
  {
    hide SecretsFit, WatchFits, FlagsFit, BuffersFit, ClosedAreOld, CurrentWatched, StableFits, NegotiationFits, DisclosureFits, PointsFit;
  }

  lemma StalledSame(s: System, t: System)
    requires Stalled(s) && t.p == s.p && t.q == s.q
    ensures Stalled(t)
  {
  }

  lemma KeepsTotal(s: System, atP: bool, a: Action)
    requires Invariant(s)
    ensures TotalCollateral(Step(s, atP, a).p) == TotalCollateral(s.p)
  {
    hide Invariant, StepP;
    if atP {
      StepStaysOrCompletes(s, a);
    } else {
      InvariantSwaps(s);
      StepStaysOrCompletes(Swap(s), a);
    }
  }

  lemma {:induction false} RunAppend(s: System, first: seq<(bool, Action)>, more: seq<(bool, Action)>)
    ensures Run(s, first + more) == Run(Run(s, first), more)
    decreases |more|
  {
    hide Step;
    if more == [] {
      assert first + more == first;
    } else {
      var n := |more| - 1;
      assert first + more == (first + more[..n]) + [more[n]];
      RunAppend(s, first, more[..n]);
      RunSnoc(s, first + more[..n], more[n]);
    }
  }

  lemma ReachableRuns(s: System, steps: seq<(bool, Action)>)
    requires Reachable(s)
    ensures Reachable(Run(s, steps))
  {
    hide Run;
    var me: Who, oc: nat, ac: nat, d: Terms, before :| s == Run(InitialSystem(me, oc, ac, d), before);
    RunAppend(InitialSystem(me, oc, ac, d), before, steps);
    assert Run(s, steps) == Run(InitialSystem(me, oc, ac, d), before + steps);
  }

  // ---------- What a renewal leaves behind ----------

  /** The accepting end of a completed renewal still carries its rollback, so unlike its counterparty it refuses
      every offer to close, whatever its payout. */
  lemma RenewalLeavesRollBack(s: System, cp: nat, input: ContractInput, counterPayout: nat, sig: Sig)
    requires Reachable(s) && Silent(s) && Stable(s.p.state) && Stable(s.q.state) && s.p.updateIdx > 0
    requires RenewalCheck(s.p.state, input.offerCollateral, input.acceptCollateral).None? && cp <= TotalCollateral(s.p)
    requires Readable(input.terms, TotalCollateral(s.p)) && Acceptable(input.terms, TotalCollateral(s.p))
    requires Shareable(OfferedContractFrom(s.p, input))
    ensures var t := Run(s, RenewExchange(cp, input));
            && OnCloseOffer(t.q, counterPayout, sig).reply.Failed?
            && (OnCloseOffer(t.p, counterPayout, sig).reply.Done? <==> counterPayout <= TotalCollateral(t.p))
  {
    hide Reachable, Invariant, Run, RenewExchange, RenewalCheck;
    RenewExchangeCompletes(s, cp, input);
    OpenEnds(Run(s, RenewExchange(cp, input)));
  }

  /** When a stable end carries a rollback, exactly: the step just taken completed a renewal at its accepting end, or the
      end was stable before with a rollback, and the step left it alone. */
  lemma RollBackLeftOver(s: System, a: Action)
    requires Reachable(s)
    ensures var t := StepP(s, a);
            Stable(t.p.state) ==>
              (t.p.rollBack.Some? <==>
                 s.p.state.RenewFinalized? || (t.p == s.p && s.p.rollBack.Some?))
  {
    hide Reachable, Invariant, Receive, Perform, PartyFits;
    ReachableInvariant(s);
    EndsOfInvariant(s);
    match a
    case Deliver => if s.toP != [] { ReceiveLeavesRollBack(s.p, s.toP[0], s.agreed); }
    case Act(c) => if Permitted(s.p, c) { PerformLeavesRollBack(s.p, c, s.agreed); }
    RollBackOf(s.p, s.agreed);
  }

  lemma RollBackOf(p: Party, agreed: map<nat, Tx>)
    requires PartyFits(p, agreed)
    ensures !Stable(p.state) ==> p.rollBack.Some?
  {
  }

  lemma ReceiveLeavesRollBack(p: Party, m: Msg, agreed: map<nat, Tx>)
    requires PartyFits(p, agreed)
    ensures var t := Receive(p, m).party;
            Stable(t.state) ==> (t.rollBack.Some? <==> p.state.RenewFinalized? || (t == p && p.rollBack.Some?))
    ensures Stable(Receive(p, m).party.state) && p.state.RenewFinalized? ==>
              Receive(p, m).party.state.Established? && Receive(p, m).party.state.buffer == p.state.buffer
  {
    hide SecretsFit, WatchFits, FlagsFit, BuffersFit, ClosedAreOld, CurrentWatched, StableFits, NegotiationFits, TxFits, PointsFit,
         BaseStored, TermsToSign, FromWire;
  }

  lemma PerformLeavesRollBack(p: Party, c: Call, agreed: map<nat, Tx>)
    requires PartyFits(p, agreed) && Permitted(p, c)
    ensures var t := Perform(p, c).party;
            Stable(t.state) ==> !p.state.RenewFinalized? && (t.rollBack.Some? <==> t == p && p.rollBack.Some?)
  {
    hide SecretsFit, WatchFits, FlagsFit, BuffersFit, ClosedAreOld, CurrentWatched, StableFits, NegotiationFits, TxFits, PointsFit,
         BaseStored, TermsToSign, FromWire;
  }

  /** A rollback is left over only at the accepting end of the renewal that an end is established in. */
  predicate LeftOverFits(p: Party) {
    Stable(p.state) && p.rollBack.Some? ==> p.state.Established? && p.state.buffer.Buffer? && p.state.buffer.offer.base == Other(p.me)
  }

  lemma StepKeepsLeftOver(s: System, a: Action)
    requires Invariant(s) && LeftOverFits(s.p)
    ensures LeftOverFits(StepP(s, a).p)
  {
    hide Invariant, Receive, Perform, PartyFits;
    EndsOfInvariant(s);
    StepStaysOrCompletes(s, a);
    FinalizedBuffer(s.p, s.agreed);
    match a
    case Deliver => if s.toP != [] { ReceiveLeavesRollBack(s.p, s.toP[0], s.agreed); }
    case Act(c) => if Permitted(s.p, c) { PerformLeavesRollBack(s.p, c, s.agreed); }
  }

  lemma FinalizedBuffer(p: Party, agreed: map<nat, Tx>)
    requires PartyFits(p, agreed)
    ensures p.state.RenewFinalized? ==> p.state.buffer.Buffer? && p.state.buffer.offer.base == Other(p.me)
  {
    hide SecretsFit, WatchFits, FlagsFit, BuffersFit, ClosedAreOld, CurrentWatched, StableFits;
  }

  lemma {:induction false} RunKeepsLeftOver(s: System, steps: seq<(bool, Action)>)
    requires Invariant(s) && LeftOverFits(s.p) && LeftOverFits(s.q)
    ensures LeftOverFits(Run(s, steps).p) && LeftOverFits(Run(s, steps).q)
    decreases |steps|
  {
    hide Invariant, StepP, LeftOverFits;
    if steps != [] {
      var n := |steps| - 1;
      var m := Run(s, steps[..n]);
      RunKeepsLeftOver(s, steps[..n]);
      RunKeeps(s, steps[..n]);
      InvariantSwaps(m);
      if steps[n].0 {
        StepKeepsLeftOver(m, steps[n].1);
        StepStaysOrCompletes(m, steps[n].1);
      } else {
        StepKeepsLeftOver(Swap(m), steps[n].1);
        StepStaysOrCompletes(Swap(m), steps[n].1);
      }
    }
  }

  lemma LeftOverOnlyAtAccepter(s: System)
    requires Reachable(s) && Stable(s.p.state) && s.p.rollBack.Some?
    ensures s.p.state.Established? && s.p.state.buffer.Buffer? && s.p.state.buffer.offer.base == Other(s.p.me)
    ensures forall counterPayout, sig :: OnCloseOffer(s.p, counterPayout, sig).reply.Failed?
  {
    hide Invariant, Run;
    var me: Who, oc: nat, ac: nat, d: Terms, steps :| s == Run(InitialSystem(me, oc, ac, d), steps);
    InitialInvariant(me, oc, ac, d);
    RunKeepsLeftOver(InitialSystem(me, oc, ac, d), steps);
  }

  // ---------- Offers that are rejected ----------

  function RejectedSettle(cp: nat): seq<(bool, Action)> {
    [(true, Act(CallOfferSettle(cp))), (false, Deliver), (false, Act(CallRejectSettle)), (true, Deliver)]
  }

  function RejectedRenewal(cp: nat, input: ContractInput): seq<(bool, Action)> {
    [(true, Act(CallOfferRenew(cp, input))), (false, Deliver), (false, Act(CallRejectRenew)), (true, Deliver)]
  }

  lemma RunFour(s: System, steps: seq<(bool, Action)>)
    requires |steps| == 4
    ensures Run(s, steps) == Step(Step(Step(Step(s, steps[0].0, steps[0].1), steps[1].0, steps[1].1), steps[2].0, steps[2].1), steps[3].0, steps[3].1)
  {
    hide Step;
    assert steps[..3][..2] == steps[..2] && steps[..2][..1] == steps[..1] && steps[..1][..0] == [];
    assert Run(s, steps[..1]) == Step(Run(s, []), steps[0].0, steps[0].1);
    assert Run(s, steps[..2]) == Step(Run(s, steps[..1]), steps[1].0, steps[1].1);
    assert Run(s, steps[..3]) == Step(Run(s, steps[..2]), steps[2].0, steps[2].1);
  }

  /** A settlement that is held and rejected leaves both ends as they were, with no rollback. */
  lemma RejectedSettleRestores(s: System, cp: nat)
    requires Reachable(s) && Silent(s) && s.p.state.Established? && s.q.state.Established? && s.p.updateIdx > 0
    requires cp <= TotalCollateral(s.p)
    ensures Run(s, RejectedSettle(cp)) == s.(p := s.p.(rollBack := None), q := s.q.(rollBack := None))
  {
    hide Reachable, Invariant, Run, Step;
    ReachableInvariant(s);
    StableEndsAgree(s);
    OpenEnds(s);
    LiveAndAgreed(s);
    RunFour(s, RejectedSettle(cp));
    var held := OnSettleOffer(s.q, cp, PerUpdatePoint(s.p.me, s.p.updateIdx - 1)).party;
    FourSteps(s, CallOfferSettle(cp), CallRejectSettle, held, s.p.(rollBack := None), s.q.(rollBack := None));
  }

  /** The store of an end after it rejected the contract `c`. */
  function WithRejected(p: Party, c: Contract): Party {
    p.(rollBack := None, contracts := p.contracts[Renewed(p.updateIdx) := Rejected(c)])
  }

  /** So does a renewal, but for the note of the rejected contract at either end, which the offerer has as it was asked for and the
      other end as it was read. */
  lemma RejectedRenewalRestores(s: System, cp: nat, input: ContractInput)
    requires Reachable(s) && Silent(s) && Stable(s.p.state) && Stable(s.q.state) && s.p.updateIdx > 0
    requires RenewalCheck(s.p.state, input.offerCollateral, input.acceptCollateral).None?
    requires Sendable(input.terms) && Readable(input.terms, TotalCollateral(s.p))
    ensures ToWire(input.terms).Some? && FromWire(ToWire(input.terms).value, TotalCollateral(s.p)).Ok?
    ensures Run(s, RejectedRenewal(cp, input))
              == s.(p := WithRejected(s.p, OfferedContractFrom(s.p, input)),
                    q := WithRejected(s.q, ReadContract(s.q, s.p.updateIdx, FromWire(ToWire(input.terms).value, TotalCollateral(s.p)).value)))
  {
    hide Reachable, Invariant, TotalCollateral, Run, ToWire, FromWire, Sendable, Readable, Step, OfferRenew, OnRenewOffer, RejectRenew, OnReject;
    ReadableIff(input.terms, TotalCollateral(s.p));
    ReachableInvariant(s);
    StableEndsAgree(s);
    OpenEnds(s);
    LiveAndAgreed(s);
    RunFour(s, RejectedRenewal(cp, input));
    var wire, i := ToWire(input.terms).value, s.p.updateIdx;
    var read := ReadContract(s.q, i, FromWire(wire, TotalCollateral(s.p)).value);
    OfferedThenRejected(s.p, cp, input);
    HeldThenRejected(s.q, cp, i, wire);
    var held := OnRenewOffer(s.q, Renewed(i), cp, PerUpdatePoint(s.p.me, i - 1), wire).party;
    OppositeEnds(s);
    FourSteps(s, CallOfferRenew(cp, input), CallRejectRenew, held, WithRejected(s.p, OfferedContractFrom(s.p, input)), WithRejected(s.q, read));
  }

  /** The contract that an end reads off an offer. */
  function ReadContract(q: Party, i: nat, terms: Terms): Contract {
    Contract(Renewed(i), false, terms, 0, TotalCollateral(q), q.counterCollateral, q.ownCollateral)
  }

  lemma OfferedThenRejected(p: Party, cp: nat, input: ContractInput)
    requires p.lifecycle.Signed? && Stable(p.state) && p.updateIdx > 0 && ToWire(input.terms).Some?
    requires RenewalCheck(p.state, input.offerCollateral, input.acceptCollateral).None?
    ensures var o := OfferRenew(p, cp, input);
            && o.reply == Done(Some(RenewOfferMsg(Renewed(p.updateIdx), cp, PerUpdatePoint(p.me, p.updateIdx - 1), ToWire(input.terms).value)))
            && !Stable(o.party.state) && !o.party.state.RenewFinalized?
            && OnReject(o.party) == Quiet(WithRejected(p, OfferedContractFrom(p, input)))
  {
    hide ToWire, RenewalCheck;
    var t := OnReject(OfferRenew(p, cp, input).party).party;
    assert t.contracts == WithRejected(p, OfferedContractFrom(p, input)).contracts;
  }

  lemma HeldThenRejected(q: Party, cp: nat, i: nat, wire: WireTerms)
    requires q.lifecycle.Signed? && Stable(q.state) && q.updateIdx == i > 0 && FromWire(wire, TotalCollateral(q)).Ok?
    ensures var o := OnRenewOffer(q, Renewed(i), cp, PerUpdatePoint(Other(q.me), i - 1), wire);
            && o.reply == Done(None) && !Stable(o.party.state) && !o.party.state.RenewFinalized?
            && RejectRenew(o.party) == Say(WithRejected(q, ReadContract(q, i, FromWire(wire, TotalCollateral(q)).value)), RejectMsg)
  {
    hide FromWire;
    var o := OnRenewOffer(q, Renewed(i), cp, PerUpdatePoint(Other(q.me), i - 1), wire);
    var back := WithRejected(q, ReadContract(q, i, FromWire(wire, TotalCollateral(q)).value));
    assert RejectRenew(o.party).party.contracts == back.contracts;
  }

  /** An offer, its delivery, a rejection and its delivery, when none of them records an agreement. */
  lemma FourSteps(s: System, offer: Call, reject: Call, held: Party, back: Party, qBack: Party)
    requires Silent(s) && Permitted(s.p, offer) && Permitted(held, reject)
    requires var o := Perform(s.p, offer);
             && o.reply.Done? && o.reply.msg.Some? && DisclosedBy(o.reply.msg.value).None?
             && Receive(s.q, o.reply.msg.value) == Quiet(held) && Receive(o.party, RejectMsg) == Quiet(back)
             && Record(s.agreed, o.party) == s.agreed
    requires Perform(held, reject) == Say(qBack, RejectMsg)
    requires Record(s.agreed, held) == s.agreed && Record(s.agreed, back) == s.agreed && Record(s.agreed, qBack) == s.agreed
    ensures Step(Step(Step(Step(s, true, Act(offer)), false, Deliver), false, Act(reject)), true, Deliver) == s.(p := back, q := qBack)
  {
    hide Perform, Receive, Permitted, Record;
    var o := Perform(s.p, offer);
    var s1 := Step(s, true, Act(offer));
    assert s1 == s.(p := o.party, toQ := [o.reply.msg.value]);
    var s2 := Step(s1, false, Deliver);
    assert s2 == s.(p := o.party, q := held);
    var s3 := Step(s2, false, Act(reject));
    assert s3 == s.(p := o.party, q := qBack, toP := [RejectMsg]);
  }
}
