/** Every step of either party keeps the invariant. */
module ChannelSteps {
  import opened Wrappers
  import opened ChannelTypes
  import opened ChannelTerms
  import opened ChannelHandlers
  import opened ChannelSystem

  // ---------- Recording what was agreed ----------

  lemma RecordSame(p: Party, agreed: map<nat, Tx>)
    requires TxFits(p, agreed)
    ensures Record(agreed, p) == agreed
  {
  }

  /** A failing operation that left the record alone changes nothing but the consumed messages. */
  lemma FailedChangesNothing(s: System, o: Outcome, used: nat)
    requires used <= |s.toP| && TxFits(s.p, s.agreed)
    requires o.party == s.p && o.reply.Failed?
    ensures After(s, o, used) == s.(toP := s.toP[used..])
  {
    RecordSame(s.p, s.agreed);
    assert s.toQ + [] == s.toQ;
  }

  lemma FailedCallKeeps(s: System, o: Outcome)
    requires Invariant(s) && o.party == s.p && o.reply.Failed?
    ensures Invariant(After(s, o, 0))
  {
    FailedChangesNothing(s, o, 0);
    assert After(s, o, 0) == s;
  }

  // ---------- Moves within one update index ----------

  /** The parts of a record that a negotiation leaves alone until it discloses a secret. */
  predicate SameUpdate(p: Party, t: Party) {
    && t.me == p.me && t.ownCollateral == p.ownCollateral && t.counterCollateral == p.counterCollateral
    && t.lifecycle == p.lifecycle && t.updateIdx == p.updateIdx
    && t.ownPoint == p.ownPoint && t.counterPoint == p.counterPoint
    && t.counterSecrets == p.counterSecrets
    && Base(t) == Base(p)
    && !p.state.RenewFinalized? && !t.state.RenewFinalized?
  }

  /** The store moved by a negotiation: only the contract of this update index, which is not closed. */
  predicate SameStore(p: Party, t: Party) {
    var id := Renewed(p.updateIdx);
    || t.contracts == p.contracts
    || (id in t.contracts && !t.contracts[id].Closed? && t.contracts == p.contracts[id := t.contracts[id]])
  }

  /** New registrations touch no agreed transaction of this or a higher index. */
  ghost predicate SameWatch(p: Party, t: Party, agreed: map<nat, Tx>) {
    && (forall tx :: tx in t.watched && t.watched[tx].Revoked? ==> tx in p.watched && t.watched[tx] == p.watched[tx])
    && (forall i :: i in agreed && p.updateIdx <= i && agreed[i] in p.watched ==>
          agreed[i] in t.watched && t.watched[agreed[i]] == p.watched[agreed[i]])
    && (forall tx :: tx in t.watched && tx.Buffer? ==> tx in p.watched)
  }

  /** The closed contracts of `p` are still those of `t`, with the same profits. */
  ghost predicate SameClosed(p: Party, t: Party) {
    && (forall id :: ClosedIn(p, id) ==> id in t.contracts && t.contracts[id] == p.contracts[id])
    && (forall id :: ClosedIn(t, id) ==> ClosedIn(p, id))
  }

  lemma MoveKeepsParty(p: Party, t: Party, agreed: map<nat, Tx>)
    requires PartyFits(p, agreed)
    requires SameUpdate(p, t) && SameStore(p, t) && SameWatch(p, t, agreed)
    requires Stable(t.state) || (t.rollBack.Some? && NegotiationFits(t))
    ensures PartyFits(t, agreed)
    ensures SameClosed(p, t)
  {
    hide FlagsFit, BuffersFit;
    assert !ClosedIn(p, Renewed(p.updateIdx));
    MoveKeepsFlags(p, t, agreed);
  }

  lemma MoveKeepsFlags(p: Party, t: Party, agreed: map<nat, Tx>)
    requires FlagsFit(p, agreed) && BuffersFit(p) && SameUpdate(p, t) && SameWatch(p, t, agreed)
    ensures FlagsFit(t, agreed) && BuffersFit(t)
  {
    forall i: nat | RevokedFrom(t) <= i <= INITIAL_UPDATE_NUMBER ensures FlagAt(t, agreed, i) {
      assert FlagAt(p, agreed, i);
    }
  }

  lemma NewWatchIsSame(p: Party, t: Party, agreed: map<nat, Tx>, tx: Tx, ty: TxType)
    requires AgreedFits(agreed) && !ty.Revoked? && !tx.Buffer?
    requires t.watched == p.watched[tx := ty]
    requires tx.CollaborativeClose? || (p.updateIdx > 0 && IsCloseTx(tx, p.updateIdx - 1))
    requires WatchFits(p, agreed) && !p.state.RenewFinalized?
    ensures SameWatch(p, t, agreed)
  {
    forall i | i in agreed && p.updateIdx <= i
      ensures agreed[i] != tx
    {
      assert IsCloseTx(agreed[i], i);
    }
  }

  lemma ProfitsFollowMove(p: Party, t: Party, q: Party, ahead: Option<ContractId>, payoutQ: int)
    requires ProfitsFit(p, q, ahead, payoutQ)
    requires SameClosed(p, t)
    ensures ProfitsFit(t, q, ahead, payoutQ)
  {
  }

  lemma ProfitsFollowMoveAhead(p: Party, q: Party, t: Party, ahead: Option<ContractId>, payoutQ: int)
    requires ProfitsFit(p, q, ahead, payoutQ)
    requires t.ownCollateral == q.ownCollateral
    requires SameClosed(q, t)
    ensures ProfitsFit(p, t, ahead, payoutQ)
  {
  }

  /** `t` is `p` after a negotiation step that disclosed nothing. */
  ghost predicate Moved(p: Party, t: Party, agreed: map<nat, Tx>) {
    SameUpdate(p, t) && PartyFits(t, agreed) && SameClosed(p, t)
  }

  lemma MoveKeepsEnds(s: System, t: Party, toP: seq<Msg>, toQ: seq<Msg>)
    requires EndsFit(s) && Moved(s.p, t, s.agreed)
    requires !s.p.state.SettledConfirmed? && !t.state.SettledConfirmed?
    ensures EndsFit(s.(p := t, toP := toP, toQ := toQ))
  {
  }

  // ---------- Making an offer ----------

  /** The phases in which `p` is stable: idle, or its side of an update is complete. */
  lemma StablePhases(s: System)
    requires Invariant(s) && Stable(s.p.state)
    ensures Idle(s) || RenewRevoking(s) || SettleFinalizing(Swap(s))
  {
    hide PartyFits, ProfitsFit, SameContract, DisclosureFits, AgreedFits;
  }

  /** `t` is `p`, stable until now, awaiting an answer to an offer. */
  ghost predicate Offers(p: Party, t: Party, agreed: map<nat, Tx>) {
    && Stable(p.state) && t.rollBack == Some(p.state) && Offering(t)
    && Moved(p, t, agreed)
  }

  function AfterOffer(s: System, t: Party): System
    requires Offering(t)
  {
    s.(p := t, toQ := s.toQ + [OfferOf(t)])
  }

  lemma OfferIsAfter(s: System, t: Party)
    requires Offers(s.p, t, s.agreed)
    ensures After(s, Say(t, OfferOf(t)), 0) == AfterOffer(s, t)
  {
    RecordSame(t, s.agreed);
  }

  lemma OfferWhenIdle(s: System, t: Party)
    requires Idle(s) && Offers(s.p, t, s.agreed)
    ensures Idle(AfterOffer(s, t))
  {
    hide PartyFits, ProfitsFit, OfferOf;
    ProfitsFollowMove(s.p, t, s.q, None, 0);
    OfferInFlight(s, t);
    OfferInFlightBack(s, t);
  }

  lemma OfferInFlight(s: System, t: Party)
    requires Idle(s) && Offers(s.p, t, s.agreed)
    ensures IdleFlight(t, s.q, s.toP, s.toQ + [OfferOf(t)])
  {
    hide PartyFits, ProfitsFit, OfferOf, SameContract;
    assert s.toQ == [] || s.toQ == [RejectMsg];
    assert s.toQ == [] ==> s.toQ + [OfferOf(t)] == [OfferOf(t)];
    assert s.toQ == [RejectMsg] ==> s.toQ + [OfferOf(t)] == [RejectMsg, OfferOf(t)];
    OfferIsNoReject(t);
  }

  lemma OfferInFlightBack(s: System, t: Party)
    requires Idle(s) && Offers(s.p, t, s.agreed)
    ensures IdleFlight(s.q, t, s.toQ + [OfferOf(t)], s.toP)
  {
    hide PartyFits, ProfitsFit, OfferOf, SameContract;
    OfferIsNoReject(t);
  }

  lemma OfferIsNoReject(t: Party)
    requires Offering(t)
    ensures OfferOf(t) != RejectMsg
  {
  }

  lemma OfferWhenRevoking(s: System, t: Party)
    requires RenewRevoking(s) && Offers(s.p, t, s.agreed)
    ensures RenewRevoking(AfterOffer(s, t))
  {
    ProfitsFollowMove(s.p, t, s.q, None, 0);
  }

  lemma OfferWhenFinalizing(s: System, t: Party)
    requires SettleFinalizing(Swap(s)) && Offers(s.p, t, s.agreed)
    ensures SettleFinalizing(Swap(AfterOffer(s, t)))
  {
    ProfitsFollowMoveAhead(s.q, s.p, t, Some(Base(s.q).contractId), Base(s.p).ownPayout);
  }

  /** A stable party that makes an offer. */
  lemma OfferKeeps(s: System, t: Party)
    requires Invariant(s) && Offers(s.p, t, s.agreed)
    ensures Invariant(After(s, Say(t, OfferOf(t)), 0))
  {
    OfferIsAfter(s, t);
    var u := AfterOffer(s, t);
    StablePhases(s);
    if Idle(s) {
      OfferWhenIdle(s, t);
    } else if RenewRevoking(s) {
      OfferWhenRevoking(s, t);
    } else {
      OfferWhenFinalizing(s, t);
    }
    assert EndsFit(u);
  }

  lemma OfferSettleParty(p: Party, agreed: map<nat, Tx>, counterPayout: nat)
    requires PartyFits(p, agreed)
    ensures var o := OfferSettle(p, counterPayout);
            if o.reply.Failed? then o.party == p
            else Offers(p, o.party, agreed) && o.reply == Done(Some(OfferOf(o.party)))
  {
    var o := OfferSettle(p, counterPayout);
    if o.reply.Done? {
      MoveKeepsParty(p, o.party, agreed);
    }
  }

  lemma OfferRenewParty(p: Party, agreed: map<nat, Tx>, counterPayout: nat, input: ContractInput)
    requires PartyFits(p, agreed)
    ensures var o := OfferRenew(p, counterPayout, input);
            if o.reply.Failed? then o.party == p
            else Offers(p, o.party, agreed) && o.reply == Done(Some(OfferOf(o.party)))
  {
    hide SecretsFit, WatchFits, FlagsFit, BuffersFit, CurrentWatched, ClosedAreOld, ToWire, FromWire, TermsToSign;
    var o := OfferRenew(p, counterPayout, input);
    if o.reply.Done? {
      MoveKeepsParty(p, o.party, agreed);
    }
  }

  lemma OfferCloseParty(p: Party, agreed: map<nat, Tx>, counterPayout: nat, extraInputs: seq<nat>)
    requires PartyFits(p, agreed) && AgreedFits(agreed) && Stable(p.state)
    ensures var o := OfferClose(p, counterPayout, extraInputs);
            if o.reply.Failed? then o.party == p
            else Offers(p, o.party, agreed) && o.reply == Done(Some(OfferOf(o.party)))
  {
    hide SecretsFit, StableFits, SameWatch, WatchFits, FlagsFit, BuffersFit, CurrentWatched, ClosedAreOld;
    var o := OfferClose(p, counterPayout, extraInputs);
    if o.reply.Done? {
      NewWatchIsSame(p, o.party, agreed, o.party.state.closeTx, CollaborativeCloseTx);
      MoveKeepsParty(p, o.party, agreed);
    }
  }

  /** The outcome of an operation that either fails or makes an offer. */
  lemma OfferingCallKeeps(s: System, o: Outcome)
    requires Invariant(s)
    requires if o.reply.Failed? then o.party == s.p
             else Offers(s.p, o.party, s.agreed) && o.reply == Done(Some(OfferOf(o.party)))
    ensures Invariant(After(s, o, 0))
  {
    if o.reply.Failed? {
      FailedCallKeeps(s, o);
    } else {
      OfferKeeps(s, o.party);
    }
  }

  // ---------- Answering an offer ----------

  /** A party that holds an offer has nothing in flight in either direction. */
  lemma HoldingIsQuiet(s: System)
    requires Invariant(s) && Holding(s.p)
    ensures Idle(s) && Offering(s.q) && Holds(s.p, OfferOf(s.q))
    ensures s.toP == [] && s.toQ == []
  {
    hide PartyFits, ProfitsFit, SameContract, DisclosureFits, AgreedFits;
  }

  /** `t` is `p` after it rolled an offer back. */
  ghost predicate RolledBack(p: Party, t: Party, agreed: map<nat, Tx>) {
    && p.rollBack.Some? && t.state == p.rollBack.value && Stable(t.state)
    && Moved(p, t, agreed)
  }

  lemma RejectSettleParty(p: Party, agreed: map<nat, Tx>)
    requires PartyFits(p, agreed)
    ensures var o := RejectSettle(p);
            if o.reply.Failed? then o.party == p
            else p.state.SettledReceived? && RolledBack(p, o.party, agreed) && o.reply == Done(Some(RejectMsg))
  {
    var o := RejectSettle(p);
    if o.reply.Done? {
      MoveKeepsParty(p, o.party, agreed);
    }
  }

  lemma RejectRenewParty(p: Party, agreed: map<nat, Tx>)
    requires PartyFits(p, agreed)
    ensures var o := RejectRenew(p);
            if o.reply.Failed? then o.party == p
            else p.state.RenewOffered? && !p.state.isOffer && RolledBack(p, o.party, agreed) && o.reply == Done(Some(RejectMsg))
  {
    var o := RejectRenew(p);
    if o.reply.Done? {
      MoveKeepsParty(p, o.party, agreed);
    }
  }

  lemma RejectionKeepsIdle(s: System, t: Party)
    requires Idle(s) && Offering(s.q) && !s.q.state.CollaborativeCloseOffered?
    requires Holding(s.p) && s.toP == [] && s.toQ == []
    requires RolledBack(s.p, t, s.agreed)
    ensures Idle(s.(p := t, toQ := [RejectMsg]))
  {
    ProfitsFollowMove(s.p, t, s.q, None, 0);
  }

  lemma RejectionMakes(s: System, o: Outcome)
    requires EndsFit(s) && Idle(s) && Offering(s.q) && !s.q.state.CollaborativeCloseOffered?
    requires Holding(s.p) && s.toP == [] && s.toQ == []
    requires RolledBack(s.p, o.party, s.agreed) && o.reply == Done(Some(RejectMsg))
    ensures Invariant(After(s, o, 0))
  {
    hide PartyFits, Idle, EndsFit, Invariant, After, SameClosed, Handshake;
    MoveIsAfter(s, o.party, RejectMsg, 0);
    assert s.toP[0..] == s.toP && s.toQ + [RejectMsg] == [RejectMsg];
    RejectionKeepsIdle(s, o.party);
    MoveKeepsEnds(s, o.party, s.toP, [RejectMsg]);
    InvariantOfIdle(s.(p := o.party, toQ := [RejectMsg]));
  }

  lemma EndsOf(s: System)
    requires EndsFit(s)
    ensures Opposite(s.p, s.q)
    ensures DisclosureFits(s.p, s.disclosedP) && DisclosureFits(s.q, s.disclosedQ)
    ensures AgreedFits(s.agreed) && PartyFits(s.p, s.agreed) && PartyFits(s.q, s.agreed)
  {
  }

  lemma InvariantOfHandshakeAtQ(s: System)
    requires EndsFit(s) && Handshake(Swap(s))
    ensures Invariant(s)
  {
  }

  lemma InvariantOfHandshake(s: System)
    requires EndsFit(s) && Handshake(s)
    ensures Invariant(s)
  {
  }

  lemma InvariantOfIdle(s: System)
    requires EndsFit(s) && Idle(s)
    ensures Invariant(s)
  {
  }

  lemma MoveIsAfter(s: System, t: Party, m: Msg, used: nat)
    requires used <= |s.toP| && PartyFits(t, s.agreed) && DisclosedBy(m).None?
    ensures After(s, Outcome(t, Done(Some(m))), used) == s.(p := t, toP := s.toP[used..], toQ := s.toQ + [m])
  {
    RecordSame(t, s.agreed);
  }

  lemma RejectionKeeps(s: System, o: Outcome)
    requires Invariant(s)
    requires if o.reply.Failed? then o.party == s.p
             else Holding(s.p) && !s.p.state.CollaborativeCloseOffered?
                  && RolledBack(s.p, o.party, s.agreed) && o.reply == Done(Some(RejectMsg))
    ensures Invariant(After(s, o, 0))
  {
    if o.reply.Failed? {
      FailedCallKeeps(s, o);
    } else {
      HoldingIsQuiet(s);
      RejectionMakes(s, o);
    }
  }

  lemma AcceptSettleParty(p: Party, agreed: map<nat, Tx>)
    requires PartyFits(p, agreed) && AgreedFits(agreed)
    ensures var o := AcceptSettle(p);
            if o.reply.Failed? then o.party == p
            else
              && p.state.SettledReceived? && o.party.state.SettledAccepted?
              && Moved(p, o.party, agreed)
              && o.party.state.ownPayout == p.state.ownPayout
              && o.reply == Done(Some(SettleAcceptMsg(o.party.state.ownNextPoint, o.party.state.ownSettleSig)))
  {
    hide SecretsFit, StableFits, SameWatch, WatchFits, FlagsFit, BuffersFit, CurrentWatched, ClosedAreOld;
    var o := AcceptSettle(p);
    if o.reply.Done? {
      NewWatchIsSame(p, o.party, agreed, o.party.state.settleTx, SettleTx);
      MoveKeepsParty(p, o.party, agreed);
    }
  }

  lemma AcceptedSettleMakes(s: System)
    requires EndsFit(s) && Idle(s) && Offering(s.q) && Holds(s.p, OfferOf(s.q)) && s.toP == [] && s.toQ == []
    requires AcceptSettle(s.p).reply.Done?
    ensures Invariant(After(s, AcceptSettle(s.p), 0))
  {
    hide PartyFits, Idle, EndsFit, Invariant, After, SameClosed, Handshake;
    var o := AcceptSettle(s.p);
    EndsOf(s);
    AcceptSettleParty(s.p, s.agreed);
    var m := o.reply.msg.value;
    MoveIsAfter(s, o.party, m, 0);
    assert s.toP[0..] == s.toP && s.toQ + [m] == [m];
    AcceptedSettleFits(s, o.party);
    MoveKeepsEnds(s, o.party, s.toP, [m]);
    InvariantOfHandshakeAtQ(s.(p := o.party, toQ := [m]));
  }

  lemma AcceptSettleKeeps(s: System)
    requires Invariant(s)
    ensures Invariant(After(s, AcceptSettle(s.p), 0))
  {
    var o := AcceptSettle(s.p);
    AcceptSettleParty(s.p, s.agreed);
    if o.reply.Failed? {
      FailedCallKeeps(s, o);
    } else {
      HoldingIsQuiet(s);
      AcceptedSettleMakes(s);
    }
  }

  lemma AcceptedSettleFits(s: System, t: Party)
    requires Idle(s) && Offering(s.q) && Holds(s.p, OfferOf(s.q)) && s.toP == [] && s.toQ == []
    requires s.p.state.SettledReceived? && t.state.SettledAccepted? && t.state.ownPayout == s.p.state.ownPayout
    requires Moved(s.p, t, s.agreed)
    ensures Handshake(Swap(s.(p := t, toQ := [SettleAcceptMsg(t.state.ownNextPoint, t.state.ownSettleSig)])))
  {
    ProfitsSwap(s.p, s.q);
    ProfitsFollowMoveAhead(s.q, s.p, t, None, 0);
    assert SettleAccepting(Swap(s.(p := t, toQ := [SettleAcceptMsg(t.state.ownNextPoint, t.state.ownSettleSig)])));
  }

  lemma ProfitsSwap(p: Party, q: Party)
    requires ProfitsFit(p, q, None, 0)
    ensures ProfitsFit(q, p, None, 0)
  {
  }

  lemma AcceptRenewParty(p: Party, agreed: map<nat, Tx>)
    requires PartyFits(p, agreed) && Permitted(p, CallAcceptRenew)
    ensures var o := AcceptRenew(p);
            if o.reply.Failed? then o.party == p
            else
              && p.state.RenewOffered? && !p.state.isOffer && o.party.state.RenewAccepted?
              && Moved(p, o.party, agreed)
              && o.party.state.ownPayout == p.state.counterPayout
              && o.party.state.contractId == p.state.contractId
              && Signable(o.party, p.state.contractId)
              && o.party.contracts[p.state.contractId].contract == p.contracts[p.state.contractId].contract
              && o.reply == Done(Some(RenewAcceptMsg(o.party.state.acceptPoint,
                                   RenewalSigs(o.party, o.party.state.contractId, o.party.state.buffer))))
  {
    hide SecretsFit, StableFits, WatchFits, FlagsFit, BuffersFit, CurrentWatched, ClosedAreOld, ToWire, FromWire, TermsToSign;
    var o := AcceptRenew(p);
    if o.reply.Done? {
      MoveKeepsParty(p, o.party, agreed);
    }
  }

  lemma AcceptedRenewFits(s: System, t: Party)
    requires Idle(s) && Offering(s.q) && s.q.state.RenewOffered? && s.q.state.contractId in s.q.contracts
    requires Holds(s.p, OfferOf(s.q)) && s.toP == [] && s.toQ == []
    requires s.p.state.RenewOffered? && !s.p.state.isOffer && t.state.RenewAccepted?
    requires t.state.ownPayout == s.p.state.counterPayout && t.state.contractId == s.p.state.contractId
    requires Signable(t, s.p.state.contractId) && s.p.state.contractId in s.p.contracts
    requires t.contracts[s.p.state.contractId].contract == s.p.contracts[s.p.state.contractId].contract
    requires Travelled(OfferedContract(s.q), s.p.contracts[s.p.state.contractId].contract)
    requires Moved(s.p, t, s.agreed)
    ensures Handshake(Swap(s.(p := t, toQ := [RenewAcceptMsg(t.state.acceptPoint, RenewalSigs(t, t.state.contractId, t.state.buffer))])))
  {
    ProfitsSwap(s.p, s.q);
    ProfitsFollowMoveAhead(s.q, s.p, t, None, 0);
    assert RenewAccepting(Swap(s.(p := t, toQ := [RenewAcceptMsg(t.state.acceptPoint, RenewalSigs(t, t.state.contractId, t.state.buffer))])));
  }

  function OfferedContract(p: Party): Contract
    requires p.state.RenewOffered? && p.state.contractId in p.contracts
  {
    p.contracts[p.state.contractId].contract
  }

  /** A held renewal is the one its offerer stored. */
  lemma HeldRenewalTravelled(s: System)
    requires EndsFit(s) && Offering(s.q) && Holds(s.p, OfferOf(s.q)) && s.p.state.RenewOffered? && !s.p.state.isOffer
    ensures s.q.state.RenewOffered? && s.q.state.contractId in s.q.contracts && s.p.state.contractId in s.p.contracts
    ensures Travelled(OfferedContract(s.q), OfferedContract(s.p))
  {
    hide SecretsFit, WatchFits, FlagsFit, BuffersFit, ClosedAreOld, CurrentWatched, StableFits, FromWire, ToWire;
  }

  lemma AcceptedRenewMakes(s: System)
    requires EndsFit(s) && Idle(s) && Offering(s.q) && Holds(s.p, OfferOf(s.q)) && s.toP == [] && s.toQ == []
    requires Permitted(s.p, CallAcceptRenew) && AcceptRenew(s.p).reply.Done?
    ensures Invariant(After(s, AcceptRenew(s.p), 0))
  {
    hide PartyFits, Idle, EndsFit, Invariant, After, SameClosed, Handshake;
    var o := AcceptRenew(s.p);
    EndsOf(s);
    AcceptRenewParty(s.p, s.agreed);
    HeldRenewalTravelled(s);
    var m := o.reply.msg.value;
    MoveIsAfter(s, o.party, m, 0);
    assert s.toP[0..] == s.toP && s.toQ + [m] == [m];
    AcceptedRenewFits(s, o.party);
    MoveKeepsEnds(s, o.party, s.toP, [m]);
    InvariantOfHandshakeAtQ(s.(p := o.party, toQ := [m]));
  }

  lemma AcceptRenewKeeps(s: System)
    requires Invariant(s) && Permitted(s.p, CallAcceptRenew)
    ensures Invariant(After(s, AcceptRenew(s.p), 0))
  {
    var o := AcceptRenew(s.p);
    AcceptRenewParty(s.p, s.agreed);
    if o.reply.Failed? {
      FailedCallKeeps(s, o);
    } else {
      HoldingIsQuiet(s);
      AcceptedRenewMakes(s);
    }
  }

  lemma EndsOfInvariant(s: System)
    requires Invariant(s)
    ensures EndsFit(s) && AgreedFits(s.agreed) && PartyFits(s.p, s.agreed) && PartyFits(s.q, s.agreed)
  {
  }

  lemma OfferSettleKeeps(s: System, counterPayout: nat)
    requires Invariant(s)
    ensures Invariant(After(s, OfferSettle(s.p, counterPayout), 0))
  {
    hide Invariant, After, PartyFits, Offers, RolledBack, OfferSettle;
    EndsOfInvariant(s);
    OfferSettleParty(s.p, s.agreed, counterPayout);
    OfferingCallKeeps(s, OfferSettle(s.p, counterPayout));
  }

  lemma OfferRenewKeeps(s: System, counterPayout: nat, input: ContractInput)
    requires Invariant(s)
    ensures Invariant(After(s, OfferRenew(s.p, counterPayout, input), 0))
  {
    hide Invariant, After, PartyFits, Offers, RolledBack, OfferRenew;
    EndsOfInvariant(s);
    OfferRenewParty(s.p, s.agreed, counterPayout, input);
    OfferingCallKeeps(s, OfferRenew(s.p, counterPayout, input));
  }

  lemma OfferCloseKeeps(s: System, counterPayout: nat, extraInputs: seq<nat>)
    requires Invariant(s) && Stable(s.p.state)
    ensures Invariant(After(s, OfferClose(s.p, counterPayout, extraInputs), 0))
  {
    hide Invariant, After, PartyFits, Offers, RolledBack, OfferClose;
    EndsOfInvariant(s);
    OfferCloseParty(s.p, s.agreed, counterPayout, extraInputs);
    OfferingCallKeeps(s, OfferClose(s.p, counterPayout, extraInputs));
  }

  lemma RejectSettleKeeps(s: System)
    requires Invariant(s)
    ensures Invariant(After(s, RejectSettle(s.p), 0))
  {
    hide Invariant, After, PartyFits, Offers, RolledBack, RejectSettle;
    EndsOfInvariant(s);
    RejectSettleParty(s.p, s.agreed);
    RejectionKeeps(s, RejectSettle(s.p));
  }

  lemma RejectRenewKeeps(s: System)
    requires Invariant(s)
    ensures Invariant(After(s, RejectRenew(s.p), 0))
  {
    hide Invariant, After, PartyFits, Offers, RolledBack, RejectRenew;
    EndsOfInvariant(s);
    RejectRenewParty(s.p, s.agreed);
    RejectionKeeps(s, RejectRenew(s.p));
  }

  lemma CallKeeps(s: System, c: Call)
    requires Invariant(s)
    ensures Invariant(StepP(s, Act(c)))
  {
    hide Invariant, After, OfferSettle, OfferRenew, OfferClose, AcceptSettle, AcceptRenew, RejectSettle, RejectRenew;
    if Permitted(s.p, c) {
      match c
      case CallOfferSettle(cp) => OfferSettleKeeps(s, cp);
      case CallAcceptSettle => AcceptSettleKeeps(s);
      case CallRejectSettle => RejectSettleKeeps(s);
      case CallOfferRenew(cp, input) => OfferRenewKeeps(s, cp, input);
      case CallAcceptRenew => AcceptRenewKeeps(s);
      case CallRejectRenew => RejectRenewKeeps(s);
      case CallOfferClose(cp, inputs) => OfferCloseKeeps(s, cp, inputs);
    }
  }
}
