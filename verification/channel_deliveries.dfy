/** Every delivered message keeps the invariant, and so does every run. */
module ChannelDeliveries {
  import opened Wrappers
  import opened ChannelTypes
  import opened ChannelTerms
  import opened ChannelHandlers
  import opened ChannelSystem
  import opened ChannelSteps

  predicate IsOffer(m: Msg) {
    m.SettleOfferMsg? || m.RenewOfferMsg? || m.CloseOfferMsg?
  }

  /** The kind of the next message tells the phase. */
  lemma DeliveryPhase(s: System)
    requires Invariant(s) && s.toP != []
    ensures match s.toP[0]
            case RejectMsg => Idle(s) && Offering(s.p) && !s.p.state.CollaborativeCloseOffered?
            case SettleAcceptMsg(_, _) => SettleAccepting(s)
            case SettleConfirmMsg(_, _) => SettleConfirming(Swap(s))
            case SettleFinalizeMsg(_) => SettleFinalizing(s)
            case RenewAcceptMsg(_, _) => RenewAccepting(s)
            case RenewConfirmMsg(_, _) => RenewConfirming(Swap(s))
            case RenewFinalizeMsg(_, _) => RenewFinalizing(s)
            case RenewRevokeMsg(_) => RenewRevoking(Swap(s))
            case _ => Idle(s) && Offering(s.q) && s.toP[0] == OfferOf(s.q)
  {
    hide PartyFits, ProfitsFit, SameContract, DisclosureFits, AgreedFits;
  }

  // ---------- Offers and rejections ----------

  lemma DroppedOfferKeepsIdle(s: System)
    requires Idle(s) && Offering(s.q) && s.toP != [] && s.toP[0] == OfferOf(s.q)
    ensures Idle(s.(toP := s.toP[1..]))
  {
    hide ProfitsFit, SameContract;
  }

  /** Crossing offers: each party rejects the other's. */
  lemma CrossedOfferKeepsIdle(s: System)
    requires Idle(s) && Offering(s.q) && s.toP != [] && s.toP[0] == OfferOf(s.q)
    requires Offering(s.p) && !s.p.state.CollaborativeCloseOffered? && !s.q.state.CollaborativeCloseOffered?
    ensures Idle(s.(toP := s.toP[1..], toQ := s.toQ + [RejectMsg]))
  {
    hide ProfitsFit, SameContract;
  }

  lemma HeldOfferKeepsIdle(s: System, t: Party)
    requires Idle(s) && Offering(s.q) && s.toP != [] && s.toP[0] == OfferOf(s.q)
    requires Stable(s.p.state) && Moved(s.p, t, s.agreed) && Holding(t) && Holds(t, OfferOf(s.q)) && !Stable(t.state)
    ensures Idle(s.(p := t, toP := s.toP[1..]))
  {
    ProfitsFollowMove(s.p, t, s.q, None, 0);
    hide ProfitsFit, PartyFits;
  }

  lemma RolledBackKeepsIdle(s: System, t: Party)
    requires Idle(s) && s.toP != [] && s.toP[0] == RejectMsg
    requires Offering(s.p) && RolledBack(s.p, t, s.agreed)
    ensures Idle(s.(p := t, toP := s.toP[1..]))
  {
    ProfitsFollowMove(s.p, t, s.q, None, 0);
    hide ProfitsFit, PartyFits;
  }

  /** What an idle party makes of an offer: it fails, rejects a crossing one, or holds it. */
  ghost predicate OfferTaken(p: Party, o: Outcome, agreed: map<nat, Tx>, offer: Msg) {
    match o.reply
    case Failed(_) => o.party == p
    case Done(Some(m)) =>
      && m == RejectMsg && o.party == p
      && Offering(p) && !p.state.CollaborativeCloseOffered? && !offer.CloseOfferMsg?
    case Done(None) =>
      && Stable(p.state) && Moved(p, o.party, agreed)
      && Holding(o.party) && !Stable(o.party.state) && Holds(o.party, offer)
  }

  /** What an offer says about the sender's next update. */
  predicate OfferSound(p: Party, offer: Msg) {
    match offer
    case SettleOfferMsg(_, next) => p.updateIdx > 0 && next == PerUpdatePoint(Other(p.me), p.updateIdx - 1)
    case RenewOfferMsg(id, _, next, _) =>
      p.updateIdx > 0 && id == Renewed(p.updateIdx) && next == PerUpdatePoint(Other(p.me), p.updateIdx - 1)
    case CloseOfferMsg(_, sig) => sig.signer == Other(p.me)
    case _ => false
  }

  lemma OffersAreSound(s: System)
    requires EndsFit(s) && Idle(s) && Offering(s.q)
    ensures OfferSound(s.p, OfferOf(s.q))
  {
    hide ProfitsFit, SecretsFit, WatchFits, FlagsFit, BuffersFit, ClosedAreOld, DisclosureFits, AgreedFits;
  }

  lemma OnSettleOfferParty(p: Party, agreed: map<nat, Tx>, counterPayout: nat, next: Point)
    requires PartyFits(p, agreed) && OfferSound(p, SettleOfferMsg(counterPayout, next))
    ensures OfferTaken(p, OnSettleOffer(p, counterPayout, next), agreed, SettleOfferMsg(counterPayout, next))
  {
    hide SecretsFit, StableFits, WatchFits, FlagsFit, BuffersFit, CurrentWatched, ClosedAreOld, ToWire, FromWire, TermsToSign;
    var o := OnSettleOffer(p, counterPayout, next);
    if o.reply == Done(None) {
      MoveKeepsParty(p, o.party, agreed);
    }
  }

  lemma OnRenewOfferParty(p: Party, agreed: map<nat, Tx>, id: ContractId, counterPayout: nat, next: Point, terms: WireTerms)
    requires PartyFits(p, agreed) && OfferSound(p, RenewOfferMsg(id, counterPayout, next, terms))
    ensures OfferTaken(p, OnRenewOffer(p, id, counterPayout, next, terms), agreed,
                       RenewOfferMsg(id, counterPayout, next, terms))
  {
    hide SecretsFit, StableFits, WatchFits, FlagsFit, BuffersFit, CurrentWatched, ClosedAreOld, ToWire, FromWire, TermsToSign;
    var o := OnRenewOffer(p, id, counterPayout, next, terms);
    if o.reply == Done(None) {
      MoveKeepsParty(p, o.party, agreed);
    }
  }

  lemma OnCloseOfferParty(p: Party, agreed: map<nat, Tx>, counterPayout: nat, sig: Sig)
    requires PartyFits(p, agreed) && OfferSound(p, CloseOfferMsg(counterPayout, sig))
    ensures OfferTaken(p, OnCloseOffer(p, counterPayout, sig), agreed, CloseOfferMsg(counterPayout, sig))
  {
    hide SecretsFit, StableFits, WatchFits, FlagsFit, BuffersFit, CurrentWatched, ClosedAreOld, ToWire, FromWire, TermsToSign;
    var o := OnCloseOffer(p, counterPayout, sig);
    if o.reply == Done(None) {
      MoveKeepsParty(p, o.party, agreed);
    }
  }

  /** `After` with one message consumed, for a step that agrees and discloses nothing new. */
  lemma MoveIsDelivery(s: System, o: Outcome)
    requires s.toP != [] && PartyFits(o.party, s.agreed)
    requires o.reply.Done? && o.reply.msg.Some? ==> DisclosedBy(o.reply.msg.value).None?
    ensures After(s, o, 1) == s.(p := o.party, toP := s.toP[1..], toQ := s.toQ + Sent(o.reply))
  {
    RecordSame(o.party, s.agreed);
  }

  lemma StayKeepsEnds(s: System, toP: seq<Msg>, toQ: seq<Msg>)
    requires EndsFit(s)
    ensures EndsFit(s.(toP := toP, toQ := toQ))
  {
  }

  lemma OfferTakenKeeps(s: System, o: Outcome)
    requires EndsFit(s) && Idle(s) && Offering(s.q) && s.toP != [] && s.toP[0] == OfferOf(s.q)
    requires PartyFits(s.p, s.agreed) && OfferTaken(s.p, o, s.agreed, OfferOf(s.q))
    ensures Invariant(After(s, o, 1))
  {
    hide PartyFits, Idle, EndsFit, Invariant, After, SameClosed;
    MoveIsDelivery(s, o);
    if o.reply == Done(None) {
      assert s.toQ + [] == s.toQ;
      HeldOfferKeepsIdle(s, o.party);
      MoveKeepsEnds(s, o.party, s.toP[1..], s.toQ);
      InvariantOfIdle(s.(p := o.party, toP := s.toP[1..]));
    } else {
      OfferLeftKeeps(s, o);
    }
  }

  lemma OfferLeftKeeps(s: System, o: Outcome)
    requires EndsFit(s) && Idle(s) && Offering(s.q) && s.toP != [] && s.toP[0] == OfferOf(s.q)
    requires PartyFits(s.p, s.agreed) && OfferTaken(s.p, o, s.agreed, OfferOf(s.q)) && o.reply != Done(None)
    ensures Invariant(After(s, o, 1))
  {
    hide PartyFits, Idle, EndsFit, Invariant, After, SameClosed, Moved;
    MoveIsDelivery(s, o);
    if o.reply.Failed? {
      assert s.toQ + [] == s.toQ;
      DroppedOfferKeepsIdle(s);
      StayKeepsEnds(s, s.toP[1..], s.toQ);
      InvariantOfIdle(s.(toP := s.toP[1..]));
    } else {
      CrossedOfferKeepsIdle(s);
      StayKeepsEnds(s, s.toP[1..], s.toQ + [RejectMsg]);
      InvariantOfIdle(s.(toP := s.toP[1..], toQ := s.toQ + [RejectMsg]));
    }
  }

  lemma OfferDelivered(s: System)
    requires Invariant(s) && s.toP != [] && IsOffer(s.toP[0])
    ensures Invariant(After(s, Receive(s.p, s.toP[0]), 1))
  {
    hide Invariant, EndsFit, PartyFits, Idle, After, OnSettleOffer, OnRenewOffer, OnCloseOffer;
    EndsOfInvariant(s);
    DeliveryPhase(s);
    OffersAreSound(s);
    match s.toP[0] {
      case SettleOfferMsg(cp, np) => OnSettleOfferParty(s.p, s.agreed, cp, np);
      case RenewOfferMsg(id, cp, np, d) => OnRenewOfferParty(s.p, s.agreed, id, cp, np, d);
      case CloseOfferMsg(cp, sig) => OnCloseOfferParty(s.p, s.agreed, cp, sig);
    }
    OfferTakenKeeps(s, Receive(s.p, s.toP[0]));
  }

  lemma OnRejectParty(p: Party, agreed: map<nat, Tx>)
    requires PartyFits(p, agreed) && Offering(p) && !p.state.CollaborativeCloseOffered?
    ensures OnReject(p).reply == Done(None) && RolledBack(p, OnReject(p).party, agreed)
  {
    MoveKeepsParty(p, OnReject(p).party, agreed);
  }

  lemma RejectDelivered(s: System)
    requires Invariant(s) && s.toP != [] && s.toP[0] == RejectMsg
    ensures Invariant(After(s, Receive(s.p, s.toP[0]), 1))
  {
    hide Invariant, EndsFit, PartyFits, Idle, After, OnReject, SameClosed;
    EndsOfInvariant(s);
    DeliveryPhase(s);
    OnRejectParty(s.p, s.agreed);
    var t := OnReject(s.p).party;
    MoveIsDelivery(s, OnReject(s.p));
    assert s.toQ + [] == s.toQ;
    RolledBackKeepsIdle(s, t);
    MoveKeepsEnds(s, t, s.toP[1..], s.toQ);
    InvariantOfIdle(s.(p := t, toP := s.toP[1..]));
  }

  // ---------- Leaving an update index ----------

  /** The old transaction becomes revoked, the new one is registered, and no other registration
      of an agreed transaction changes. */
  ghost predicate AdvancesWatch(p: Party, t: Party, agreed: map<nat, Tx>, tx: Tx)
    requires p.updateIdx in agreed
  {
    var left := agreed[p.updateIdx];
    && (forall x :: x in t.watched && t.watched[x].Revoked? && x != left ==> x in p.watched && t.watched[x] == p.watched[x])
    && (forall i :: i in agreed && p.updateIdx < i && agreed[i] in p.watched ==>
          agreed[i] in t.watched && t.watched[agreed[i]] == p.watched[agreed[i]])
    && left in t.watched && RevokedEntry(t, left, p.updateIdx, t.watched[left])
    && t.watched[left].isOffer == RecordedFlag(t.me, p.updateIdx, tx)
    && tx in t.watched && t.watched[tx] == (if tx.Buffer? then BufferTx else SettleTx)
    && (forall x :: x in t.watched && x.Buffer? ==> x == tx || x == left || x in p.watched)
  }

  /** `t` is `p` after it left its update index for the next one. */
  ghost predicate Advances(p: Party, t: Party, agreed: map<nat, Tx>) {
    && p.updateIdx > 0 && t.updateIdx == p.updateIdx - 1
    && t.me == p.me && t.ownCollateral == p.ownCollateral && t.counterCollateral == p.counterCollateral
    && t.lifecycle.Signed?
    && Stable(t.state) && StableFits(t, t.state, t.updateIdx) && BaseStored(t) && PointsFit(t)
    && t.counterSecrets == p.counterSecrets[p.updateIdx := Secret(Other(p.me), p.updateIdx)]
    && p.updateIdx in agreed && AdvancesWatch(p, t, agreed, StableTx(t.state))
    && ClosedAreOld(t)
  }

  /** Leaving an index writes the flag that its replacement calls for, and leaves the others. */
  lemma FlagsFollow(p: Party, t: Party, agreed: map<nat, Tx>, tx: Tx)
    requires FlagsFit(p, agreed) && 0 < p.updateIdx <= INITIAL_UPDATE_NUMBER && p.updateIdx in agreed
    requires AdvancesWatch(p, t, agreed, tx) && t.me == p.me && RevokedFrom(t) == p.updateIdx
    ensures FlagsFit(t, agreed[p.updateIdx - 1 := tx])
  {
    var more := agreed[p.updateIdx - 1 := tx];
    forall i: nat | RevokedFrom(t) <= i <= INITIAL_UPDATE_NUMBER ensures FlagAt(t, more, i) {
      if i > p.updateIdx {
        assert FlagAt(p, agreed, i);
      }
    }
  }

  lemma CloseTxs(p: Party, agreed: map<nat, Tx>)
    requires AgreedFits(agreed) && p.updateIdx in agreed
    ensures IsCloseTx(agreed[p.updateIdx], p.updateIdx) && p.updateIdx <= INITIAL_UPDATE_NUMBER
  {
  }

  lemma WatchFollows(p: Party, t: Party, agreed: map<nat, Tx>, tx: Tx)
    requires WatchFits(p, agreed) && 0 < p.updateIdx <= INITIAL_UPDATE_NUMBER && p.updateIdx in agreed
    requires AdvancesWatch(p, t, agreed, tx) && t.me == p.me && RevokedFrom(t) == p.updateIdx
    ensures WatchFits(t, agreed[p.updateIdx - 1 := tx])
    ensures tx in t.watched && t.watched[tx] == (if tx.Buffer? then BufferTx else SettleTx)
  {
    var more := agreed[p.updateIdx - 1 := tx];
    forall x | x in t.watched && t.watched[x].Revoked?
      ensures var i := t.watched[x].updateIdx;
              RevokedFrom(t) <= i <= INITIAL_UPDATE_NUMBER && i in more && x == more[i]
    {
      if x != agreed[p.updateIdx] {
        assert x in p.watched && t.watched[x] == p.watched[x];
      }
    }
  }

  lemma BuffersFollow(p: Party, t: Party, agreed: map<nat, Tx>, tx: Tx)
    requires BuffersFit(p) && p.updateIdx > 0 && p.updateIdx in agreed && AdvancesWatch(p, t, agreed, tx)
    requires IsCloseTx(agreed[p.updateIdx], p.updateIdx) && IsCloseTx(tx, p.updateIdx - 1)
    requires PointIdx(t) == p.updateIdx - 1
    ensures BuffersFit(t)
  {
  }

  lemma AdvanceKeepsParty(p: Party, t: Party, agreed: map<nat, Tx>)
    requires PartyFits(p, agreed) && AgreedFits(agreed) && Advances(p, t, agreed)
    ensures PartyFits(t, agreed[t.updateIdx := StableTx(t.state)])
  {
    hide FlagsFit, BuffersFit, WatchFits, AdvancesWatch, AgreedFits, NegotiationFits, ClosedAreOld;
    CloseTxs(p, agreed);
    FlagsFollow(p, t, agreed, StableTx(t.state));
    BuffersFollow(p, t, agreed, StableTx(t.state));
    WatchFollows(p, t, agreed, StableTx(t.state));
  }

  /** Agreeing on a lower index than any a party relies on does not concern it. */
  lemma NewAgreementKeepsParty(q: Party, agreed: map<nat, Tx>, index: nat, tx: Tx)
    requires PartyFits(q, agreed)
    requires index < PointIdx(q) || (index in agreed && agreed[index] == tx)
    ensures PartyFits(q, agreed[index := tx])
  {
    var more := agreed[index := tx];
    forall i: nat | RevokedFrom(q) <= i <= INITIAL_UPDATE_NUMBER ensures FlagAt(q, more, i) {
      assert FlagAt(q, agreed, i);
    }
    if index in agreed && agreed[index] == tx {
      assert agreed[index := tx] == agreed;
    }
  }

  // ---------- Profits ----------

  lemma ProfitsOneSided(p: Party, q: Party, t: Party, c: ContractId, contract: Contract, payoutQ: int)
    requires ProfitsFit(p, q, None, 0) && !ClosedIn(p, c)
    requires t.ownCollateral == q.ownCollateral
    requires t.contracts == q.contracts[c := Closed(contract, payoutQ - q.ownCollateral)]
    ensures ProfitsFit(p, t, Some(c), payoutQ)
  {
  }

  lemma ProfitsBalance(p: Party, q: Party, t: Party, c: ContractId, contract: Contract, payoutP: int, payoutQ: int)
    requires ProfitsFit(p, q, Some(c), payoutQ)
    requires payoutP + payoutQ == p.ownCollateral + q.ownCollateral
    requires t.contracts == p.contracts[c := Closed(contract, payoutP - p.ownCollateral)]
    ensures ProfitsFit(t, q, None, 0)
  {
  }

  // ---------- Settling ----------

  lemma OnSettleAcceptParty(p: Party, agreed: map<nat, Tx>, counterNext: Point, counterSig: AdaptorSig, tx: Tx)
    requires PartyFits(p, agreed) && AgreedFits(agreed) && p.state.SettledOffered?
    requires p.state.counterPayout <= TotalCollateral(p) && p.updateIdx > 0
    requires SomeOutput(TotalCollateral(p) - p.state.counterPayout, p.state.counterPayout)
    requires counterNext == PerUpdatePoint(Other(p.me), p.updateIdx - 1)
    requires tx == Settle(RevokeParams(p.me, Other(p.me), p.state.nextPoint), RevokeParams(Other(p.me), p.me, counterNext),
                          TotalCollateral(p) - p.state.counterPayout, p.state.counterPayout)
    requires counterSig == SigFor(Other(p.me), tx, p.updateIdx - 1)
    ensures var o := OnSettleAccept(p, counterNext, counterSig);
            && Moved(p, o.party, agreed)
            && o.party.state.SettledConfirmed? && o.party.state.settleTx == tx
            && o.reply == Done(Some(SettleConfirmMsg(Secret(p.me, p.updateIdx), o.party.state.ownSettleSig)))
  {
    hide SecretsFit, StableFits, SameWatch, WatchFits, FlagsFit, BuffersFit, CurrentWatched, ClosedAreOld;
    var o := OnSettleAccept(p, counterNext, counterSig);
    NewWatchIsSame(p, o.party, agreed, tx, SettleTx);
    MoveKeepsParty(p, o.party, agreed);
  }

  /** The stored state of a party that settled. */
  lemma SettledParty(p: Party, t: Party, agreed: map<nat, Tx>, prev: State, tx: Tx, offerer: Who)
    requires PartyFits(p, agreed) && AgreedFits(agreed)
    requires p.state.SettledAccepted? || p.state.SettledConfirmed?
    requires prev == p.rollBack.value && prev.Established?
    requires tx == p.state.settleTx && offerer == (if p.state.SettledAccepted? then Other(p.me) else p.me)
    requires p.updateIdx > 0 && IsConfirmed(p, prev.contractId)
    requires t == p.(counterSecrets := p.counterSecrets[p.updateIdx := Secret(Other(p.me), p.updateIdx)],
                     ownPoint := p.state.ownNextPoint, counterPoint := p.state.counterNextPoint,
                     state := Settled(tx, SigFor(Other(p.me), tx, p.updateIdx - 1), p.state.ownSettleSig,
                                      p.state.ownPayout, p.state.counterPayout),
                     rollBack := None, updateIdx := p.updateIdx - 1,
                     watched := p.watched[prev.buffer := Revoked(p.updateIdx, prev.ownBufferSig, prev.isOffer, RevokedBuffer)],
                     contracts := p.contracts[prev.contractId := CollaborativelyClosedEntry(p, prev.contractId, p.state.ownPayout)])
    ensures Advances(p, t, agreed)
  {
    hide SecretsFit, AdvancesWatch, WatchFits, FlagsFit, BuffersFit, AgreedFits, CurrentWatched;
    SettledWatch(p, t, agreed, prev, tx);
  }

  lemma SettledWatch(p: Party, t: Party, agreed: map<nat, Tx>, prev: State, tx: Tx)
    requires PartyFits(p, agreed) && AgreedFits(agreed) && t.me == p.me && p.updateIdx > 0
    requires p.state.SettledAccepted? || p.state.SettledConfirmed?
    requires prev == p.rollBack.value && prev.Established? && tx == p.state.settleTx
    requires t.watched == p.watched[prev.buffer := Revoked(p.updateIdx, prev.ownBufferSig, prev.isOffer, RevokedBuffer)]
    ensures AdvancesWatch(p, t, agreed, tx)
  {
    hide SecretsFit, WatchFits, FlagsFit, BuffersFit, ClosedAreOld, CurrentWatched;
    assert IsCloseTx(agreed[p.updateIdx], p.updateIdx) && IsCloseTx(tx, p.updateIdx - 1);
    forall i | i in agreed && p.updateIdx < i
      ensures agreed[i] != prev.buffer
    {
      assert IsCloseTx(agreed[i], i);
    }
  }

  lemma OnSettleConfirmParty(p: Party, agreed: map<nat, Tx>)
    requires PartyFits(p, agreed) && AgreedFits(agreed) && p.state.SettledAccepted?
    ensures var o := OnSettleConfirm(p, Secret(Other(p.me), p.updateIdx), SigFor(Other(p.me), p.state.settleTx, p.updateIdx - 1));
            && Advances(p, o.party, agreed) && o.party.updateIdx == p.updateIdx - 1
            && o.party.state.Settled? && o.party.state.settleTx == p.state.settleTx && o.party.state.ownPayout == p.state.ownPayout
            && o.party.contracts == p.contracts[Base(p).contractId :=
                 Closed(p.contracts[Base(p).contractId].contract, p.state.ownPayout - p.ownCollateral)]
            && o.reply == Done(Some(SettleFinalizeMsg(Secret(p.me, p.updateIdx))))
  {
    hide SecretsFit, WatchFits, FlagsFit, BuffersFit, AgreedFits, Advances, CurrentWatched, ProvideSecret, ClosedAreOld;
    SecretIsNext(p);
    var o := OnSettleConfirm(p, Secret(Other(p.me), p.updateIdx), SigFor(Other(p.me), p.state.settleTx, p.updateIdx - 1));
    SettledParty(p, o.party, agreed, p.rollBack.value, p.state.settleTx, Other(p.me));
  }

  lemma OnSettleFinalizeParty(p: Party, agreed: map<nat, Tx>)
    requires PartyFits(p, agreed) && AgreedFits(agreed) && p.state.SettledConfirmed?
    ensures var o := OnSettleFinalize(p, Secret(Other(p.me), p.updateIdx));
            && Advances(p, o.party, agreed) && o.party.updateIdx == p.updateIdx - 1
            && o.party.state.Settled? && o.party.state.settleTx == p.state.settleTx && o.party.state.ownPayout == p.state.ownPayout
            && o.party.contracts == p.contracts[Base(p).contractId :=
                 Closed(p.contracts[Base(p).contractId].contract, p.state.ownPayout - p.ownCollateral)]
            && o.reply == Done(None)
  {
    hide SecretsFit, WatchFits, FlagsFit, BuffersFit, AgreedFits, Advances, CurrentWatched, ProvideSecret, ClosedAreOld;
    SecretIsNext(p);
    var o := OnSettleFinalize(p, Secret(Other(p.me), p.updateIdx));
    SettledParty(p, o.party, agreed, p.rollBack.value, p.state.settleTx, p.me);
  }

  // ---------- The ends after a handshake step ----------

  lemma AgreementGrows(agreed: map<nat, Tx>, index: nat, tx: Tx)
    requires AgreedFits(agreed) && index < INITIAL_UPDATE_NUMBER && IsCloseTx(tx, index)
    ensures AgreedFits(agreed[index := tx])
  {
  }

  /** `q` does not mind what `t` agreed to. */
  predicate AgreementFitsOther(q: Party, agreed: map<nat, Tx>, index: nat, tx: Tx) {
    index < PointIdx(q) || (index in agreed && agreed[index] == tx)
  }

  lemma AdvanceKeepsEnds(s: System, t: Party, toP: seq<Msg>, toQ: seq<Msg>, disclosed: set<nat>)
    requires EndsFit(s) && Advances(s.p, t, s.agreed)
    requires AgreementFitsOther(s.q, s.agreed, t.updateIdx, StableTx(t.state))
    requires DisclosureFits(t, disclosed)
    ensures EndsFit(System(t, s.q, toP, toQ, s.agreed[t.updateIdx := StableTx(t.state)], disclosed, s.disclosedQ))
  {
    hide PartyFits, DisclosureFits, AgreedFits, IsCloseTx, Advances;
    AdvanceOutline(s.p, t, s.agreed);
    AdvanceKeepsParty(s.p, t, s.agreed);
    NewAgreementKeepsParty(s.q, s.agreed, t.updateIdx, StableTx(t.state));
    AgreementGrows(s.agreed, t.updateIdx, StableTx(t.state));
  }

  lemma AdvanceOutline(p: Party, t: Party, agreed: map<nat, Tx>)
    requires PartyFits(p, agreed) && Advances(p, t, agreed)
    ensures t.me == p.me && t.ownCollateral == p.ownCollateral && t.counterCollateral == p.counterCollateral
    ensures Stable(t.state) && PointIdx(t) == t.updateIdx && t.updateIdx < INITIAL_UPDATE_NUMBER && t.updateIdx <= PointIdx(p)
    ensures IsCloseTx(StableTx(t.state), t.updateIdx)
  {
    hide SecretsFit, WatchFits, FlagsFit, BuffersFit, ClosedAreOld, CurrentWatched, NegotiationFits, AdvancesWatch;
  }

  /** A step within the update index that discloses its secret. */
  lemma ConfirmedOutline(p: Party, t: Party, agreed: map<nat, Tx>)
    requires PartyFits(p, agreed) && Moved(p, t, agreed)
    ensures p.updateIdx <= INITIAL_UPDATE_NUMBER
    ensures TxFits(t, agreed)
  {
    hide SecretsFit, WatchFits, FlagsFit, BuffersFit, ClosedAreOld, CurrentWatched, StableFits, NegotiationFits;
  }

  lemma DisclosureFollowsConfirm(p: Party, t: Party, disclosed: set<nat>)
    requires DisclosureFits(p, disclosed) && p.updateIdx == t.updateIdx <= INITIAL_UPDATE_NUMBER
    requires !p.state.RenewFinalized? && !p.state.SettledConfirmed? && t.state.SettledConfirmed?
    ensures DisclosureFits(t, disclosed + {p.updateIdx})
  {
  }

  lemma DisclosingMoveKeepsEnds(s: System, o: Outcome)
    requires EndsFit(s) && s.toP != [] && Moved(s.p, o.party, s.agreed)
    requires !s.p.state.SettledConfirmed? && o.party.state.SettledConfirmed?
    requires o.reply.Done? && o.reply.msg.Some? && DisclosedBy(o.reply.msg.value) == Some(Secret(s.p.me, s.p.updateIdx))
    ensures EndsFit(After(s, o, 1))
    ensures After(s, o, 1).agreed == s.agreed
  {
    hide PartyFits, AgreedFits;
    ConfirmedOutline(s.p, o.party, s.agreed);
    DisclosureFollowsConfirm(s.p, o.party, s.disclosedP);
    RecordSame(o.party, s.agreed);
  }

  // ---------- Settle deliveries ----------

  /** The message under delivery and what it finds, in the first step of a settlement. */
  lemma SettleAcceptFinds(s: System)
    requires EndsFit(s) && SettleAccepting(s)
    ensures s.p.state.SettledOffered? && s.p.updateIdx > 0 && s.p.state.counterPayout <= TotalCollateral(s.p)
    ensures SomeOutput(TotalCollateral(s.p) - s.p.state.counterPayout, s.p.state.counterPayout)
    ensures s.p.state.nextPoint == PerUpdatePoint(s.p.me, s.p.updateIdx - 1)
    ensures s.q.state.SettledAccepted?
    ensures s.q.state.settleTx == Settle(
              RevokeParams(s.p.me, Other(s.p.me), s.p.state.nextPoint),
              RevokeParams(Other(s.p.me), s.p.me, PerUpdatePoint(Other(s.p.me), s.p.updateIdx - 1)),
              TotalCollateral(s.p) - s.p.state.counterPayout, s.p.state.counterPayout)
    ensures s.toP == [SettleAcceptMsg(PerUpdatePoint(Other(s.p.me), s.p.updateIdx - 1),
                                      SigFor(Other(s.p.me), s.q.state.settleTx, s.p.updateIdx - 1))]
    ensures s.toQ == []
  {
    hide ProfitsFit, SecretsFit, WatchFits, FlagsFit, BuffersFit, ClosedAreOld, DisclosureFits, AgreedFits;
  }

  lemma SettleAcceptPhase(s: System, t: Party, u: System)
    requires SettleAccepting(s) && Moved(s.p, t, s.agreed)
    requires t.state.SettledConfirmed? && t.state.settleTx == s.q.state.settleTx
    requires u.p == t && u.q == s.q && u.toP == [] && u.toQ == [SettleConfirmMsg(Secret(s.p.me, s.p.updateIdx), t.state.ownSettleSig)]
    ensures Handshake(u)
  {
    ProfitsFollowMove(s.p, t, s.q, None, 0);
    hide ProfitsFit, PartyFits;
    assert SettleConfirming(u);
  }

  lemma SettleAcceptDelivered(s: System)
    requires EndsFit(s) && SettleAccepting(s)
    ensures Invariant(After(s, Receive(s.p, s.toP[0]), 1))
  {
    hide PartyFits, EndsFit, SettleAccepting, OnSettleAccept, DisclosureFits, SameClosed, Invariant, Handshake, AgreedFits;
    EndsOf(s);
    SettleAcceptFinds(s);
    OnSettleAcceptParty(s.p, s.agreed, PerUpdatePoint(Other(s.p.me), s.p.updateIdx - 1),
                        SigFor(Other(s.p.me), s.q.state.settleTx, s.p.updateIdx - 1), s.q.state.settleTx);
    var o := Receive(s.p, s.toP[0]);
    DisclosingMoveKeepsEnds(s, o);
    SettleAcceptPhase(s, o.party, After(s, o, 1));
    InvariantOfHandshake(After(s, o, 1));
  }

  /** What a settle handshake leaves with the party that completes it. */
  ghost predicate SettlesInto(p: Party, t: Party, agreed: map<nat, Tx>) {
    && (p.state.SettledAccepted? || p.state.SettledConfirmed?)
    && Base(p).Established? && IsConfirmed(p, Base(p).contractId)
    && Advances(p, t, agreed)
    && t.state.Settled? && t.state.settleTx == p.state.settleTx && t.state.ownPayout == p.state.ownPayout
    && t.contracts == p.contracts[Base(p).contractId :=
         Closed(p.contracts[Base(p).contractId].contract, p.state.ownPayout - p.ownCollateral)]
  }

  /** The message under delivery and what it finds, in the second step of a settlement. */
  lemma SettleConfirmFinds(s: System)
    requires EndsFit(s) && SettleConfirming(Swap(s))
    ensures s.p.state.SettledAccepted? && s.p.updateIdx > 0
    ensures s.toP == [SettleConfirmMsg(Secret(Other(s.p.me), s.p.updateIdx), SigFor(Other(s.p.me), s.p.state.settleTx, s.p.updateIdx - 1))]
    ensures s.toQ == [] && s.q.updateIdx == s.p.updateIdx && s.q.state.SettledConfirmed?
    ensures Base(s.p).Established? && Base(s.q).Established? && Base(s.p).contractId == Base(s.q).contractId
    ensures IsConfirmed(s.p, Base(s.p).contractId) && !ClosedIn(s.q, Base(s.p).contractId)
  {
    hide ProfitsFit, SecretsFit, WatchFits, FlagsFit, BuffersFit, ClosedAreOld, DisclosureFits, AgreedFits, StableFits;
  }

  function Advanced(s: System, t: Party, toP: seq<Msg>, toQ: seq<Msg>, disclosed: set<nat>): System
    requires Stable(t.state)
  {
    System(t, s.q, toP, toQ, s.agreed[t.updateIdx := StableTx(t.state)], disclosed, s.disclosedQ)
  }

  lemma AdvanceIsAfter(s: System, o: Outcome)
    requires s.toP != [] && Stable(o.party.state) && o.reply.Done?
    ensures After(s, o, 1) == Advanced(s, o.party, s.toP[1..], s.toQ + Sent(o.reply), Disclose(s.disclosedP, o.reply))
  {
  }

  /** Leaving an index discloses its secret, unless it was disclosed before. */
  lemma DisclosureFollowsAdvance(p: Party, t: Party, disclosed: set<nat>, more: set<nat>)
    requires DisclosureFits(p, disclosed)
    requires p.updateIdx <= INITIAL_UPDATE_NUMBER && p.updateIdx == t.updateIdx + 1 && Stable(t.state)
    requires if p.state.SettledConfirmed? || p.state.RenewFinalized? then more == disclosed else more == disclosed + {p.updateIdx}
    ensures DisclosureFits(t, more)
  {
  }

  lemma SettleConfirmPhase(s: System, t: Party, u: System)
    requires SettleConfirming(Swap(s)) && SettlesInto(s.p, t, s.agreed)
    requires Base(s.q).Established? && Base(s.p).contractId == Base(s.q).contractId && !ClosedIn(s.q, Base(s.q).contractId)
    requires u.p == t && u.q == s.q && u.toP == [] && u.toQ == [SettleFinalizeMsg(Secret(s.p.me, s.p.updateIdx))]
    ensures Handshake(Swap(u))
  {
    ProfitsOneSided(s.q, s.p, t, Base(s.p).contractId, s.p.contracts[Base(s.p).contractId].contract, s.p.state.ownPayout);
    hide ProfitsFit, AdvancesWatch, StableFits;
    assert SettleFinalizing(Swap(u));
  }

  lemma SettleConfirmMakes(s: System, o: Outcome)
    requires EndsFit(s) && SettleConfirming(Swap(s)) && s.toP != [] && s.toP[1..] == [] && s.toQ == []
    requires s.p.state.SettledAccepted? && SettlesInto(s.p, o.party, s.agreed) && o.reply == Done(Some(SettleFinalizeMsg(Secret(s.p.me, s.p.updateIdx))))
    requires Base(s.q).Established? && Base(s.p).contractId == Base(s.q).contractId && !ClosedIn(s.q, Base(s.q).contractId)
    requires AgreementFitsOther(s.q, s.agreed, o.party.updateIdx, StableTx(o.party.state))
    ensures Invariant(After(s, o, 1))
  {
    hide PartyFits, EndsFit, AgreedFits, SettleConfirming, DisclosureFits, AdvancesWatch, StableFits, Invariant, Handshake, AgreementFitsOther;
    EndsOf(s);
    AdvanceIsAfter(s, o);
    DisclosureFollowsAdvance(s.p, o.party, s.disclosedP, Disclose(s.disclosedP, o.reply));
    AdvanceKeepsEnds(s, o.party, s.toP[1..], s.toQ + Sent(o.reply), Disclose(s.disclosedP, o.reply));
    SettleConfirmPhase(s, o.party, After(s, o, 1));
    InvariantOfHandshakeAtQ(After(s, o, 1));
  }

  lemma SettleConfirmDelivered(s: System)
    requires EndsFit(s) && SettleConfirming(Swap(s))
    ensures Invariant(After(s, Receive(s.p, s.toP[0]), 1))
  {
    hide PartyFits, EndsFit, SettleConfirming, OnSettleConfirm, DisclosureFits, Advances, Invariant, Handshake, After, AgreedFits;
    EndsOf(s);
    SettleConfirmFinds(s);
    OnSettleConfirmParty(s.p, s.agreed);
    SettleConfirmMakes(s, Receive(s.p, s.toP[0]));
  }

  /** The message under delivery and what it finds, in the last step of a settlement. */
  lemma SettleFinalizeFinds(s: System)
    requires EndsFit(s) && SettleFinalizing(s)
    ensures s.p.state.SettledConfirmed? && s.p.updateIdx > 0
    ensures s.toP == [SettleFinalizeMsg(Secret(Other(s.p.me), s.p.updateIdx))] + OwnOffer(s.q)
    ensures s.toP[1..] == OwnOffer(s.q) && s.toQ == []
    ensures Base(s.p).Established? && IsConfirmed(s.p, Base(s.p).contractId)
    ensures s.q.updateIdx == s.p.updateIdx - 1 && Base(s.q).Settled?
    ensures s.q.updateIdx in s.agreed && s.agreed[s.q.updateIdx] == s.p.state.settleTx
    ensures s.p.state.ownPayout + Base(s.q).ownPayout == s.p.ownCollateral + s.q.ownCollateral
  {
    hide ProfitsFit, SecretsFit, WatchFits, FlagsFit, BuffersFit, ClosedAreOld, DisclosureFits, AgreedFits;
  }

  lemma SettleFinalizePhase(s: System, t: Party, u: System)
    requires SettleFinalizing(s) && SettlesInto(s.p, t, s.agreed)
    requires s.p.state.ownPayout + Base(s.q).ownPayout == s.p.ownCollateral + s.q.ownCollateral
    requires u.p == t && u.q == s.q && u.toP == OwnOffer(s.q) && u.toQ == []
    ensures Idle(u)
  {
    ProfitsBalance(s.p, s.q, t, Base(s.p).contractId, s.p.contracts[Base(s.p).contractId].contract,
                   s.p.state.ownPayout, Base(s.q).ownPayout);
    hide ProfitsFit, AdvancesWatch, StableFits;
  }

  lemma SettleFinalizeMakes(s: System, o: Outcome)
    requires EndsFit(s) && SettleFinalizing(s) && s.toP != [] && s.toP[1..] == OwnOffer(s.q) && s.toQ == []
    requires s.p.state.SettledConfirmed? && SettlesInto(s.p, o.party, s.agreed) && o.reply == Done(None)
    requires s.p.state.ownPayout + Base(s.q).ownPayout == s.p.ownCollateral + s.q.ownCollateral
    requires AgreementFitsOther(s.q, s.agreed, o.party.updateIdx, StableTx(o.party.state))
    ensures Invariant(After(s, o, 1))
  {
    hide PartyFits, EndsFit, AgreedFits, SettleFinalizing, DisclosureFits, AdvancesWatch, StableFits, Invariant, Idle, AgreementFitsOther;
    EndsOf(s);
    AdvanceIsAfter(s, o);
    DisclosureFollowsAdvance(s.p, o.party, s.disclosedP, Disclose(s.disclosedP, o.reply));
    AdvanceKeepsEnds(s, o.party, s.toP[1..], s.toQ + Sent(o.reply), Disclose(s.disclosedP, o.reply));
    SettleFinalizePhase(s, o.party, After(s, o, 1));
    InvariantOfIdle(After(s, o, 1));
  }

  lemma SettleFinalizeDelivered(s: System)
    requires EndsFit(s) && SettleFinalizing(s)
    ensures Invariant(After(s, Receive(s.p, s.toP[0]), 1))
  {
    hide PartyFits, EndsFit, SettleFinalizing, OnSettleFinalize, DisclosureFits, Advances, Invariant, Idle, After, AgreedFits;
    EndsOf(s);
    SettleFinalizeFinds(s);
    OnSettleFinalizeParty(s.p, s.agreed);
    SettleFinalizeMakes(s, Receive(s.p, s.toP[0]));
  }

  lemma SecretIsNext(p: Party)
    requires SecretsFit(p) && p.updateIdx <= INITIAL_UPDATE_NUMBER
    ensures var secret := Secret(Other(p.me), p.updateIdx);
            ProvideSecret(p.counterSecrets, p.updateIdx, secret) == Some(p.counterSecrets[p.updateIdx := secret])
  {
  }

  // ---------- Renew deliveries ----------

  lemma OnRenewAcceptParty(p: Party, agreed: map<nat, Tx>, acceptPoint: Point, sigs: ContractSigs)
    requires PartyFits(p, agreed) && p.state.RenewOffered? && p.state.isOffer
    requires acceptPoint == PerUpdatePoint(Other(p.me), p.updateIdx - 1)
    requires sigs.signer == Other(p.me) && sigs.buffer == RenewalBuffer(p.me, Other(p.me), p.state.offerNextPoint, acceptPoint)
    ensures var o := OnRenewAccept(p, acceptPoint, sigs); var id := p.state.contractId;
            if p.state.counterPayout > TotalCollateral(p) || TermsToSign(p.contracts[id].contract) != Ok(sigs.terms)
            then o.reply.Failed? && o.party == p
            else
              && Moved(p, o.party, agreed) && o.party.state.RenewConfirmed?
              && o.party.state.contractId == p.state.contractId
              && o.party.state.ownPayout == TotalCollateral(p) - p.state.counterPayout
              && Signable(o.party, id) && TermsToSign(o.party.contracts[id].contract) == Ok(sigs.terms)
              && o.reply == Done(Some(RenewConfirmMsg(o.party.state.offerBufferSig,
                                        RenewalSigs(o.party, o.party.state.contractId, o.party.state.buffer))))
  {
    hide SecretsFit, WatchFits, FlagsFit, BuffersFit, ClosedAreOld, StableFits, SameClosed, CurrentWatched, TermsToSign, RefundOutputs;
    var o := OnRenewAccept(p, acceptPoint, sigs);
    if o.reply.Done? {
      MoveKeepsParty(p, o.party, agreed);
    }
  }

  lemma RenewAcceptFinds(s: System)
    requires EndsFit(s) && RenewAccepting(s) && s.toP != []
    ensures s.p.state.RenewOffered? && s.p.state.isOffer && s.p.updateIdx > 0 && s.p.state.contractId in s.p.contracts
    ensures var acceptPoint := PerUpdatePoint(Other(s.p.me), s.p.updateIdx - 1);
            && Signable(s.q, s.p.state.contractId)
            && s.toP == [RenewAcceptMsg(acceptPoint,
                           ContractSigs(Other(s.p.me), TermsToSign(s.q.contracts[s.p.state.contractId].contract).value,
                                        RenewalBuffer(s.p.me, Other(s.p.me), s.p.state.offerNextPoint, acceptPoint)))]
    ensures s.toQ == []
    ensures Confirmable(s.p) <==>
              && s.p.state.counterPayout <= TotalCollateral(s.p)
              && TermsToSign(s.p.contracts[s.p.state.contractId].contract)
                 == TermsToSign(s.q.contracts[s.p.state.contractId].contract)
  {
    hide ProfitsFit, SecretsFit, WatchFits, ClosedAreOld, DisclosureFits, AgreedFits, StableFits, FlagsFit, BuffersFit,
         TermsToSign, Travelled, Shareable;
    var id := s.q.state.contractId;
    SignedAlikeIff(s.p.contracts[id].contract, s.q.contracts[id].contract);
  }

  /** The offerer of a renewal that cannot be confirmed fails on its acceptance. */
  lemma RenewAcceptStalls(s: System)
    requires RenewAccepting(s) && s.toP != [] && s.toP[1..] == [] && !Confirmable(s.p)
    ensures Handshake(s.(toP := s.toP[1..]))
  {
    hide ProfitsFit;
    assert RenewAccepting(s.(toP := s.toP[1..]));
  }

  lemma RenewAcceptPhase(s: System, t: Party)
    requires RenewAccepting(s) && Moved(s.p, t, s.agreed) && Opposite(s.p, s.q)
    requires t.state.RenewConfirmed? && t.state.contractId == s.p.state.contractId
    requires t.state.ownPayout == TotalCollateral(s.p) - s.p.state.counterPayout
    requires SignedAlike(t, s.q, s.p.state.contractId)
    ensures Handshake(s.(p := t, toP := [], toQ := [RenewConfirmMsg(t.state.offerBufferSig, RenewalSigs(t, t.state.contractId, t.state.buffer))]))
  {
    ProfitsFollowMove(s.p, t, s.q, None, 0);
    hide ProfitsFit, PartyFits;
    assert RenewConfirming(s.(p := t, toP := [], toQ := [RenewConfirmMsg(t.state.offerBufferSig, RenewalSigs(t, t.state.contractId, t.state.buffer))]));
  }

  lemma RenewAcceptDelivered(s: System)
    requires EndsFit(s) && RenewAccepting(s) && s.toP != []
    ensures Invariant(After(s, Receive(s.p, s.toP[0]), 1))
  {
    hide PartyFits, EndsFit, RenewAccepting, OnRenewAccept, DisclosureFits, SameClosed, Invariant, Handshake, AgreedFits, After, Moved;
    EndsOf(s);
    RenewAcceptFinds(s);
    OnRenewAcceptParty(s.p, s.agreed, s.toP[0].nextPoint, s.toP[0].contractSigs);
    var o := Receive(s.p, s.toP[0]);
    if o.reply.Failed? {
      MoveIsDelivery(s, o);
      assert s.toQ + [] == s.toQ;
      RenewAcceptStalls(s);
      StayKeepsEnds(s, s.toP[1..], s.toQ);
      InvariantOfHandshake(After(s, o, 1));
    } else {
      RenewAcceptKeeps(s, o);
    }
  }

  lemma RenewAcceptKeeps(s: System, o: Outcome)
    requires EndsFit(s) && RenewAccepting(s) && s.toP != [] && s.toP[0].RenewAcceptMsg?
    requires s.p.state.RenewOffered? && s.p.state.isOffer && PartyFits(s.p, s.agreed)
    requires o == OnRenewAccept(s.p, s.toP[0].nextPoint, s.toP[0].contractSigs) && o.reply.Done?
    ensures Invariant(After(s, o, 1))
  {
    hide PartyFits, EndsFit, RenewAccepting, OnRenewAccept, DisclosureFits, SameClosed, Invariant, Handshake, AgreedFits, After;
    EndsOf(s);
    RenewAcceptFinds(s);
    OnRenewAcceptParty(s.p, s.agreed, s.toP[0].nextPoint, s.toP[0].contractSigs);
    MoveIsDelivery(s, o);
    assert s.toP[1..] == [] && s.toQ + Sent(o.reply) == Sent(o.reply);
    RenewAcceptPhase(s, o.party);
    MoveKeepsEnds(s, o.party, [], Sent(o.reply));
    InvariantOfHandshake(After(s, o, 1));
  }

  /** `t` is `p` after it verified the confirmation of a renewal and disclosed its secret. */
  ghost predicate Finalizes(p: Party, t: Party, agreed: map<nat, Tx>) {
    && p.state.RenewAccepted? && t.state.RenewFinalized? && t.rollBack == p.rollBack
    && t.updateIdx == p.updateIdx && t.counterSecrets == p.counterSecrets
    && t.me == p.me && t.ownCollateral == p.ownCollateral && t.counterCollateral == p.counterCollateral
    && t.lifecycle.Signed? && NegotiationFits(t) && PointsFit(t)
    && t.state.buffer == p.state.buffer && t.state.contractId == p.state.contractId && t.state.ownPayout == p.state.ownPayout
    && p.updateIdx in agreed && AdvancesWatch(p, t, agreed, t.state.buffer)
    && ClosedAreOld(t)
  }

  lemma FinalizeKeepsParty(p: Party, t: Party, agreed: map<nat, Tx>)
    requires PartyFits(p, agreed) && AgreedFits(agreed) && Finalizes(p, t, agreed)
    ensures PartyFits(t, agreed[t.updateIdx - 1 := t.state.buffer])
  {
    hide FlagsFit, BuffersFit, WatchFits, AdvancesWatch, AgreedFits;
    CloseTxs(p, agreed);
    FlagsFollow(p, t, agreed, t.state.buffer);
    BuffersFollow(p, t, agreed, t.state.buffer);
    WatchFollows(p, t, agreed, t.state.buffer);
  }

  /** The replaced transaction becomes revoked when the renewal's buffer is registered beside it. */
  lemma RenewalWatch(p: Party, t: Party, agreed: map<nat, Tx>, buffer: Tx)
    requires PartyFits(p, agreed) && AgreedFits(agreed) && !p.state.RenewFinalized? && p.rollBack.Some? && !Stable(p.state)
    requires p.updateIdx > 0 && IsCloseTx(buffer, p.updateIdx - 1) && buffer.Buffer? && t.me == p.me
    requires var prev := p.rollBack.value;
             || t.watched == p.watched[buffer := BufferTx][StableTx(prev) := RevokedByRenewal(p, prev)]
             || t.watched == p.watched[StableTx(prev) := RevokedByRenewal(p, prev)][buffer := BufferTx]
    ensures AdvancesWatch(p, t, agreed, buffer)
  {
    hide NegotiationFits, BaseStored, SecretsFit, WatchFits, FlagsFit, BuffersFit, ClosedAreOld, CurrentWatched;
    assert IsCloseTx(agreed[p.updateIdx], p.updateIdx);
    forall i | i in agreed && p.updateIdx < i
      ensures agreed[i] != buffer && agreed[i] != agreed[p.updateIdx]
    {
      assert IsCloseTx(agreed[i], i);
    }
  }

  lemma OnRenewConfirmParty(p: Party, agreed: map<nat, Tx>, sigs: ContractSigs)
    requires PartyFits(p, agreed) && AgreedFits(agreed) && p.state.RenewAccepted?
    requires p.state.contractId in p.contracts
             && SigsVerify(sigs, Other(p.me), p.contracts[p.state.contractId].contract, p.state.buffer)
    ensures var o := OnRenewConfirm(p, SigFor(Other(p.me), p.state.buffer, p.updateIdx - 1), sigs);
            && Finalizes(p, o.party, agreed)
            && o.reply == Done(Some(RenewFinalizeMsg(Secret(p.me, p.updateIdx), o.party.state.acceptBufferSig)))
            && o.party.contracts == CloseReplaced(
                 p.(contracts := p.contracts[p.state.contractId := Confirmed(p.contracts[p.state.contractId].contract)]), Base(p), p.state.ownPayout)
  {
    hide PartyFits, AgreedFits, Finalizes, TermsToSign;
    ConfirmFinds(p, agreed);
    FinalizedFits(p, agreed);
  }

  /** The record after a confirmation that verified. */
  function FinalizedParty(p: Party): Party
    requires p.state.RenewAccepted? && p.state.contractId in p.contracts && p.rollBack.Some? && Stable(p.rollBack.value)
    requires p.updateIdx > 0
    requires p.rollBack.value.Established? ==> IsConfirmed(p, p.rollBack.value.contractId) && p.rollBack.value.contractId != p.state.contractId
  {
    var id, prev, buffer := p.state.contractId, p.rollBack.value, p.state.buffer;
    p.(counterPoint := p.state.offerPoint, ownPoint := p.state.acceptPoint,
       state := RenewFinalized(id, p.counterPoint, buffer, SigFor(Other(p.me), buffer, p.updateIdx - 1),
                               AdaptorSig(p.me, buffer, PublishKey(Other(p.me), p.state.offerPoint)),
                               p.state.ownPayout, TotalCollateral(p)),
       watched := p.watched[buffer := BufferTx][StableTx(prev) := RevokedByRenewal(p, prev)],
       contracts := CloseReplaced(p.(contracts := p.contracts[id := Confirmed(p.contracts[id].contract)]), prev, p.state.ownPayout))
  }

  lemma ConfirmFinds(p: Party, agreed: map<nat, Tx>)
    requires PartyFits(p, agreed) && p.state.RenewAccepted?
    ensures p.lifecycle.Signed? && p.rollBack == Some(Base(p)) && Stable(Base(p)) && p.updateIdx > 0
    ensures p.state.contractId in p.contracts && p.contracts[p.state.contractId].Accepted?
    ensures Base(p).Established? ==> IsConfirmed(p, Base(p).contractId) && Base(p).contractId != p.state.contractId
    ensures p.state.acceptPoint == PerUpdatePoint(p.me, p.updateIdx - 1)
    ensures p.state.offerPoint == PerUpdatePoint(Other(p.me), p.updateIdx - 1)
  {
    hide SecretsFit, WatchFits, FlagsFit, BuffersFit, ClosedAreOld, CurrentWatched;
  }

  lemma FinalizedFits(p: Party, agreed: map<nat, Tx>)
    requires PartyFits(p, agreed) && AgreedFits(agreed) && p.state.RenewAccepted?
    requires p.state.contractId in p.contracts && p.rollBack == Some(Base(p)) && Stable(Base(p)) && p.updateIdx > 0
    requires Base(p).Established? ==> IsConfirmed(p, Base(p).contractId) && Base(p).contractId != p.state.contractId
    ensures Finalizes(p, FinalizedParty(p), agreed)
  {
    hide SecretsFit, WatchFits, AgreedFits, AdvancesWatch, CurrentWatched, FlagsFit, BuffersFit, TermsToSign;
    RenewalWatch(p, FinalizedParty(p), agreed, p.state.buffer);
  }

  lemma OnRenewFinalizeParty(p: Party, agreed: map<nat, Tx>)
    requires PartyFits(p, agreed) && AgreedFits(agreed) && p.state.RenewConfirmed?
    ensures var o := OnRenewFinalize(p, Secret(Other(p.me), p.updateIdx), SigFor(Other(p.me), p.state.buffer, p.updateIdx - 1));
            && Advances(p, o.party, agreed) && o.party.updateIdx == p.updateIdx - 1
            && o.party.state.Established? && o.party.state.buffer == p.state.buffer && o.party.state.contractId == p.state.contractId
            && o.reply == Done(Some(RenewRevokeMsg(Secret(p.me, p.updateIdx))))
            && o.party.contracts == CloseReplaced(p, Base(p), p.state.ownPayout)
  {
    hide SecretsFit, WatchFits, FlagsFit, BuffersFit, AgreedFits, AdvancesWatch, CurrentWatched, ProvideSecret;
    SecretIsNext(p);
    var o := OnRenewFinalize(p, Secret(Other(p.me), p.updateIdx), SigFor(Other(p.me), p.state.buffer, p.updateIdx - 1));
    RenewalWatch(p, o.party, agreed, p.state.buffer);
  }

  /** A finalized renewal has its registrations already. */
  lemma RevokeWatch(p: Party, t: Party, agreed: map<nat, Tx>)
    requires PartyFits(p, agreed) && AgreedFits(agreed) && p.state.RenewFinalized?
    requires t.watched == p.watched && t.me == p.me
    ensures AdvancesWatch(p, t, agreed, p.state.buffer)
  {
    hide PartyFits, AgreedFits;
    FinalizedIsWatched(p, agreed);
  }

  lemma FinalizedIsWatched(p: Party, agreed: map<nat, Tx>)
    requires PartyFits(p, agreed) && AgreedFits(agreed) && p.state.RenewFinalized?
    ensures p.updateIdx in agreed && FlagAt(p, agreed, p.updateIdx) && agreed[p.updateIdx - 1] == p.state.buffer
    ensures RevokedEntry(p, agreed[p.updateIdx], p.updateIdx, p.watched[agreed[p.updateIdx]])
    ensures p.state.buffer.Buffer? && p.state.buffer in p.watched && p.watched[p.state.buffer] == BufferTx
  {
    hide SecretsFit, BuffersFit, ClosedAreOld, CurrentWatched, BaseStored, StableFits, PointsFit;
    assert FlagAt(p, agreed, p.updateIdx);
  }

  lemma OnRenewRevokeParty(p: Party, agreed: map<nat, Tx>)
    requires PartyFits(p, agreed) && AgreedFits(agreed) && p.state.RenewFinalized?
    ensures var o := OnRenewRevoke(p, Secret(Other(p.me), p.updateIdx));
            && Advances(p, o.party, agreed) && o.party.updateIdx == p.updateIdx - 1
            && o.party.state.Established? && o.party.state.buffer == p.state.buffer && o.party.state.contractId == p.state.contractId
            && o.reply == Done(None)
            && o.party.contracts == p.contracts
  {
    hide SecretsFit, WatchFits, FlagsFit, BuffersFit, AdvancesWatch, ProvideSecret;
    SecretIsNext(p);
    RevokeWatch(p, OnRenewRevoke(p, Secret(Other(p.me), p.updateIdx)).party, agreed);
  }

  /** The second step of a renewal: `p` verifies the buffer signature and discloses its secret. */
  lemma RenewConfirmFinds(s: System)
    requires EndsFit(s) && RenewConfirming(Swap(s))
    ensures s.p.state.RenewAccepted? && s.p.updateIdx > 0 && s.p.state.contractId in s.p.contracts
    ensures |s.toP| == 1 && s.toP[0].RenewConfirmMsg?
    ensures s.toP[0].bufferSig == SigFor(Other(s.p.me), s.p.state.buffer, s.p.updateIdx - 1)
    ensures SigsVerify(s.toP[0].contractSigs, Other(s.p.me), s.p.contracts[s.p.state.contractId].contract, s.p.state.buffer)
    ensures s.toQ == [] && s.q.updateIdx == s.p.updateIdx && s.q.state.RenewConfirmed?
    ensures Base(s.p).Established? == Base(s.q).Established?
    ensures Base(s.p).Established? ==>
              && Base(s.p).contractId == Base(s.q).contractId && Base(s.p).contractId != s.p.state.contractId
              && IsConfirmed(s.p, Base(s.p).contractId) && !ClosedIn(s.q, Base(s.p).contractId)
              && OwnCollateralIn(s.p.contracts[Base(s.p).contractId].contract) == s.p.ownCollateral
    ensures !ClosedIn(s.p, s.p.state.contractId)
  {
    hide ProfitsFit, SecretsFit, WatchFits, DisclosureFits, AgreedFits, TermsToSign, FlagsFit, BuffersFit;
    assert Base(s.p).Established? == StableTx(Base(s.p)).Buffer?;
  }

  /** The store after the replaced contract was closed, with the new one confirmed. */
  predicate RenewsStore(p: Party, t: Party, id: ContractId, ownPayout: int) {
    && id in p.contracts
    && (Base(p).Established? ==> IsConfirmed(p, Base(p).contractId))
    && t.contracts == CloseReplaced(p.(contracts := p.contracts[id := Confirmed(p.contracts[id].contract)]), Base(p), ownPayout)
  }

  lemma RenewProfitsOneSided(p: Party, q: Party, t: Party, id: ContractId, ownPayout: int)
    requires ProfitsFit(p, q, None, 0) && RenewsStore(q, t, id, ownPayout) && t.ownCollateral == q.ownCollateral
    requires !ClosedIn(q, id)
    requires Base(q).Established? ==>
               && Base(q).contractId != id && !ClosedIn(p, Base(q).contractId)
               && OwnCollateralIn(q.contracts[Base(q).contractId].contract) == q.ownCollateral
    ensures ProfitsFit(p, t, if Base(q).Established? then Some(Base(q).contractId) else None, ownPayout)
  {
    var mid := q.(contracts := q.contracts[id := Confirmed(q.contracts[id].contract)]);
    assert ProfitsFit(p, mid, None, 0);
    if Base(q).Established? {
      var c := Base(q).contractId;
      ProfitsOneSided(p, mid, t, c, q.contracts[c].contract, ownPayout);
    }
  }

  lemma RenewConfirmPhase(s: System, t: Party, u: System)
    requires RenewConfirming(Swap(s)) && Finalizes(s.p, t, s.agreed) && RenewsStore(s.p, t, s.p.state.contractId, s.p.state.ownPayout)
    requires Base(t) == Base(s.p) && Opposite(s.p, s.q)
    requires Base(s.p).Established? == Base(s.q).Established?
    requires !ClosedIn(s.p, s.p.state.contractId)
    requires Base(s.p).Established? ==>
               && Base(s.p).contractId == Base(s.q).contractId && Base(s.p).contractId != s.p.state.contractId
               && !ClosedIn(s.q, Base(s.p).contractId)
               && OwnCollateralIn(s.p.contracts[Base(s.p).contractId].contract) == s.p.ownCollateral
    requires u.p == t && u.q == s.q && u.toP == [] && u.toQ == [RenewFinalizeMsg(Secret(s.p.me, s.p.updateIdx), t.state.acceptBufferSig)]
    ensures Handshake(Swap(u))
  {
    RenewProfitsOneSided(s.q, s.p, t, s.p.state.contractId, s.p.state.ownPayout);
    hide ProfitsFit, AdvancesWatch, NegotiationFits;
    assert RenewFinalizing(Swap(u));
  }

  lemma FinalizeKeepsEnds(s: System, t: Party, toP: seq<Msg>, toQ: seq<Msg>)
    requires EndsFit(s) && Finalizes(s.p, t, s.agreed) && s.p.updateIdx > 0 && PointIdx(s.q) == s.p.updateIdx
    ensures EndsFit(System(t, s.q, toP, toQ, s.agreed[t.updateIdx - 1 := t.state.buffer], s.disclosedP + {s.p.updateIdx}, s.disclosedQ))
  {
    hide PartyFits, DisclosureFits, AgreedFits, IsCloseTx, Finalizes;
    FinalizeOutline(s.p, t, s.agreed);
    FinalizeKeepsParty(s.p, t, s.agreed);
    NewAgreementKeepsParty(s.q, s.agreed, t.updateIdx - 1, t.state.buffer);
    AgreementGrows(s.agreed, t.updateIdx - 1, t.state.buffer);
    DisclosureFollowsFinalize(s.p, t, s.disclosedP);
  }

  lemma FinalizeOutline(p: Party, t: Party, agreed: map<nat, Tx>)
    requires PartyFits(p, agreed) && Finalizes(p, t, agreed) && p.updateIdx > 0
    ensures p.state.RenewAccepted? && t.state.RenewFinalized? && t.updateIdx == p.updateIdx <= INITIAL_UPDATE_NUMBER
    ensures t.me == p.me && t.ownCollateral == p.ownCollateral && t.counterCollateral == p.counterCollateral
    ensures IsCloseTx(t.state.buffer, t.updateIdx - 1)
  {
    hide SecretsFit, WatchFits, FlagsFit, BuffersFit, ClosedAreOld, CurrentWatched, AdvancesWatch, StableFits;
  }

  lemma DisclosureFollowsFinalize(p: Party, t: Party, disclosed: set<nat>)
    requires DisclosureFits(p, disclosed) && p.state.RenewAccepted? && t.state.RenewFinalized?
    requires t.updateIdx == p.updateIdx <= INITIAL_UPDATE_NUMBER
    ensures DisclosureFits(t, disclosed + {p.updateIdx})
  {
  }

  lemma RenewConfirmDelivered(s: System)
    requires EndsFit(s) && RenewConfirming(Swap(s))
    ensures Invariant(After(s, Receive(s.p, s.toP[0]), 1))
  {
    hide PartyFits, EndsFit, RenewConfirming, OnRenewConfirm, DisclosureFits, NegotiationFits, AdvancesWatch, PointsFit,
         Invariant, Handshake, AgreedFits, ClosedAreOld;
    EndsOf(s);
    RenewConfirmFinds(s);
    OnRenewConfirmParty(s.p, s.agreed, s.toP[0].contractSigs);
    var o := Receive(s.p, s.toP[0]);
    var u := After(s, o, 1);
    FinalizeKeepsEnds(s, o.party, u.toP, u.toQ);
    assert Base(o.party) == Base(s.p);
    RenewConfirmPhase(s, o.party, u);
    InvariantOfHandshakeAtQ(u);
  }

  /** The third step of a renewal: the offerer verifies the signature and the secret, and discloses its own. */
  lemma RenewFinalizeFinds(s: System)
    requires EndsFit(s) && RenewFinalizing(s)
    ensures s.p.state.RenewConfirmed? && s.p.updateIdx > 0
    ensures s.toP == [RenewFinalizeMsg(Secret(Other(s.p.me), s.p.updateIdx), SigFor(Other(s.p.me), s.p.state.buffer, s.p.updateIdx - 1))]
    ensures s.toQ == [] && s.q.updateIdx == s.p.updateIdx && s.q.state.RenewFinalized?
    ensures s.p.updateIdx - 1 in s.agreed && s.agreed[s.p.updateIdx - 1] == s.p.state.buffer
    ensures Base(s.p).Established? ==>
              && IsConfirmed(s.p, Base(s.p).contractId)
              && OwnCollateralIn(s.p.contracts[Base(s.p).contractId].contract) == s.p.ownCollateral
  {
    hide ProfitsFit, SecretsFit, WatchFits, FlagsFit, BuffersFit, ClosedAreOld, DisclosureFits, AgreedFits;
  }

  lemma RenewFinalizePhase(s: System, t: Party, u: System)
    requires RenewFinalizing(s) && Opposite(s.p, s.q) && Advances(s.p, t, s.agreed)
    requires t.state.Established? && t.state.contractId == s.p.state.contractId
    requires Base(s.p).Established? ==>
               && IsConfirmed(s.p, Base(s.p).contractId)
               && OwnCollateralIn(s.p.contracts[Base(s.p).contractId].contract) == s.p.ownCollateral
    requires t.contracts == CloseReplaced(s.p, Base(s.p), s.p.state.ownPayout)
    requires u.p == t && u.q == s.q && u.toP == [] && u.toQ == [RenewRevokeMsg(Secret(s.p.me, s.p.updateIdx))]
    ensures Handshake(Swap(Swap(u)))
  {
    if Base(s.p).Established? {
      var c := Base(s.p).contractId;
      ProfitsBalance(s.p, s.q, t, c, s.p.contracts[c].contract, s.p.state.ownPayout, s.q.state.ownPayout);
    } else {
      assert ProfitsFit(t, s.q, None, 0);
    }
    hide ProfitsFit, AdvancesWatch, StableFits;
    assert RenewRevoking(u);
  }

  lemma RenewFinalizeMakes(s: System, o: Outcome)
    requires EndsFit(s) && RenewFinalizing(s) && s.toP != [] && s.toP[1..] == [] && s.toQ == []
    requires s.p.state.RenewConfirmed? && Advances(s.p, o.party, s.agreed)
    requires o.reply == Done(Some(RenewRevokeMsg(Secret(s.p.me, s.p.updateIdx))))
    requires o.party.state.Established? && o.party.state.contractId == s.p.state.contractId
    requires Base(s.p).Established? ==>
               && IsConfirmed(s.p, Base(s.p).contractId)
               && OwnCollateralIn(s.p.contracts[Base(s.p).contractId].contract) == s.p.ownCollateral
    requires o.party.contracts == CloseReplaced(s.p, Base(s.p), s.p.state.ownPayout)
    requires AgreementFitsOther(s.q, s.agreed, o.party.updateIdx, StableTx(o.party.state))
    ensures Invariant(After(s, o, 1))
  {
    hide PartyFits, EndsFit, AgreedFits, RenewFinalizing, DisclosureFits, AdvancesWatch, StableFits, Invariant, Handshake, AgreementFitsOther;
    EndsOf(s);
    AdvanceIsAfter(s, o);
    DisclosureFollowsAdvance(s.p, o.party, s.disclosedP, Disclose(s.disclosedP, o.reply));
    AdvanceKeepsEnds(s, o.party, s.toP[1..], s.toQ + Sent(o.reply), Disclose(s.disclosedP, o.reply));
    RenewFinalizePhase(s, o.party, After(s, o, 1));
    InvariantOfHandshake(After(s, o, 1));
  }

  lemma RenewFinalizeDelivered(s: System)
    requires EndsFit(s) && RenewFinalizing(s)
    ensures Invariant(After(s, Receive(s.p, s.toP[0]), 1))
  {
    hide PartyFits, EndsFit, RenewFinalizing, OnRenewFinalize, DisclosureFits, Advances, Invariant, Handshake, After, AgreedFits;
    EndsOf(s);
    RenewFinalizeFinds(s);
    OnRenewFinalizeParty(s.p, s.agreed);
    RenewFinalizeMakes(s, Receive(s.p, s.toP[0]));
  }

  /** The last step of a renewal. */
  lemma RenewRevokeFinds(s: System)
    requires EndsFit(s) && RenewRevoking(Swap(s))
    ensures s.p.state.RenewFinalized? && s.p.updateIdx > 0
    ensures s.toP == [RenewRevokeMsg(Secret(Other(s.p.me), s.p.updateIdx))] + OwnOffer(s.q)
    ensures s.toP[1..] == OwnOffer(s.q) && s.toQ == []
    ensures s.p.updateIdx - 1 in s.agreed && s.agreed[s.p.updateIdx - 1] == s.p.state.buffer
  {
    hide ProfitsFit, SecretsFit, WatchFits, FlagsFit, BuffersFit, ClosedAreOld, DisclosureFits, AgreedFits;
  }

  lemma RenewRevokePhase(s: System, t: Party, u: System)
    requires RenewRevoking(Swap(s)) && Advances(s.p, t, s.agreed)
    requires t.state.Established? && t.state.contractId == s.p.state.contractId && t.contracts == s.p.contracts
    requires u.p == t && u.q == s.q && u.toP == OwnOffer(s.q) && u.toQ == []
    ensures Idle(u)
  {
    ProfitsSwap(s.q, s.p);
    assert SameClosed(s.p, t);
    ProfitsFollowMove(s.p, t, s.q, None, 0);
    hide ProfitsFit, AdvancesWatch, StableFits;
  }

  lemma RenewRevokeMakes(s: System, o: Outcome)
    requires EndsFit(s) && RenewRevoking(Swap(s)) && s.toP != [] && s.toP[1..] == OwnOffer(s.q) && s.toQ == []
    requires s.p.state.RenewFinalized? && Advances(s.p, o.party, s.agreed) && o.reply == Done(None)
    requires o.party.state.Established? && o.party.state.contractId == s.p.state.contractId && o.party.contracts == s.p.contracts
    requires AgreementFitsOther(s.q, s.agreed, o.party.updateIdx, StableTx(o.party.state))
    ensures Invariant(After(s, o, 1))
  {
    hide PartyFits, EndsFit, AgreedFits, RenewRevoking, DisclosureFits, AdvancesWatch, StableFits, Invariant, Idle, AgreementFitsOther;
    EndsOf(s);
    AdvanceIsAfter(s, o);
    DisclosureFollowsAdvance(s.p, o.party, s.disclosedP, Disclose(s.disclosedP, o.reply));
    AdvanceKeepsEnds(s, o.party, s.toP[1..], s.toQ + Sent(o.reply), Disclose(s.disclosedP, o.reply));
    RenewRevokePhase(s, o.party, After(s, o, 1));
    InvariantOfIdle(After(s, o, 1));
  }

  lemma RenewRevokeDelivered(s: System)
    requires EndsFit(s) && RenewRevoking(Swap(s))
    ensures Invariant(After(s, Receive(s.p, s.toP[0]), 1))
  {
    hide PartyFits, EndsFit, RenewRevoking, OnRenewRevoke, DisclosureFits, Advances, Invariant, Idle, After, AgreedFits;
    EndsOf(s);
    RenewRevokeFinds(s);
    OnRenewRevokeParty(s.p, s.agreed);
    RenewRevokeMakes(s, Receive(s.p, s.toP[0]));
  }

  // ---------- Every step, every run ----------

  lemma DeliveryKeeps(s: System)
    requires Invariant(s)
    ensures Invariant(StepP(s, Deliver))
  {
    hide Invariant, EndsFit, Receive, After, PartyFits, AgreedFits, Idle, SettleAccepting, SettleConfirming, SettleFinalizing,
         RenewAccepting, RenewConfirming, RenewFinalizing, RenewRevoking;
    EndsOfInvariant(s);
    if s.toP != [] {
      DeliveryPhase(s);
      match s.toP[0]
      case RejectMsg => RejectDelivered(s);
      case SettleAcceptMsg(_, _) => SettleAcceptDelivered(s);
      case SettleConfirmMsg(_, _) => SettleConfirmDelivered(s);
      case SettleFinalizeMsg(_) => SettleFinalizeDelivered(s);
      case RenewAcceptMsg(_, _) => RenewAcceptDelivered(s);
      case RenewConfirmMsg(_, _) => RenewConfirmDelivered(s);
      case RenewFinalizeMsg(_, _) => RenewFinalizeDelivered(s);
      case RenewRevokeMsg(_) => RenewRevokeDelivered(s);
      case _ => OfferDelivered(s);
    }
  }

  lemma InvariantSwaps(s: System)
    requires Invariant(s)
    ensures Invariant(Swap(s))
  {
    hide PartyFits, Handshake, IdleFlight, DisclosureFits, AgreedFits;
    if Idle(s) {
      ProfitsSwap(s.p, s.q);
    }
    assert Swap(Swap(s)) == s;
  }

  lemma StepKeeps(s: System, atP: bool, a: Action)
    requires Invariant(s)
    ensures Invariant(Step(s, atP, a))
  {
    hide Invariant, StepP;
    if !atP {
      InvariantSwaps(s);
    }
    var from := if atP then s else Swap(s);
    match a {
      case Deliver => DeliveryKeeps(from);
      case Act(c) => CallKeeps(from, c);
    }
    if !atP {
      InvariantSwaps(StepP(from, a));
    }
  }

  lemma {:induction false} RunKeeps(s: System, steps: seq<(bool, Action)>)
    requires Invariant(s)
    ensures Invariant(Run(s, steps))
    decreases |steps|
  {
    hide Invariant, Step;
    if steps != [] {
      var n := |steps| - 1;
      RunKeeps(s, steps[..n]);
      StepKeeps(Run(s, steps[..n]), steps[n].0, steps[n].1);
    }
  }
}
