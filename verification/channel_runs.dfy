/** Runs on which the protocol falls short of what one would expect: punishments that fail on the recorded
    flag, and renewals that stall on terms that are not sent. */
module ChannelRuns {
  import opened Wrappers
  import opened ChannelTypes
  import opened ChannelTerms
  import opened ChannelHandlers
  import opened ChannelSystem
  import opened ChannelSteps
  import opened ChannelDeliveries
  import opened ChannelTheorems
  import opened ChannelCrossing
  import opened ChannelClose
  import opened ChannelExchanges
  import Conversions

  // ---------- Punishing what a renewal replaced ----------

  /** After a renewal, a replaced buffer transaction is punished by the end that did not offer it, and by that end only. */
  lemma RenewedBufferPunished(t: System, i: nat)
    requires Reachable(t) && RenewDone(t, i) && i <= INITIAL_UPDATE_NUMBER
    ensures i in t.agreed
    ensures var tx := t.agreed[i];
            tx.Buffer? ==>
              && (SeeOnChain(t.p, tx).party.lifecycle.ClosedPunished? <==> tx.offer.base != t.p.me)
              && (SeeOnChain(t.q, tx).party.lifecycle.ClosedPunished? <==> tx.offer.base != t.q.me)
              && (SeeOnChain(t.p, tx).party.lifecycle.ClosedPunished? || SeeOnChain(t.p, tx) == NotClosed(t.p, Refused))
              && (SeeOnChain(t.q, tx).party.lifecycle.ClosedPunished? || SeeOnChain(t.q, tx) == NotClosed(t.q, Refused))
  {
    hide Reachable, Invariant, PartyFits, AgreedFits, SeeOnChain;
    EndsOfInvariant(t);
    StableEndsAgree(t);
    RenewedAgreement(t, i);
    PunishedByFlag(t.p, t.agreed, i);
    PunishedByFlag(t.q, t.agreed, i);
  }

  lemma RenewedAgreement(t: System, i: nat)
    requires RenewDone(t, i)
    ensures i > 0 && i - 1 in t.agreed && t.agreed[i - 1].Buffer?
  {
    hide Idle, Handshake, SecretsFit, WatchFits, FlagsFit, BuffersFit, ClosedAreOld, CurrentWatched, NegotiationFits;
  }

  lemma PunishedByFlag(p: Party, agreed: map<nat, Tx>, i: nat)
    requires PartyFits(p, agreed) && AgreedFits(agreed) && Stable(p.state) && p.updateIdx == i - 1
    requires 0 < i <= INITIAL_UPDATE_NUMBER && i - 1 in agreed && agreed[i - 1].Buffer?
    ensures i in agreed
    ensures var c := SeeOnChain(p, agreed[i]);
            agreed[i].Buffer? ==>
              && (c.party.lifecycle.ClosedPunished? <==> agreed[i].offer.base != p.me)
              && (c.party.lifecycle.ClosedPunished? || c == NotClosed(p, Refused))
  {
    hide PartyFits, AgreedFits, SeeOnChain, RevocationComplete;
    FitMeansRevocationComplete(p, agreed);
    StoredRevocation(p, agreed, i);
    RevokedFinds(p, agreed, agreed[i]);
    RevokedSeen(p, agreed, agreed[i]);
    SeenError(p, agreed[i]);
  }

  /** An enumeration with one outcome and one oracle. */
  function CoinTerms(acceptPayout: nat, threshold: nat): Terms {
    Terms(Conversions.ContractInfo(
            Conversions.Enumerated([Conversions.EnumerationPayout("heads", 4000, acceptPayout)]),
            [Conversions.Announcement(0, Conversions.EnumEvent(["heads"]))], threshold),
          None)
  }

  const FairTerms: Terms := CoinTerms(6000, 1)

  lemma CoinTermsTravel(acceptPayout: nat, threshold: nat)
    ensures var t := CoinTerms(acceptPayout, threshold);
            Sendable(t) && Readable(t, 10000) && Acceptable(t, 10000)
  {
  }

  lemma CoinShareable(p: Party, acceptPayout: nat, threshold: nat, flags: nat)
    requires p.ownCollateral == p.counterCollateral == 5000 && flags < 2
    ensures Shareable(OfferedContractFrom(p, ContractInput(5000, 5000, CoinTerms(acceptPayout, threshold), flags)))
            <==> acceptPayout == 6000 && threshold == 1 && flags == 0
  {
    var payouts := Listed(CoinTerms(acceptPayout, threshold).info.descriptor.payouts);
    assert payouts[0] == Payout(4000, acceptPayout);
  }

  /** The run of one renewal from the setup: the end that offered the channel cannot punish the setup's buffer. */
  lemma SetupBufferUnpunished(me: Who)
    ensures var s := InitialSystem(me, 5000, 5000, FairTerms);
            var t := Run(s, RenewExchange(4000, ContractInput(5000, 5000, FairTerms, 0)));
            && Reachable(t) && RenewDone(t, INITIAL_UPDATE_NUMBER)
            && var offerer := if t.p.me == Offerer then t.p else t.q;
            && INITIAL_UPDATE_NUMBER in t.agreed
            && SeeOnChain(offerer, t.agreed[INITIAL_UPDATE_NUMBER]) == NotClosed(offerer, Refused)
  {
    hide Invariant, Reachable, RenewExchange, SeeOnChain, FromWire, ToWire, TermsToSign, CoinTerms, Shareable, Acceptable, Readable,
         Sendable;
    var s, input := InitialSystem(me, 5000, 5000, FairTerms), ContractInput(5000, 5000, FairTerms, 0);
    StartIsReachable(me, 5000, 5000, FairTerms);
    CoinTermsTravel(6000, 1);
    CoinShareable(s.p, 6000, 1, 0);
    RenewExchangeCompletes(s, 4000, input);
    var t := Run(s, RenewExchange(4000, input));
    ReachableRuns(s, RenewExchange(4000, input));
    RenewedBufferPunished(t, INITIAL_UPDATE_NUMBER);
    SetupBufferOf(t);
  }

  lemma StartIsReachable(me: Who, oc: nat, ac: nat, terms: Terms)
    ensures Reachable(InitialSystem(me, oc, ac, terms))
  {
    assert Run(InitialSystem(me, oc, ac, terms), []) == InitialSystem(me, oc, ac, terms);
  }

  lemma SetupBufferOf(t: System)
    requires Invariant(t)
    ensures INITIAL_UPDATE_NUMBER in t.agreed && t.agreed[INITIAL_UPDATE_NUMBER].Buffer?
    ensures t.agreed[INITIAL_UPDATE_NUMBER].offer.base == Offerer && t.q.me == Other(t.p.me)
  {
    hide Idle, Handshake, PartyFits;
  }

  // ---------- A confirmed settlement after a renewal ----------

  /** The end that offered a renewal and then a settlement can force close on the disclosed buffer: its counterparty, which
      accepted the renewal, recorded the wrong flag with it. */
  lemma ConfirmAfterRenewalUnpunished(s: System, i: nat, cp: nat)
    requires Reachable(s) && RenewDone(s, i) && 1 < i <= INITIAL_UPDATE_NUMBER
    requires cp <= TotalCollateral(s.p) && SomeOutput(cp, TotalCollateral(s.p) - cp)
    ensures var t := Run(s, SettleExchange(cp)[..4]); var u := Step(t, false, Deliver);
            && Reachable(t) && t.p.state.SettledConfirmed? && t.q.state.SettledAccepted?
            && ForceClose(t.p, true).broadcast.Some?
            && SeeOnChain(u.q, ForceClose(t.p, true).broadcast.value) == NotClosed(u.q, Refused)
  {
    hide Reachable, Invariant, Step, TotalCollateral, SeeOnChain, ForceClose;
    var steps := SettleExchange(cp);
    StableEndsAgree(s);
    OpenEnds(s);
    RunSix(s, steps);
    SettleGetsOffered(s, cp);
    OfferKeepsTotal(s, cp);
    var s1, s2, s3, t := Run(s, steps[..1]), Run(s, steps[..2]), Run(s, steps[..3]), Run(s, steps[..4]);
    SettleGetsHeld(s1, cp, i - 1);
    HeldKeepsTotal(s1);
    SettleGetsAccepted(s2, cp, i - 1);
    SettleGetsConfirmed(s3, cp, i - 1);
    ReachableRuns(s, steps[..4]);
    BaseLasts(s, steps[..4]);
    MeLasts(s, steps[..4]);
    OppositeEnds(t);
    ForceCloseAfterConfirmIsPunished(t);
  }

  lemma {:induction false} MeLasts(s: System, steps: seq<(bool, Action)>)
    requires Invariant(s)
    ensures Run(s, steps).p.me == s.p.me
    decreases |steps|
  {
    hide Invariant, StepP;
    if steps != [] {
      var n := |steps| - 1;
      var m := Run(s, steps[..n]);
      MeLasts(s, steps[..n]);
      RunKeeps(s, steps[..n]);
      if steps[n].0 {
        StepStaysOrCompletes(m, steps[n].1);
      } else {
        InvariantSwaps(m);
        StepStaysOrCompletes(Swap(m), steps[n].1);
      }
    }
  }

  // ---------- Terms that are not sent ----------

  /** A renewal whose payout fits stalls if its flags send the refund to the accepter, if an enumerated accept payout is not the
      rest of the total, or if it asks for two of its one oracle; the offer carries none of these. */
  lemma UnsentTermsStall(me: Who)
    ensures var s := InitialSystem(me, 5000, 5000, FairTerms);
            && Stalled(Run(s, RenewExchange(4000, ContractInput(5000, 5000, FairTerms, 1))))
            && Stalled(Run(s, RenewExchange(4000, ContractInput(5000, 5000, CoinTerms(5000, 1), 0))))
            && Stalled(Run(s, RenewExchange(4000, ContractInput(5000, 5000, CoinTerms(6000, 2), 0))))
            && RenewDone(Run(s, RenewExchange(4000, ContractInput(5000, 5000, FairTerms, 0))), INITIAL_UPDATE_NUMBER)
  {
    hide Stalled, Run, RenewExchange, RenewDone;
    CoinRenewal(me, 6000, 1, 1);
    CoinRenewal(me, 5000, 1, 0);
    CoinRenewal(me, 6000, 2, 0);
    CoinRenewal(me, 6000, 1, 0);
  }

  lemma CoinRenewal(me: Who, acceptPayout: nat, threshold: nat, flags: nat)
    requires flags < 2
    ensures var s := InitialSystem(me, 5000, 5000, FairTerms);
            var t := Run(s, RenewExchange(4000, ContractInput(5000, 5000, CoinTerms(acceptPayout, threshold), flags)));
            if acceptPayout == 6000 && threshold == 1 && flags == 0 then RenewDone(t, INITIAL_UPDATE_NUMBER) else Stalled(t)
  {
    hide Invariant, Reachable, Run, RenewExchange, Stalled, RenewDone, CoinTerms, Shareable, Acceptable, Readable, Sendable;
    var s, input := InitialSystem(me, 5000, 5000, FairTerms), ContractInput(5000, 5000, CoinTerms(acceptPayout, threshold), flags);
    StartIsReachable(me, 5000, 5000, FairTerms);
    CoinTermsTravel(acceptPayout, threshold);
    CoinShareable(s.p, acceptPayout, threshold, flags);
    RenewExchangeCompletes(s, 4000, input);
  }

  // ---------- Payouts below the dust limit ----------

  /** A settlement within the collateral whose payouts are both below the dust limit cannot be accepted. */
  lemma DustSettlementIsHeld(me: Who)
    ensures var s := InitialSystem(me, 1500, 0, FairTerms); var t := Run(s, SettleExchange(700));
            && Reachable(t) && t.q.state.SettledReceived? && t.p.state.SettledOffered?
            && AcceptSettle(t.q).reply == Failed(Panic)
  {
    hide Invariant, Reachable, Run, SettleExchange, AcceptSettle;
    StartIsReachable(me, 1500, 0, FairTerms);
    SettleExchangeCompletes(InitialSystem(me, 1500, 0, FairTerms), 700);
    ReachableRuns(InitialSystem(me, 1500, 0, FairTerms), SettleExchange(700));
  }
}
