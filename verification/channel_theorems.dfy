/** What the invariant says of every run of two honest parties. */
module ChannelTheorems {
  import opened Wrappers
  import opened ChannelTypes
  import opened ChannelTerms
  import opened ChannelHandlers
  import opened ChannelSystem
  import opened ChannelSteps
  import opened ChannelDeliveries

  // ---------- The start ----------

  function InitialBuffer(): Tx {
    RenewalBuffer(Offerer, Accepter, PerUpdatePoint(Offerer, INITIAL_UPDATE_NUMBER), PerUpdatePoint(Accepter, INITIAL_UPDATE_NUMBER))
  }

  /** A party's record once the channel is signed and its contract confirmed. */
  function InitialParty(me: Who, offerCollateral: nat, acceptCollateral: nat, terms: Terms): Party {
    var total := offerCollateral + acceptCollateral;
    var buffer := InitialBuffer();
    Party(
      me,
      if me == Offerer then offerCollateral else acceptCollateral,
      if me == Offerer then acceptCollateral else offerCollateral,
      Signed,
      Established(Initial, SigFor(Other(me), buffer, INITIAL_UPDATE_NUMBER), SigFor(me, buffer, INITIAL_UPDATE_NUMBER),
                  buffer, me == Offerer, total),
      None,
      INITIAL_UPDATE_NUMBER,
      PerUpdatePoint(me, INITIAL_UPDATE_NUMBER),
      PerUpdatePoint(Other(me), INITIAL_UPDATE_NUMBER),
      map[],
      map[buffer := BufferTx],
      map[Initial := Confirmed(Contract(Initial, me == Offerer, terms, 0, total, offerCollateral, acceptCollateral))])
  }

  /** The signed channel, seen from the end `me`. */
  function InitialSystem(me: Who, offerCollateral: nat, acceptCollateral: nat, terms: Terms): System {
    System(
      InitialParty(me, offerCollateral, acceptCollateral, terms),
      InitialParty(Other(me), offerCollateral, acceptCollateral, terms),
      [], [], map[INITIAL_UPDATE_NUMBER := InitialBuffer()], {}, {})
  }

  lemma InitialInvariant(me: Who, offerCollateral: nat, acceptCollateral: nat, terms: Terms)
    ensures Invariant(InitialSystem(me, offerCollateral, acceptCollateral, terms))
  {
    hide Handshake;
    var s := InitialSystem(me, offerCollateral, acceptCollateral, terms);
    assert EndsFit(s);
    assert Idle(s);
  }

  /** A state that some run of calls and deliveries leads to, seen from either end. */
  ghost predicate Reachable(s: System) {
    exists me: Who, offerCollateral: nat, acceptCollateral: nat, terms: Terms, steps: seq<(bool, Action)> ::
      s == Run(InitialSystem(me, offerCollateral, acceptCollateral, terms), steps)
  }

  lemma {:induction false} RunSwaps(s: System, steps: seq<(bool, Action)>) returns (swapped: seq<(bool, Action)>)
    ensures Run(Swap(s), swapped) == Swap(Run(s, steps))
    decreases |steps|
  {
    hide StepP;
    if steps == [] {
      swapped := [];
    } else {
      var n := |steps| - 1;
      swapped := RunSwaps(s, steps[..n]);
      var next := (!steps[n].0, steps[n].1);
      assert (swapped + [next])[..|swapped|] == swapped;
      assert Swap(Swap(Run(s, steps[..n]))) == Run(s, steps[..n]);
      swapped := swapped + [next];
    }
  }

  /** What is proved of one end of every reachable state holds of the other end as well. */
  lemma ReachableSwaps(s: System)
    requires Reachable(s)
    ensures Reachable(Swap(s))
  {
    hide Run, InitialParty;
    var me: Who, oc: nat, ac: nat, d: Terms, steps :| s == Run(InitialSystem(me, oc, ac, d), steps);
    var swapped := RunSwaps(InitialSystem(me, oc, ac, d), steps);
    assert Other(Other(me)) == me;
    assert Swap(InitialSystem(me, oc, ac, d)) == InitialSystem(Other(me), oc, ac, d);
    assert Swap(s) == Run(InitialSystem(Other(me), oc, ac, d), swapped);
  }

  lemma ReachableInvariant(s: System)
    requires Reachable(s)
    ensures Invariant(s)
  {
    hide Invariant;
    var me: Who, oc: nat, ac: nat, d: Terms, steps :| s == Run(InitialSystem(me, oc, ac, d), steps);
    InitialInvariant(me, oc, ac, d);
    RunKeeps(InitialSystem(me, oc, ac, d), steps);
  }

  // ---------- Agreement of the two ends ----------

  /** The two update indices are never more than one apart. */
  lemma IndicesStayClose(s: System)
    requires Reachable(s)
    ensures -1 <= s.p.updateIdx as int - s.q.updateIdx as int <= 1
  {
    hide Reachable, PartyFits, ProfitsFit, SameContract, DisclosureFits, AgreedFits, IdleFlight;
    ReachableInvariant(s);
  }

  /** Two stable ends are at the same index, in the same kind of state, on the same transaction,
      with mirrored payouts, crossed per-update points and crossed signatures. */
  lemma StableEndsAgree(s: System)
    requires Reachable(s) && Stable(s.p.state) && Stable(s.q.state)
    ensures s.p.updateIdx == s.q.updateIdx
    ensures s.p.ownPoint == s.q.counterPoint && s.q.ownPoint == s.p.counterPoint
    ensures StableTx(s.p.state) == StableTx(s.q.state)
    ensures StableOwnSig(s.p.state) == StableCounterSig(s.q.state) && StableOwnSig(s.q.state) == StableCounterSig(s.p.state)
    ensures s.p.state.Established? <==> s.q.state.Established?
    ensures s.p.state.Established? ==>
              && s.p.state.contractId == s.q.state.contractId
              && s.p.state.totalCollateral == s.q.state.totalCollateral == TotalCollateral(s.p)
    ensures s.p.state.Settled? ==>
              && s.p.state.ownPayout == s.q.state.counterPayout && s.q.state.ownPayout == s.p.state.counterPayout
              && s.p.state.ownPayout + s.q.state.ownPayout == TotalCollateral(s.p)
  {
    hide Reachable, ProfitsFit, DisclosureFits, AgreedFits, SecretsFit, WatchFits, FlagsFit, BuffersFit, ClosedAreOld, IdleFlight;
    ReachableInvariant(s);
    assert Idle(s);
    assert s.p.state.Established? == StableTx(s.p.state).Buffer?;
  }

  // ---------- One step at a time ----------

  /** A step stays at the update index, over the same stable state, or completes the update. */
  ghost predicate StaysOrCompletes(p: Party, t: Party) {
    && t.me == p.me && t.ownCollateral == p.ownCollateral && t.counterCollateral == p.counterCollateral
    && (|| StaysAt(p, t)
        || (&& t.updateIdx == p.updateIdx - 1 && Stable(t.state)
            && (p.state.RenewFinalized? ==> StableTx(t.state) == p.state.buffer)))
  }

  ghost predicate StaysAt(p: Party, t: Party) {
    && t.updateIdx == p.updateIdx && Base(t) == Base(p)
    && (p.state.RenewFinalized? ==> t == p)
    && (!t.state.RenewFinalized? ==> t.ownPoint == p.ownPoint && t.counterPoint == p.counterPoint)
    && t.counterSecrets == p.counterSecrets
  }

  lemma ReceiveStaysOrCompletes(p: Party, m: Msg, agreed: map<nat, Tx>)
    requires PartyFits(p, agreed)
    ensures StaysOrCompletes(p, Receive(p, m).party)
  {
    hide StableFits, WatchFits, FlagsFit, BuffersFit, SecretsFit, ClosedAreOld, CurrentWatched, BaseStored, TxFits, PointsFit, NegotiationFits,
         TermsToSign, RefundOutputs, SettleTxAndSig, SigsVerify, FromWire, ProvideSecret;
    assert Stable(Base(p)) by { BaseIsStable(p, agreed); }
  }

  lemma BaseIsStable(p: Party, agreed: map<nat, Tx>)
    requires PartyFits(p, agreed)
    ensures Stable(Base(p))
  {
  }

  lemma PerformStaysOrCompletes(p: Party, c: Call, agreed: map<nat, Tx>)
    requires PartyFits(p, agreed) && Permitted(p, c)
    ensures StaysOrCompletes(p, Perform(p, c).party)
  {
    hide StableFits, WatchFits, FlagsFit, BuffersFit, SecretsFit, ClosedAreOld, CurrentWatched, BaseStored, TxFits, PointsFit, NegotiationFits;
    assert Stable(Base(p)) by { BaseIsStable(p, agreed); }
  }

  lemma StepStaysOrCompletes(s: System, a: Action)
    requires Invariant(s)
    ensures StaysOrCompletes(s.p, StepP(s, a).p)
    ensures StepP(s, a).q == s.q
    ensures StepP(s, a).agreed == Record(s.agreed, StepP(s, a).p) || StepP(s, a) == s
  {
    hide Invariant, Receive, Perform, PartyFits;
    EndsOfInvariant(s);
    match a
    case Deliver =>
      if s.toP != [] {
        ReceiveStaysOrCompletes(s.p, s.toP[0], s.agreed);
      }
    case Act(c) =>
      if Permitted(s.p, c) {
        PerformStaysOrCompletes(s.p, c, s.agreed);
      }
  }

  /** The closing transaction of an update index is agreed once and never replaced. */
  lemma AgreementIsFinal(s: System, atP: bool, a: Action)
    requires Reachable(s)
    ensures forall i :: i in s.agreed ==> i in Step(s, atP, a).agreed && Step(s, atP, a).agreed[i] == s.agreed[i]
  {
    hide Reachable, Invariant, StepP;
    ReachableInvariant(s);
    if !atP {
      InvariantSwaps(s);
    }
    StepKeepsAgreed(if atP then s else Swap(s), a);
  }

  lemma StepKeepsAgreed(s: System, a: Action)
    requires Invariant(s)
    ensures forall i :: i in s.agreed ==> i in StepP(s, a).agreed && StepP(s, a).agreed[i] == s.agreed[i]
  {
    hide Invariant, StepP, Idle, Handshake;
    var u := StepP(s, a);
    StepStaysOrCompletes(s, a);
    assert Invariant(u) by {
      match a
      case Deliver => DeliveryKeeps(s);
      case Act(c) => CallKeeps(s, c);
    }
    EndsOfInvariant(s);
    EndsOfInvariant(u);
    AgreedStays(s, u);
  }

  /** What a party watches as revoked fixes what was agreed. */
  lemma RevokedFixesAgreement(q: Party, agreed: map<nat, Tx>, later: map<nat, Tx>, i: nat)
    requires WatchFits(q, agreed) && WatchFits(q, later)
    requires RevokedFrom(q) <= i <= INITIAL_UPDATE_NUMBER
    ensures i in agreed && i in later && agreed[i] == later[i]
  {
  }

  lemma AgreedStays(s: System, u: System)
    requires EndsFit(s) && EndsFit(u) && StaysOrCompletes(s.p, u.p) && u.q == s.q
    requires u.agreed == Record(s.agreed, u.p) || u == s
    ensures forall i :: i in s.agreed ==> i in u.agreed && u.agreed[i] == s.agreed[i]
  {
    hide SecretsFit, ClosedAreOld, CurrentWatched, BaseStored, PointsFit, DisclosureFits, WatchFits, FlagsFit, BuffersFit, IsCloseTx, StableFits, NegotiationFits;
    forall i | i in s.agreed
      ensures i in u.agreed && u.agreed[i] == s.agreed[i]
    {
      if i >= RevokedFrom(s.q) {
        RevokedFixesAgreement(s.q, s.agreed, u.agreed, i);
      }
    }
  }

  // ---------- Revocation ----------

  /** Of every update left behind, the secret is stored, and the transaction is watched with what recovering the
      counterparty's key needs and with the offer flag that its replacement called for. A watch without
      its secret occurs only while a renewal is finalized, and only for the update being replaced. */
  ghost predicate RevocationComplete(p: Party, agreed: map<nat, Tx>) {
    && (forall i :: p.updateIdx < i <= INITIAL_UPDATE_NUMBER ==>
          && i in p.counterSecrets && p.counterSecrets[i] == Secret(Other(p.me), i)
          && i in agreed && IsCloseTx(agreed[i], i)
          && agreed[i] in p.watched && RevokedEntry(p, agreed[i], i, p.watched[agreed[i]])
          && FlagAt(p, agreed, i))
    && (forall tx :: tx in p.watched && p.watched[tx].Revoked? ==>
          || p.watched[tx].updateIdx in p.counterSecrets
          || (p.state.RenewFinalized? && p.watched[tx].updateIdx == p.updateIdx && p.updateIdx in agreed && tx == agreed[p.updateIdx]))
    && (p.state.RenewFinalized? ==>
          && p.rollBack.Some? && Stable(p.rollBack.value) && StableTx(p.rollBack.value) in p.watched
          && p.watched[StableTx(p.rollBack.value)].Revoked? && p.updateIdx !in p.counterSecrets)
  }

  lemma RevocationIsComplete(s: System)
    requires Reachable(s)
    ensures RevocationComplete(s.p, s.agreed) && RevocationComplete(s.q, s.agreed)
  {
    hide Reachable, Invariant, RevocationComplete;
    ReachableInvariant(s);
    EndsOfInvariant(s);
    FitMeansRevocationComplete(s.p, s.agreed);
    FitMeansRevocationComplete(s.q, s.agreed);
  }

  lemma FitMeansRevocationComplete(p: Party, agreed: map<nat, Tx>)
    requires PartyFits(p, agreed) && AgreedFits(agreed)
    ensures RevocationComplete(p, agreed)
  {
    hide NegotiationFits, ClosedAreOld;
  }

  /** A transaction is watched as revoked before its secret is stored just when a renewal is finalized. */
  lemma SecretMissingExactlyWhenFinalized(s: System)
    requires Reachable(s)
    ensures (exists tx :: tx in s.p.watched && s.p.watched[tx].Revoked? && s.p.watched[tx].updateIdx !in s.p.counterSecrets)
            <==> s.p.state.RenewFinalized?
  {
    hide Reachable;
    RevocationIsComplete(s);
    if s.p.state.RenewFinalized? {
      ReachableInvariant(s);
      EndsOfInvariant(s);
      var tx := StableTx(s.p.rollBack.value);
      assert tx in s.p.watched && s.p.watched[tx].updateIdx == s.p.updateIdx;
    }
  }

  // ---------- Disclosure ----------

  /** A party holds its counterparty's signature, under its own publish key, on the transaction that
      replaces the one of index `i`. */
  predicate HoldsReplacement(p: Party, i: nat) {
    match p.state
    case SettledConfirmed(tx, counterSig, _, _, _, _, _) =>
      i == p.updateIdx && i > 0 && IsCloseTx(tx, i - 1) && counterSig == SigFor(Other(p.me), tx, i - 1)
    case RenewFinalized(_, _, tx, counterSig, _, _, _) =>
      i == p.updateIdx && i > 0 && IsCloseTx(tx, i - 1) && counterSig == SigFor(Other(p.me), tx, i - 1)
    case Established(_, counterSig, _, tx, _, _) =>
      i == p.updateIdx + 1 && IsCloseTx(tx, i - 1) && counterSig == SigFor(Other(p.me), tx, i - 1)
    case Settled(tx, counterSig, _, _, _) =>
      i == p.updateIdx + 1 && IsCloseTx(tx, i - 1) && counterSig == SigFor(Other(p.me), tx, i - 1)
    case _ => false
  }

  /** A step discloses a secret only together with holding the signature that replaces it. */
  lemma DisclosureIsCovered(s: System, atP: bool, a: Action)
    requires Reachable(s)
    ensures var t := Step(s, atP, a);
            && (forall i :: i in t.disclosedP && i !in s.disclosedP ==> HoldsReplacement(t.p, i))
            && (forall i :: i in t.disclosedQ && i !in s.disclosedQ ==> HoldsReplacement(t.q, i))
  {
    hide Reachable, Invariant, StepP;
    ReachableInvariant(s);
    if !atP {
      InvariantSwaps(s);
    }
    StepDisclosureIsCovered(if atP then s else Swap(s), a);
  }

  lemma StepDisclosureIsCovered(s: System, a: Action)
    requires Invariant(s)
    ensures forall i :: i in StepP(s, a).disclosedP && i !in s.disclosedP ==> HoldsReplacement(StepP(s, a).p, i)
    ensures StepP(s, a).disclosedQ == s.disclosedQ
  {
    hide Invariant, StepP, PartyFits, DisclosureFits;
    var u := StepP(s, a);
    StepStaysOrCompletes(s, a);
    assert Invariant(u) by {
      match a
      case Deliver => DeliveryKeeps(s);
      case Act(c) => CallKeeps(s, c);
    }
    EndsOfInvariant(s);
    EndsOfInvariant(u);
    EndsOf(s);
    EndsOf(u);
    NewDisclosureIsCovered(s.p, u.p, s.disclosedP, u.disclosedP, u.agreed);
    assert u.disclosedQ == s.disclosedQ by { StepIsLocal(s, a); }
  }

  lemma StepIsLocal(s: System, a: Action)
    ensures StepP(s, a).disclosedQ == s.disclosedQ
  {
  }

  lemma NewDisclosureIsCovered(p: Party, t: Party, before: set<nat>, after: set<nat>, agreed: map<nat, Tx>)
    requires PartyFits(t, agreed) && DisclosureFits(p, before) && DisclosureFits(t, after)
    requires p.updateIdx <= INITIAL_UPDATE_NUMBER && StaysOrCompletes(p, t)
    ensures forall i :: i in after && i !in before ==> HoldsReplacement(t, i)
  {
    hide SecretsFit, WatchFits, FlagsFit, BuffersFit, ClosedAreOld, CurrentWatched, TxFits;
  }

  /** The indices whose secret a party has sent, in every reachable state. */
  lemma DisclosedIndices(s: System, i: nat)
    requires Reachable(s)
    ensures i in s.disclosedP <==>
              || s.p.updateIdx < i <= INITIAL_UPDATE_NUMBER
              || (i == s.p.updateIdx && (s.p.state.SettledConfirmed? || s.p.state.RenewFinalized?))
    ensures i in s.q.counterSecrets ==> i in s.disclosedP
  {
    hide Reachable, ProfitsFit, SameContract, IdleFlight, AgreedFits, WatchFits, FlagsFit, BuffersFit, ClosedAreOld, StableFits, TxFits;
    ReachableInvariant(s);
  }

  // ---------- Points and secrets ----------

  /** The current points are those of the update index, one ahead while a renewal is finalized. */
  lemma PointsFollowIndex(s: System)
    requires Reachable(s)
    ensures PointsFit(s.p) && PointsFit(s.q)
  {
    hide Reachable, Invariant, PartyFits, PointsFit;
    ReachableInvariant(s);
    EndsOfInvariant(s);
    PointsOfParty(s.p, s.agreed);
    PointsOfParty(s.q, s.agreed);
  }

  lemma PointsOfParty(p: Party, agreed: map<nat, Tx>)
    requires PartyFits(p, agreed)
    ensures PointsFit(p)
  {
  }

  /** Secrets are provided one index below the other, each exactly when its index is left. */
  lemma SecretsArriveInOrder(s: System, a: Action)
    requires Reachable(s)
    ensures var t := StepP(s, a);
            || (t.p.updateIdx == s.p.updateIdx && t.p.counterSecrets == s.p.counterSecrets)
            || (t.p.updateIdx == s.p.updateIdx - 1
                && t.p.counterSecrets == s.p.counterSecrets[s.p.updateIdx := Secret(Other(s.p.me), s.p.updateIdx)])
    ensures forall i :: i in s.p.counterSecrets <==> s.p.updateIdx < i <= INITIAL_UPDATE_NUMBER
  {
    hide Reachable, Invariant, StepP, PartyFits;
    ReachableInvariant(s);
    var u := StepP(s, a);
    StepStaysOrCompletes(s, a);
    assert Invariant(u) by {
      match a
      case Deliver => DeliveryKeeps(s);
      case Act(c) => CallKeeps(s, c);
    }
    EndsOfInvariant(s);
    EndsOfInvariant(u);
    SecretsFollow(s.p, u.p, s.agreed, u.agreed);
  }

  lemma SecretsFollow(p: Party, t: Party, agreed: map<nat, Tx>, more: map<nat, Tx>)
    requires PartyFits(p, agreed) && PartyFits(t, more) && t.me == p.me
    requires t.updateIdx == p.updateIdx || t.updateIdx == p.updateIdx - 1
    ensures t.updateIdx == p.updateIdx ==> t.counterSecrets == p.counterSecrets
    ensures t.updateIdx == p.updateIdx - 1 ==>
              t.counterSecrets == p.counterSecrets[p.updateIdx := Secret(Other(p.me), p.updateIdx)]
    ensures forall i :: i in p.counterSecrets <==> p.updateIdx < i <= INITIAL_UPDATE_NUMBER
  {
    hide WatchFits, FlagsFit, BuffersFit, ClosedAreOld, CurrentWatched, StableFits, NegotiationFits, TxFits, PointsFit, BaseStored;
  }

  lemma SecretsOfParty(p: Party, agreed: map<nat, Tx>)
    requires PartyFits(p, agreed)
    ensures SecretsFit(p) && p.updateIdx <= INITIAL_UPDATE_NUMBER
  {
  }

  // ---------- Rollback ----------

  /** Every negotiating state carries a stable state to roll back to, on the agreed transaction. */
  lemma RollBackIsThere(s: System)
    requires Reachable(s)
    ensures forall p :: p == s.p || p == s.q ==>
              (!Stable(p.state) ==>
                && p.rollBack.Some? && StableFits(p, p.rollBack.value, p.updateIdx)
                && p.updateIdx in s.agreed && StableTx(p.rollBack.value) == s.agreed[p.updateIdx])
  {
    hide Reachable, Idle, Handshake, NegotiationFits, SecretsFit, WatchFits, FlagsFit, BuffersFit, ClosedAreOld, StableFits;
    ReachableInvariant(s);
  }

  /** While a party stays at an update index, whatever is offered, held or rejected in between, it keeps
      the stable state it would return to; and when it is stable again, it is exactly in that state. */
  lemma {:induction false} BaseLasts(s: System, steps: seq<(bool, Action)>)
    requires Invariant(s)
    ensures var t := Run(s, steps);
            && t.p.updateIdx <= s.p.updateIdx
            && (t.p.updateIdx == s.p.updateIdx ==> Base(t.p) == Base(s.p))
            && (t.p.updateIdx == s.p.updateIdx && !t.p.state.RenewFinalized? ==>
                  && !s.p.state.RenewFinalized?
                  && t.p.ownPoint == s.p.ownPoint && t.p.counterPoint == s.p.counterPoint
                  && t.p.counterSecrets == s.p.counterSecrets)
    decreases |steps|
  {
    hide Invariant, StepP;
    if steps != [] {
      var n := |steps| - 1;
      var m := Run(s, steps[..n]);
      BaseLasts(s, steps[..n]);
      RunKeeps(s, steps[..n]);
      if steps[n].0 {
        StepStaysOrCompletes(m, steps[n].1);
      } else {
        InvariantSwaps(m);
        StepStaysOrCompletes(Swap(m), steps[n].1);
      }
    }
  }

  lemma RejectionRestores(s: System, steps: seq<(bool, Action)>)
    requires Reachable(s) && Stable(s.p.state)
    requires Run(s, steps).p.updateIdx == s.p.updateIdx && Stable(Run(s, steps).p.state)
    ensures var t := Run(s, steps);
            && t.p.state == s.p.state
            && t.p.ownPoint == s.p.ownPoint && t.p.counterPoint == s.p.counterPoint
            && t.p.counterSecrets == s.p.counterSecrets
  {
    hide Reachable, Invariant, Run;
    ReachableInvariant(s);
    BaseLasts(s, steps);
  }

  // ---------- Conservation ----------

  /** Collateral is never created or lost, and recorded profits cancel out. */
  lemma CollateralIsConserved(s: System)
    requires Reachable(s)
    ensures forall p :: p == s.p || p == s.q ==>
              match Base(p)
              case Established(_, _, _, _, _, total) => total == TotalCollateral(p)
              case Settled(_, _, _, ownPayout, counterPayout) => ownPayout + counterPayout == TotalCollateral(p)
              case _ => false
    ensures forall id :: ClosedIn(s.p, id) && ClosedIn(s.q, id) ==> s.p.contracts[id].pnl + s.q.contracts[id].pnl == 0
    ensures Stable(s.p.state) && Stable(s.q.state) ==> forall id :: ClosedIn(s.p, id) <==> ClosedIn(s.q, id)
  {
    hide ToWire, FromWire, TermsToSign, RefundOutputs, Shareable;
    hide Reachable, NegotiationFits, SecretsFit, WatchFits, FlagsFit, BuffersFit, ClosedAreOld, IdleFlight, DisclosureFits, AgreedFits, BaseStored,
         TxFits, PointsFit, CurrentWatched, IsCloseTx, SameContract;
    ReachableInvariant(s);
  }

  // ---------- Failures ----------

  /** A message past the offer never fails, but for the acceptance of a renewal that would pay out more than the
      collateral, whose enumerated payouts do not share out the collateral, or whose flags change the refund. */
  lemma HandshakeNeverFails(s: System)
    requires Reachable(s) && s.toP != [] && !IsOffer(s.toP[0])
    ensures Receive(s.p, s.toP[0]).reply.Failed? <==>
              s.toP[0].RenewAcceptMsg? && !Confirmable(s.p)
  {
    hide Reachable, Invariant, Receive;
    ReachableInvariant(s);
    HandshakeDelivers(s);
  }

  lemma HandshakeDelivers(s: System)
    requires Invariant(s) && s.toP != [] && !IsOffer(s.toP[0])
    ensures Receive(s.p, s.toP[0]).reply.Failed? <==>
              s.toP[0].RenewAcceptMsg? && !Confirmable(s.p)
  {
    hide Invariant, EndsFit, PartyFits, AgreedFits, DisclosureFits, ProfitsFit, Confirmable, Idle,
         RenewAccepting, RenewConfirming, RenewFinalizing, RenewRevoking, SettleAccepting, SettleConfirming, SettleFinalizing,
         OnSettleAccept, OnSettleConfirm, OnSettleFinalize, OnRenewAccept, OnRenewConfirm, OnRenewFinalize, OnRenewRevoke;
    EndsOfInvariant(s);
    DeliveryPhase(s);
    match s.toP[0]
    case RejectMsg => RejectIsAnswered(s);
    case SettleAcceptMsg(_, _) =>
      SettleAcceptFinds(s);
      OnSettleAcceptParty(s.p, s.agreed, s.toP[0].nextPoint, s.toP[0].settleSig, s.q.state.settleTx);
    case SettleConfirmMsg(_, _) => SettleConfirmFinds(s); OnSettleConfirmParty(s.p, s.agreed);
    case SettleFinalizeMsg(_) => SettleFinalizeFinds(s); OnSettleFinalizeParty(s.p, s.agreed);
    case RenewAcceptMsg(_, sigs) => RenewAcceptFinds(s); OnRenewAcceptParty(s.p, s.agreed, s.toP[0].nextPoint, sigs);
    case RenewConfirmMsg(_, sigs) => RenewConfirmFinds(s); OnRenewConfirmParty(s.p, s.agreed, sigs);
    case RenewFinalizeMsg(_, _) => RenewFinalizeFinds(s); OnRenewFinalizeParty(s.p, s.agreed);
    case RenewRevokeMsg(_) => RenewRevokeFinds(s); OnRenewRevokeParty(s.p, s.agreed);
  }

  lemma RejectIsAnswered(s: System)
    requires Invariant(s) && s.toP != [] && s.toP[0].RejectMsg?
    ensures OnReject(s.p).reply.Done?
  {
    hide Invariant, EndsFit, PartyFits, AgreedFits, Idle;
    EndsOfInvariant(s);
    DeliveryPhase(s);
    OnRejectParty(s.p, s.agreed);
  }

  /** A permitted call panics only when the update index is used up, when a settlement leaves no output, and on terms of a
      renewal that cannot be written or iterated over. */
  lemma CallsPanicOnlyAtTheEnd(s: System, c: Call)
    requires Reachable(s) && Permitted(s.p, c)
    ensures Perform(s.p, c).reply == Failed(Panic) <==>
              match c
              case CallOfferSettle(_) => s.p.updateIdx == 0 && s.p.state.Established?
              case CallAcceptSettle => s.p.state.SettledReceived? && !SomeOutput(s.p.state.ownPayout, s.p.state.counterPayout)
              case CallOfferRenew(_, input) =>
                && (s.p.updateIdx == 0 || !Sendable(input.terms))
                && RenewalCheck(s.p.state, input.offerCollateral, input.acceptCollateral).None?
              case CallAcceptRenew =>
                && s.p.state.RenewOffered? && IsOffered(s.p, s.p.state.contractId)
                && PanicsOnSigning(s.p.contracts[s.p.state.contractId].contract)
              case _ => false
  {
    hide Reachable, Invariant, PartyFits, AgreedFits, Sendable, PanicsOnSigning,
         OfferSettle, AcceptSettle, RejectSettle, OfferRenew, AcceptRenew, RejectRenew, OfferClose;
    ReachableInvariant(s);
    EndsOfInvariant(s);
    match c
    case CallOfferSettle(cp) => OfferSettlePanics(s.p, s.agreed, cp);
    case CallAcceptSettle => AcceptSettlePanics(s.p, s.agreed);
    case CallRejectSettle => RejectionsDoNotPanic(s.p, s.agreed);
    case CallOfferRenew(cp, input) => OfferRenewPanics(s.p, s.agreed, cp, input);
    case CallAcceptRenew => AcceptRenewPanics(s.p, s.agreed);
    case CallRejectRenew => RejectionsDoNotPanic(s.p, s.agreed);
    case CallOfferClose(cp, extraInputs) => OfferCloseDoesNotPanic(s.p, cp, extraInputs);
  }

  lemma OfferSettlePanics(p: Party, agreed: map<nat, Tx>, cp: nat)
    requires PartyFits(p, agreed)
    ensures OfferSettle(p, cp).reply == Failed(Panic) <==> p.updateIdx == 0 && p.state.Established?
  {
  }

  lemma AcceptSettlePanics(p: Party, agreed: map<nat, Tx>)
    requires PartyFits(p, agreed)
    ensures AcceptSettle(p).reply == Failed(Panic) <==>
              p.state.SettledReceived? && !SomeOutput(p.state.ownPayout, p.state.counterPayout)
  {
    hide SecretsFit, StableFits, WatchFits, FlagsFit, BuffersFit, CurrentWatched, ClosedAreOld;
  }

  lemma RejectionsDoNotPanic(p: Party, agreed: map<nat, Tx>)
    requires PartyFits(p, agreed)
    ensures RejectSettle(p).reply != Failed(Panic) && RejectRenew(p).reply != Failed(Panic)
  {
    hide SecretsFit, StableFits, WatchFits, FlagsFit, BuffersFit, CurrentWatched, ClosedAreOld, NegotiationFits;
  }

  lemma OfferRenewPanics(p: Party, agreed: map<nat, Tx>, cp: nat, input: ContractInput)
    requires PartyFits(p, agreed)
    ensures OfferRenew(p, cp, input).reply == Failed(Panic) <==>
              && (p.updateIdx == 0 || !Sendable(input.terms))
              && RenewalCheck(p.state, input.offerCollateral, input.acceptCollateral).None?
  {
    hide SecretsFit, StableFits, WatchFits, FlagsFit, BuffersFit, CurrentWatched, ClosedAreOld, NegotiationFits, ToWire, Sendable;
    ReadableIff(input.terms, 0);
  }

  lemma AcceptRenewPanics(p: Party, agreed: map<nat, Tx>)
    requires PartyFits(p, agreed)
    ensures AcceptRenew(p).reply == Failed(Panic) <==>
              && p.state.RenewOffered? && IsOffered(p, p.state.contractId)
              && PanicsOnSigning(p.contracts[p.state.contractId].contract)
  {
    hide SecretsFit, StableFits, WatchFits, FlagsFit, BuffersFit, CurrentWatched, ClosedAreOld, TermsToSign, PanicsOnSigning;
    if p.state.RenewOffered? && IsOffered(p, p.state.contractId) {
      PanicsOnSigningIff(p.contracts[p.state.contractId].contract);
    }
  }

  lemma OfferCloseDoesNotPanic(p: Party, cp: nat, extraInputs: seq<nat>)
    ensures OfferClose(p, cp, extraInputs).reply != Failed(Panic)
  {
  }
}
