/** Leaving the protocol: force closes, collaborative closes and transactions seen on the chain. */
module ChannelClose {
  import opened Wrappers
  import opened ChannelTypes
  import opened ChannelHandlers
  import opened ChannelSystem
  import opened ChannelSteps
  import opened ChannelDeliveries
  import opened ChannelTheorems

  /** What a closing operation leaves in the store and monitor, and what it broadcasts. */
  datatype Closure = Closure(party: Party, broadcast: Option<Tx>, error: Option<Error>)

  function NotClosed(p: Party, e: Error): Closure {
    Closure(p, None, Some(e))
  }

  /** `initiate_unilateral_close_established_channel`: the counterparty's adaptor signature decrypts
      only under the local publish key of the current per-update point. */
  function CloseOnBuffer(p: Party, counterSig: AdaptorSig, buffer: Tx, id: ContractId, isInitiator: bool): (c: Closure)
    ensures c.error.Some? ==> c == NotClosed(p, c.error.value)
  {
    if counterSig.encryptionKey != PublishKey(p.me, p.ownPoint) then NotClosed(p, InvalidParameters)
    else
      Closure(p.(state := Closing(buffer, id, isInitiator), watched := p.watched - {buffer}), Some(buffer), None)
  }

  /** `close_settled_channel`. */
  function CloseOnSettle(p: Party, counterSig: AdaptorSig, tx: Tx, isInitiator: bool): (c: Closure)
    ensures c.error.Some? ==> c == NotClosed(p, c.error.value)
  {
    if counterSig.encryptionKey != PublishKey(p.me, p.ownPoint) then NotClosed(p, InvalidParameters)
    else
      Closure(p.(lifecycle := if isInitiator then ClosedByUs else CounterClosed, watched := map[]), Some(tx), None)
  }

  /** `force_close_channel_internal`. A failed close stores nothing. */
  function ForceClose(p: Party, isInitiator: bool): (c: Closure)
    ensures c.error.Some? ==> c == NotClosed(p, c.error.value)
    decreases p.rollBack.Some?
  {
    if !p.lifecycle.Signed? then NotClosed(p, InvalidState)
    else match p.state
      case Established(id, counterSig, _, buffer, _, _) => CloseOnBuffer(p, counterSig, buffer, id, isInitiator)
      case RenewFinalized(id, _, buffer, counterSig, _, _, _) => CloseOnBuffer(p, counterSig, buffer, id, isInitiator)
      case Settled(tx, counterSig, _, _, _) => CloseOnSettle(p, counterSig, tx, isInitiator)
      case Closing(_, _, _) => NotClosed(p, InvalidState)
      case _ =>
        if p.rollBack.None? then NotClosed(p, Panic)
        else
          var c := ForceClose(p.(state := p.rollBack.value, rollBack := None), isInitiator);
          if c.error.Some? then NotClosed(p, c.error.value) else c
  }

  /** The network takes a closing transaction if the counterparty's signature fits and it has an output. */
  predicate Takes(p: Party)
    requires p.state.CollaborativeCloseOffered?
  {
    && p.state.offerSig == Sig(Other(p.me), p.state.closeTx)
    && p.state.closeTx.CollaborativeClose?
    && SomeOutput(p.state.closeTx.closeOfferPayout, p.state.closeTx.closeAcceptPayout)
  }

  /** `accept_collaborative_close`. */
  function AcceptClose(p: Party): Closure {
    if !p.lifecycle.Signed? then NotClosed(p, InvalidState)
    else if !p.state.CollaborativeCloseOffered? then NotClosed(p, InvalidState)
    else
      var closed := p.(lifecycle := CollaborativelyClosed);
      if p.rollBack.Some? && p.rollBack.value.Established? then
        var id := p.rollBack.value.contractId;
        if !IsConfirmed(p, id) then NotClosed(p, InvalidState)
        else
          if !Takes(p) then NotClosed(p, Refused)
          else
            Closure(closed.(contracts := p.contracts[id := CollaborativelyClosedEntry(p, id, p.state.counterPayout)]),
                    Some(p.state.closeTx), None)
      else if !Takes(p) then NotClosed(p, Refused)
      else
        Closure(closed, Some(p.state.closeTx), None)
  }

  // ---------- Punishing ----------

  /** The owners of the outputs of a settle transaction, in order. */
  function SettleOutputs(tx: Tx): seq<Who>
    requires tx.Settle?
  {
    (if tx.offerPayout < DUST_LIMIT then [] else [tx.offer.base])
    + (if tx.acceptPayout < DUST_LIMIT then [] else [tx.accept.base])
  }

  /** Why a punishment transaction does not come about. The recorded flag orders the keys of a buffer output, whose
      script is not symmetric, and selects the output of a settle transaction. With the wrong script or another
      party's output the network refuses the transaction; a missing output is indexed out of range. */
  function PunishmentError(me: Who, tx: Tx, isOffer: bool, kind: RevokedTxType): Option<Error> {
    match kind
    case RevokedBuffer =>
      if tx.Buffer? && isOffer == (tx.offer.base == me) then None else Some(Refused)
    case RevokedSettle =>
      if !tx.Settle? then Some(Refused)
      else
        var vout := if isOffer then 1 else 0;
        if vout >= |SettleOutputs(tx)| then Some(Panic)
        else if SettleOutputs(tx)[vout] != Other(me) then Some(Refused)
        else None
  }

  /** One watched transaction of `process_watched_txs`. */
  function SeeOnChain(p: Party, tx: Tx): Closure {
    if !p.lifecycle.Signed? || tx !in p.watched then NotClosed(p, InvalidState)
    else match p.watched[tx]
      case BufferTx =>
        var id := ContractIdOf(p.state);
        if id.None? then NotClosed(p, Panic)
        else Closure(p.(state := Closing(tx, id.value, false), rollBack := Some(p.state)), None, None)
      case Revoked(index, ownSig, isOffer, kind) =>
        if index !in p.counterSecrets then NotClosed(p, Panic)
        else if ownSig != AdaptorSig(p.me, tx, PublishKey(Other(p.me), Point(p.counterSecrets[index]))) then NotClosed(p, InvalidParameters)
        else
          var failure := PunishmentError(p.me, tx, isOffer, kind);
          if failure.Some? then NotClosed(p, failure.value)
          else Closure(p.(lifecycle := ClosedPunished, watched := map[]), None, None)
      case CollaborativeCloseTx =>
        var closed := p.(lifecycle := CollaborativelyClosed, watched := map[]);
        if p.rollBack.Some? && p.rollBack.value.Established? then
          var id := p.rollBack.value.contractId;
          if !p.state.CollaborativeCloseOffered? || !IsConfirmed(p, id) then NotClosed(p, InvalidState)
          else if p.state.counterPayout > p.contracts[id].contract.totalCollateral then NotClosed(p, Panic)
          else
            Closure(closed.(contracts := p.contracts[id := CollaborativelyClosedEntry(p, id,
                      p.contracts[id].contract.totalCollateral - p.state.counterPayout)]), None, None)
        else
          Closure(closed, None, None)
      case SettleTx => Closure(p.(lifecycle := CounterClosed, watched := map[]), None, None)
      case Cet =>
        var id := ContractIdOf(p.state);
        Closure(p.(lifecycle := if p.state.Closing? && !p.state.isInitiator then CounterClosed else ClosedByUs,
                   contracts := if id.Some? && IsConfirmed(p, id.value)
                                then p.contracts[id.value := PreClosed(p.contracts[id.value].contract)] else p.contracts,
                   watched := map[]), None, None)
  }

  // ---------- Force closing ----------

  /** A force close of a reachable end succeeds and publishes the agreed transaction of its current
      points: the new buffer while a renewal is finalized, the current or rolled-back one otherwise.
      The counterparty's signature on it decrypts, and the recursion unwinds once. */
  lemma ForceClosePublishes(p: Party, agreed: map<nat, Tx>, isInitiator: bool)
    requires PartyFits(p, agreed)
    ensures Stable(Base(p))
    ensures var c := ForceClose(p, isInitiator);
            && c.error.None?
            && PointIdx(p) in agreed && c.broadcast == Some(agreed[PointIdx(p)])
            && c.broadcast == Some(if p.state.RenewFinalized? then p.state.buffer else StableTx(Base(p)))
            && HeldSig(p) == SigFor(Other(p.me), agreed[PointIdx(p)], PointIdx(p))
            && Shut(c.party)
  {
    hide PartyFits;
    HeldForClose(p, agreed);
  }

  lemma HeldForClose(p: Party, agreed: map<nat, Tx>)
    requires PartyFits(p, agreed)
    ensures Stable(Base(p)) && p.lifecycle.Signed? && !p.state.Closing?
    ensures !Stable(p.state) ==> p.rollBack == Some(Base(p))
    ensures p.ownPoint == PerUpdatePoint(p.me, PointIdx(p))
    ensures PointIdx(p) in agreed && agreed[PointIdx(p)] == if p.state.RenewFinalized? then p.state.buffer else StableTx(Base(p))
    ensures HeldSig(p) == SigFor(Other(p.me), agreed[PointIdx(p)], PointIdx(p))
  {
    hide SecretsFit, WatchFits, FlagsFit, BuffersFit, ClosedAreOld, CurrentWatched;
  }

  /** The counterparty's signature that a force close decrypts. */
  function HeldSig(p: Party): AdaptorSig
    requires Stable(Base(p))
  {
    if p.state.RenewFinalized? then p.state.offerBufferSig else StableCounterSig(Base(p))
  }

  /** The record of an end that left the protocol. Its handlers accept nothing but a close offer,
      which a closing channel without a rollback takes in silence. */
  predicate Shut(p: Party) {
    || !p.lifecycle.Signed?
    || p.state.Closing?
    || (p.state.CollaborativeCloseOffered? && p.rollBack.Some? && p.rollBack.value.Closing?)
  }

  /** The published transaction is one whose own secret was disclosed exactly in `SettledConfirmed`. */
  lemma ForceCloseIsSafe(s: System, isInitiator: bool)
    requires Reachable(s)
    ensures var c := ForceClose(s.p, isInitiator);
            && c.error.None?
            && PointIdx(s.p) in s.agreed && c.broadcast == Some(s.agreed[PointIdx(s.p)])
            && (PointIdx(s.p) in s.disclosedP <==> s.p.state.SettledConfirmed?)
  {
    hide Reachable, Invariant, PartyFits, ForceClose;
    ReachableInvariant(s);
    EndsOfInvariant(s);
    ForceClosePublishes(s.p, s.agreed, isInitiator);
    PointsOfParty(s.p, s.agreed);
    SecretsOfParty(s.p, s.agreed);
    DisclosedIndices(s, PointIdx(s.p));
  }

  // ---------- Punishing ----------

  function RevokedKindOf(tx: Tx): RevokedTxType {
    if tx.Buffer? then RevokedBuffer else RevokedSettle
  }

  /** When a flag leads the punishment to the counterparty's money. With one output left, a settle transaction
      is punished by the position of that output and not by the roles. */
  predicate Punishable(me: Who, tx: Tx, isOffer: bool)
    requires tx.Buffer? || tx.Settle?
  {
    if tx.Buffer? then isOffer == (tx.offer.base == me)
    else
      && PayoutIn(tx, Other(me)) >= DUST_LIMIT
      && (if PayoutIn(tx, me) >= DUST_LIMIT then isOffer == (tx.offer.base == me) else !isOffer)
  }

  lemma PunishableIff(me: Who, tx: Tx, isOffer: bool)
    requires tx.Buffer? || (tx.Settle? && tx.accept.base == Other(tx.offer.base))
    ensures PunishmentError(me, tx, isOffer, RevokedKindOf(tx)).None? <==> Punishable(me, tx, isOffer)
  {
  }

  /** By history: a settlement wrote the right flag over the setup's buffer, and over a renewed one at the end that
      offered the renewal; a renewal wrote the right one at the end that did not offer what it replaced. */
  predicate FlagIsRight(me: Who, index: nat, tx: Tx, replacement: Tx)
    requires tx.Buffer? || tx.Settle?
  {
    if replacement.Settle? then index == INITIAL_UPDATE_NUMBER || tx.offer.base == me else tx.offer.base != me
  }

  /** Seeing a revoked transaction is punished exactly when its secret is stored, which it is but for the transaction
      a finalized renewal still waits on, and the flag recorded with it leads to the counterparty's
      money. Where no output is dust, that is when the flag is right by its history. */
  lemma PunishmentWorks(s: System, tx: Tx)
    requires Reachable(s) && tx in s.p.watched && s.p.watched[tx].Revoked?
    ensures var i := s.p.watched[tx].updateIdx; var c := SeeOnChain(s.p, tx);
            && 0 < i <= INITIAL_UPDATE_NUMBER && i in s.agreed && i - 1 in s.agreed && s.agreed[i] == tx
            && (tx.Buffer? || tx.Settle?)
            && (i !in s.p.counterSecrets <==> s.p.state.RenewFinalized? && i == s.p.updateIdx)
            && (c.error.None? <==>
                  i in s.p.counterSecrets && Punishable(s.p.me, tx, RecordedFlag(s.p.me, i, s.agreed[i - 1])))
            && (c.error.None? <==> c.party.lifecycle.ClosedPunished?)
            && (tx.Buffer? || (tx.offerPayout >= DUST_LIMIT && tx.acceptPayout >= DUST_LIMIT) ==>
                  (c.error.None? <==> i in s.p.counterSecrets && FlagIsRight(s.p.me, i, tx, s.agreed[i - 1])))
  {
    hide Reachable, Invariant, EndsFit, PartyFits, AgreedFits, PunishmentError, SeeOnChain, RecordedFlag;
    ReachableInvariant(s);
    EndsOfInvariant(s);
    var i := s.p.watched[tx].updateIdx;
    RevokedFinds(s.p, s.agreed, tx);
    RevokedSeen(s.p, s.agreed, tx);
    PunishableIff(s.p.me, tx, RecordedFlag(s.p.me, i, s.agreed[i - 1]));
    RecordedFlagIsRight(s.p.me, s.agreed, i);
  }

  /** What a party knows of the revoked transaction `tx` that it watches as `t`. */
  predicate FoundRevoked(p: Party, agreed: map<nat, Tx>, tx: Tx, t: TxType) {
    && t.Revoked?
    && var i := t.updateIdx;
    && RevokedFrom(p) <= i <= INITIAL_UPDATE_NUMBER && i > 0 && i in agreed && i - 1 in agreed && agreed[i] == tx
    && IsCloseTx(tx, i) && RevokedEntry(p, tx, i, t)
    && t.isOffer == RecordedFlag(p.me, i, agreed[i - 1])
    && (i !in p.counterSecrets <==> p.state.RenewFinalized? && i == p.updateIdx)
    && (i in p.counterSecrets ==> p.counterSecrets[i] == Secret(Other(p.me), i))
    && p.lifecycle.Signed?
  }

  lemma RevokedFinds(p: Party, agreed: map<nat, Tx>, tx: Tx)
    requires PartyFits(p, agreed) && AgreedFits(agreed) && tx in p.watched && p.watched[tx].Revoked?
    ensures FoundRevoked(p, agreed, tx, p.watched[tx])
  {
    hide NegotiationFits, StableFits, BuffersFit, ClosedAreOld, CurrentWatched, BaseStored;
    assert FlagAt(p, agreed, p.watched[tx].updateIdx);
  }

  lemma RevokedSeen(p: Party, agreed: map<nat, Tx>, tx: Tx)
    requires tx in p.watched && p.watched[tx].Revoked? && RevokedEntry(p, tx, p.watched[tx].updateIdx, p.watched[tx]) && p.lifecycle.Signed?
    requires var i := p.watched[tx].updateIdx; i in p.counterSecrets ==> p.counterSecrets[i] == Secret(Other(p.me), i)
    ensures var i := p.watched[tx].updateIdx; var c := SeeOnChain(p, tx);
            && c.error == (if i !in p.counterSecrets then Some(Panic)
                           else PunishmentError(p.me, tx, p.watched[tx].isOffer, RevokedKindOf(tx)))
            && (c.error.None? <==> c.party.lifecycle.ClosedPunished?)
  {
    hide PunishmentError;
  }

  lemma RecordedFlagIsRight(me: Who, agreed: map<nat, Tx>, i: nat)
    requires AgreedFits(agreed) && 0 < i <= INITIAL_UPDATE_NUMBER && i in agreed && i - 1 in agreed
    ensures IsCloseTx(agreed[i], i)
    ensures RecordedFlag(me, i, agreed[i - 1]) == (agreed[i].offer.base == me) <==> FlagIsRight(me, i, agreed[i], agreed[i - 1])
  {
    assert IsCloseTx(agreed[i - 1], i - 1);
  }

  /** Why a close is offered only from a stable state: offered from within a negotiation it overwrites
      the rollback, and the next force close finds none. */
  lemma CloseOfferNeedsStableState(s: System, counterPayout: nat, extraInputs: seq<nat>)
    requires Reachable(s)
    ensures var o := OfferClose(s.p, counterPayout, extraInputs);
            o.reply.Done? ==>
              (ForceClose(o.party, true).error == Some(Panic) <==> !Stable(s.p.state) && !s.p.state.RenewFinalized?)
  {
    hide Reachable, Invariant, PartyFits, ForceClose;
    ReachableInvariant(s);
    EndsOfInvariant(s);
    var o := OfferClose(s.p, counterPayout, extraInputs);
    if o.reply.Done? {
      UnwindsOnce(o.party);
      CloseWithoutRollBack(s.p, s.agreed, o.party.watched);
    }
  }

  lemma UnwindsOnce(p: Party)
    requires p.lifecycle.Signed? && p.state.CollaborativeCloseOffered? && p.rollBack.Some?
    ensures ForceClose(p, true).error == ForceClose(p.(state := p.rollBack.value, rollBack := None), true).error
  {
  }

  lemma CloseWithoutRollBack(p: Party, agreed: map<nat, Tx>, watched: map<Tx, TxType>)
    requires PartyFits(p, agreed)
    ensures ForceClose(p.(watched := watched, rollBack := None), true).error
              == if Stable(p.state) || p.state.RenewFinalized? then None else Some(Panic)
  {
    hide SecretsFit, WatchFits, FlagsFit, BuffersFit, ClosedAreOld, CurrentWatched, BaseStored;
  }

  /** The excluded case is real: a force close from `SettledConfirmed` publishes a buffer transaction that the
      counterparty punishes, at the latest once it has received the confirmation in flight, exactly when the
      buffer is that of the setup or the counterparty offered the renewal that made it. Otherwise the recorded flag is wrong. */
  lemma ForceCloseAfterConfirmIsPunished(s: System)
    requires Reachable(s) && s.p.state.SettledConfirmed?
    ensures Stable(Base(s.p))
    ensures var t := if s.q.state.SettledAccepted? then Step(s, false, Deliver) else s;
            && ForceClose(s.p, true).broadcast.Some?
            && var tx := ForceClose(s.p, true).broadcast.value; var c := SeeOnChain(t.q, tx);
            && tx == StableTx(Base(s.p)) && tx.Buffer?
            && (c.party.lifecycle.ClosedPunished? <==> s.p.updateIdx == INITIAL_UPDATE_NUMBER || tx.offer.base == s.q.me)
            && (c.party.lifecycle.ClosedPunished? || c == NotClosed(t.q, Refused))
  {
    hide Reachable, Invariant, PartyFits, AgreedFits, EndsFit, StepP, ForceClose, SeeOnChain, RevocationComplete, SettleConfirming;
    ReachableInvariant(s);
    var t := if s.q.state.SettledAccepted? then Step(s, false, Deliver) else s;
    EndsOfInvariant(s);
    ForceClosePublishes(s.p, s.agreed, true);
    ConfirmedPhase(s);
    if s.q.state.SettledAccepted? {
      ConfirmFinalizes(s);
      InvariantSwaps(s);
      StepKeepsAgreed(Swap(s), Deliver);
    }
    EndsOfInvariant(t);
    ConfirmedBase(s);
    SettledAfterwards(t);
    PunishedOrRefused(t.q, t.agreed, s.p.updateIdx);
  }

  lemma ConfirmedBase(s: System)
    requires Invariant(s) && s.p.state.SettledConfirmed?
    ensures Base(s.p).Established? && s.p.updateIdx in s.agreed && s.agreed[s.p.updateIdx] == StableTx(Base(s.p))
    ensures StableTx(Base(s.p)).Buffer? && 0 < s.p.updateIdx <= INITIAL_UPDATE_NUMBER
    ensures s.q.me == Other(s.p.me)
  {
    hide Idle, Handshake, SecretsFit, WatchFits, FlagsFit, BuffersFit, ClosedAreOld, CurrentWatched;
  }

  lemma SettledAfterwards(t: System)
    requires Invariant(t) && SettleFinalizing(t)
    ensures t.q.updateIdx in t.agreed && t.agreed[t.q.updateIdx].Settle? && t.q.updateIdx + 1 == t.p.updateIdx
    ensures t.q.me == Other(t.p.me)
  {
    hide Idle, Handshake, SecretsFit, WatchFits, FlagsFit, BuffersFit, ClosedAreOld, CurrentWatched, ProfitsFit;
  }

  lemma ConfirmedPhase(s: System)
    requires Invariant(s) && s.p.state.SettledConfirmed?
    ensures if s.q.state.SettledAccepted? then SettleConfirming(s) else SettleFinalizing(s)
  {
    hide PartyFits, ProfitsFit, SameContract, DisclosureFits, AgreedFits, IdleFlight;
  }

  lemma ConfirmFinalizes(s: System)
    requires Invariant(s) && SettleConfirming(s)
    ensures var t := Step(s, false, Deliver); t.p == s.p && Invariant(t) && SettleFinalizing(t)
  {
    hide Invariant, PartyFits, AgreedFits, EndsFit, OnSettleConfirm, Advances, ProfitsFit;
    var t := Step(s, false, Deliver);
    StepKeeps(s, false, Deliver);
    InvariantSwaps(s);
    assert Swap(Swap(s)) == s;
    EndsOfInvariant(Swap(s));
    SettleConfirmFinds(Swap(s));
    OnSettleConfirmParty(s.q, s.agreed);
    assert t.p.state.SettledConfirmed? && !t.q.state.SettledAccepted?;
    ConfirmedPhase(t);
  }

  lemma PunishedOrRefused(q: Party, agreed: map<nat, Tx>, i: nat)
    requires PartyFits(q, agreed) && AgreedFits(agreed) && q.updateIdx < i <= INITIAL_UPDATE_NUMBER
    requires i in agreed && agreed[i].Buffer? && i - 1 in agreed && agreed[i - 1].Settle? && !q.state.RenewFinalized?
    ensures var c := SeeOnChain(q, agreed[i]);
            && (c.party.lifecycle.ClosedPunished? <==> i == INITIAL_UPDATE_NUMBER || agreed[i].offer.base == q.me)
            && (c.party.lifecycle.ClosedPunished? || c == NotClosed(q, Refused))
  {
    hide PartyFits, AgreedFits, SeeOnChain, RevocationComplete;
    FitMeansRevocationComplete(q, agreed);
    StoredRevocation(q, agreed, i);
    RevokedFinds(q, agreed, agreed[i]);
    RevokedSeen(q, agreed, agreed[i]);
    RecordedFlagIsRight(q.me, agreed, i);
    SeenError(q, agreed[i]);
  }

  lemma SeenError(p: Party, tx: Tx)
    requires p.lifecycle.Signed?
    ensures var c := SeeOnChain(p, tx); c.error.Some? ==> c == NotClosed(p, c.error.value)
  {
  }

  lemma StoredRevocation(q: Party, agreed: map<nat, Tx>, i: nat)
    requires RevocationComplete(q, agreed) && q.updateIdx < i <= INITIAL_UPDATE_NUMBER
    ensures i in agreed && agreed[i] in q.watched && q.watched[agreed[i]].Revoked? && i in q.counterSecrets
    ensures q.watched[agreed[i]].updateIdx == i
  {
  }

  // ---------- Closing collaboratively ----------

  /** A held close is accepted exactly when the offer added no inputs and a payout is above the dust limit: the accepting
      end rebuilds the transaction without the inputs, and the offered signature does not fit; and the network takes no
      transaction without an output. The profits recorded for an accepted close cancel out. */
  lemma CollaborativeCloseProfitsCancel(s: System)
    requires Reachable(s) && s.q.state.CollaborativeCloseOffered? && Holding(s.q)
    ensures s.p.state.CollaborativeCloseOffered? && Offering(s.p) && s.p.state.closeTx.CollaborativeClose?
    ensures var atQ := AcceptClose(s.q); var atP := SeeOnChain(s.p, s.p.state.closeTx);
            && (atQ.error.None? <==> s.p.state.closeTx.extraInputs == [] && HasOutput(s.p.state.closeTx))
            && (atQ.error.Some? ==> atQ == NotClosed(s.q, Refused))
            && (atQ.error.None? ==>
                  && atQ.broadcast == Some(s.p.state.closeTx) && atP.error.None?
                  && atP.party.lifecycle.CollaborativelyClosed? && atQ.party.lifecycle.CollaborativelyClosed?
                  && (Base(s.p).Established? ==>
                        var id := Base(s.p).contractId;
                        && ClosedIn(atP.party, id) && ClosedIn(atQ.party, id)
                        && atP.party.contracts[id].pnl == s.p.state.closeTx.closeOfferPayout - s.p.ownCollateral
                        && atQ.party.contracts[id].pnl == s.p.state.closeTx.closeAcceptPayout - s.q.ownCollateral
                        && atP.party.contracts[id].pnl + atQ.party.contracts[id].pnl == 0))
  {
    hide Reachable, Invariant, SeeOnChain, AcceptClose, PartyFits, Idle, CollaborativelyClosedEntry;
    ReachableInvariant(s);
    CloseHeld(s);
    CloseAcceptedAt(s.q);
    CloseSeenAt(s.p);
    if Base(s.p).Established? {
      var id, cp := Base(s.p).contractId, s.p.state.counterPayout;
      ClosedEntry(s.q, id, cp);
      ClosedEntry(s.p, id, s.p.contracts[id].contract.totalCollateral - cp);
    }
  }

  predicate HasOutput(tx: Tx)
    requires tx.CollaborativeClose?
  {
    SomeOutput(tx.closeOfferPayout, tx.closeAcceptPayout)
  }

  lemma CloseHeld(s: System)
    requires Invariant(s) && s.q.state.CollaborativeCloseOffered? && Holding(s.q)
    ensures s.p.state.CollaborativeCloseOffered? && Offering(s.p) && s.q.me == Other(s.p.me)
    ensures s.p.lifecycle.Signed? && s.q.lifecycle.Signed?
    ensures s.p.rollBack == Some(Base(s.p)) && s.q.rollBack == Some(Base(s.q))
    ensures Base(s.p).Established? <==> Base(s.q).Established?
    ensures Base(s.p).Established? ==>
              var id := Base(s.p).contractId;
              && Base(s.q).contractId == id && IsConfirmed(s.p, id) && IsConfirmed(s.q, id)
              && ContractFits(s.p, s.p.contracts[id].contract) && ContractFits(s.q, s.q.contracts[id].contract)
    ensures var tx := s.p.state.closeTx;
            && tx.CollaborativeClose? && tx in s.p.watched && s.p.watched[tx] == CollaborativeCloseTx
            && s.q.state.closeTx == tx.(extraInputs := []) && s.q.state.offerSig == Sig(s.p.me, tx)
            && s.p.state.counterPayout == s.q.state.counterPayout <= TotalCollateral(s.p)
            && tx.closeAcceptPayout == s.p.state.counterPayout && tx.closeOfferPayout == TotalCollateral(s.p) - s.p.state.counterPayout
            && TotalCollateral(s.q) == TotalCollateral(s.p) && s.q.ownCollateral == s.p.counterCollateral
  {
    hide SecretsFit, WatchFits, FlagsFit, BuffersFit, ClosedAreOld, CurrentWatched, ProfitsFit, AgreedFits, PointsFit, DisclosureFits,
         IsCloseTx;
    assert Idle(s);
  }

  lemma CloseAcceptedAt(q: Party)
    requires q.lifecycle.Signed? && q.state.CollaborativeCloseOffered? && q.rollBack.Some?
    requires q.rollBack.value.Established? ==> IsConfirmed(q, q.rollBack.value.contractId)
    ensures var c := AcceptClose(q);
            if !Takes(q) then c == NotClosed(q, Refused)
            else
              && c.error.None? && c.broadcast == Some(q.state.closeTx) && c.party.lifecycle.CollaborativelyClosed?
              && (q.rollBack.value.Established? ==>
                    var id := q.rollBack.value.contractId;
                    ClosedIn(c.party, id) && c.party.contracts[id] == CollaborativelyClosedEntry(q, id, q.state.counterPayout))
  {
    hide CollaborativelyClosedEntry;
    if q.rollBack.value.Established? {
      ClosedEntry(q, q.rollBack.value.contractId, q.state.counterPayout);
    }
  }

  lemma ClosedEntry(p: Party, id: ContractId, payout: int)
    requires IsConfirmed(p, id)
    ensures var e := CollaborativelyClosedEntry(p, id, payout);
            e.Closed? && e.pnl == payout - OwnCollateralIn(p.contracts[id].contract)
  {
  }

  lemma CloseSeenAt(p: Party)
    requires p.lifecycle.Signed? && p.state.CollaborativeCloseOffered? && p.rollBack.Some?
    requires p.state.closeTx in p.watched && p.watched[p.state.closeTx] == CollaborativeCloseTx
    requires p.rollBack.value.Established? ==>
               var id := p.rollBack.value.contractId;
               IsConfirmed(p, id) && p.contracts[id].contract.totalCollateral >= p.state.counterPayout
    ensures var c := SeeOnChain(p, p.state.closeTx);
            && c.error.None? && c.party.lifecycle.CollaborativelyClosed?
            && (p.rollBack.value.Established? ==>
                  var id := p.rollBack.value.contractId;
                  ClosedIn(c.party, id) && c.party.contracts[id] == CollaborativelyClosedEntry(p, id,
                    p.contracts[id].contract.totalCollateral - p.state.counterPayout))
  {
    hide CollaborativelyClosedEntry, PunishmentError;
    if p.rollBack.value.Established? {
      var id := p.rollBack.value.contractId;
      ClosedEntry(p, id, p.contracts[id].contract.totalCollateral - p.state.counterPayout);
    }
  }

  /** The accepting end holds the offered transaction exactly when there are no additional inputs, and broadcasts anything
      exactly when that transaction also has an output. */
  lemma CollaborativeCloseTxAgrees(s: System)
    requires Reachable(s) && s.q.state.CollaborativeCloseOffered? && Holding(s.q)
    ensures s.p.state.CollaborativeCloseOffered? && s.p.state.closeTx.CollaborativeClose?
    ensures s.q.state.closeTx == s.p.state.closeTx <==> s.p.state.closeTx.extraInputs == []
    ensures s.q.state.offerSig == Sig(s.p.me, s.q.state.closeTx) <==> s.q.state.closeTx == s.p.state.closeTx
    ensures AcceptClose(s.q).broadcast == if s.p.state.closeTx.extraInputs == [] && HasOutput(s.p.state.closeTx) then Some(s.p.state.closeTx) else None
  {
    hide Reachable, Invariant, PartyFits, Idle, AcceptClose;
    ReachableInvariant(s);
    CloseHeld(s);
    CloseAcceptedAt(s.q);
  }

  // ---------- What the counterparty can publish ----------

  /** The transaction that the other end can force close with is watched in every reachable state but one: until the
      signature for the new buffer arrives, the end that confirmed a renewal does not watch what its
      counterparty, which finalized it, can already publish. */
  lemma CounterpartyIsWatched(s: System, isInitiator: bool)
    requires Reachable(s)
    ensures var c := ForceClose(s.q, isInitiator);
            && c.broadcast.Some?
            && (c.broadcast.value in s.p.watched <==> !(s.p.state.RenewConfirmed? && s.q.state.RenewFinalized?))
  {
    hide Reachable, Invariant, PartyFits, AgreedFits, ForceClose;
    ReachableInvariant(s);
    EndsOfInvariant(s);
    ForceClosePublishes(s.q, s.agreed, isInitiator);
    PointsRelate(s);
    WatchedFrom(s.p, s.agreed);
    CloseTxOf(s.agreed, PointIdx(s.q));
  }

  lemma CloseTxOf(agreed: map<nat, Tx>, i: nat)
    requires AgreedFits(agreed) && i in agreed
    ensures IsCloseTx(agreed[i], i) && i <= INITIAL_UPDATE_NUMBER
  {
  }

  /** Where the points of the other end can be. */
  lemma PointsRelate(s: System)
    requires Invariant(s)
    ensures PointIdx(s.q) >= 0 && PointIdx(s.q) in s.agreed
    ensures || PointIdx(s.q) >= PointIdx(s.p)
            || (s.p.state.RenewConfirmed? && s.q.state.RenewFinalized? && PointIdx(s.q) == PointIdx(s.p) - 1
                && s.agreed[PointIdx(s.q)].Buffer?)
            || (s.p.state.SettledConfirmed? && PointIdx(s.q) == s.p.updateIdx - 1 && s.agreed[PointIdx(s.q)] == s.p.state.settleTx)
    ensures s.p.state.RenewConfirmed? && s.q.state.RenewFinalized? ==> PointIdx(s.q) == PointIdx(s.p) - 1
  {
    hide SecretsFit, WatchFits, FlagsFit, BuffersFit, ClosedAreOld, CurrentWatched, ProfitsFit, DisclosureFits, AgreedFits;
  }

  lemma WatchedFrom(p: Party, agreed: map<nat, Tx>)
    requires PartyFits(p, agreed)
    ensures forall i :: PointIdx(p) <= i <= INITIAL_UPDATE_NUMBER ==> i in agreed && agreed[i] in p.watched
    ensures p.state.SettledConfirmed? ==> p.state.settleTx in p.watched
    ensures forall tx :: tx in p.watched && tx.Buffer? ==> PointIdx(p) <= tx.offer.point.secret.index
  {
    hide SecretsFit, FlagsFit, ClosedAreOld, StableFits;
  }

  /** Seeing the current buffer transaction panics exactly in the states without a contract identifier; and the record
      of the closing channel names the contract of that buffer exactly when no renewal is under way. */
  lemma SeeingTheBuffer(s: System)
    requires Reachable(s) && Base(s.p).Established? && !s.p.state.RenewFinalized?
    ensures var tx := StableTx(Base(s.p)); var c := SeeOnChain(s.p, tx);
            && tx in s.p.watched && s.p.watched[tx] == BufferTx
            && (c.error == Some(Panic) <==>
                  || s.p.state.SettledOffered? || s.p.state.SettledReceived? || s.p.state.SettledAccepted?
                  || s.p.state.SettledConfirmed? || s.p.state.CollaborativeCloseOffered?)
            && (c.error != Some(Panic) ==>
                  && c.error.None? && c.party.state.Closing? && c.party.state.buffer == tx
                  && (c.party.state.contractId == Base(s.p).contractId <==> s.p.state.Established?))
  {
    hide Reachable, Invariant, AgreedFits, SecretsFit, WatchFits, FlagsFit, BuffersFit, ClosedAreOld;
    ReachableInvariant(s);
    EndsOfInvariant(s);
  }

  /** While a renewal is finalized, the new buffer is watched and named with the new contract. */
  lemma SeeingTheNewBuffer(s: System)
    requires Reachable(s) && s.p.state.RenewFinalized?
    ensures var tx := s.p.state.buffer; var c := SeeOnChain(s.p, tx);
            && tx in s.p.watched && s.p.watched[tx] == BufferTx
            && c.error.None? && c.party.state == Closing(tx, s.p.state.contractId, false)
  {
    hide Reachable, Invariant, AgreedFits, SecretsFit, WatchFits, FlagsFit, BuffersFit, ClosedAreOld;
    ReachableInvariant(s);
    EndsOfInvariant(s);
  }

  // ---------- What a close leaves in the record ----------

  /** The contract that is signed on the buffer transaction of an index. */
  function ContractAt(index: nat): ContractId {
    if index == INITIAL_UPDATE_NUMBER then Initial else Renewed(index + 1)
  }

  /** The record after an end published `tx`: a closing channel that names the contract of a published buffer, and no longer
      watches that transaction; or a channel closed by the one who initiated it. */
  predicate Published(p: Party, t: Party, tx: Tx, isInitiator: bool) {
    var unwound := p.(state := t.state, rollBack := if Stable(p.state) || p.state.RenewFinalized? then p.rollBack else None);
    if tx.Buffer? then
      && PointIdx(p) >= 0
      && t == unwound.(watched := p.watched - {tx})
      && t.state == Closing(tx, ContractAt(PointIdx(p)), isInitiator)
      && ContractAt(PointIdx(p)) == (if p.state.RenewFinalized? then p.state.contractId
                                     else if Base(p).Established? then Base(p).contractId else Initial)
      && IsConfirmed(p, ContractAt(PointIdx(p)))
    else
      && tx.Settle?
      && t == unwound.(watched := map[], lifecycle := if isInitiator then ClosedByUs else CounterClosed)
      && t.state == Base(p)
  }

  /** What a force close of a reachable end leaves behind. */
  lemma ForceCloseRecord(s: System, isInitiator: bool)
    requires Reachable(s)
    ensures var c := ForceClose(s.p, isInitiator);
            c.broadcast.Some? && Published(s.p, c.party, c.broadcast.value, isInitiator)
  {
    hide Reachable, Invariant, PartyFits, ForceClose, Published;
    ReachableInvariant(s);
    EndsOfInvariant(s);
    PartyForceCloses(s.p, s.agreed, isInitiator);
  }

  lemma PartyForceCloses(p: Party, agreed: map<nat, Tx>, isInitiator: bool)
    requires PartyFits(p, agreed)
    ensures var c := ForceClose(p, isInitiator);
            c.broadcast.Some? && Published(p, c.party, c.broadcast.value, isInitiator)
  {
    hide SecretsFit, WatchFits, FlagsFit, BuffersFit, ClosedAreOld, CurrentWatched, SettleFits, TxFits, ContractFits;
    if !Stable(p.state) && !p.state.RenewFinalized? {
      var u := p.(state := p.rollBack.value, rollBack := None);
      assert ForceClose(p, isInitiator) == ForceClose(u, isInitiator);
    }
  }

  /** How a channel ends that sees a watched transaction. */
  function EndOnSeeing(p: Party, t: TxType): Lifecycle {
    match t
    case BufferTx => Signed
    case Revoked(_, _, _, _) => ClosedPunished
    case CollaborativeCloseTx => CollaborativelyClosed
    case SettleTx => CounterClosed
    case Cet => if p.state.Closing? && !p.state.isInitiator then CounterClosed else ClosedByUs
  }

  /** When seeing a watched transaction goes well: a buffer needs a state with a contract, a punishment the secret that the recorded signature was
      encrypted for and a flag that leads to the counterparty's money, and a collaborative close over an established state a stored
      contract that can pay what was offered. */
  predicate Seeable(p: Party, tx: Tx)
    requires tx in p.watched
  {
    match p.watched[tx]
    case BufferTx => ContractIdOf(p.state).Some?
    case Revoked(index, ownSig, isOffer, kind) =>
      && index in p.counterSecrets
      && ownSig == AdaptorSig(p.me, tx, PublishKey(Other(p.me), Point(p.counterSecrets[index])))
      && PunishmentError(p.me, tx, isOffer, kind).None?
    case CollaborativeCloseTx =>
      p.rollBack.Some? && p.rollBack.value.Established? ==>
        && p.state.CollaborativeCloseOffered? && IsConfirmed(p, p.rollBack.value.contractId)
        && p.state.counterPayout <= p.contracts[p.rollBack.value.contractId].contract.totalCollateral
    case SettleTx => true
    case Cet => true
  }

  /** Seeing a watched transaction either fails and changes nothing, or ends the channel as its type says and drops the
      channel's registrations; a buffer leaves it closing, with the state it was seen in to roll back to. Secrets, points, index and
      all contracts but the one concerned stay. */
  lemma SeeingEndsTheChannel(p: Party, tx: Tx)
    requires p.lifecycle.Signed? && tx in p.watched
    ensures var c := SeeOnChain(p, tx); var t := c.party;
            && (c.error.None? <==> Seeable(p, tx))
            && (c.error.Some? ==> t == p)
            && c.broadcast.None?
            && (c.error.None? ==>
                  && t.lifecycle == EndOnSeeing(p, p.watched[tx])
                  && (if t.lifecycle.Signed? then t == p.(state := t.state, rollBack := Some(p.state)) && t.state.Closing? && !t.state.isInitiator
                      else t == p.(lifecycle := t.lifecycle, watched := map[], contracts := t.contracts)))
  {
    hide PunishmentError;
  }

  /** A CET that spends the buffer of a force close ends the channel for the one who initiated the close, and pre-closes
      exactly the contract of that buffer. */
  lemma CetEndsTheClose(s: System, isInitiator: bool, cet: Tx)
    requires Reachable(s) && ForceClose(s.p, isInitiator).broadcast.Some? && ForceClose(s.p, isInitiator).broadcast.value.Buffer?
    ensures PointIdx(s.p) >= 0
    ensures var closing := ForceClose(s.p, isInitiator).party; var id := ContractAt(PointIdx(s.p));
            var c := SeeOnChain(closing.(watched := closing.watched[cet := Cet]), cet);
            && c.error.None?
            && c.party.lifecycle == (if isInitiator then ClosedByUs else CounterClosed)
            && IsConfirmed(s.p, id) && c.party.contracts == s.p.contracts[id := PreClosed(s.p.contracts[id].contract)]
  {
    hide Reachable, Invariant, PartyFits, ForceClose, PunishmentError, Base, ContractAt;
    ForceCloseRecord(s, isInitiator);
    ReachableInvariant(s);
    EndsOfInvariant(s);
    HeldForClose(s.p, s.agreed);
  }
}
