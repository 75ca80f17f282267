/** Two honest parties joined by one FIFO message sequence in each direction, and the
    invariant of every state they can reach. */
module ChannelSystem {
  import opened Wrappers
  import opened ChannelTypes
  import opened ChannelTerms
  import opened ChannelHandlers

  /** The system seen from one end. `toP` and `toQ` are the messages in flight, oldest first.
      `agreed`, `disclosedP` and `disclosedQ` record history that no handler reads: the closing
      transaction of each update index, and the indices whose secret each end has sent. */
  datatype System = System(
    p: Party, q: Party, toP: seq<Msg>, toQ: seq<Msg>,
    agreed: map<nat, Tx>, disclosedP: set<nat>, disclosedQ: set<nat>)

  function Swap(s: System): System {
    System(s.q, s.p, s.toQ, s.toP, s.agreed, s.disclosedQ, s.disclosedP)
  }

  // ---------- Steps ----------

  datatype Action = Act(call: Call) | Deliver

  /** What the local caller respects: only the party that did not offer a renewal accepts it,
      and a collaborative close is offered only when no negotiation is pending. */
  predicate Permitted(p: Party, c: Call) {
    match c
    case CallAcceptRenew => p.state.RenewOffered? ==> !p.state.isOffer
    case CallOfferClose(_, _) => Stable(p.state)
    case _ => true
  }

  function Disclose(d: set<nat>, r: Reply): set<nat> {
    if r.Done? && r.msg.Some? && DisclosedBy(r.msg.value).Some?
    then d + {DisclosedBy(r.msg.value).value.index}
    else d
  }

  function Sent(r: Reply): seq<Msg> {
    if r.Done? && r.msg.Some? then [r.msg.value] else []
  }

  /** Record the transaction that a party can now close with. */
  function Record(agreed: map<nat, Tx>, p: Party): map<nat, Tx> {
    if Stable(p.state) then agreed[p.updateIdx := StableTx(p.state)]
    else if p.state.RenewFinalized? && p.updateIdx > 0 then agreed[p.updateIdx - 1 := p.state.buffer]
    else agreed
  }

  /** The system after `p` took in an outcome, having consumed the first `used` messages to it. */
  function After(s: System, o: Outcome, used: nat): System
    requires used <= |s.toP|
  {
    System(o.party, s.q, s.toP[used..], s.toQ + Sent(o.reply),
           Record(s.agreed, o.party), Disclose(s.disclosedP, o.reply), s.disclosedQ)
  }

  function StepP(s: System, a: Action): System {
    match a
    case Deliver => if s.toP == [] then s else After(s, Receive(s.p, s.toP[0]), 1)
    case Act(c) => if Permitted(s.p, c) then After(s, Perform(s.p, c), 0) else s
  }

  function Step(s: System, atP: bool, a: Action): System {
    if atP then StepP(s, a) else Swap(StepP(Swap(s), a))
  }

  function Run(s: System, steps: seq<(bool, Action)>): System
    decreases |steps|
  {
    if steps == [] then s
    else
      var last := steps[|steps| - 1];
      Step(Run(s, steps[..|steps| - 1]), last.0, last.1)
  }

  // ---------- The state of one party ----------

  /** The stable state a party is in or would roll back to. */
  function Base(p: Party): State {
    if Stable(p.state) || p.rollBack.None? then p.state else p.rollBack.value
  }

  predicate IsCloseTx(tx: Tx, index: nat) {
    && (tx.Buffer? || tx.Settle?)
    && tx.offer.revocationBase == Other(tx.offer.base)
    && tx.offer.point == PerUpdatePoint(tx.offer.base, index)
    && tx.accept == RevokeParams(Other(tx.offer.base), tx.offer.base, PerUpdatePoint(Other(tx.offer.base), index))
  }

  /** The payout of `w` in a settle transaction. */
  function PayoutIn(tx: Tx, w: Who): nat
    requires tx.Settle?
  {
    if tx.offer.base == w then tx.offerPayout else tx.acceptPayout
  }

  /** The signature that `signer` owes its counterparty on the closing transaction of an index. */
  function SigFor(signer: Who, tx: Tx, index: nat): AdaptorSig {
    AdaptorSig(signer, tx, PublishKey(Other(signer), PerUpdatePoint(Other(signer), index)))
  }

  predicate ContractFits(p: Party, c: Contract) {
    && OwnCollateralIn(c) == p.ownCollateral
    && c.offerCollateral + c.acceptCollateral == TotalCollateral(p)
    && c.totalCollateral == TotalCollateral(p)
  }

  function ContractAge(id: ContractId): nat {
    match id
    case Initial => INITIAL_UPDATE_NUMBER + 1
    case Renewed(i) => i
  }

  /** A stable state holds the closing transaction of its index with both signatures on it,
      and accounts for the whole collateral. */
  predicate StableFits(p: Party, s: State, index: nat) {
    && Stable(s)
    && IsCloseTx(StableTx(s), index)
    && StableOwnSig(s) == SigFor(p.me, StableTx(s), index)
    && StableCounterSig(s) == SigFor(Other(p.me), StableTx(s), index)
    && match s
       case Established(id, _, _, buffer, isOffer, total) =>
         && buffer.Buffer?
         && isOffer == (id.Renewed? || p.me == Offerer)
         && total == TotalCollateral(p)
         && index + 1 == ContractAge(id)
         && (id.Initial? <==> index == INITIAL_UPDATE_NUMBER)
       case Settled(tx, _, _, ownPayout, counterPayout) =>
         && tx.Settle?
         && ownPayout == PayoutIn(tx, p.me)
         && counterPayout == PayoutIn(tx, Other(p.me))
         && ownPayout + counterPayout == TotalCollateral(p)
  }

  function StableCounterSig(s: State): AdaptorSig
    requires Stable(s)
  {
    match s
    case Established(_, counter, _, _, _, _) => counter
    case Settled(_, counter, _, _, _) => counter
  }

  /** Until its renewal is finalized, an established contract is confirmed in the store. */
  predicate BaseStored(p: Party) {
    Base(p).Established? && !p.state.RenewFinalized? ==>
      IsConfirmed(p, Base(p).contractId) && ContractFits(p, p.contracts[Base(p).contractId].contract)
  }

  /** The settle transaction under negotiation. */
  predicate SettleFits(p: Party, offerer: Who, tx: Tx, ownNext: Point, counterNext: Point, ownPayout: nat, counterPayout: nat) {
    && p.updateIdx > 0
    && ownNext == PerUpdatePoint(p.me, p.updateIdx - 1)
    && counterNext == PerUpdatePoint(Other(p.me), p.updateIdx - 1)
    && ownPayout + counterPayout == TotalCollateral(p)
    && SomeOutput(ownPayout, counterPayout)
    && tx == Settle(RevokeParams(offerer, Other(offerer), PerUpdatePoint(offerer, p.updateIdx - 1)),
                    RevokeParams(Other(offerer), offerer, PerUpdatePoint(Other(offerer), p.updateIdx - 1)),
                    if offerer == p.me then ownPayout else counterPayout,
                    if offerer == p.me then counterPayout else ownPayout)
    && tx in p.watched && p.watched[tx] == SettleTx
  }

  /** The buffer transaction under negotiation. */
  predicate RenewalFits(p: Party, offerer: Who, id: ContractId, buffer: Tx) {
    && p.updateIdx > 0
    && id == Renewed(p.updateIdx)
    && buffer == RenewalBuffer(offerer, Other(offerer),
                               PerUpdatePoint(offerer, p.updateIdx - 1), PerUpdatePoint(Other(offerer), p.updateIdx - 1))
  }

  predicate EntryFits(p: Party, id: ContractId, offerer: Who) {
    && id in p.contracts
    && !p.contracts[id].Closed?
    && p.contracts[id].contract.id == id
    && p.contracts[id].contract.isOfferParty == (offerer == p.me)
    && ContractFits(p, p.contracts[id].contract)
  }

  /** What a negotiating state carries besides its rollback. */
  predicate NegotiationFits(p: Party) {
    match p.state
    case SettledOffered(_, next) =>
      p.updateIdx > 0 && Base(p).Established? && next == PerUpdatePoint(p.me, p.updateIdx - 1)
    case SettledReceived(ownPayout, counterPayout, counterNext) =>
      && p.updateIdx > 0 && Base(p).Established?
      && ownPayout + counterPayout == TotalCollateral(p)
      && counterNext == PerUpdatePoint(Other(p.me), p.updateIdx - 1)
    case SettledAccepted(counterNext, ownNext, ownSig, tx, ownPayout, counterPayout) =>
      && Base(p).Established?
      && SettleFits(p, Other(p.me), tx, ownNext, counterNext, ownPayout, counterPayout)
      && ownSig == SigFor(p.me, tx, p.updateIdx - 1)
    case SettledConfirmed(tx, counterSig, counterNext, ownNext, ownSig, ownPayout, counterPayout) =>
      && Base(p).Established?
      && SettleFits(p, p.me, tx, ownNext, counterNext, ownPayout, counterPayout)
      && ownSig == SigFor(p.me, tx, p.updateIdx - 1)
      && counterSig == SigFor(Other(p.me), tx, p.updateIdx - 1)
    case RenewOffered(id, _, next, isOffer) =>
      var offerer := if isOffer then p.me else Other(p.me);
      && p.updateIdx > 0 && id == Renewed(p.updateIdx)
      && next == PerUpdatePoint(offerer, p.updateIdx - 1)
      && EntryFits(p, id, offerer) && p.contracts[id].Offered?
      && (isOffer ==> ToWire(p.contracts[id].contract.terms).Some?)
    case RenewAccepted(id, offerPoint, acceptPoint, buffer, _) =>
      && RenewalFits(p, Other(p.me), id, buffer)
      && offerPoint == buffer.offer.point && acceptPoint == buffer.accept.point
      && EntryFits(p, id, Other(p.me)) && p.contracts[id].Accepted?
    case RenewConfirmed(id, offerPoint, acceptPoint, buffer, ownSig, ownPayout, total) =>
      && RenewalFits(p, p.me, id, buffer)
      && offerPoint == buffer.offer.point && acceptPoint == buffer.accept.point
      && ownSig == SigFor(p.me, buffer, p.updateIdx - 1)
      && total == TotalCollateral(p)
      && EntryFits(p, id, p.me) && p.contracts[id].Confirmed?
    case RenewFinalized(id, prevPoint, buffer, counterSig, ownSig, _, total) =>
      && RenewalFits(p, Other(p.me), id, buffer)
      && prevPoint == PerUpdatePoint(Other(p.me), p.updateIdx)
      && ownSig == SigFor(p.me, buffer, p.updateIdx - 1)
      && counterSig == SigFor(Other(p.me), buffer, p.updateIdx - 1)
      && total == TotalCollateral(p)
      && EntryFits(p, id, Other(p.me)) && p.contracts[id].Confirmed?
      && buffer in p.watched && p.watched[buffer] == BufferTx
    case CollaborativeCloseOffered(counterPayout, sig, tx) =>
      && counterPayout <= TotalCollateral(p)
      && tx.CollaborativeClose?
      && tx.offerer == sig.signer
      && tx.closeAcceptPayout == counterPayout
      && tx.closeOfferPayout == TotalCollateral(p) - counterPayout
      && (if sig.signer == p.me then sig.tx == tx && tx in p.watched && p.watched[tx] == CollaborativeCloseTx
          else tx.extraInputs == [])
    case _ => false
  }

  /** The index whose per-update points are current: a finalized renewal is one ahead. */
  function PointIdx(p: Party): int {
    if p.state.RenewFinalized? then p.updateIdx - 1 else p.updateIdx
  }

  /** The lowest index whose transaction is watched as revoked. */
  function RevokedFrom(p: Party): nat {
    if p.state.RenewFinalized? then p.updateIdx else p.updateIdx + 1
  }

  predicate PointsFit(p: Party) {
    && PointIdx(p) >= 0
    && p.ownPoint == PerUpdatePoint(p.me, PointIdx(p))
    && p.counterPoint == PerUpdatePoint(Other(p.me), PointIdx(p))
  }

  /** Exactly the counterparty's secrets above the update index were provided. */
  ghost predicate SecretsFit(p: Party) {
    && (forall i :: i in p.counterSecrets <==> p.updateIdx < i <= INITIAL_UPDATE_NUMBER)
    && (forall i :: i in p.counterSecrets ==> p.counterSecrets[i] == Secret(Other(p.me), i))
  }

  /** The offer flag that is recorded with a revoked transaction. A renewal writes `false`; a settlement copies
      the flag of the established state, which is right for the setup and always `true` after a renewal. */
  predicate RecordedFlag(me: Who, index: nat, replacement: Tx) {
    replacement.Settle? && (index < INITIAL_UPDATE_NUMBER || me == Offerer)
  }

  /** The registration of a revoked transaction, but for its offer flag. */
  predicate RevokedEntry(p: Party, tx: Tx, index: nat, t: TxType) {
    && t.Revoked?
    && t.updateIdx == index
    && t.ownSig == SigFor(p.me, tx, index)
    && t.kind == (if tx.Buffer? then RevokedBuffer else RevokedSettle)
  }

  predicate FlagAt(p: Party, agreed: map<nat, Tx>, i: nat) {
    && i > 0 && i in agreed && i - 1 in agreed
    && agreed[i] in p.watched && p.watched[agreed[i]].Revoked?
    && p.watched[agreed[i]].isOffer == RecordedFlag(p.me, i, agreed[i - 1])
  }

  /** The flag of every revoked transaction is the one that its replacement made the program write. */
  ghost predicate FlagsFit(p: Party, agreed: map<nat, Tx>) {
    forall i: nat :: RevokedFrom(p) <= i <= INITIAL_UPDATE_NUMBER ==> FlagAt(p, agreed, i)
  }

  /** Exactly the agreed transactions of revoked indices are watched as revoked. */
  ghost predicate WatchFits(p: Party, agreed: map<nat, Tx>) {
    && (forall i :: RevokedFrom(p) <= i <= INITIAL_UPDATE_NUMBER ==>
          i in agreed && agreed[i] in p.watched && RevokedEntry(p, agreed[i], i, p.watched[agreed[i]]))
    && (forall tx :: tx in p.watched && p.watched[tx].Revoked? ==>
          var i := p.watched[tx].updateIdx;
          RevokedFrom(p) <= i <= INITIAL_UPDATE_NUMBER && i in agreed && tx == agreed[i])
  }

  /** The transaction a counterparty can close with is registered. */
  predicate CurrentWatched(p: Party, agreed: map<nat, Tx>) {
    !p.state.RenewFinalized? ==>
      && p.updateIdx in agreed
      && agreed[p.updateIdx] in p.watched
      && p.watched[agreed[p.updateIdx]] == (if agreed[p.updateIdx].Buffer? then BufferTx else SettleTx)
  }

  /** No buffer transaction is watched before the points have moved to its index. */
  ghost predicate BuffersFit(p: Party) {
    forall tx :: tx in p.watched && tx.Buffer? ==> PointIdx(p) <= tx.offer.point.secret.index
  }

  predicate ClosedIn(p: Party, id: ContractId) {
    id in p.contracts && p.contracts[id].Closed?
  }

  ghost predicate ClosedAreOld(p: Party) {
    forall id :: ClosedIn(p, id) ==> p.updateIdx < ContractAge(id)
  }

  ghost predicate AgreedFits(agreed: map<nat, Tx>) {
    && (forall i :: i in agreed ==> i <= INITIAL_UPDATE_NUMBER && IsCloseTx(agreed[i], i))
    && INITIAL_UPDATE_NUMBER in agreed && agreed[INITIAL_UPDATE_NUMBER].Buffer?
    && agreed[INITIAL_UPDATE_NUMBER].offer.base == Offerer
  }

  predicate TxFits(p: Party, agreed: map<nat, Tx>) {
    && p.updateIdx in agreed && Stable(Base(p))
    && agreed[p.updateIdx] == StableTx(Base(p))
    && (p.state.RenewFinalized? ==> PointIdx(p) in agreed && agreed[PointIdx(p)] == p.state.buffer)
  }

  ghost predicate PartyFits(p: Party, agreed: map<nat, Tx>) {
    && p.lifecycle.Signed?
    && p.updateIdx <= INITIAL_UPDATE_NUMBER
    && (!Stable(p.state) ==> p.rollBack.Some? && NegotiationFits(p))
    && StableFits(p, Base(p), p.updateIdx)
    && BaseStored(p)
    && TxFits(p, agreed)
    && PointsFit(p)
    && SecretsFit(p)
    && WatchFits(p, agreed)
    && CurrentWatched(p, agreed)
    && FlagsFit(p, agreed)
    && BuffersFit(p)
    && ClosedAreOld(p)
  }

  /** Exactly the indices a party has left behind, and the one it is leaving, are disclosed. */
  ghost predicate DisclosureFits(p: Party, disclosed: set<nat>) {
    forall i :: i in disclosed <==>
      || p.updateIdx < i <= INITIAL_UPDATE_NUMBER
      || (i == p.updateIdx && (p.state.SettledConfirmed? || p.state.RenewFinalized?))
  }

  // ---------- Both parties together ----------

  predicate Opposite(p: Party, q: Party) {
    && q.me == Other(p.me)
    && q.ownCollateral == p.counterCollateral
    && q.counterCollateral == p.ownCollateral
  }

  /** Recorded profits cancel out. `ahead` names the contract that `q` alone has closed, with payout `payoutQ`. */
  ghost predicate ProfitsFit(p: Party, q: Party, ahead: Option<ContractId>, payoutQ: int) {
    && (forall id :: ahead != Some(id) ==>
          && (ClosedIn(p, id) <==> ClosedIn(q, id))
          && (ClosedIn(p, id) && ClosedIn(q, id) ==> p.contracts[id].pnl + q.contracts[id].pnl == 0))
    && (ahead.Some? ==>
          && !ClosedIn(p, ahead.value)
          && ClosedIn(q, ahead.value)
          && q.contracts[ahead.value].pnl == payoutQ - q.ownCollateral)
  }

  predicate SameContract(p: Party, q: Party) {
    Base(p).Established? && Base(q).Established? ==> Base(p).contractId == Base(q).contractId
  }

  predicate Offering(p: Party) {
    match p.state
    case SettledOffered(_, _) => true
    case RenewOffered(id, _, _, isOffer) => isOffer && id in p.contracts && ToWire(p.contracts[id].contract.terms).Some?
    case CollaborativeCloseOffered(_, sig, _) => sig.signer == p.me
    case _ => false
  }

  function OfferOf(p: Party): Msg
    requires Offering(p)
  {
    match p.state
    case SettledOffered(counterPayout, next) => SettleOfferMsg(counterPayout, next)
    case RenewOffered(id, counterPayout, next, _) =>
      RenewOfferMsg(id, counterPayout, next, ToWire(p.contracts[id].contract.terms).value)
    case CollaborativeCloseOffered(counterPayout, sig, _) => CloseOfferMsg(counterPayout, sig)
  }

  predicate Holding(p: Party) {
    match p.state
    case SettledReceived(_, _, _) => true
    case RenewOffered(_, _, _, isOffer) => !isOffer
    case CollaborativeCloseOffered(_, sig, _) => sig.signer != p.me
    case _ => false
  }

  /** The held offer is the one that was sent. */
  predicate Holds(p: Party, offer: Msg) {
    match p.state
    case SettledReceived(ownPayout, _, counterNext) => offer == SettleOfferMsg(ownPayout, counterNext)
    case RenewOffered(id, counterPayout, next, _) =>
      && id in p.contracts && offer.RenewOfferMsg? && offer == RenewOfferMsg(id, counterPayout, next, offer.terms)
      && FromWire(offer.terms, TotalCollateral(p)) == Ok(p.contracts[id].contract.terms)
      && p.contracts[id].contract.flags == 0
    case CollaborativeCloseOffered(counterPayout, sig, _) => offer == CloseOfferMsg(counterPayout, sig)
    case _ => false
  }

  /** A party that is stable or has an offer in flight sends nothing else. */
  function OwnOffer(p: Party): seq<Msg> {
    if Offering(p) then [OfferOf(p)] else []
  }

  predicate RejectIn(msgs: seq<Msg>) {
    msgs == [RejectMsg] || (|msgs| == 2 && (msgs[0] == RejectMsg || msgs[1] == RejectMsg))
  }

  predicate OfferIn(msgs: seq<Msg>) {
    msgs != [] && msgs != [RejectMsg]
  }

  /** From `p` to `q` there are at most one offer, the one `p` awaits an answer to, and one
      rejection, of the offer `q` awaits an answer to. */
  predicate IdleFlight(p: Party, q: Party, toP: seq<Msg>, toQ: seq<Msg>) {
    && (toQ == [] || toQ == [RejectMsg]
        || (Offering(p) && (toQ == [OfferOf(p)] || toQ == [OfferOf(p), RejectMsg] || toQ == [RejectMsg, OfferOf(p)])))
    && (RejectIn(toQ) ==> Offering(q) && !q.state.CollaborativeCloseOffered? && !OfferIn(toP) && !Holding(p))
    && (Holding(p) ==> Offering(q) && !OfferIn(toP) && Holds(p, OfferOf(q)))
  }

  /** No update is past its offer. */
  ghost predicate Idle(s: System) {
    && s.p.updateIdx == s.q.updateIdx
    && (Stable(s.p.state) || Offering(s.p) || Holding(s.p))
    && (Stable(s.q.state) || Offering(s.q) || Holding(s.q))
    && SameContract(s.p, s.q)
    && ProfitsFit(s.p, s.q, None, 0)
    && IdleFlight(s.p, s.q, s.toP, s.toQ)
    && IdleFlight(s.q, s.p, s.toQ, s.toP)
  }

  // The handshakes, with `p` the party that offered.

  ghost predicate SettleAccepting(s: System) {
    && s.p.updateIdx == s.q.updateIdx
    && s.p.state.SettledOffered? && s.q.state.SettledAccepted?
    && s.p.state.counterPayout == s.q.state.ownPayout
    && SameContract(s.p, s.q) && ProfitsFit(s.p, s.q, None, 0)
    && s.toQ == [] && s.toP == [SettleAcceptMsg(s.q.state.ownNextPoint, s.q.state.ownSettleSig)]
  }

  ghost predicate SettleConfirming(s: System) {
    && s.p.updateIdx == s.q.updateIdx
    && s.p.state.SettledConfirmed? && s.q.state.SettledAccepted?
    && s.p.state.settleTx == s.q.state.settleTx
    && SameContract(s.p, s.q) && ProfitsFit(s.p, s.q, None, 0)
    && s.toP == [] && s.toQ == [SettleConfirmMsg(Secret(s.p.me, s.p.updateIdx), s.p.state.ownSettleSig)]
  }

  ghost predicate SettleFinalizing(s: System) {
    && s.p.updateIdx == s.q.updateIdx + 1
    && s.p.state.SettledConfirmed? && (Stable(s.q.state) || Offering(s.q))
    && Base(s.q).Settled? && StableTx(Base(s.q)) == s.p.state.settleTx
    && Base(s.p).Established?
    && ProfitsFit(s.p, s.q, Some(Base(s.p).contractId), Base(s.q).ownPayout)
    && s.toQ == [] && s.toP == [SettleFinalizeMsg(Secret(s.q.me, s.p.updateIdx))] + OwnOffer(s.q)
  }

  /** The offerer of a renewal can confirm it: the payout fits, and both ends sign for the same contract. */
  predicate Confirmable(p: Party) {
    && p.state.RenewOffered? && p.state.contractId in p.contracts
    && p.state.counterPayout <= TotalCollateral(p)
    && Shareable(p.contracts[p.state.contractId].contract)
  }

  /** A renewal that cannot be confirmed makes the offerer fail on the acceptance. */
  ghost predicate RenewAccepting(s: System) {
    && s.p.updateIdx == s.q.updateIdx
    && s.p.state.RenewOffered? && s.p.state.isOffer && s.q.state.RenewAccepted?
    && s.p.state.contractId == s.q.state.contractId
    && s.p.state.counterPayout == s.q.state.ownPayout
    && TermsTravelled(s.p, s.q, s.q.state.contractId)
    && SameContract(s.p, s.q) && ProfitsFit(s.p, s.q, None, 0)
    && s.toQ == []
    && (|| s.toP == [RenewAcceptMsg(s.q.state.acceptPoint, RenewalSigs(s.q, s.q.state.contractId, s.q.state.buffer))]
        || (s.toP == [] && !Confirmable(s.p)))
  }

  predicate Signable(p: Party, id: ContractId) {
    id in p.contracts && TermsToSign(p.contracts[id].contract).Ok?
  }

  predicate TermsTravelled(p: Party, q: Party, id: ContractId) {
    && id in p.contracts && Signable(q, id)
    && Travelled(p.contracts[id].contract, q.contracts[id].contract)
  }

  predicate SignedAlike(p: Party, q: Party, id: ContractId) {
    && Signable(p, id) && Signable(q, id)
    && TermsToSign(p.contracts[id].contract) == TermsToSign(q.contracts[id].contract)
  }

  function RenewalSigs(p: Party, id: ContractId, buffer: Tx): ContractSigs
    requires Signable(p, id)
  {
    ContractSigs(p.me, TermsToSign(p.contracts[id].contract).value, buffer)
  }

  ghost predicate RenewConfirming(s: System) {
    && s.p.updateIdx == s.q.updateIdx
    && s.p.state.RenewConfirmed? && s.q.state.RenewAccepted?
    && s.p.state.contractId == s.q.state.contractId
    && s.p.state.ownPayout + s.q.state.ownPayout == TotalCollateral(s.p)
    && SignedAlike(s.p, s.q, s.q.state.contractId)
    && SameContract(s.p, s.q) && ProfitsFit(s.p, s.q, None, 0)
    && s.toP == []
    && s.toQ == [RenewConfirmMsg(s.p.state.offerBufferSig, RenewalSigs(s.p, s.p.state.contractId, s.p.state.buffer))]
  }

  ghost predicate RenewFinalizing(s: System) {
    && s.p.updateIdx == s.q.updateIdx
    && s.p.state.RenewConfirmed? && s.q.state.RenewFinalized?
    && s.p.state.contractId == s.q.state.contractId
    && s.p.state.ownPayout + s.q.state.ownPayout == TotalCollateral(s.p)
    && SameContract(s.p, s.q)
    && ProfitsFit(s.p, s.q, if Base(s.p).Established? then Some(Base(s.p).contractId) else None, s.q.state.ownPayout)
    && s.toQ == [] && s.toP == [RenewFinalizeMsg(Secret(s.q.me, s.q.updateIdx), s.q.state.acceptBufferSig)]
  }

  ghost predicate RenewRevoking(s: System) {
    && s.q.updateIdx == s.p.updateIdx + 1
    && s.q.state.RenewFinalized? && (Stable(s.p.state) || Offering(s.p))
    && Base(s.p).Established? && Base(s.p).contractId == s.q.state.contractId
    && ProfitsFit(s.p, s.q, None, 0)
    && s.toP == [] && s.toQ == [RenewRevokeMsg(Secret(s.p.me, s.q.updateIdx))] + OwnOffer(s.p)
  }

  ghost predicate Handshake(s: System) {
    || SettleAccepting(s) || SettleConfirming(s) || SettleFinalizing(s)
    || RenewAccepting(s) || RenewConfirming(s) || RenewFinalizing(s) || RenewRevoking(s)
  }

  /** Everything that holds of each end, whatever the phase. */
  ghost predicate EndsFit(s: System) {
    && Opposite(s.p, s.q)
    && AgreedFits(s.agreed)
    && PartyFits(s.p, s.agreed) && PartyFits(s.q, s.agreed)
    && DisclosureFits(s.p, s.disclosedP) && DisclosureFits(s.q, s.disclosedQ)
    && (forall i :: i in s.agreed ==> PointIdx(s.p) <= i || PointIdx(s.q) <= i)
  }

  ghost predicate Invariant(s: System) {
    && EndsFit(s)
    && (Idle(s) || Handshake(s) || Handshake(Swap(s)))
  }
}
