/** What each channel operation computes, as a function of the stored record and the message.

    Every function follows one operation of the channel manager together with the channel
    updater function it drives. A failing operation discards its working copy of the channel;
    only changes already made to the chain monitor survive. */
module ChannelHandlers {
  import opened Wrappers
  import opened ChannelTypes
  import opened ChannelTerms

  function Fail(p: Party, e: Error): Outcome {
    Outcome(p, Failed(e))
  }

  function Quiet(p: Party): Outcome {
    Outcome(p, Done(None))
  }

  function Say(p: Party, m: Msg): Outcome {
    Outcome(p, Done(Some(m)))
  }

  // ---------- Pieces shared by several operations ----------

  /** `get_settle_tx_and_adaptor_sig`. Building a settle transaction panics when neither payout is above the dust limit: the
      remaining fee is divided by the number of outputs. The caller passes the base points of the offer and of the
      accept party; whether it is the offer party is read off the presence of a signature to check. */
  function SettleTxAndSig(
    me: Who, ownNext: Point, offerBase: Who, acceptBase: Who, counterNext: Point,
    offerPayout: nat, acceptPayout: nat, counterSig: Option<AdaptorSig>): Result<(Tx, AdaptorSig), Error>
  {
    var isOffer := counterSig.Some?;
    var offer := RevokeParams(offerBase, acceptBase, if isOffer then ownNext else counterNext);
    var accept := RevokeParams(acceptBase, offerBase, if isOffer then counterNext else ownNext);
    var tx := Settle(offer, accept, offerPayout, acceptPayout);
    if !SomeOutput(offerPayout, acceptPayout) then Err(Panic)
    else if counterSig.Some? && !VerifyAdaptor(tx, Other(me), offer.PublishPk(), counterSig.value) then
      Err(InvalidParameters)
    else
      Ok((tx, AdaptorSig(me, tx, if isOffer then accept.PublishPk() else offer.PublishPk())))
  }

  /** `create_renewal_channel_transactions`, as far as the buffer transaction goes. */
  function RenewalBuffer(offerBase: Who, acceptBase: Who, offerPoint: Point, acceptPoint: Point): Tx {
    Buffer(RevokeParams(offerBase, acceptBase, offerPoint), RevokeParams(acceptBase, offerBase, acceptPoint))
  }

  /** `CounterpartyCommitmentSecrets::provide_secret`: indices arrive one below the other. */
  function ProvideSecret(secrets: map<nat, Secret>, index: nat, secret: Secret): Option<map<nat, Secret>> {
    if index !in secrets && (index == INITIAL_UPDATE_NUMBER || index + 1 in secrets)
    then Some(secrets[index := secret])
    else None
  }

  /** `get_contract_in_state!(.., Confirmed, ..)`. */
  predicate IsConfirmed(p: Party, id: ContractId) {
    id in p.contracts && p.contracts[id].Confirmed?
  }

  predicate IsOffered(p: Party, id: ContractId) {
    id in p.contracts && p.contracts[id].Offered?
  }

  function OwnCollateralIn(c: Contract): nat {
    if c.isOfferParty then c.offerCollateral else c.acceptCollateral
  }

  /** `get_collaboratively_closed_contract` with the local party's payout. */
  function CollaborativelyClosedEntry(p: Party, id: ContractId, ownPayout: int): ContractEntry
    requires IsConfirmed(p, id)
  {
    var c := p.contracts[id].contract;
    Closed(c, ownPayout - OwnCollateralIn(c))
  }

  /** The transaction a stable state closes with, and the local signature on it. */
  function StableTx(s: State): Tx
    requires Stable(s)
  {
    match s
    case Established(_, _, _, buffer, _, _) => buffer
    case Settled(tx, _, _, _, _) => tx
  }

  function StableOwnSig(s: State): AdaptorSig
    requires Stable(s)
  {
    match s
    case Established(_, _, own, _, _, _) => own
    case Settled(_, _, own, _, _) => own
  }

  function RevokedKind(s: State): RevokedTxType {
    if s.Established? then RevokedBuffer else RevokedSettle
  }

  // ---------- Settling ----------

  function OfferSettle(p: Party, counterPayout: nat): Outcome {
    if !p.lifecycle.Signed? then Fail(p, InvalidState)
    else if !p.state.Established? then Fail(p, InvalidState)
    else if p.updateIdx == 0 then Fail(p, Panic)
    else
      var next := PerUpdatePoint(p.me, p.updateIdx - 1);
      Say(p.(state := SettledOffered(counterPayout, next), rollBack := Some(p.state)),
          SettleOfferMsg(counterPayout, next))
  }

  function OnSettleOffer(p: Party, counterPayout: nat, nextPoint: Point): Outcome {
    if !p.lifecycle.Signed? then Fail(p, InvalidState)
    else if p.state.SettledOffered? then Say(p, RejectMsg)
    else if !p.state.Established? then Fail(p, InvalidState)
    else if counterPayout > TotalCollateral(p) then Fail(p, InvalidState)
    else
      Quiet(p.(state := SettledReceived(counterPayout, TotalCollateral(p) - counterPayout, nextPoint),
               rollBack := Some(p.state)))
  }

  function AcceptSettle(p: Party): Outcome {
    if !p.lifecycle.Signed? then Fail(p, InvalidState)
    else match p.state
      case SettledReceived(ownPayout, counterPayout, counterNext) =>
        if p.updateIdx == 0 then Fail(p, Panic)
        else if ownPayout > TotalCollateral(p) then Fail(p, Panic)
        else
          var ownNext := PerUpdatePoint(p.me, p.updateIdx - 1);
          (match SettleTxAndSig(p.me, ownNext, Other(p.me), p.me, counterNext,
                                TotalCollateral(p) - ownPayout, ownPayout, None)
           case Err(e) => Fail(p, e)
           case Ok(built) =>
             Say(p.(watched := p.watched[built.0 := SettleTx],
                    state := SettledAccepted(counterNext, ownNext, built.1, built.0, ownPayout, counterPayout)),
                 SettleAcceptMsg(ownNext, built.1)))
      case _ => Fail(p, InvalidState)
  }

  function OnSettleAccept(p: Party, counterNext: Point, counterSig: AdaptorSig): Outcome {
    if !p.lifecycle.Signed? then Fail(p, InvalidState)
    else match p.state
      case SettledOffered(counterPayout, ownNext) =>
        if counterPayout > TotalCollateral(p) then Fail(p, Panic)
        else
          (match SettleTxAndSig(p.me, ownNext, p.me, Other(p.me), counterNext,
                                TotalCollateral(p) - counterPayout, counterPayout, Some(counterSig))
           case Err(e) => Fail(p, e)
           case Ok(built) =>
             Say(p.(watched := p.watched[built.0 := SettleTx],
                    state := SettledConfirmed(built.0, counterSig, counterNext, ownNext, built.1,
                                              TotalCollateral(p) - counterPayout, counterPayout)),
                 SettleConfirmMsg(Secret(p.me, p.updateIdx), built.1)))
      case _ => Fail(p, InvalidState)
  }

  function OnSettleConfirm(p: Party, prevSecret: Secret, counterSig: AdaptorSig): Outcome {
    if !p.lifecycle.Signed? then Fail(p, InvalidState)
    else if !p.state.SettledAccepted? then Fail(p, InvalidState)
    else if !(p.rollBack.Some? && p.rollBack.value.Established?) then Fail(p, InvalidState)
    else
      var SettledAccepted(counterNext, ownNext, ownSig, tx, ownPayout, counterPayout) := p.state;
      var prev := p.rollBack.value;
      if !VerifyAdaptor(tx, Other(p.me), PublishKey(p.me, ownNext), counterSig) then Fail(p, InvalidParameters)
      else if Point(prevSecret) != p.counterPoint then Fail(p, InvalidParameters)
      else
        var provided := ProvideSecret(p.counterSecrets, p.updateIdx, prevSecret);
        if provided.None? then Fail(p, InvalidParameters)
        else if p.updateIdx == 0 then Fail(p, Panic)
        else
          var watched := p.watched[prev.buffer := Revoked(p.updateIdx, prev.ownBufferSig, prev.isOffer, RevokedBuffer)];
          if !IsConfirmed(p, prev.contractId) then Fail(p.(watched := watched), InvalidState)
          else
            Say(p.(counterSecrets := provided.value, ownPoint := ownNext, counterPoint := counterNext,
                   state := Settled(tx, counterSig, ownSig, ownPayout, counterPayout), rollBack := None,
                   updateIdx := p.updateIdx - 1, watched := watched,
                   contracts := p.contracts[prev.contractId := CollaborativelyClosedEntry(p, prev.contractId, ownPayout)]),
                SettleFinalizeMsg(Secret(p.me, p.updateIdx)))
  }

  function OnSettleFinalize(p: Party, prevSecret: Secret): Outcome {
    if !p.lifecycle.Signed? then Fail(p, InvalidState)
    else if !p.state.SettledConfirmed? then Fail(p, InvalidState)
    else if !(p.rollBack.Some? && p.rollBack.value.Established?) then Fail(p, InvalidState)
    else
      var SettledConfirmed(tx, counterSig, counterNext, ownNext, ownSig, ownPayout, counterPayout) := p.state;
      var prev := p.rollBack.value;
      if Point(prevSecret) != p.counterPoint then Fail(p, InvalidParameters)
      else
        var provided := ProvideSecret(p.counterSecrets, p.updateIdx, prevSecret);
        if provided.None? then Fail(p, InvalidParameters)
        else if p.updateIdx == 0 then Fail(p, Panic)
        else
          var watched := p.watched[prev.buffer := Revoked(p.updateIdx, prev.ownBufferSig, prev.isOffer, RevokedBuffer)];
          if !IsConfirmed(p, prev.contractId) then Fail(p.(watched := watched), InvalidState)
          else
            Quiet(p.(counterSecrets := provided.value, ownPoint := ownNext, counterPoint := counterNext,
                     state := Settled(tx, counterSig, ownSig, ownPayout, counterPayout), rollBack := None,
                     updateIdx := p.updateIdx - 1, watched := watched,
                     contracts := p.contracts[prev.contractId := CollaborativelyClosedEntry(p, prev.contractId, ownPayout)]))
  }

  function RejectSettle(p: Party): Outcome {
    if !p.lifecycle.Signed? then Fail(p, InvalidState)
    else if !p.state.SettledReceived? then Fail(p, InvalidState)
    else if p.rollBack.None? then Fail(p, Panic)
    else Say(p.(state := p.rollBack.value, rollBack := None), RejectMsg)
  }

  // ---------- Renewing ----------

  /** The collateral checks at the head of `renew_offer`. */
  function RenewalCheck(s: State, offerCollateral: nat, acceptCollateral: nat): Option<Error> {
    match s
    case Established(_, _, _, _, _, total) =>
      if total != acceptCollateral + offerCollateral then Some(InvalidParameters) else None
    case Settled(_, _, _, ownPayout, counterPayout) =>
      if offerCollateral != ownPayout || acceptCollateral != counterPayout then Some(InvalidParameters) else None
    case _ => Some(InvalidState)
  }

  function OfferRenew(p: Party, counterPayout: nat, input: ContractInput): Outcome {
    if !p.lifecycle.Signed? then Fail(p, InvalidState)
    else
      var check := RenewalCheck(p.state, input.offerCollateral, input.acceptCollateral);
      if check.Some? then Fail(p, check.value)
      else if p.updateIdx == 0 then Fail(p, Panic)
      else if ToWire(input.terms).None? then Fail(p, Panic)
      else
        var id := Renewed(p.updateIdx);
        var contract := Contract(id, true, input.terms, input.flags, input.offerCollateral + input.acceptCollateral,
                                 p.ownCollateral, p.counterCollateral);
        var next := PerUpdatePoint(p.me, p.updateIdx - 1);
        Say(p.(state := RenewOffered(id, counterPayout, next, true), rollBack := Some(p.state),
               contracts := p.contracts[id := Offered(contract)]),
            RenewOfferMsg(id, counterPayout, next, ToWire(input.terms).value))
  }

  function OnRenewOffer(p: Party, id: ContractId, counterPayout: nat, nextPoint: Point, terms: WireTerms): Outcome {
    if !p.lifecycle.Signed? then Fail(p, InvalidState)
    else if p.state.RenewOffered? && p.state.isOffer then Say(p, RejectMsg)
    else if !Stable(p.state) then Fail(p, InvalidState)
    else if FromWire(terms, TotalCollateral(p)).Err? then Fail(p, FromWire(terms, TotalCollateral(p)).error)
    else
      var contract := Contract(id, false, FromWire(terms, TotalCollateral(p)).value, 0, TotalCollateral(p),
                               p.counterCollateral, p.ownCollateral);
      Quiet(p.(state := RenewOffered(id, counterPayout, nextPoint, false), rollBack := Some(p.state),
               contracts := p.contracts[id := Offered(contract)]))
  }

  function AcceptRenew(p: Party): Outcome {
    if !p.lifecycle.Signed? then Fail(p, InvalidState)
    else
      var id := ContractIdOf(p.state);
      if id.None? || !IsOffered(p, id.value) then Fail(p, InvalidState)
      else if !p.state.RenewOffered? then Fail(p, InvalidState)
      else if p.updateIdx == 0 then Fail(p, Panic)
      else
        var RenewOffered(_, counterPayout, offerNext, _) := p.state;
        var contract := p.contracts[id.value].contract;
        var acceptPoint := PerUpdatePoint(p.me, p.updateIdx - 1);
        var buffer := RenewalBuffer(Other(p.me), p.me, offerNext, acceptPoint);
        var signed := TermsToSign(contract);
        if signed.Err? then Fail(p, signed.error)
        else
          Say(p.(state := RenewAccepted(id.value, offerNext, acceptPoint, buffer, counterPayout),
                 contracts := p.contracts[id.value := Accepted(contract)]),
              RenewAcceptMsg(acceptPoint, ContractSigs(p.me, signed.value, buffer)))
  }

  function OnRenewAccept(p: Party, acceptPoint: Point, sigs: ContractSigs): Outcome {
    if !p.lifecycle.Signed? then Fail(p, InvalidState)
    else
      var id := ContractIdOf(p.state);
      if id.None? || !IsOffered(p, id.value) then Fail(p, InvalidState)
      else if !p.state.RenewOffered? then Fail(p, InvalidState)
      else
        var RenewOffered(_, counterPayout, offerPoint, _) := p.state;
        var contract := p.contracts[id.value].contract;
        if counterPayout > contract.totalCollateral then Fail(p, Panic)
        else
          var buffer := RenewalBuffer(p.me, Other(p.me), offerPoint, acceptPoint);
          var signed := TermsToSign(contract);
          if signed.Err? then Fail(p, signed.error)
          else if !SigsVerify(sigs, Other(p.me), contract, buffer) then Fail(p, InvalidParameters)
          else
            var ownSig := AdaptorSig(p.me, buffer, PublishKey(Other(p.me), acceptPoint));
            Say(p.(state := RenewConfirmed(id.value, offerPoint, acceptPoint, buffer, ownSig,
                                           contract.totalCollateral - counterPayout, contract.totalCollateral),
                   contracts := p.contracts[id.value := Confirmed(contract)]),
                RenewConfirmMsg(ownSig, ContractSigs(p.me, signed.value, buffer)))
  }

  /** The store after the contract that a renewal replaces was closed with the given payout. */
  function CloseReplaced(p: Party, prev: State, ownPayout: int): map<ContractId, ContractEntry>
    requires prev.Established? ==> IsConfirmed(p, prev.contractId)
  {
    if prev.Established?
    then p.contracts[prev.contractId := CollaborativelyClosedEntry(p, prev.contractId, ownPayout)]
    else p.contracts
  }

  /** The registration that replaces the watch on the renewed transaction. */
  function RevokedByRenewal(p: Party, prev: State): TxType
    requires Stable(prev)
  {
    Revoked(p.updateIdx, StableOwnSig(prev), false, RevokedKind(prev))
  }

  function OnRenewConfirm(p: Party, bufferSig: AdaptorSig, sigs: ContractSigs): Outcome {
    if !p.lifecycle.Signed? then Fail(p, InvalidState)
    else if !p.state.RenewAccepted? then Fail(p, InvalidState)
    else if p.rollBack.None? then Fail(p, Panic)
    else
      var RenewAccepted(id, offerPoint, acceptPoint, buffer, ownPayout) := p.state;
      var prev := p.rollBack.value;
      if !Stable(prev) || (prev.Established? && !IsConfirmed(p, prev.contractId)) then Fail(p, InvalidState)
      else if !(id in p.contracts && p.contracts[id].Accepted?) then Fail(p, InvalidState)
      else
        var contract := p.contracts[id].contract;
        if !VerifyAdaptor(buffer, Other(p.me), PublishKey(p.me, acceptPoint), bufferSig) then Fail(p, InvalidParameters)
        else if !SigsVerify(sigs, Other(p.me), contract, buffer) then Fail(p, InvalidParameters)
        else
          var ownSig := AdaptorSig(p.me, buffer, PublishKey(Other(p.me), offerPoint));
          Say(p.(counterPoint := offerPoint, ownPoint := acceptPoint,
                 state := RenewFinalized(id, p.counterPoint, buffer, bufferSig, ownSig, ownPayout, TotalCollateral(p)),
                 watched := p.watched[buffer := BufferTx][StableTx(prev) := RevokedByRenewal(p, prev)],
                 contracts := CloseReplaced(p.(contracts := p.contracts[id := Confirmed(contract)]), prev, ownPayout)),
              RenewFinalizeMsg(Secret(p.me, p.updateIdx), ownSig))
  }

  function OnRenewFinalize(p: Party, prevSecret: Secret, bufferSig: AdaptorSig): Outcome {
    if !p.lifecycle.Signed? then Fail(p, InvalidState)
    else if !p.state.RenewConfirmed? then Fail(p, InvalidState)
    else if p.rollBack.None? then Fail(p, Panic)
    else
      var RenewConfirmed(id, offerPoint, acceptPoint, buffer, ownSig, ownPayout, total) := p.state;
      var prev := p.rollBack.value;
      if !Stable(prev) || (prev.Established? && !IsConfirmed(p, prev.contractId)) then Fail(p, InvalidState)
      else if !VerifyAdaptor(buffer, Other(p.me), PublishKey(p.me, offerPoint), bufferSig) then Fail(p, InvalidParameters)
      else if Point(prevSecret) != p.counterPoint then Fail(p, InvalidParameters)
      else
        var provided := ProvideSecret(p.counterSecrets, p.updateIdx, prevSecret);
        if provided.None? then Fail(p, InvalidParameters)
        else if p.updateIdx == 0 then Fail(p, Panic)
        else
          Say(p.(counterSecrets := provided.value, ownPoint := offerPoint, counterPoint := acceptPoint,
                 state := Established(id, bufferSig, ownSig, buffer, true, total), rollBack := None,
                 updateIdx := p.updateIdx - 1,
                 watched := p.watched[StableTx(prev) := RevokedByRenewal(p, prev)][buffer := BufferTx],
                 contracts := CloseReplaced(p, prev, ownPayout)),
              RenewRevokeMsg(Secret(p.me, p.updateIdx)))
  }

  function OnRenewRevoke(p: Party, prevSecret: Secret): Outcome {
    if !p.lifecycle.Signed? then Fail(p, InvalidState)
    else if !p.state.RenewFinalized? then Fail(p, InvalidState)
    else
      var RenewFinalized(id, prevOfferPoint, buffer, offerSig, acceptSig, _, total) := p.state;
      if Point(prevSecret) != prevOfferPoint then Fail(p, InvalidParameters)
      else
        var provided := ProvideSecret(p.counterSecrets, p.updateIdx, prevSecret);
        if provided.None? then Fail(p, InvalidParameters)
        else if p.updateIdx == 0 then Fail(p, Panic)
        else
          Quiet(p.(counterSecrets := provided.value, updateIdx := p.updateIdx - 1,
                   state := Established(id, offerSig, acceptSig, buffer, true, total)))
  }

  function RejectRenew(p: Party): Outcome {
    if !p.lifecycle.Signed? then Fail(p, InvalidState)
    else
      var id := ContractIdOf(p.state);
      if id.None? || !IsOffered(p, id.value) then Fail(p, InvalidState)
      else if !p.state.RenewOffered? || p.state.isOffer then Fail(p, InvalidState)
      else if p.rollBack.None? then Fail(p, Panic)
      else Say(p.(state := p.rollBack.value, rollBack := None,
                  contracts := p.contracts[id.value := Rejected(p.contracts[id.value].contract)]), RejectMsg)
  }

  // ---------- Rejection ----------

  function OnReject(p: Party): Outcome {
    if !p.lifecycle.Signed? then Fail(p, InvalidState)
    else match p.state
      case RenewOffered(id, _, _, isOffer) =>
        if !IsOffered(p, id) then Fail(p, InvalidState)
        else if !isOffer then Fail(p, InvalidState)
        else if p.rollBack.None? then Fail(p, Panic)
        else Quiet(p.(state := p.rollBack.value, rollBack := None,
                      contracts := p.contracts[id := Rejected(p.contracts[id].contract)]))
      case SettledOffered(_, _) =>
        if p.rollBack.None? then Fail(p, Panic)
        else Quiet(p.(state := p.rollBack.value, rollBack := None))
      case Established(_, _, _, _, _, _) => Quiet(p)
      case Settled(_, _, _, _, _) => Quiet(p)
      case _ => Fail(p, InvalidState)
  }

  // ---------- Collaborative close ----------

  function OfferClose(p: Party, counterPayout: nat, extraInputs: seq<nat>): Outcome {
    if !p.lifecycle.Signed? then Fail(p, InvalidState)
    else if counterPayout > TotalCollateral(p) then Fail(p, InvalidParameters)
    else
      var tx := CollaborativeClose(p.me, TotalCollateral(p) - counterPayout, counterPayout, extraInputs);
      Say(p.(state := CollaborativeCloseOffered(counterPayout, Sig(p.me, tx), tx), rollBack := Some(p.state),
             watched := p.watched[tx := CollaborativeCloseTx]),
          CloseOfferMsg(counterPayout, Sig(p.me, tx)))
  }

  function OnCloseOffer(p: Party, counterPayout: nat, closeSig: Sig): Outcome {
    if !p.lifecycle.Signed? then Fail(p, InvalidState)
    else if counterPayout > TotalCollateral(p) then Fail(p, InvalidParameters)
    else if p.rollBack.Some? then Fail(p, InvalidState)
    else
      var tx := CollaborativeClose(Other(p.me), TotalCollateral(p) - counterPayout, counterPayout, []);
      Quiet(p.(state := CollaborativeCloseOffered(counterPayout, closeSig, tx), rollBack := Some(p.state)))
  }

  // ---------- Dispatch ----------

  /** Receiving a message. */
  function Receive(p: Party, m: Msg): Outcome {
    match m
    case SettleOfferMsg(cp, np) => OnSettleOffer(p, cp, np)
    case SettleAcceptMsg(np, sig) => OnSettleAccept(p, np, sig)
    case SettleConfirmMsg(s, sig) => OnSettleConfirm(p, s, sig)
    case SettleFinalizeMsg(s) => OnSettleFinalize(p, s)
    case RenewOfferMsg(id, cp, np, d) => OnRenewOffer(p, id, cp, np, d)
    case RenewAcceptMsg(np, sigs) => OnRenewAccept(p, np, sigs)
    case RenewConfirmMsg(sig, sigs) => OnRenewConfirm(p, sig, sigs)
    case RenewFinalizeMsg(s, sig) => OnRenewFinalize(p, s, sig)
    case RenewRevokeMsg(s) => OnRenewRevoke(p, s)
    case RejectMsg => OnReject(p)
    case CloseOfferMsg(cp, sig) => OnCloseOffer(p, cp, sig)
  }

  /** The calls a user of the channel can make without closing it. */
  datatype Call =
    | CallOfferSettle(counterPayout: nat)
    | CallAcceptSettle
    | CallRejectSettle
    | CallOfferRenew(counterPayout: nat, input: ContractInput)
    | CallAcceptRenew
    | CallRejectRenew
    | CallOfferClose(counterPayout: nat, extraInputs: seq<nat>)

  function Perform(p: Party, c: Call): Outcome {
    match c
    case CallOfferSettle(cp) => OfferSettle(p, cp)
    case CallAcceptSettle => AcceptSettle(p)
    case CallRejectSettle => RejectSettle(p)
    case CallOfferRenew(cp, input) => OfferRenew(p, cp, input)
    case CallAcceptRenew => AcceptRenew(p)
    case CallRejectRenew => RejectRenew(p)
    case CallOfferClose(cp, inputs) => OfferClose(p, cp, inputs)
  }
}
