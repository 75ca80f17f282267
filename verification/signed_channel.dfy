/** One party's channel record as the program updates it: in place, one field after the other.

    Each method follows a channel manager operation and the updater function it drives. Its contract
    says that the record and the reply are exactly those of the specification function in
    `ChannelHandlers` or `ChannelClose`, about which the protocol theorems are proved. The fields are
    written once the last check has passed, because a failing operation discards its working copy;
    `watched` belongs to the chain monitor and keeps what was written to it before the failure. */
module SignedChannels {
  import opened Wrappers
  import opened ChannelTypes
  import opened ChannelTerms
  import opened ChannelHandlers
  import opened ChannelClose

  class SignedChannel {
    const me: Who
    const ownCollateral: nat
    const counterCollateral: nat
    var lifecycle: Lifecycle
    var state: State
    var rollBack: Option<State>
    var updateIdx: nat
    var ownPoint: Point
    var counterPoint: Point
    var counterSecrets: map<nat, Secret>
    var watched: map<Tx, TxType>
    var contracts: map<ContractId, ContractEntry>

    function View(): Party
      reads this
    {
      Party(me, ownCollateral, counterCollateral, lifecycle, state, rollBack, updateIdx,
            ownPoint, counterPoint, counterSecrets, watched, contracts)
    }

    constructor (p: Party)
      ensures View() == p
    {
      me, ownCollateral, counterCollateral := p.me, p.ownCollateral, p.counterCollateral;
      lifecycle, state, rollBack, updateIdx := p.lifecycle, p.state, p.rollBack, p.updateIdx;
      ownPoint, counterPoint, counterSecrets := p.ownPoint, p.counterPoint, p.counterSecrets;
      watched, contracts := p.watched, p.contracts;
    }

    // ---------- Settling ----------

    method SettleOffer(counterPayout: nat) returns (r: Reply)
      modifies this
      ensures Outcome(View(), r) == OfferSettle(old(View()), counterPayout)
    {
      if !lifecycle.Signed? || !state.Established? { return Failed(InvalidState); }
      if updateIdx == 0 { return Failed(Panic); }
      var next := PerUpdatePoint(me, updateIdx - 1);
      rollBack := Some(state);
      state := SettledOffered(counterPayout, next);
      return Done(Some(SettleOfferMsg(counterPayout, next)));
    }

    method OnSettleOfferReceived(counterPayout: nat, nextPoint: Point) returns (r: Reply)
      modifies this
      ensures Outcome(View(), r) == OnSettleOffer(old(View()), counterPayout, nextPoint)
    {
      if !lifecycle.Signed? { return Failed(InvalidState); }
      // Both parties offered at once: each rejects the other's offer and waits for the rejection of its own.
      if state.SettledOffered? { return Done(Some(RejectMsg)); }
      if !state.Established? { return Failed(InvalidState); }
      var total := ownCollateral + counterCollateral;
      if counterPayout > total { return Failed(InvalidState); }
      rollBack := Some(state);
      state := SettledReceived(counterPayout, total - counterPayout, nextPoint);
      return Done(None);
    }

    method SettleAccept() returns (r: Reply)
      modifies this
      ensures Outcome(View(), r) == AcceptSettle(old(View()))
    {
      if !lifecycle.Signed? || !state.SettledReceived? { return Failed(InvalidState); }
      if updateIdx == 0 { return Failed(Panic); }
      var total := ownCollateral + counterCollateral;
      var own, counter, counterNext := state.ownPayout, state.counterPayout, state.counterNextPoint;
      if own > total { return Failed(Panic); }
      var ownNext := PerUpdatePoint(me, updateIdx - 1);
      var built := SettleTxAndSig(me, ownNext, Other(me), me, counterNext, total - own, own, None);
      if built.Err? { return Failed(built.error); }
      var (tx, sig) := built.value;
      watched := watched[tx := SettleTx];
      state := SettledAccepted(counterNext, ownNext, sig, tx, own, counter);
      return Done(Some(SettleAcceptMsg(ownNext, sig)));
    }

    method OnSettleAcceptReceived(counterNext: Point, counterSig: AdaptorSig) returns (r: Reply)
      modifies this
      ensures Outcome(View(), r) == OnSettleAccept(old(View()), counterNext, counterSig)
    {
      if !lifecycle.Signed? || !state.SettledOffered? { return Failed(InvalidState); }
      var total := ownCollateral + counterCollateral;
      var counter, ownNext := state.counterPayout, state.nextPoint;
      if counter > total { return Failed(Panic); }
      var own := total - counter;
      var built := SettleTxAndSig(me, ownNext, me, Other(me), counterNext, own, counter, Some(counterSig));
      if built.Err? { return Failed(built.error); }
      var (tx, sig) := built.value;
      watched := watched[tx := SettleTx];
      state := SettledConfirmed(tx, counterSig, counterNext, ownNext, sig, own, counter);
      return Done(Some(SettleConfirmMsg(Secret(me, updateIdx), sig)));
    }

    /** The steps that a confirmed and a finalized settlement share: store the counterparty's secret,
        watch the old buffer as revoked, close the contract, and move to the next update. */
    method Settle(prev: State, prevSecret: Secret, tx: Tx, counterSig: AdaptorSig, ownSig: AdaptorSig,
                  counterNext: Point, ownNext: Point, own: nat, counter: nat) returns (failure: Option<Error>)
      requires prev.Established?
      modifies this
      ensures var p := old(View());
              if Point(prevSecret) != p.counterPoint || ProvideSecret(p.counterSecrets, p.updateIdx, prevSecret).None?
              then failure == Some(InvalidParameters) && View() == p
              else if p.updateIdx == 0 then failure == Some(Panic) && View() == p
              else
                var watching := p.watched[prev.buffer := Revoked(p.updateIdx, prev.ownBufferSig, prev.isOffer, RevokedBuffer)];
                if !IsConfirmed(p, prev.contractId) then failure == Some(InvalidState) && View() == p.(watched := watching)
                else
                  && failure == None
                  && View() == p.(
                       counterSecrets := ProvideSecret(p.counterSecrets, p.updateIdx, prevSecret).value,
                       ownPoint := ownNext, counterPoint := counterNext,
                       state := Settled(tx, counterSig, ownSig, own, counter), rollBack := None,
                       updateIdx := p.updateIdx - 1, watched := watching,
                       contracts := p.contracts[prev.contractId := CollaborativelyClosedEntry(p, prev.contractId, own)])
    {
      if Point(prevSecret) != counterPoint { return Some(InvalidParameters); }
      var provided := ProvideSecret(counterSecrets, updateIdx, prevSecret);
      if provided.None? { return Some(InvalidParameters); }
      if updateIdx == 0 { return Some(Panic); }
      watched := watched[prev.buffer := Revoked(updateIdx, prev.ownBufferSig, prev.isOffer, RevokedBuffer)];
      if prev.contractId !in contracts || !contracts[prev.contractId].Confirmed? { return Some(InvalidState); }
      CloseContract(prev.contractId, own);
      counterSecrets := provided.value;
      ownPoint, counterPoint := ownNext, counterNext;
      state := Settled(tx, counterSig, ownSig, own, counter);
      rollBack := None;
      updateIdx := updateIdx - 1;
      return None;
    }

    method CloseContract(id: ContractId, ownPayout: int)
      requires IsConfirmed(View(), id)
      modifies this
      ensures View() == old(View()).(contracts := old(contracts)[id := CollaborativelyClosedEntry(old(View()), id, ownPayout)])
    {
      var c := contracts[id].contract;
      var collateral := if c.isOfferParty then c.offerCollateral else c.acceptCollateral;
      contracts := contracts[id := Closed(c, ownPayout - collateral)];
    }

    method OnSettleConfirmReceived(prevSecret: Secret, counterSig: AdaptorSig) returns (r: Reply)
      modifies this
      ensures Outcome(View(), r) == OnSettleConfirm(old(View()), prevSecret, counterSig)
    {
      if !lifecycle.Signed? || !state.SettledAccepted? { return Failed(InvalidState); }
      if rollBack.None? || !rollBack.value.Established? { return Failed(InvalidState); }
      var SettledAccepted(counterNext, ownNext, ownSig, tx, own, counter) := state;
      if !VerifyAdaptor(tx, Other(me), PublishKey(me, ownNext), counterSig) { return Failed(InvalidParameters); }
      var disclosed := Secret(me, updateIdx);
      var failure := Settle(rollBack.value, prevSecret, tx, counterSig, ownSig, counterNext, ownNext, own, counter);
      if failure.Some? { return Failed(failure.value); }
      return Done(Some(SettleFinalizeMsg(disclosed)));
    }

    method OnSettleFinalizeReceived(prevSecret: Secret) returns (r: Reply)
      modifies this
      ensures Outcome(View(), r) == OnSettleFinalize(old(View()), prevSecret)
    {
      if !lifecycle.Signed? || !state.SettledConfirmed? { return Failed(InvalidState); }
      if rollBack.None? || !rollBack.value.Established? { return Failed(InvalidState); }
      var SettledConfirmed(tx, counterSig, counterNext, ownNext, ownSig, own, counter) := state;
      var failure := Settle(rollBack.value, prevSecret, tx, counterSig, ownSig, counterNext, ownNext, own, counter);
      if failure.Some? { return Failed(failure.value); }
      return Done(None);
    }

    method RollBack()
      requires rollBack.Some?
      modifies this
      ensures View() == old(View()).(state := old(rollBack).value, rollBack := None)
    {
      state := rollBack.value;
      rollBack := None;
    }

    method SettleReject() returns (r: Reply)
      modifies this
      ensures Outcome(View(), r) == RejectSettle(old(View()))
    {
      if !lifecycle.Signed? || !state.SettledReceived? { return Failed(InvalidState); }
      if rollBack.None? { return Failed(Panic); }
      RollBack();
      return Done(Some(RejectMsg));
    }

    // ---------- Renewing ----------

    method RenewOffer(counterPayout: nat, input: ContractInput) returns (r: Reply)
      modifies this
      ensures Outcome(View(), r) == OfferRenew(old(View()), counterPayout, input)
    {
      if !lifecycle.Signed? { return Failed(InvalidState); }
      match state {
        case Established(_, _, _, _, _, total) =>
          if total != input.acceptCollateral + input.offerCollateral { return Failed(InvalidParameters); }
        case Settled(_, _, _, own, counter) =>
          if input.offerCollateral != own || input.acceptCollateral != counter { return Failed(InvalidParameters); }
        case _ => return Failed(InvalidState);
      }
      if updateIdx == 0 { return Failed(Panic); }
      var sent := ToWire(input.terms);
      if sent.None? { return Failed(Panic); }
      var id := ContractId.Renewed(updateIdx);
      var next := PerUpdatePoint(me, updateIdx - 1);
      rollBack := Some(state);
      state := RenewOffered(id, counterPayout, next, true);
      contracts := contracts[id := Offered(Contract(id, true, input.terms, input.flags,
                                                    input.offerCollateral + input.acceptCollateral,
                                                    ownCollateral, counterCollateral))];
      return Done(Some(RenewOfferMsg(id, counterPayout, next, sent.value)));
    }

    method OnRenewOfferReceived(id: ContractId, counterPayout: nat, nextPoint: Point, terms: WireTerms) returns (r: Reply)
      modifies this
      ensures Outcome(View(), r) == OnRenewOffer(old(View()), id, counterPayout, nextPoint, terms)
    {
      if !lifecycle.Signed? { return Failed(InvalidState); }
      if state.RenewOffered? && state.isOffer { return Done(Some(RejectMsg)); }
      if !Stable(state) { return Failed(InvalidState); }
      var total := ownCollateral + counterCollateral;
      var received := FromWire(terms, total);
      if received.Err? { return Failed(received.error); }
      rollBack := Some(state);
      state := RenewOffered(id, counterPayout, nextPoint, false);
      // The flags are not sent.
      contracts := contracts[id := Offered(Contract(id, false, received.value, 0, total, counterCollateral, ownCollateral))];
      return Done(None);
    }

    method RenewAccept() returns (r: Reply)
      modifies this
      ensures Outcome(View(), r) == AcceptRenew(old(View()))
    {
      if !lifecycle.Signed? { return Failed(InvalidState); }
      var found := ContractIdOf(state);
      if found.None? || found.value !in contracts || !contracts[found.value].Offered? { return Failed(InvalidState); }
      if !state.RenewOffered? { return Failed(InvalidState); }
      if updateIdx == 0 { return Failed(Panic); }
      var id, contract := found.value, contracts[found.value].contract;
      var payout, offerNext := state.counterPayout, state.offerNextPoint;
      var acceptPoint := PerUpdatePoint(me, updateIdx - 1);
      var buffer := RenewalBuffer(Other(me), me, offerNext, acceptPoint);
      var signed := TermsToSign(contract);
      if signed.Err? { return Failed(signed.error); }
      contracts := contracts[id := Accepted(contract)];
      state := RenewAccepted(id, offerNext, acceptPoint, buffer, payout);
      return Done(Some(RenewAcceptMsg(acceptPoint, ContractSigs(me, signed.value, buffer))));
    }

    method OnRenewAcceptReceived(acceptPoint: Point, sigs: ContractSigs) returns (r: Reply)
      modifies this
      ensures Outcome(View(), r) == OnRenewAccept(old(View()), acceptPoint, sigs)
    {
      if !lifecycle.Signed? { return Failed(InvalidState); }
      var found := ContractIdOf(state);
      if found.None? || found.value !in contracts || !contracts[found.value].Offered? { return Failed(InvalidState); }
      if !state.RenewOffered? { return Failed(InvalidState); }
      var id, contract := found.value, contracts[found.value].contract;
      var counterPayout, offerPoint := state.counterPayout, state.offerNextPoint;
      if counterPayout > contract.totalCollateral { return Failed(Panic); }
      var buffer := RenewalBuffer(me, Other(me), offerPoint, acceptPoint);
      var signed := TermsToSign(contract);
      if signed.Err? { return Failed(signed.error); }
      if !SigsVerify(sigs, Other(me), contract, buffer) { return Failed(InvalidParameters); }
      var ownSig := AdaptorSig(me, buffer, PublishKey(Other(me), acceptPoint));
      contracts := contracts[id := Confirmed(contract)];
      state := RenewConfirmed(id, offerPoint, acceptPoint, buffer, ownSig,
                              contract.totalCollateral - counterPayout, contract.totalCollateral);
      return Done(Some(RenewConfirmMsg(ownSig, ContractSigs(me, signed.value, buffer))));
    }

    method OnRenewConfirmReceived(bufferSig: AdaptorSig, sigs: ContractSigs) returns (r: Reply)
      modifies this
      ensures Outcome(View(), r) == OnRenewConfirm(old(View()), bufferSig, sigs)
    {
      hide TermsToSign, RefundOutputs, VerifyAdaptor;
      if !lifecycle.Signed? || !state.RenewAccepted? { return Failed(InvalidState); }
      if rollBack.None? { return Failed(Panic); }
      var prev := rollBack.value;
      var RenewAccepted(id, offerPoint, acceptPoint, buffer, own) := state;
      if !Stable(prev) || (prev.Established? && !IsConfirmed(View(), prev.contractId)) { return Failed(InvalidState); }
      if id !in contracts || !contracts[id].Accepted? { return Failed(InvalidState); }
      var contract := contracts[id].contract;
      if !VerifyAdaptor(buffer, Other(me), PublishKey(me, acceptPoint), bufferSig) { return Failed(InvalidParameters); }
      if !SigsVerify(sigs, Other(me), contract, buffer) { return Failed(InvalidParameters); }
      var ownSig := AdaptorSig(me, buffer, PublishKey(Other(me), offerPoint));
      var disclosed := Secret(me, updateIdx);
      // The points move to the next update here, the index only once the revocation arrives.
      state := RenewFinalized(id, counterPoint, buffer, bufferSig, ownSig, own, ownCollateral + counterCollateral);
      counterPoint, ownPoint := offerPoint, acceptPoint;
      watched := watched[buffer := BufferTx];
      watched := watched[StableTx(prev) := Revoked(updateIdx, StableOwnSig(prev), false, RevokedKind(prev))];
      contracts := contracts[id := Confirmed(contract)];
      if prev.Established? { CloseContract(prev.contractId, own); }
      return Done(Some(RenewFinalizeMsg(disclosed, ownSig)));
    }

    method OnRenewFinalizeReceived(prevSecret: Secret, bufferSig: AdaptorSig) returns (r: Reply)
      modifies this
      ensures Outcome(View(), r) == OnRenewFinalize(old(View()), prevSecret, bufferSig)
    {
      hide VerifyAdaptor, ProvideSecret;
      if !lifecycle.Signed? || !state.RenewConfirmed? { return Failed(InvalidState); }
      if rollBack.None? { return Failed(Panic); }
      var prev := rollBack.value;
      var RenewConfirmed(id, offerPoint, acceptPoint, buffer, ownSig, own, total) := state;
      if !Stable(prev) || (prev.Established? && !IsConfirmed(View(), prev.contractId)) { return Failed(InvalidState); }
      if !VerifyAdaptor(buffer, Other(me), PublishKey(me, offerPoint), bufferSig) { return Failed(InvalidParameters); }
      if Point(prevSecret) != counterPoint { return Failed(InvalidParameters); }
      var provided := ProvideSecret(counterSecrets, updateIdx, prevSecret);
      if provided.None? { return Failed(InvalidParameters); }
      if updateIdx == 0 { return Failed(Panic); }
      var disclosed := Secret(me, updateIdx);
      counterSecrets := provided.value;
      watched := watched[StableTx(prev) := Revoked(updateIdx, StableOwnSig(prev), false, RevokedKind(prev))];
      watched := watched[buffer := BufferTx];
      if prev.Established? { CloseContract(prev.contractId, own); }
      state := Established(id, bufferSig, ownSig, buffer, true, total);
      rollBack := None;
      ownPoint, counterPoint := offerPoint, acceptPoint;
      updateIdx := updateIdx - 1;
      return Done(Some(RenewRevokeMsg(disclosed)));
    }

    method OnRenewRevokeReceived(prevSecret: Secret) returns (r: Reply)
      modifies this
      ensures Outcome(View(), r) == OnRenewRevoke(old(View()), prevSecret)
    {
      if !lifecycle.Signed? || !state.RenewFinalized? { return Failed(InvalidState); }
      var RenewFinalized(id, prevOfferPoint, buffer, offerSig, acceptSig, _, total) := state;
      if Point(prevSecret) != prevOfferPoint { return Failed(InvalidParameters); }
      var provided := ProvideSecret(counterSecrets, updateIdx, prevSecret);
      if provided.None? { return Failed(InvalidParameters); }
      if updateIdx == 0 { return Failed(Panic); }
      counterSecrets := provided.value;
      state := Established(id, offerSig, acceptSig, buffer, true, total);
      updateIdx := updateIdx - 1;
      return Done(None);
    }

    method RenewReject() returns (r: Reply)
      modifies this
      ensures Outcome(View(), r) == RejectRenew(old(View()))
    {
      if !lifecycle.Signed? { return Failed(InvalidState); }
      var found := ContractIdOf(state);
      if found.None? || found.value !in contracts || !contracts[found.value].Offered? { return Failed(InvalidState); }
      if !state.RenewOffered? || state.isOffer { return Failed(InvalidState); }
      if rollBack.None? { return Failed(Panic); }
      contracts := contracts[found.value := Rejected(contracts[found.value].contract)];
      RollBack();
      return Done(Some(RejectMsg));
    }

    method OnRejectReceived() returns (r: Reply)
      modifies this
      ensures Outcome(View(), r) == OnReject(old(View()))
    {
      if !lifecycle.Signed? { return Failed(InvalidState); }
      match state {
        case RenewOffered(id, _, _, isOffer) =>
          if id !in contracts || !contracts[id].Offered? || !isOffer { return Failed(InvalidState); }
          if rollBack.None? { return Failed(Panic); }
          contracts := contracts[id := Rejected(contracts[id].contract)];
          RollBack();
        case SettledOffered(_, _) =>
          if rollBack.None? { return Failed(Panic); }
          RollBack();
        case Established(_, _, _, _, _, _) =>
        case Settled(_, _, _, _, _) =>
        case _ => return Failed(InvalidState);
      }
      return Done(None);
    }

    // ---------- Closing ----------

    method CloseOffer(counterPayout: nat, extraInputs: seq<nat>) returns (r: Reply)
      modifies this
      ensures Outcome(View(), r) == OfferClose(old(View()), counterPayout, extraInputs)
    {
      if !lifecycle.Signed? { return Failed(InvalidState); }
      var total := ownCollateral + counterCollateral;
      if counterPayout > total { return Failed(InvalidParameters); }
      var tx := CollaborativeClose(me, total - counterPayout, counterPayout, extraInputs);
      rollBack := Some(state);
      state := CollaborativeCloseOffered(counterPayout, Sig(me, tx), tx);
      watched := watched[tx := CollaborativeCloseTx];
      return Done(Some(CloseOfferMsg(counterPayout, Sig(me, tx))));
    }

    method OnCloseOfferReceived(counterPayout: nat, closeSig: Sig) returns (r: Reply)
      modifies this
      ensures Outcome(View(), r) == OnCloseOffer(old(View()), counterPayout, closeSig)
    {
      if !lifecycle.Signed? { return Failed(InvalidState); }
      var total := ownCollateral + counterCollateral;
      if counterPayout > total { return Failed(InvalidParameters); }
      if rollBack.Some? { return Failed(InvalidState); }
      rollBack := Some(state);
      state := CollaborativeCloseOffered(counterPayout, closeSig,
                                         CollaborativeClose(Other(me), total - counterPayout, counterPayout, []));
      return Done(None);
    }

    method CloseAccept() returns (broadcast: Option<Tx>, failure: Option<Error>)
      modifies this
      ensures Closure(View(), broadcast, failure) == AcceptClose(old(View()))
    {
      if !lifecycle.Signed? || !state.CollaborativeCloseOffered? { return None, Some(InvalidState); }
      if rollBack.Some? && rollBack.value.Established? {
        var id := rollBack.value.contractId;
        if !IsConfirmed(View(), id) { return None, Some(InvalidState); }
        if !Takes(View()) { return None, Some(Refused); }
        CloseContract(id, state.counterPayout);
      }
      if !Takes(View()) { return None, Some(Refused); }
      lifecycle := CollaborativelyClosed;
      return Some(state.closeTx), None;
    }

    /** One transaction of `process_watched_txs`. */
    method WatchedTxSeen(tx: Tx) returns (failure: Option<Error>)
      modifies this
      ensures Closure(View(), None, failure) == SeeOnChain(old(View()), tx)
    {
      if !lifecycle.Signed? || tx !in watched { return Some(InvalidState); }
      match watched[tx] {
        case BufferTx =>
          var id := ContractIdOf(state);
          if id.None? { return Some(Panic); }
          rollBack := Some(state);
          state := Closing(tx, id.value, false);
        case Revoked(index, ownSig, isOffer, kind) =>
          if index !in counterSecrets { return Some(Panic); }
          var counterPoint := Point(counterSecrets[index]);
          if ownSig != AdaptorSig(me, tx, PublishKey(Other(me), counterPoint)) { return Some(InvalidParameters); }
          var failure := PunishmentError(me, tx, isOffer, kind);
          if failure.Some? { return failure; }
          watched := map[];
          lifecycle := ClosedPunished;
        case CollaborativeCloseTx =>
          if rollBack.Some? && rollBack.value.Established? {
            var id := rollBack.value.contractId;
            if !state.CollaborativeCloseOffered? || !IsConfirmed(View(), id) { return Some(InvalidState); }
            var total := contracts[id].contract.totalCollateral;
            if state.counterPayout > total { return Some(Panic); }
            CloseContract(id, total - state.counterPayout);
          }
          watched := map[];
          lifecycle := CollaborativelyClosed;
        case SettleTx =>
          watched := map[];
          lifecycle := CounterClosed;
        case Cet =>
          var id := ContractIdOf(state);
          if id.Some? && IsConfirmed(View(), id.value) {
            contracts := contracts[id.value := PreClosed(contracts[id.value].contract)];
          }
          lifecycle := if state.Closing? && !state.isInitiator then CounterClosed else ClosedByUs;
          watched := map[];
      }
      return None;
    }

    method PublishBuffer(counterSig: AdaptorSig, buffer: Tx, id: ContractId, isInitiator: bool)
      returns (broadcast: Option<Tx>, failure: Option<Error>)
      modifies this
      ensures Closure(View(), broadcast, failure) == CloseOnBuffer(old(View()), counterSig, buffer, id, isInitiator)
    {
      if counterSig.encryptionKey != PublishKey(me, ownPoint) { return None, Some(InvalidParameters); }
      state := Closing(buffer, id, isInitiator);
      watched := watched - {buffer};
      return Some(buffer), None;
    }

    method PublishSettle(counterSig: AdaptorSig, tx: Tx, isInitiator: bool)
      returns (broadcast: Option<Tx>, failure: Option<Error>)
      modifies this
      ensures Closure(View(), broadcast, failure) == CloseOnSettle(old(View()), counterSig, tx, isInitiator)
    {
      if counterSig.encryptionKey != PublishKey(me, ownPoint) { return None, Some(InvalidParameters); }
      lifecycle := if isInitiator then ClosedByUs else CounterClosed;
      watched := map[];
      return Some(tx), None;
    }

    /** From a negotiation, the record is rolled back and the close starts over. */
    method ForceCloseChannel(isInitiator: bool) returns (broadcast: Option<Tx>, failure: Option<Error>)
      modifies this
      ensures Closure(View(), broadcast, failure) == ForceClose(old(View()), isInitiator)
      decreases rollBack.Some?
    {
      hide CloseOnBuffer, CloseOnSettle;
      if !lifecycle.Signed? { return None, Some(InvalidState); }
      match state {
        case Established(id, counterSig, _, buffer, _, _) =>
          broadcast, failure := PublishBuffer(counterSig, buffer, id, isInitiator);
        case RenewFinalized(id, _, buffer, counterSig, _, _, _) =>
          broadcast, failure := PublishBuffer(counterSig, buffer, id, isInitiator);
        case Settled(tx, counterSig, _, _, _) =>
          broadcast, failure := PublishSettle(counterSig, tx, isInitiator);
        case Closing(_, _, _) => return None, Some(InvalidState);
        case _ =>
          if rollBack.None? { return None, Some(Panic); }
          var was, wasRollBack := state, rollBack;
          RollBack();
          broadcast, failure := ForceCloseChannel(isInitiator);
          if failure.Some? {
            state, rollBack := was, wasRollBack;  // nothing is stored
            broadcast := None;
          }
      }
    }
  }
}
