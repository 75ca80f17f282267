/** One end of a channel against any message at all, also one that its counterparty would not send. The record it starts
    from is that of a reachable state; nothing is asked of the message. */
module ChannelMessages {
  import opened Wrappers
  import opened ChannelTypes
  import opened ChannelTerms
  import opened ChannelHandlers
  import opened ChannelSystem
  import opened ChannelClose

  // ---------- What is taken ----------

  /** The settle transaction that an offerer expects a signature on, for a next point of the counterparty. */
  function ExpectedSettle(p: Party, next: Point): Tx
    requires p.state.SettledOffered? && p.state.counterPayout <= TotalCollateral(p) && p.updateIdx > 0
  {
    Settle(RevokeParams(p.me, Other(p.me), PerUpdatePoint(p.me, p.updateIdx - 1)), RevokeParams(Other(p.me), p.me, next),
           TotalCollateral(p) - p.state.counterPayout, p.state.counterPayout)
  }

  /** Past an offer, the only message that an end takes is the one that carries its counterparty's signature on the
      transaction under negotiation, and the secret of the index being left. */
  predicate Taken(p: Party, m: Msg) {
    match m
    case SettleOfferMsg(cp, _) => p.state.SettledOffered? || (p.state.Established? && cp <= TotalCollateral(p))
    case SettleAcceptMsg(next, sig) =>
      && p.state.SettledOffered? && p.state.counterPayout <= TotalCollateral(p) && p.updateIdx > 0
      && SomeOutput(TotalCollateral(p) - p.state.counterPayout, p.state.counterPayout)
      && sig == SigFor(Other(p.me), ExpectedSettle(p, next), p.updateIdx - 1)
    case SettleConfirmMsg(secret, sig) =>
      && p.state.SettledAccepted? && p.updateIdx > 0
      && secret == Secret(Other(p.me), p.updateIdx) && sig == SigFor(Other(p.me), p.state.settleTx, p.updateIdx - 1)
    case SettleFinalizeMsg(secret) => p.state.SettledConfirmed? && secret == Secret(Other(p.me), p.updateIdx)
    case RenewOfferMsg(_, _, _, terms) =>
      (p.state.RenewOffered? && p.state.isOffer) || (Stable(p.state) && FromWire(terms, TotalCollateral(p)).Ok?)
    case RenewAcceptMsg(next, sigs) =>
      && p.state.RenewOffered? && p.state.counterPayout <= TotalCollateral(p) && p.state.contractId in p.contracts
      && SigsVerify(sigs, Other(p.me), p.contracts[p.state.contractId].contract,
                    RenewalBuffer(p.me, Other(p.me), p.state.offerNextPoint, next))
    case RenewConfirmMsg(sig, sigs) =>
      && p.state.RenewAccepted? && p.updateIdx > 0 && p.state.contractId in p.contracts
      && sig == SigFor(Other(p.me), p.state.buffer, p.updateIdx - 1)
      && SigsVerify(sigs, Other(p.me), p.contracts[p.state.contractId].contract, p.state.buffer)
    case RenewFinalizeMsg(secret, sig) =>
      && p.state.RenewConfirmed? && p.updateIdx > 0
      && secret == Secret(Other(p.me), p.updateIdx) && sig == SigFor(Other(p.me), p.state.buffer, p.updateIdx - 1)
    case RenewRevokeMsg(secret) => p.state.RenewFinalized? && secret == Secret(Other(p.me), p.updateIdx)
    case RejectMsg => Stable(p.state) || p.state.SettledOffered? || (p.state.RenewOffered? && p.state.isOffer)
    case CloseOfferMsg(cp, _) => cp <= TotalCollateral(p) && p.rollBack.None?
  }

  // ---------- What a message brings about ----------

  /** The transaction that an end can close with next, and its counterparty's signature on it. */
  function Replacement(p: Party): Option<(Tx, AdaptorSig)> {
    match p.state
    case SettledConfirmed(tx, counterSig, _, _, _, _, _) => Some((tx, counterSig))
    case Settled(tx, counterSig, _, _, _) => Some((tx, counterSig))
    case RenewFinalized(_, _, buffer, counterSig, _, _, _) => Some((buffer, counterSig))
    case Established(_, counterSig, _, buffer, _, _) => Some((buffer, counterSig))
    case _ => None
  }

  /** What an end negotiated: the buffer it built, or a settle transaction that pays it what it asked for or accepted. */
  predicate Negotiated(p: Party, tx: Tx) {
    match p.state
    case SettledOffered(counterPayout, _) =>
      tx.Settle? && tx.offer.base == p.me && counterPayout <= TotalCollateral(p) && tx.offerPayout == TotalCollateral(p) - counterPayout
    case SettledAccepted(_, _, _, _, ownPayout, _) => tx.Settle? && tx.accept.base == p.me && tx.acceptPayout == ownPayout
    case SettledConfirmed(settleTx, _, _, _, _, _, _) => tx == settleTx
    case RenewAccepted(_, _, _, buffer, _) => tx == buffer
    case RenewConfirmed(_, _, _, buffer, _, _, _) => tx == buffer
    case _ => false
  }

  predicate Discloses(r: Reply) {
    r.Done? && r.msg.Some? && DisclosedBy(r.msg.value).Some?
  }

  /** Only the secret of the current index is given away, and only by an end that then holds its counterparty's signature,
      under its own publish key of the next index, on what it negotiated. */
  predicate Backed(p: Party, o: Outcome) {
    Discloses(o.reply) ==>
      && DisclosedBy(o.reply.msg.value) == Some(Secret(p.me, p.updateIdx)) && p.updateIdx > 0
      && Replacement(o.party).Some?
      && Negotiated(p, Replacement(o.party).value.0)
      && VerifyAdaptor(Replacement(o.party).value.0, Other(p.me), PublishKey(p.me, PerUpdatePoint(p.me, p.updateIdx - 1)),
                       Replacement(o.party).value.1)
  }

  /** A secret is stored only for the current index and only if it opens the counterparty's point of that index, and the
      index is left exactly then. */
  predicate Opened(p: Party, t: Party) {
    || (t.updateIdx == p.updateIdx && t.counterSecrets == p.counterSecrets)
    || (&& p.updateIdx > 0 && t.updateIdx == p.updateIdx - 1 && Stable(t.state)
        && p.updateIdx in t.counterSecrets
        && t.counterSecrets == p.counterSecrets[p.updateIdx := t.counterSecrets[p.updateIdx]]
        && Point(t.counterSecrets[p.updateIdx]) == PerUpdatePoint(Other(p.me), p.updateIdx))
  }

  /** The state that an end closes with: its own, or the one it rolls back to. */
  function ClosingState(p: Party): State {
    if Stable(p.state) || p.state.RenewFinalized? || p.state.Closing? || p.rollBack.None? then p.state else p.rollBack.value
  }

  /** The transaction that an end can force close with: its counterparty's signature on it is encrypted under the own publish
      key of the current point. */
  function Closable(p: Party): Option<Tx> {
    match ClosingState(p)
    case RenewFinalized(_, _, buffer, counterSig, _, _, _) =>
      if counterSig.encryptionKey == PublishKey(p.me, p.ownPoint) then Some(buffer) else None
    case Established(_, counterSig, _, buffer, _, _) =>
      if counterSig.encryptionKey == PublishKey(p.me, p.ownPoint) then Some(buffer) else None
    case Settled(tx, counterSig, _, _, _) =>
      if counterSig.encryptionKey == PublishKey(p.me, p.ownPoint) then Some(tx) else None
    case _ => None
  }

  /** A force close succeeds exactly then, whatever the record. */
  lemma ForceClosesIff(p: Party, isInitiator: bool)
    ensures ForceClose(p, isInitiator).error.None? <==> p.lifecycle.Signed? && Closable(p).Some?
    ensures ForceClose(p, isInitiator).error.None? ==> ForceClose(p, isInitiator).broadcast == Closable(p)
  {
    if !Stable(p.state) && !p.state.RenewFinalized? && !p.state.Closing? && p.rollBack.Some? {
      var u := p.(state := p.rollBack.value, rollBack := None);
      assert Closable(u) == Closable(p);
      if !Stable(u.state) && !u.state.RenewFinalized? && !u.state.Closing? {
        assert ForceClose(u, isInitiator).error.Some?;
      }
      assert ForceClose(u, isInitiator).error.None? <==> u.lifecycle.Signed? && Closable(u).Some?;
    }
  }

  /** An end can force close with what it could before, or with what it negotiated. */
  predicate CanClose(p: Party, t: Party) {
    && t.lifecycle.Signed? && Closable(t).Some?
    && (Closable(t) == Closable(p) || Negotiated(p, Closable(t).value))
  }

  /** The replaced contract is closed exactly when its transaction is replaced, and with what the end negotiated for itself. */
  ghost predicate Recorded(p: Party, t: Party) {
    && (forall id :: ClosedIn(t, id) && !ClosedIn(p, id) ==>
          && Base(p).Established? && id == Base(p).contractId
          && (p.state.SettledAccepted? || p.state.SettledConfirmed? || p.state.RenewAccepted? || p.state.RenewConfirmed?)
          && t.contracts[id].pnl == p.state.ownPayout - p.ownCollateral)
    && (Base(p).Established? && !p.state.RenewFinalized? ==>
          (ClosedIn(t, Base(p).contractId) <==> t.updateIdx != p.updateIdx || t.state.RenewFinalized?))
  }

  predicate Checked(p: Party, m: Msg, o: Outcome) {
    && (o.reply.Done? <==> Taken(p, m))
    && (o.reply.Failed? ==> o.party == p)
    && Backed(p, o)
    && Opened(p, o.party)
    && CanClose(p, o.party)
  }

  lemma MessagesAreChecked(p: Party, agreed: map<nat, Tx>, m: Msg)
    requires PartyFits(p, agreed)
    ensures Checked(p, m, Receive(p, m))
  {
    hide PartyFits, Checked, Receive;
    match m
    case SettleOfferMsg(_, _) => SettleOfferIsChecked(p, agreed, m);
    case RenewOfferMsg(_, _, _, _) => RenewOfferIsChecked(p, agreed, m);
    case CloseOfferMsg(_, _) => CloseOfferIsChecked(p, agreed, m);
    case RejectMsg => RejectIsChecked(p, agreed);
    case SettleAcceptMsg(_, _) => SettleAcceptIsChecked(p, agreed, m);
    case SettleConfirmMsg(_, _) => SettleConfirmIsChecked(p, agreed, m);
    case SettleFinalizeMsg(_) => SettleFinalizeIsChecked(p, agreed, m);
    case RenewAcceptMsg(_, _) => RenewAcceptIsChecked(p, agreed, m);
    case RenewConfirmMsg(_, _) => RenewConfirmIsChecked(p, agreed, m);
    case RenewFinalizeMsg(_, _) => RenewFinalizeIsChecked(p, agreed, m);
    case RenewRevokeMsg(_) => RenewRevokeIsChecked(p, agreed, m);
  }

  lemma SettleOfferIsChecked(p: Party, agreed: map<nat, Tx>, m: Msg)
    requires PartyFits(p, agreed) && m.SettleOfferMsg?
    ensures Checked(p, m, Receive(p, m))
  {
    hide WatchFits, FlagsFit, BuffersFit, CurrentWatched, ClosedAreOld, TxFits, FromWire, ToWire, TermsToSign, ContractFits;
  }

  lemma RenewOfferIsChecked(p: Party, agreed: map<nat, Tx>, m: Msg)
    requires PartyFits(p, agreed) && m.RenewOfferMsg?
    ensures Checked(p, m, Receive(p, m))
  {
    hide WatchFits, FlagsFit, BuffersFit, CurrentWatched, ClosedAreOld, TxFits, FromWire, ToWire, TermsToSign, ContractFits;
  }

  lemma CloseOfferIsChecked(p: Party, agreed: map<nat, Tx>, m: Msg)
    requires PartyFits(p, agreed) && m.CloseOfferMsg?
    ensures Checked(p, m, Receive(p, m))
  {
    hide WatchFits, FlagsFit, BuffersFit, CurrentWatched, ClosedAreOld, TxFits, FromWire, ToWire, TermsToSign, ContractFits;
  }

  lemma RejectIsChecked(p: Party, agreed: map<nat, Tx>)
    requires PartyFits(p, agreed)
    ensures Checked(p, RejectMsg, Receive(p, RejectMsg))
  {
    hide CanClose, WatchFits, FlagsFit, BuffersFit, CurrentWatched, ClosedAreOld, TxFits, FromWire, ToWire, TermsToSign, ContractFits;
    RejectLeavesClose(p, agreed);
  }

  lemma RejectLeavesClose(p: Party, agreed: map<nat, Tx>)
    requires PartyFits(p, agreed)
    ensures CanClose(p, Receive(p, RejectMsg).party)
  {
    hide WatchFits, FlagsFit, BuffersFit, CurrentWatched, ClosedAreOld, TxFits, SecretsFit, FromWire, ToWire, TermsToSign, ContractFits;
  }

  lemma SettleAcceptIsChecked(p: Party, agreed: map<nat, Tx>, m: Msg)
    requires PartyFits(p, agreed) && m.SettleAcceptMsg?
    ensures Checked(p, m, Receive(p, m))
  {
    hide WatchFits, FlagsFit, BuffersFit, CurrentWatched, ClosedAreOld, TxFits, FromWire, ToWire, TermsToSign, ContractFits;
  }

  lemma SettleConfirmIsChecked(p: Party, agreed: map<nat, Tx>, m: Msg)
    requires PartyFits(p, agreed) && m.SettleConfirmMsg?
    ensures Checked(p, m, Receive(p, m))
  {
    hide CanClose, WatchFits, FlagsFit, BuffersFit, CurrentWatched, ClosedAreOld, TxFits, FromWire, ToWire, TermsToSign, ContractFits;
    SettleConfirmLeavesClose(p, agreed, m);
  }

  lemma SettleConfirmLeavesClose(p: Party, agreed: map<nat, Tx>, m: Msg)
    requires PartyFits(p, agreed) && m.SettleConfirmMsg?
    ensures CanClose(p, Receive(p, m).party)
  {
    hide WatchFits, FlagsFit, BuffersFit, CurrentWatched, ClosedAreOld, TxFits, FromWire, ToWire, TermsToSign, ContractFits;
  }

  lemma SettleFinalizeIsChecked(p: Party, agreed: map<nat, Tx>, m: Msg)
    requires PartyFits(p, agreed) && m.SettleFinalizeMsg?
    ensures Checked(p, m, Receive(p, m))
  {
    hide WatchFits, FlagsFit, BuffersFit, CurrentWatched, ClosedAreOld, TxFits, FromWire, ToWire, TermsToSign, ContractFits;
  }

  lemma RenewAcceptIsChecked(p: Party, agreed: map<nat, Tx>, m: Msg)
    requires PartyFits(p, agreed) && m.RenewAcceptMsg?
    ensures Checked(p, m, Receive(p, m))
  {
    hide WatchFits, FlagsFit, BuffersFit, CurrentWatched, ClosedAreOld, TxFits, FromWire, ToWire, TermsToSign;
  }

  lemma RenewConfirmIsChecked(p: Party, agreed: map<nat, Tx>, m: Msg)
    requires PartyFits(p, agreed) && m.RenewConfirmMsg?
    ensures Checked(p, m, Receive(p, m))
  {
    hide WatchFits, FlagsFit, BuffersFit, CurrentWatched, ClosedAreOld, TxFits, FromWire, ToWire, TermsToSign, ContractFits;
  }

  lemma RenewFinalizeIsChecked(p: Party, agreed: map<nat, Tx>, m: Msg)
    requires PartyFits(p, agreed) && m.RenewFinalizeMsg?
    ensures Checked(p, m, Receive(p, m))
  {
    hide CanClose, WatchFits, FlagsFit, BuffersFit, CurrentWatched, ClosedAreOld, TxFits, FromWire, ToWire, TermsToSign, ContractFits;
    RenewFinalizeLeavesClose(p, agreed, m);
  }

  lemma RenewFinalizeLeavesClose(p: Party, agreed: map<nat, Tx>, m: Msg)
    requires PartyFits(p, agreed) && m.RenewFinalizeMsg?
    ensures CanClose(p, Receive(p, m).party)
  {
    hide WatchFits, FlagsFit, BuffersFit, CurrentWatched, ClosedAreOld, TxFits, FromWire, ToWire, TermsToSign, ContractFits;
  }

  lemma RenewRevokeIsChecked(p: Party, agreed: map<nat, Tx>, m: Msg)
    requires PartyFits(p, agreed) && m.RenewRevokeMsg?
    ensures Checked(p, m, Receive(p, m))
  {
    hide WatchFits, FlagsFit, BuffersFit, CurrentWatched, ClosedAreOld, TxFits, FromWire, ToWire, TermsToSign, ContractFits;
  }

  // ---------- The main results ----------

  /** A message is taken exactly when it is the right one, and one that is not leaves everything as it was. */
  lemma TakesExactly(p: Party, agreed: map<nat, Tx>, m: Msg)
    requires PartyFits(p, agreed)
    ensures Receive(p, m).reply.Done? <==> Taken(p, m)
    ensures Receive(p, m).reply.Failed? ==> Receive(p, m).party == p
  {
    hide PartyFits, Receive, Taken, Backed, Opened, CanClose;
    MessagesAreChecked(p, agreed, m);
  }

  /** A settlement that verifies but whose replaced contract is not stored as confirmed: it is refused only after the old buffer
      was registered as revoked. */
  predicate RefusedLate(p: Party, m: Msg) {
    && p.lifecycle.Signed? && p.updateIdx > 0
    && p.rollBack.Some? && p.rollBack.value.Established? && !IsConfirmed(p, p.rollBack.value.contractId)
    && match m
       case SettleConfirmMsg(secret, sig) =>
         && p.state.SettledAccepted? && sig == AdaptorSig(Other(p.me), p.state.settleTx, PublishKey(p.me, p.state.ownNextPoint))
         && Point(secret) == p.counterPoint && ProvideSecret(p.counterSecrets, p.updateIdx, secret).Some?
       case SettleFinalizeMsg(secret) =>
         && p.state.SettledConfirmed?
         && Point(secret) == p.counterPoint && ProvideSecret(p.counterSecrets, p.updateIdx, secret).Some?
       case _ => false
  }

  /** Whatever the record, a message that is refused changes nothing, but for the one registration of a late refusal. */
  lemma RefusedChangesNothing(p: Party, m: Msg)
    ensures RefusedLate(p, m) ==> Receive(p, m).reply == Failed(InvalidState)
    ensures Receive(p, m).reply.Failed? ==>
              Receive(p, m).party == if RefusedLate(p, m)
                                     then var prev := p.rollBack.value;
                                          p.(watched := p.watched[prev.buffer := Revoked(p.updateIdx, prev.ownBufferSig, prev.isOffer, RevokedBuffer)])
                                     else p
  {
    hide FromWire, TermsToSign, SettleTxAndSig, ProvideSecret;
  }

  /** A channel that is closed answers no message and no call, and is not closed again. */
  lemma ClosedChannelIsSilent(p: Party, m: Msg, c: Call, tx: Tx, isInitiator: bool)
    requires !p.lifecycle.Signed?
    ensures Receive(p, m) == Fail(p, InvalidState) && Perform(p, c) == Fail(p, InvalidState)
    ensures AcceptClose(p) == SeeOnChain(p, tx) == ForceClose(p, isInitiator) == NotClosed(p, InvalidState)
  {
    hide FromWire, ToWire, TermsToSign, SettleTxAndSig, ProvideSecret;
  }

  /** A closing channel only takes an offer to close, if it has nothing to roll back to, and answers no other message and no call of
      a negotiation. */
  lemma ClosingChannelIsSilent(p: Party, m: Msg, c: Call)
    requires p.lifecycle.Signed? && p.state.Closing?
    ensures Receive(p, m).reply.Done? <==> m.CloseOfferMsg? && m.counterPayout <= TotalCollateral(p) && p.rollBack.None?
    ensures Receive(p, m).reply.Failed? ==> Receive(p, m).party == p
    ensures !c.CallOfferClose? ==> Perform(p, c).reply.Failed? && Perform(p, c).party == p
  {
    hide FromWire, ToWire, TermsToSign, SettleTxAndSig, ProvideSecret;
  }

  /** A store that holds the secrets above an index takes exactly the one of that index next. */
  lemma SecretsAreTakenInOrder(secrets: map<nat, Secret>, next: nat, index: nat, secret: Secret)
    requires forall i :: i in secrets <==> next < i <= INITIAL_UPDATE_NUMBER
    requires next <= INITIAL_UPDATE_NUMBER && index <= INITIAL_UPDATE_NUMBER
    ensures ProvideSecret(secrets, index, secret).Some? <==> index == next
    ensures index == next ==> ProvideSecret(secrets, index, secret) == Some(secrets[index := secret])
  {
    if index < next {
      assert index + 1 !in secrets;
    }
  }

  /** Whatever was sent to it, an end gives a secret away only against a verified signature on the replacement. */
  lemma DisclosureIsBacked(p: Party, agreed: map<nat, Tx>, m: Msg)
    requires PartyFits(p, agreed)
    ensures Backed(p, Receive(p, m))
  {
    hide PartyFits, Receive, Taken, Backed, Opened, CanClose;
    MessagesAreChecked(p, agreed, m);
  }

  lemma StoredSecretsOpen(p: Party, agreed: map<nat, Tx>, m: Msg)
    requires PartyFits(p, agreed)
    ensures Opened(p, Receive(p, m).party)
  {
    hide PartyFits, Receive, Taken, Backed, Opened, CanClose;
    MessagesAreChecked(p, agreed, m);
  }

  /** After any message an end can still force close. */
  lemma AnyMessageLeavesAClose(p: Party, agreed: map<nat, Tx>, m: Msg, isInitiator: bool)
    requires PartyFits(p, agreed)
    ensures CanClose(p, Receive(p, m).party)
    ensures var c := ForceClose(Receive(p, m).party, isInitiator);
            c.error.None? && c.broadcast == Closable(Receive(p, m).party)
  {
    hide PartyFits, Receive, Taken, Backed, Opened, Closable;
    MessagesAreChecked(p, agreed, m);
    ForceClosesIff(Receive(p, m).party, isInitiator);
  }

  // ---------- What is recorded of a replaced contract ----------

  lemma ReplacedIsRecorded(p: Party, agreed: map<nat, Tx>, m: Msg)
    requires PartyFits(p, agreed)
    ensures Recorded(p, Receive(p, m).party)
  {
    hide PartyFits, Receive, Recorded;
    match m
    case SettleConfirmMsg(_, _) => SettleConfirmRecords(p, agreed, m);
    case SettleFinalizeMsg(_) => SettleFinalizeRecords(p, agreed, m);
    case RenewConfirmMsg(_, _) => RenewConfirmRecords(p, agreed, m);
    case RenewFinalizeMsg(_, _) => RenewFinalizeRecords(p, agreed, m);
    case SettleOfferMsg(_, _) => OfferRecordsNothing(p, agreed, m);
    case RenewOfferMsg(_, _, _, _) => OfferRecordsNothing(p, agreed, m);
    case CloseOfferMsg(_, _) => OfferRecordsNothing(p, agreed, m);
    case _ => AnswerRecordsNothing(p, agreed, m);
  }

  lemma SettleConfirmRecords(p: Party, agreed: map<nat, Tx>, m: Msg)
    requires PartyFits(p, agreed) && m.SettleConfirmMsg?
    ensures Recorded(p, Receive(p, m).party)
  {
    hide WatchFits, FlagsFit, BuffersFit, CurrentWatched, SecretsFit, TxFits, PointsFit, FromWire, ToWire, TermsToSign, IsCloseTx;
  }

  lemma SettleFinalizeRecords(p: Party, agreed: map<nat, Tx>, m: Msg)
    requires PartyFits(p, agreed) && m.SettleFinalizeMsg?
    ensures Recorded(p, Receive(p, m).party)
  {
    hide WatchFits, FlagsFit, BuffersFit, CurrentWatched, SecretsFit, TxFits, PointsFit, FromWire, ToWire, TermsToSign, IsCloseTx;
  }

  lemma RenewConfirmRecords(p: Party, agreed: map<nat, Tx>, m: Msg)
    requires PartyFits(p, agreed) && m.RenewConfirmMsg?
    ensures Recorded(p, Receive(p, m).party)
  {
    hide WatchFits, FlagsFit, BuffersFit, CurrentWatched, SecretsFit, TxFits, PointsFit, FromWire, ToWire, TermsToSign, IsCloseTx;
  }

  lemma RenewFinalizeRecords(p: Party, agreed: map<nat, Tx>, m: Msg)
    requires PartyFits(p, agreed) && m.RenewFinalizeMsg?
    ensures Recorded(p, Receive(p, m).party)
  {
    hide WatchFits, FlagsFit, BuffersFit, CurrentWatched, SecretsFit, TxFits, PointsFit, FromWire, ToWire, TermsToSign, IsCloseTx;
  }

  lemma OfferRecordsNothing(p: Party, agreed: map<nat, Tx>, m: Msg)
    requires PartyFits(p, agreed) && (m.SettleOfferMsg? || m.RenewOfferMsg? || m.CloseOfferMsg?)
    ensures Recorded(p, Receive(p, m).party)
  {
    hide WatchFits, FlagsFit, BuffersFit, CurrentWatched, SecretsFit, TxFits, PointsFit, FromWire, ToWire, TermsToSign, IsCloseTx,
         ContractFits;
  }

  lemma AnswerRecordsNothing(p: Party, agreed: map<nat, Tx>, m: Msg)
    requires PartyFits(p, agreed) && (m.SettleAcceptMsg? || m.RenewAcceptMsg? || m.RenewRevokeMsg? || m.RejectMsg?)
    ensures Recorded(p, Receive(p, m).party)
  {
    hide WatchFits, FlagsFit, BuffersFit, CurrentWatched, SecretsFit, TxFits, PointsFit, FromWire, ToWire, TermsToSign, IsCloseTx,
         ContractFits, StableFits;
  }

  // ---------- Why a message is refused ----------

  /** An end answers a message that it does not take by what is wrong with it: the state it came in, a payout that cannot be paid, or
      a secret, a signature or terms that do not verify. */
  function Refusal(p: Party, m: Msg): Error {
    match m
    case SettleOfferMsg(_, _) => InvalidState
    case SettleAcceptMsg(_, _) =>
      if !p.state.SettledOffered? then InvalidState
      else if p.state.counterPayout > TotalCollateral(p)
              || !SomeOutput(TotalCollateral(p) - p.state.counterPayout, p.state.counterPayout) then Panic
      else InvalidParameters
    case SettleConfirmMsg(_, _) => if p.state.SettledAccepted? then InvalidParameters else InvalidState
    case SettleFinalizeMsg(_) => if p.state.SettledConfirmed? then InvalidParameters else InvalidState
    case RenewOfferMsg(_, _, _, terms) =>
      if Stable(p.state) && FromWire(terms, TotalCollateral(p)).Err? then FromWire(terms, TotalCollateral(p)).error else InvalidState
    case RenewAcceptMsg(_, _) =>
      if !p.state.RenewOffered? || p.state.contractId !in p.contracts then InvalidState
      else if p.state.counterPayout > TotalCollateral(p) then Panic
      else if TermsToSign(p.contracts[p.state.contractId].contract).Err? then TermsToSign(p.contracts[p.state.contractId].contract).error
      else InvalidParameters
    case RenewConfirmMsg(_, _) => if p.state.RenewAccepted? then InvalidParameters else InvalidState
    case RenewFinalizeMsg(_, _) => if p.state.RenewConfirmed? then InvalidParameters else InvalidState
    case RenewRevokeMsg(_) => if p.state.RenewFinalized? then InvalidParameters else InvalidState
    case RejectMsg => InvalidState
    case CloseOfferMsg(cp, _) => if cp > TotalCollateral(p) then InvalidParameters else InvalidState
  }

  lemma RefusedForAReason(p: Party, agreed: map<nat, Tx>, m: Msg)
    requires PartyFits(p, agreed) && Receive(p, m).reply.Failed?
    ensures Receive(p, m).reply.error == Refusal(p, m)
  {
    hide PartyFits, Receive, Refusal;
    if m.SettleOfferMsg? || m.RenewOfferMsg? || m.CloseOfferMsg? || m.RejectMsg? {
      OfferRefused(p, agreed, m);
    } else if m.SettleAcceptMsg? || m.RenewAcceptMsg? || m.RenewRevokeMsg? {
      AnswerRefused(p, agreed, m);
    } else {
      DisclosureRefused(p, agreed, m);
    }
  }

  lemma OfferRefused(p: Party, agreed: map<nat, Tx>, m: Msg)
    requires PartyFits(p, agreed) && (m.SettleOfferMsg? || m.RenewOfferMsg? || m.CloseOfferMsg? || m.RejectMsg?)
    requires Receive(p, m).reply.Failed?
    ensures Receive(p, m).reply.error == Refusal(p, m)
  {
    hide WatchFits, FlagsFit, BuffersFit, CurrentWatched, SecretsFit, TxFits, PointsFit, FromWire, ToWire, TermsToSign, IsCloseTx,
         ContractFits, StableFits, ClosedAreOld;
  }

  lemma AnswerRefused(p: Party, agreed: map<nat, Tx>, m: Msg)
    requires PartyFits(p, agreed) && (m.SettleAcceptMsg? || m.RenewAcceptMsg? || m.RenewRevokeMsg?)
    requires Receive(p, m).reply.Failed?
    ensures Receive(p, m).reply.error == Refusal(p, m)
  {
    hide WatchFits, FlagsFit, BuffersFit, CurrentWatched, TxFits, PointsFit, FromWire, ToWire, TermsToSign, IsCloseTx, StableFits, ClosedAreOld;
  }

  lemma DisclosureRefused(p: Party, agreed: map<nat, Tx>, m: Msg)
    requires PartyFits(p, agreed) && (m.SettleConfirmMsg? || m.SettleFinalizeMsg? || m.RenewConfirmMsg? || m.RenewFinalizeMsg?)
    requires Receive(p, m).reply.Failed?
    ensures Receive(p, m).reply.error == Refusal(p, m)
  {
    hide WatchFits, FlagsFit, BuffersFit, CurrentWatched, FromWire, ToWire, TermsToSign, IsCloseTx, ContractFits, ClosedAreOld;
  }

  // ---------- Calls ----------

  /** The calls that an end can answer. */
  predicate Possible(p: Party, c: Call) {
    match c
    case CallOfferSettle(_) => p.state.Established? && p.updateIdx > 0
    case CallAcceptSettle => p.state.SettledReceived? && SomeOutput(p.state.ownPayout, p.state.counterPayout)
    case CallRejectSettle => p.state.SettledReceived?
    case CallOfferRenew(_, input) =>
      && p.updateIdx > 0 && Sendable(input.terms)
      && (p.state.Established? || p.state.Settled?)
      && (p.state.Established? ==> input.offerCollateral + input.acceptCollateral == TotalCollateral(p))
      && (p.state.Settled? ==> input.offerCollateral == p.state.ownPayout && input.acceptCollateral == p.state.counterPayout)
    case CallAcceptRenew =>
      && p.state.RenewOffered? && p.state.contractId in p.contracts && TermsToSign(p.contracts[p.state.contractId].contract).Ok?
    case CallRejectRenew => p.state.RenewOffered? && !p.state.isOffer
    case CallOfferClose(cp, _) => cp <= TotalCollateral(p)
  }

  /** A call is answered exactly when it is possible, and one that is not changes nothing. */
  lemma CallsAnsweredExactly(p: Party, agreed: map<nat, Tx>, c: Call)
    requires PartyFits(p, agreed) && Permitted(p, c)
    ensures Perform(p, c).reply.Done? <==> Possible(p, c)
    ensures Perform(p, c).reply.Failed? ==> Perform(p, c).party == p
  {
    hide WatchFits, FlagsFit, BuffersFit, CurrentWatched, SecretsFit, TxFits, PointsFit, FromWire, ToWire, TermsToSign, IsCloseTx,
         ClosedAreOld, Sendable;
    if c.CallOfferRenew? {
      ReadableIff(c.input.terms, 0);
    }
  }
}
