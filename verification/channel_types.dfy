/** Values shared by the DLC channel modules: the symbolic cryptography, the channel
    states, the wire messages and the record that one party keeps for one channel.

    Keys, points, signatures and transactions are terms. Two terms are equal exactly
    when they were built from the same arguments, which is what a collision-free hash
    and an unforgeable signature give the program. */
module ChannelTypes {
  import opened Wrappers
  import Conversions
  import PayoutCurve

  /** The two ends of a channel, named after their part in the channel's setup. */
  datatype Who = Offerer | Accepter

  function Other(w: Who): Who {
    if w == Offerer then Accepter else Offerer
  }

  const INITIAL_UPDATE_NUMBER: nat := 281474976710655

  /** Outputs below this value are left out of a transaction. */
  const DUST_LIMIT: nat := 1000

  /** A transaction with these two outputs keeps at least one of them. */
  predicate SomeOutput(offerPayout: nat, acceptPayout: nat) {
    offerPayout >= DUST_LIMIT || acceptPayout >= DUST_LIMIT
  }

  // ---------- Symbolic cryptography ----------

  /** `build_commitment_secret(seed of owner, index)`. */
  datatype Secret = Secret(owner: Who, index: nat)

  /** The public image of a per-update secret. */
  datatype Point = Point(secret: Secret)

  function PerUpdatePoint(w: Who, index: nat): Point {
    Point(Secret(w, index))
  }

  /** The publish key derived from a party's publish base point and a per-update point. */
  datatype PublishKey = PublishKey(base: Who, point: Point)

  /** The keys `get_revokable_params` derives from one party's base points, the other
      party's revocation base point and a per-update point. */
  datatype RevokeParams = RevokeParams(base: Who, revocationBase: Who, point: Point) {
    function PublishPk(): PublishKey {
      PublishKey(base, point)
    }
  }

  /** Transactions that spend the fund output. Their txid is injective in these terms. */
  datatype Tx =
    | Buffer(offer: RevokeParams, accept: RevokeParams)
    | Settle(offer: RevokeParams, accept: RevokeParams, offerPayout: nat, acceptPayout: nat)
    | CollaborativeClose(offerer: Who, closeOfferPayout: nat, closeAcceptPayout: nat, extraInputs: seq<nat>)

  /** An adaptor signature made with the signer's fund key and encrypted under `encryptionKey`. */
  datatype AdaptorSig = AdaptorSig(signer: Who, tx: Tx, encryptionKey: PublishKey)

  /** A plain signature made with the signer's fund key. */
  datatype Sig = Sig(signer: Who, tx: Tx)

  function VerifyAdaptor(tx: Tx, fundKey: Who, encryptionKey: PublishKey, sig: AdaptorSig): (ok: bool)
    ensures ok <==> sig == AdaptorSig(fundKey, tx, encryptionKey)
  {
    sig.signer == fundKey && sig.tx == tx && sig.encryptionKey == encryptionKey
  }

  // ---------- Contracts ----------

  /** Identifiers of the contracts of one channel: the one of the channel's setup, and
      those of renewals, which hash the update index at which they were offered. */
  datatype ContractId = Initial | Renewed(updateIdx: nat)

  datatype Payout = Payout(offer: nat, accept: nat)

  /** The contract info of one end. For a numerical info, `offers` are the offer payouts of its ranges, if rounding
      gives any. */
  datatype Terms = Terms(info: Conversions.ContractInfo, offers: Option<seq<nat>>)

  /** The contract info of an offer message, with the payouts that belong to its payout function. */
  datatype WireTerms = WireTerms(inner: Conversions.SerInnerInfo, offers: Option<seq<nat>>)

  /** What a user passes to the offer of a renewal. */
  datatype ContractInput = ContractInput(offerCollateral: nat, acceptCollateral: nat, terms: Terms, flags: nat)

  datatype Contract = Contract(
    id: ContractId,
    isOfferParty: bool,
    terms: Terms,
    flags: nat,
    totalCollateral: nat,
    offerCollateral: nat,
    acceptCollateral: nat)

  datatype RefundOutput = RefundOutput(toOffer: bool, value: nat)

  /** What the adaptor points of a contract are computed from. With a threshold of one, the allowed difference between
      oracles plays no part. */
  datatype AdaptorTerms =
    | ByOutcome(announcements: seq<Conversions.Announcement>, threshold: nat, outcomes: seq<string>)
    | ByDigits(announcements: seq<Conversions.Announcement>, threshold: nat, payoutFunction: PayoutCurve.PayoutFunction,
               intervals: seq<PayoutCurve.RoundingInterval>, base: nat, digits: seq<nat>, difference: Option<(nat, nat)>)

  /** The adaptor points, the outputs of the CETs and those of the refund transaction of a contract. */
  datatype SignedTerms = SignedTerms(adaptor: AdaptorTerms, payouts: seq<Payout>, refund: seq<RefundOutput>)

  /** The CET adaptor signatures and the refund signature of one party on one contract. */
  datatype ContractSigs = ContractSigs(signer: Who, terms: SignedTerms, buffer: Tx)

  /** What the store knows about a contract. */
  datatype ContractEntry =
    | Offered(contract: Contract)
    | Accepted(contract: Contract)
    | Confirmed(contract: Contract)
    | Rejected(contract: Contract)
    | PreClosed(contract: Contract)
    | Closed(contract: Contract, pnl: int)

  // ---------- Chain monitor registrations ----------

  datatype RevokedTxType = RevokedBuffer | RevokedSettle

  datatype TxType =
    | Revoked(updateIdx: nat, ownSig: AdaptorSig, isOffer: bool, kind: RevokedTxType)
    | BufferTx
    | CollaborativeCloseTx
    | SettleTx
    | Cet

  // ---------- Channel states ----------

  datatype State =
    | Established(
        contractId: ContractId, counterBufferSig: AdaptorSig, ownBufferSig: AdaptorSig,
        buffer: Tx, isOffer: bool, totalCollateral: nat)
    | SettledOffered(counterPayout: nat, nextPoint: Point)
    | SettledReceived(ownPayout: nat, counterPayout: nat, counterNextPoint: Point)
    | SettledAccepted(
        counterNextPoint: Point, ownNextPoint: Point, ownSettleSig: AdaptorSig, settleTx: Tx,
        ownPayout: nat, counterPayout: nat)
    | SettledConfirmed(
        settleTx: Tx, counterSettleSig: AdaptorSig, counterNextPoint: Point, ownNextPoint: Point,
        ownSettleSig: AdaptorSig, ownPayout: nat, counterPayout: nat)
    | Settled(
        settleTx: Tx, counterSettleSig: AdaptorSig, ownSettleSig: AdaptorSig,
        ownPayout: nat, counterPayout: nat)
    | RenewOffered(contractId: ContractId, counterPayout: nat, offerNextPoint: Point, isOffer: bool)
    | RenewAccepted(
        contractId: ContractId, offerPoint: Point, acceptPoint: Point, buffer: Tx, ownPayout: nat)
    | RenewConfirmed(
        contractId: ContractId, offerPoint: Point, acceptPoint: Point, buffer: Tx,
        offerBufferSig: AdaptorSig, ownPayout: nat, totalCollateral: nat)
    | RenewFinalized(
        contractId: ContractId, prevOfferPoint: Point, buffer: Tx, offerBufferSig: AdaptorSig,
        acceptBufferSig: AdaptorSig, ownPayout: nat, totalCollateral: nat)
    | Closing(buffer: Tx, contractId: ContractId, isInitiator: bool)
    | CollaborativeCloseOffered(counterPayout: nat, offerSig: Sig, closeTx: Tx)

  /** A state with everything needed to close on it; negotiations start from one and roll back to it. */
  predicate Stable(s: State) {
    s.Established? || s.Settled?
  }

  /** `SignedChannel::get_contract_id`. */
  function ContractIdOf(s: State): Option<ContractId> {
    match s
    case Established(c, _, _, _, _, _) => Some(c)
    case RenewOffered(c, _, _, _) => Some(c)
    case RenewAccepted(c, _, _, _, _) => Some(c)
    case RenewConfirmed(c, _, _, _, _, _, _) => Some(c)
    case RenewFinalized(c, _, _, _, _, _, _) => Some(c)
    case Closing(_, c, _) => Some(c)
    case _ => None
  }

  /** Whether the store still holds the channel as signed, and if not, how it ended. */
  datatype Lifecycle = Signed | ClosedByUs | CounterClosed | CollaborativelyClosed | ClosedPunished

  /** One party's record of one channel, with the parts of the chain monitor and of the
      contract store that belong to it. */
  datatype Party = Party(
    me: Who,
    ownCollateral: nat,
    counterCollateral: nat,
    lifecycle: Lifecycle,
    state: State,
    rollBack: Option<State>,
    updateIdx: nat,
    ownPoint: Point,
    counterPoint: Point,
    counterSecrets: map<nat, Secret>,
    watched: map<Tx, TxType>,
    contracts: map<ContractId, ContractEntry>)

  function TotalCollateral(p: Party): nat {
    p.ownCollateral + p.counterCollateral
  }

  // ---------- Messages ----------

  datatype Msg =
    | SettleOfferMsg(counterPayout: nat, nextPoint: Point)
    | SettleAcceptMsg(nextPoint: Point, settleSig: AdaptorSig)
    | SettleConfirmMsg(prevSecret: Secret, settleSig: AdaptorSig)
    | SettleFinalizeMsg(prevSecret: Secret)
    | RenewOfferMsg(contractId: ContractId, counterPayout: nat, nextPoint: Point, terms: WireTerms)
    | RenewAcceptMsg(nextPoint: Point, contractSigs: ContractSigs)
    | RenewConfirmMsg(bufferSig: AdaptorSig, contractSigs: ContractSigs)
    | RenewFinalizeMsg(prevSecret: Secret, bufferSig: AdaptorSig)
    | RenewRevokeMsg(prevSecret: Secret)
    | RejectMsg
    | CloseOfferMsg(counterPayout: nat, closeSig: Sig)

  /** The per-update secret that sending a message discloses. */
  function DisclosedBy(m: Msg): Option<Secret> {
    match m
    case SettleConfirmMsg(s, _) => Some(s)
    case SettleFinalizeMsg(s) => Some(s)
    case RenewFinalizeMsg(s, _) => Some(s)
    case RenewRevokeMsg(s) => Some(s)
    case _ => None
  }

  // ---------- Outcomes ----------

  /** `Panic` stands for an arithmetic underflow, an index out of range or an `expect` that fails, `Refused`
      for a transaction that the network does not take. */
  datatype Error = InvalidState | InvalidParameters | Panic | Refused

  datatype Reply = Done(msg: Option<Msg>) | Failed(error: Error)

  /** What a handler leaves in the store and the monitor, and what it returns. */
  datatype Outcome = Outcome(party: Party, reply: Reply)
}
