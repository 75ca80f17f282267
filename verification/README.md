# Verified model of the DLC channel protocol, payout curves, wire codecs and contract lifecycle

This project models the logic of the DLC manager in Dafny and proves what it promises, without the
cryptography, the wallet and the network around it. It has five parts.

**The channel protocol** (`channel_*.dfy`, `signed_channel.dfy`). Two parties hold a record of one channel: a
state out of twelve, a state to roll back to, an update index that counts down, the per-update points of both
sides, the counterparty's revealed secrets, the watched transactions and the contracts. `ChannelHandlers` says
for each operation what it leaves in the record and what it answers, branch by branch. `SignedChannels.SignedChannel` is
the record as the program holds it, a class whose methods write field after field and are proved to do exactly that.
`ChannelSystem` joins two records by a FIFO message sequence in each direction; its steps are calls and
deliveries at either end, in any order. The invariant there is kept by every step, and the theorems follow from
it for every run: agreement of the two ends, complete revocation, disclosure only against a replacement,
crossing offers, conservation of collateral, exchanges that complete. `ChannelMessages` says what one end does with any
message at all. `ChannelTerms` says what the two ends sign
for a renewed contract and when that is the same, and `ChannelRuns` follows some runs that fall short. `ChannelWorld` adds ends that leave the protocol by a
force close, a collaborative close or by what they see on the chain, and shows that such runs refine those without closes.

Secrets, points, publish keys, signatures and transactions are terms. Two terms are equal exactly when they
were built from the same arguments, so points and transaction identifiers are injective and a signature verifies only
for the signer, the transaction and the encryption key it was made with. The store of the counterparty's secrets
(the section "Efficient Per-commitment Secret Storage" of BOLT 3) is a map that takes indices in decreasing
order without gaps.

**Payout curves** (`lagrange.dfy`, `payout_curve.dfy`, `range_payouts.dfy`). Pieces are interpolated, rounded by
interval and run-length encoded. Floating-point values are reals; a division by zero, or the square root of
a negative number, is the absence of a value. The main results are that interpolation reproduces every polynomial of
its degree, that an accepted payout is within half a modulus of the curve, and that the computed ranges are the
one encoding of the rounded payouts, exactly when constant pieces agree with the joints they start from.

**Wire codecs** (`codecs.dfy`, `tlv.dfy`, `wire.dfy`, `offer_message.dfy`). BigSize integers (Appendix A of BOLT 1), vectors,
options, hash maps, TLV records with the legacy fallback, and the offer message in its two formats. Readers and
writers are classes that advance along a stream.

**Conversions** (`conversions.dfy`). Payout functions and contract infos to and from their wire forms.

**The chain monitor and the contract lifecycle** (`chain_monitor.dfy`, `contract_lifecycle.dfy`,
`contract_manager.dfy`). What is watched and confirmed after any history, and which changes of state a contract outside a
channel can make over any run of checks and calls, when queries fail, transactions are evicted and broadcasts
are refused at any moment.

`dafny verify dfyconfig.toml` checks the whole project.

## Where the code does not do what one would expect

The model follows the code. These points are theorems, with the exact condition.

- A force close from `SettledConfirmed` publishes a transaction whose secret was already sent
  (`ChannelClose.ForceCloseIsSafe`, `ChannelClose.ForceCloseAfterConfirmIsPunished`).
- An offered renewal is checked against nothing that the other end will verify. If its payout exceeds the collateral, its
  enumerated payouts do not share out the total, it asks for more than one of its single oracle, whose threshold is not sent,
  or its contract flags, which the offer does not carry either, send the refund to the accepter, then the offerer fails
  on the acceptance, nobody is told, and both ends stay where they are (`ChannelTerms.SignedAlikeIff`,
  `ChannelTheorems.HandshakeNeverFails`, `ChannelExchanges.RenewExchangeCompletes`, `ChannelCrossing.StalledForever`,
  `ChannelRuns.UnsentTermsStall`). With a threshold above the number of its oracles, accepting it panics
  (`ChannelTheorems.CallsPanicOnlyAtTheEnd`).
- A settlement within the collateral is offered and held although both payouts are below the dust limit. Its transaction has no
  output to share the remaining fee, so accepting it panics and the offer stays held
  (`ChannelExchanges.SettleExchangeCompletes`, `ChannelTheorems.CallsPanicOnlyAtTheEnd`, `ChannelRuns.DustSettlementIsHeld`).
  A collaborative close with such payouts is refused by the network (`ChannelClose.CollaborativeCloseProfitsCancel`).
- The offer flag that is recorded with a revoked transaction is a constant after a renewal, and punishing reads it. A buffer
  that was replaced by a renewal is not punished by the end that offered it, and a renewed buffer that was
  replaced by a settlement is not punished by the end that accepted it (`ChannelClose.PunishmentWorks`,
  `ChannelClose.RecordedFlagIsRight`, `ChannelRuns.SetupBufferUnpunished`, `ChannelRuns.ConfirmAfterRenewalUnpunished`).
- With one output of a settle transaction below the dust limit, the output to punish is found by its position and not by
  the roles (`ChannelClose.PunishableIff`).
- Between its confirmation and the finalization, the end that offered a renewal does not watch the buffer that the other
  end can already publish (`ChannelClose.CounterpartyIsWatched`).
- Seeing the counterparty's buffer panics while a settlement is negotiated or a close is offered, and during a renewal the
  closing record names the contract of the renewal (`ChannelClose.SeeingTheBuffer`).
- The revocation message does not clear the rollback. After a renewal the accepting end refuses every offer to
  close (`ChannelExchanges.RenewalLeavesRollBack`, `ChannelExchanges.LeftOverOnlyAtAccepter`).
- While a renewal is finalized, the old transaction is watched as revoked before its secret arrived; seeing it
  then panics (`ChannelClose.PunishmentWorks`).
- A collaborative close offered from within a negotiation overwrites the rollback, and a later force close
  panics (`ChannelClose.CloseOfferNeedsStableState`).
- The accepting end rebuilds the closing transaction without the offerer's additional inputs, so with any of them the
  close is refused (`ChannelClose.CollaborativeCloseTxAgrees`, `ChannelClose.CollaborativeCloseProfitsCancel`).
- `is_offer` is the same at both ends of a renewed contract (`ChannelCrossing.OfferFlagsTellApart`).
- The shortcut for constant pieces ignores rounding intervals that begin inside the piece
  (`RangePayouts.ShortcutCanMissInterval`; `RangePayouts.ConstantsAgreeByIntervals` says from the intervals when that
  matters), and a piece that ends at the largest outcome leaves it out
  (`RangePayouts.LargestOutcomeIsDropped`).
- The shortcut for two points drops the extra precision (`PayoutCurve.ShortcutEqualsLoop`).
- Vectors with a 16-bit length lose 65536 elements per overflow (`Codecs.VecU16RoundTrip`), and vectors
  above a million elements are written but not read (`Codecs.VecRoundTripIff`).
- Offers with a protocol version outside 1 to 10 do not come back (`OfferMessage.OfferRoundTripIff`).
- The refund check writes from a stale copy. Only the chain's refusal of double spends keeps it from overwriting a closed
  contract (`ContractLifecycle.RefundOverwritesClosed`).

## Model

| member | source | states |
|---|---|---|
| SignedChannels.SignedChannel.SettleOffer | ddk-manager/src/channel_updater.rs:591-640 | from an established channel, the rollback is the old state, the offered point is that of the next index, and the offer is sent; every other state is an error |
| SignedChannels.SignedChannel.OnSettleOfferReceived | ddk-manager/src/manager.rs:2488-2509 | a crossing offer is rejected; an offer above the collateral is an error; otherwise the offer is held with both payouts |
| SignedChannels.SignedChannel.SettleAccept | ddk-manager/src/channel_updater.rs:682-782 | builds, signs and watches the settle transaction as its accept party; panics if both payouts are below the dust limit, with nothing changed |
| SignedChannels.SignedChannel.OnSettleAcceptReceived | ddk-manager/src/channel_updater.rs:789-889 | accepts only the counterparty's signature on the settle transaction built here, watches it, and answers with its own signature and the secret of the current index; a transaction without an output panics |
| SignedChannels.SignedChannel.Settle | ddk-manager/src/channel_updater.rs:941-1001 | the steps shared by a confirmed and a finalized settlement, each failure leaving the record alone but for the monitor |
| SignedChannels.SignedChannel.CloseContract | ddk-manager/src/manager.rs:3550-3587 | the contract is closed with the payout less the collateral of the local party |
| SignedChannels.SignedChannel.OnSettleConfirmReceived | ddk-manager/src/manager.rs:2539-2594 | the settlement completes at the accepting end only with a valid signature and the secret of the current counter point |
| SignedChannels.SignedChannel.OnSettleFinalizeReceived | ddk-manager/src/manager.rs:2596-2649 | the settlement completes at the offering end only with the secret of the current counter point |
| SignedChannels.SignedChannel.SettleReject | ddk-manager/src/channel_updater.rs:1086-1097 | a held settle offer is rolled back and rejected |
| SignedChannels.SignedChannel.RenewOffer | ddk-manager/src/channel_updater.rs:1102-1212 | checks the collaterals against the established total or the settled payouts, stores the contract with its flags and the rollback, and sends the terms without the flags and without the threshold of a single oracle; terms that cannot be written panic |
| SignedChannels.SignedChannel.OnRenewOfferReceived | ddk-manager/src/manager.rs:2651-2681 | a crossing renewal is rejected, otherwise the offer is held from a stable state, with the terms read from the message, threshold 1 for a single oracle, and no flags; terms that cannot be read are an error |
| SignedChannels.SignedChannel.RenewAccept | ddk-manager/src/channel_updater.rs:1275-1381 | builds the new buffer transaction as its accept party and signs for the payouts, the combinations of oracles and the refund, if the payouts exist and share out the total; no payouts or an impossible threshold panic |
| SignedChannels.SignedChannel.OnRenewAcceptReceived | ddk-manager/src/channel_updater.rs:1388-1517 | verifies the contract signatures on the outputs and the buffer built here and sends the signature on it; a payout above the total underflows, improper terms and signatures on other outputs or combinations are refused |
| SignedChannels.SignedChannel.OnRenewConfirmReceived | ddk-manager/src/manager.rs:2725-2828 | switches the points, watches the new buffer and the old transaction as revoked, closes the replaced contract and discloses the secret |
| SignedChannels.SignedChannel.OnRenewFinalizeReceived | ddk-manager/src/manager.rs:2830-2923 | stores the secret, switches points and index, watches the old transaction as revoked, and answers with the own secret |
| SignedChannels.SignedChannel.OnRenewRevokeReceived | ddk-manager/src/channel_updater.rs:1766-1819 | stores the secret that belongs to the previous counter point and moves the index; the rollback stays |
| SignedChannels.SignedChannel.RenewReject | ddk-manager/src/channel_updater.rs:1824-1841 | a held renewal is rolled back and its contract marked rejected |
| SignedChannels.SignedChannel.OnRejectReceived | ddk-manager/src/channel_updater.rs:2108-2136 | an own offer is rolled back, a stable state stays, everything else is an error |
| SignedChannels.SignedChannel.CloseOffer | ddk-manager/src/channel_updater.rs:1845-1917 | signs and watches the closing transaction and keeps the old state as rollback |
| SignedChannels.SignedChannel.OnCloseOfferReceived | ddk-manager/src/channel_updater.rs:1921-1973 | refused above the collateral and while a rollback exists |
| SignedChannels.SignedChannel.CloseAccept | ddk-manager/src/manager.rs:2177-2216 | broadcasts the closing transaction and closes the established contract with the offered payout; if the offered signature does not fit or no payout is above the dust limit, the network refuses and nothing is stored |
| SignedChannels.SignedChannel.WatchedTxSeen | ddk-manager/src/manager.rs:3085-3400 | what each kind of watched transaction does to the channel once it is confirmed, also outside the states that expect it; a punishment that spends the wrong output or script is refused |
| SignedChannels.SignedChannel.ForceCloseChannel | ddk-manager/src/manager.rs:3414-3472 | publishes from the present state or from the state rolled back to; a failure stores nothing |
| ChannelTheorems.InitialInvariant | ddk-manager/src/channel_updater.rs:482-586 | the record of a freshly signed channel satisfies the invariant |
| ChannelDeliveries.StepKeeps | ddk-manager/src/manager.rs:2488-3050 | every call and every delivery at either end keeps the invariant |
| ChannelDeliveries.RunKeeps | ddk-manager/src/manager.rs:2488-3050 | so does every run |
| ChannelTheorems.ReachableSwaps | ddk-manager/src/channel_updater.rs:591-1819 | what holds of one end in every run holds of the other |
| ChannelTheorems.IndicesStayClose | ddk-manager/src/channel_updater.rs:591-1819 | in every interleaving the two update indices differ by at most one |
| ChannelTheorems.StableEndsAgree | ddk-manager/src/channel_updater.rs:591-1819 | when both ends are stable they are at the same index and kind of state, hold the same transaction with crossed signatures and points, and their payouts mirror each other |
| ChannelTheorems.AgreementIsFinal | ddk-manager/src/channel_updater.rs:818-868 | the closing transaction of an index is agreed once and never replaced |
| ChannelTheorems.RevocationIsComplete | ddk-manager/src/manager.rs:2539-2923 | above the update index every counterparty secret is stored, and every agreed transaction is watched as revoked with what recovering the counterparty's key needs and with the offer flag that its replacement called for |
| ChannelTheorems.SecretMissingExactlyWhenFinalized | ddk-manager/src/manager.rs:3137-3148 | a watched revoked transaction lacks its secret exactly for the update that a finalized renewal replaces |
| ChannelTheorems.DisclosureIsCovered | ddk-manager/src/channel_updater.rs:831-868 | a step that discloses a secret leaves a party that holds its counterparty's signature on the replacing transaction, under its own key |
| ChannelTheorems.DisclosedIndices | ddk-manager/src/channel_updater.rs:947-993 | the disclosed secrets are exactly those above the update index, and the current one in `SettledConfirmed` and `RenewFinalized` |
| ChannelMessages.TakesExactly | ddk-manager/src/channel_updater.rs:789-1819 | whatever message a reachable end is sent, it takes exactly the right one: past an offer that is the one with the counterparty's signature on the transaction under negotiation and the secret of the index being left; every other one fails and changes nothing |
| ChannelMessages.RefusedForAReason | ddk-manager/src/channel_updater.rs:789-1819 | what a refusal answers tells the reason: the wrong state, a payout or terms that panic, or a secret, a signature or terms that do not verify |
| ChannelMessages.CallsAnsweredExactly | ddk-manager/src/channel_updater.rs:591-1917 | the calls an end answers are given by its state, its collateral and the terms alone, and one it does not answer changes nothing |
| ChannelMessages.DisclosureIsBacked | ddk-manager/src/channel_updater.rs:1707-1715 | whatever it is sent, an end gives away only the secret of its current index, and then holds its counterparty's signature, under its own publish key of the next index, on the buffer it negotiated or on a settle transaction with its own payout |
| ChannelMessages.StoredSecretsOpen | ddk-manager/src/channel_updater.rs:965-993 | whatever it is sent, an end stores only a secret that opens the counterparty's point of the current index, and leaves that index exactly then |
| ChannelMessages.RefusedChangesNothing | ddk-manager/src/manager.rs:2488-3050 | for any record and any message, a refusal changes nothing, but that a settlement whose replaced contract is not stored as confirmed is refused only after the old buffer was registered as revoked |
| ChannelMessages.AnyMessageLeavesAClose | ddk-manager/src/manager.rs:3414-3472 | after any message an end can still force close, with what it could before or with what it negotiated |
| ChannelMessages.ForceClosesIff | ddk-manager/src/manager.rs:3414-3472 | for any record, a force close succeeds exactly when the channel is signed and the signature it would decrypt was made for its current point |
| ChannelMessages.ClosedChannelIsSilent | ddk-manager/src/manager.rs:2488-3050 | a closed channel answers no message and no call and is not closed again |
| ChannelMessages.ClosingChannelIsSilent | ddk-manager/src/channel_updater.rs:1921-1973 | a closing channel takes no message but an offer to close, and that only without a rollback |
| ChannelMessages.SecretsAreTakenInOrder | ddk-manager/src/channel_updater.rs:965-993 | a store with the secrets above an index takes exactly the one of that index next |
| ChannelMessages.ReplacedIsRecorded | ddk-manager/src/manager.rs:3550-3587 | a contract is closed exactly when the end leaves its transaction behind, with the payout the end negotiated less its collateral |
| ChannelTheorems.PointsFollowIndex | ddk-manager/src/channel_updater.rs:1607-1616 | the own point is the one of the update index, and one ahead exactly while a renewal is finalized |
| ChannelTheorems.SecretsArriveInOrder | ddk-manager/src/channel_updater.rs:965-993 | secrets are stored from the first index downwards without gap or repetition, one with each step of the index |
| ChannelTheorems.RollBackIsThere | ddk-manager/src/channel_updater.rs:622-673 | every negotiating state carries a stable rollback on the agreed transaction |
| ChannelTheorems.BaseLasts | ddk-manager/src/channel_updater.rs:2108-2136 | at one update index a party keeps the stable state it would return to, its points and its secrets, whatever is offered and rejected in between |
| ChannelTheorems.RejectionRestores | ddk-manager/src/channel_updater.rs:1086-1097 | after any run that ends stable at the same index, state, points and secrets are those of before |
| ChannelTheorems.CollateralIsConserved | ddk-manager/src/manager.rs:3550-3587 | established and settled states account for the whole collateral, and the profits that the two ends record for a contract cancel out |
| ChannelTheorems.HandshakeNeverFails | ddk-manager/src/channel_updater.rs:1388-1517 | no message past the offer fails, but for the acceptance of a renewal that the offerer cannot confirm: its payout exceeds the collateral, its enumerated payouts do not share out the collateral, its threshold, digits or differences are not those the other end reads, or its flags change the refund |
| ChannelTheorems.CallsPanicOnlyAtTheEnd | ddk-manager/src/channel_updater.rs:591-1841 | a permitted call panics exactly when the update index is used up, a held settlement leaves no output, the terms of an offered renewal cannot be written, or a held renewal lists no payout or has an impossible threshold, so every `expect` on a rollback succeeds |
| ChannelTerms.RefundsAgree | dlc/src/lib.rs:657-688 | a refund to the accepter has the outputs of the usual one exactly when the offer party put in nothing or all is below the dust limit |
| ChannelTerms.SignedAlikeIff | dlc/src/lib.rs:624-691 | given an offer as it travelled, the two ends sign for the same outputs and combinations of oracles exactly when the offered payouts share out the total, threshold, digits and differences are those that are read, and the flags leave the refund as it is |
| ChannelTerms.ReadableIff | ddk-manager/src/conversion_utils.rs:105-218 | an offer is written exactly when a numerical descriptor has digits and a convertible function, and read exactly when moreover the announcements fit the descriptor and no enumerated offer payout exceeds the total |
| ChannelTerms.ReceivedTermsSignable | ddk-manager/src/channel_updater.rs:1337-1367 | what was read can be signed exactly when there are payouts, a function gives its payouts within the total, the threshold that is read lies between one and the number of oracles, and differences that matter are in order |
| ChannelCrossing.SettleBuildersAgree | ddk-manager/src/channel_updater.rs:2019-2075 | called with the roles swapped, the two ends build the same transaction or both panic on payouts below the dust limit, and each verifies exactly the other's signature |
| ChannelCrossing.CrossingSettleOffersRestore | ddk-manager/src/manager.rs:2496-2500 | crossing settle offers bring both ends back to where they were, under every delivery order |
| ChannelCrossing.CrossingRenewOffersRestore | ddk-manager/src/manager.rs:2660-2666 | so do crossing renewal offers, but for the note of the rejected contracts |
| ChannelCrossing.StalledForever | ddk-manager/src/channel_updater.rs:1388-1440 | after a renewal that its offerer cannot confirm was accepted, no call and no message moves either end |
| ChannelCrossing.OfferFlagsTellApart | ddk-manager/src/channel_updater.rs:1806-1818 | the offer flags of two established ends differ exactly on the contract of the channel's setup |
| ChannelExchanges.SettleExchangeCompletes | ddk-manager/src/channel_updater.rs:591-1082 | an undisturbed settlement ends settled at both ends, on the asked payouts and one transaction, exactly when the payout fits the collateral and one of the two payouts is not below the dust limit; otherwise it gets no answer, or stays held because accepting it panics |
| ChannelExchanges.RenewExchangeCompletes | ddk-manager/src/channel_updater.rs:1102-1819 | an undisturbed renewal ends established at both ends on one buffer transaction exactly when its terms can be written, read and signed, its payout fits the collateral and both ends sign alike; otherwise it is not sent, ignored, held or stalled, by cases |
| ChannelExchanges.RejectedSettleRestores | ddk-manager/src/channel_updater.rs:1086-1097 | a settlement that is offered, held and rejected leaves both ends as they were |
| ChannelExchanges.RejectedRenewalRestores | ddk-manager/src/channel_updater.rs:1824-1841 | so does a renewal, but for the note of the rejected contract, at one end as it was asked for and at the other as it was read |
| ChannelExchanges.RenewalLeavesRollBack | ddk-manager/src/channel_updater.rs:1806-1818 | right after a renewal the accepting end refuses every close offer, the offering end only those above the collateral |
| ChannelExchanges.RollBackLeftOver | ddk-manager/src/channel_updater.rs:1806-1818 | a stable end carries a rollback exactly when the last step completed a renewal it had accepted, or left a stable end with one alone |
| ChannelExchanges.LeftOverOnlyAtAccepter | ddk-manager/src/channel_updater.rs:1935-1941 | in every reachable stable state with a rollback the end accepted the renewal it is established in, and refuses every close offer |
| ChannelRuns.UnsentTermsStall | ddk-manager/src/channel_updater.rs:1245-1253 | from the setup of a channel, a renewal whose payout fits stalls on its flags, on an accept payout that is not the rest of the total, and on a threshold of two for a single oracle; with none of these it completes |
| ChannelRuns.DustSettlementIsHeld | dlc/src/channel/mod.rs:195-221 | on collaterals 1500 and 0, a settlement of 700 is held and cannot be accepted |
| ChannelClose.ForceClosePublishes | ddk-manager/src/manager.rs:3414-3472 | from every state of the protocol a force close succeeds after at most one unwinding and publishes the agreed transaction of the current points, whose signature decrypts |
| ChannelClose.ForceCloseRecord | ddk-manager/src/channel_updater.rs:2175-2186 | a published buffer leaves a closing channel that names the contract signed on that buffer, which is confirmed, and no longer watches it; a published settle transaction closes the channel for the one who initiated it and drops its registrations; all else stays |
| ChannelClose.ForceCloseIsSafe | ddk-manager/src/manager.rs:3453-3466 | the secret of the published transaction was disclosed exactly when the state is `SettledConfirmed` |
| ChannelClose.ForceCloseAfterConfirmIsPunished | ddk-manager/src/manager.rs:3453-3466 | in that case the counterparty punishes it, at the latest after the message in flight, exactly when the buffer is that of the setup or the counterparty offered the renewal that made it; otherwise the punishment is refused |
| ChannelClose.PunishmentWorks | ddk-manager/src/manager.rs:3137-3279 | a revoked transaction is punished exactly when its secret is stored, which only a finalized renewal still waits on, and the recorded offer flag leads to the counterparty's money; with no output below the dust limit that is when the flag is right by history |
| ChannelClose.PunishableIff | dlc/src/channel/mod.rs:403-560 | a punishment comes about exactly when the flag orders the keys as the buffer does, or selects the counterparty's output of the settle transaction |
| ChannelClose.RecordedFlagIsRight | ddk-manager/src/manager.rs:2754-2776 | a settlement writes the right flag over the setup's buffer and at the end that offered a renewed one; a renewal writes the right one at the end that did not offer what it replaces |
| ChannelRuns.RenewedBufferPunished | ddk-manager/src/manager.rs:2754-2776 | after a renewal the replaced buffer is punished at exactly the end that did not offer it |
| ChannelRuns.SetupBufferUnpunished | ddk-manager/src/manager.rs:2857-2860 | on the run of one renewal, the end that offered the channel cannot punish the setup's buffer |
| ChannelRuns.ConfirmAfterRenewalUnpunished | ddk-manager/src/manager.rs:2568-2580 | an end that offered a renewal and then a settlement can force close on the disclosed buffer unpunished |
| ChannelClose.CounterpartyIsWatched | ddk-manager/src/manager.rs:2895-2909 | what the other end can force close with is watched, except by an end that confirmed a renewal which the other finalized |
| ChannelClose.SeeingTheBuffer | ddk-manager/src/manager.rs:3109-3136 | seeing the current buffer panics exactly in the states without a contract identifier, and the closing record names the contract of that buffer exactly when no renewal is under way |
| ChannelClose.SeeingTheNewBuffer | ddk-manager/src/manager.rs:3109-3136 | seeing the buffer of a finalized renewal closes on its contract |
| ChannelClose.SeeingEndsTheChannel | ddk-manager/src/manager.rs:3085-3400 | each kind of watched transaction ends the channel in its own way, exactly when what that needs is there, or changes nothing; secrets, points, index and all contracts but the one concerned stay |
| ChannelClose.CetEndsTheClose | ddk-manager/src/manager.rs:3327-3390 | the CET that spends the buffer of a force close ends the channel for the one who initiated it and pre-closes exactly the contract of that buffer |
| ChannelClose.CloseOfferNeedsStableState | ddk-manager/src/channel_updater.rs:1845-1917 | after a close offer, a force close panics exactly when the offer was made from within a negotiation |
| ChannelClose.CollaborativeCloseProfitsCancel | ddk-manager/src/manager.rs:3280-3313 | a held close is accepted exactly when the offer added no inputs and a payout is not below the dust limit; both ends then record the payouts of the transaction less their collaterals, which cancel out |
| ChannelClose.CollaborativeCloseTxAgrees | ddk-manager/src/channel_updater.rs:1921-2016 | the accepting end holds the offered transaction exactly when the offer added no inputs, and broadcasts it exactly when it also has an output |
| ChannelWorld.WorldRefinesOpenSystem | ddk-manager/src/manager.rs:3414-3472 | every run in which ends leave the protocol is, for the ends still in it, a run without closes |
| ChannelWorld.ForceCloseNeverPunished | ddk-manager/src/manager.rs:3414-3472 | in no later state does the counterparty hold the secret of a transaction force closed from outside `SettledConfirmed` |
| Lagrange.Evaluate | ddk-manager/src/payout_curve.rs:319-339 | the nested loop computes the sum of the basis terms, and has no value exactly when two outcomes are equal |
| Lagrange.SumAtPoint | ddk-manager/src/payout_curve.rs:319-339 | that sum takes the given value at each point |
| Lagrange.ReproducesPolynomials | ddk-manager/src/payout_curve.rs:302-340 | points of a polynomial with no more coefficients than points give that polynomial back, everywhere |
| Lagrange.SamePolynomialFromOtherPoints | ddk-manager/src/payout_curve.rs:302-340 | the curve does not depend on which of its points it is given by, nor on their order |
| Lagrange.TwoPointsGiveALine | ddk-manager/src/payout_curve.rs:306-317 | for two points the sum is the linear form |
| PayoutCurve.NewPolynomial | ddk-manager/src/payout_curve.rs:285-298 | accepts exactly two or more points with ascending outcomes |
| PayoutCurve.ValidatesIff | ddk-manager/src/payout_curve.rs:45-97 | a function validates exactly when its pieces meet and lead from zero to the largest value; without pieces it panics |
| PayoutCurve.PassesThroughPoints | ddk-manager/src/payout_curve.rs:302-340 | the curve passes through each of its points, with the extra precision when there are more than two |
| PayoutCurve.ShortcutEqualsLoop | ddk-manager/src/payout_curve.rs:306-317 | the shortcut for two points equals the loop at all outcomes exactly when both extra precisions are zero |
| PayoutCurve.InterpolatesPolynomials | ddk-manager/src/payout_curve.rs:302-340 | with more than two points the evaluation is the polynomial the points lie on |
| PayoutCurve.TwoPointsStayBetween | ddk-manager/src/payout_curve.rs:306-317 | between two points the value stays between their payouts |
| PayoutCurve.HyperbolaIsItsBranch | ddk-manager/src/payout_curve.rs:462-474 | for any square root, a hyperbola evaluates to exactly the value of its curve at the outcome, on the branch that the piece chooses, where there is one |
| PayoutCurve.HyperbolaHasValue | ddk-manager/src/payout_curve.rs:462-474 | there is no value exactly where `a` is zero, the discriminant is negative, or a degenerate curve is asked for its other half |
| PayoutCurve.ValidateIntervals | ddk-manager/src/payout_curve.rs:540-566 | accepts exactly intervals that begin at zero and strictly ascend |
| PayoutCurve.BinarySearch | ddk-manager/src/payout_curve.rs:516-519 | finds the interval that starts at the outcome, or where it would be inserted |
| PayoutCurve.Round | ddk-manager/src/payout_curve.rs:515-536 | rounds by the modulus of the last interval that starts at or before the outcome; the unreachable arm is dead |
| PayoutCurve.RoundsToNearestMultiple | ddk-manager/src/payout_curve.rs:526-535 | the result is the multiple of the modulus within half a modulus, the larger one on a tie |
| PayoutCurve.NegativeRoundsToZero | ddk-manager/src/payout_curve.rs:525-535 | a negative value rounds to zero |
| PayoutCurve.AcceptedExactlyInRange | ddk-manager/src/payout_curve.rs:163-180 | a value is accepted exactly in [0, total + 1/2) |
| PayoutCurve.AcceptedIsClose | ddk-manager/src/payout_curve.rs:163-188 | an accepted payout is in [0, total] and within half a modulus of the curve, also after clamping |
| PayoutCurve.RoundingIsMonotone | ddk-manager/src/payout_curve.rs:163-188 | rounding and clamping keep the order of values at one outcome |
| PayoutCurve.UnitModulusRoundsToInteger | ddk-manager/src/payout_curve.rs:484-486 | a modulus of one means that no rounding but that to an integer takes place |
| RangePayouts.EvaluateAt | ddk-manager/src/payout_curve.rs:302-340 | evaluates a piece by shortcut, loop or hyperbola formula; what these give is `Lagrange.SumAtPoint`, `PayoutCurve.ShortcutEqualsLoop` and `PayoutCurve.HyperbolaIsItsBranch` |
| RangePayouts.GetRoundedPayout | ddk-manager/src/payout_curve.rs:163-188 | evaluates, checks, rounds and clamps |
| RangePayouts.RangeVector.GetCurRange | ddk-manager/src/payout_curve.rs:194-217 | takes the last range off the vector, or opens one at the first outcome of the piece |
| RangePayouts.RangeVector.ComputeRangePayouts | ddk-manager/src/payout_curve.rs:229-269 | the loop adds the outcomes of a piece one by one |
| RangePayouts.RangeVector.AddPiece | ddk-manager/src/payout_curve.rs:350-368 | takes the shortcut on constant pieces and the loop on all others |
| RangePayouts.ToRangePayouts | ddk-manager/src/payout_curve.rs:100-110 | adds the pieces in order and stops at the first error |
| RangePayouts.RangesTile | ddk-manager/src/payout_curve.rs:100-110 | the ranges follow each other from the first outcome to the last without gap or overlap, neighbours differ, and offer and accept payouts sum to the total |
| RangePayouts.NewFunctionIsProper | ddk-manager/src/payout_curve.rs:32-42 | what the constructor accepts is what the theorems on ranges ask for, exactly when it ends below the largest outcome |
| RangePayouts.ValidatedFunctionIsTiled | ddk-manager/src/payout_curve.rs:45-97 | for a function that validates up to a largest value, the ranges tile the outcomes from zero to it: none is missing and none is covered twice |
| RangePayouts.EncodingIsUnique | ddk-manager/src/payout_curve.rs:250-263 | a sequence of payouts has only one such encoding |
| RangePayouts.RangesRepresentCurve | ddk-manager/src/payout_curve.rs:100-110 | if constant pieces agree with their joints, the ranges exist exactly when every outcome has a rounded payout, and list it at every outcome |
| RangePayouts.RangesRepresentCurveOnlyIf | ddk-manager/src/payout_curve.rs:350-368 | if the ranges list the rounded payout at every outcome, all constant pieces agree with their joints |
| RangePayouts.RangesAreCanonical | ddk-manager/src/payout_curve.rs:100-110 | any encoding of the rounded payouts is the one computed |
| RangePayouts.ShortcutRefinesLoop | ddk-manager/src/payout_curve.rs:350-368 | on one piece the shortcut and the loop give equal ranges exactly when the constant rounds to the payout of the joint throughout |
| RangePayouts.ShortcutCanMissInterval | ddk-manager/src/payout_curve.rs:356-365 | a constant piece over two rounding intervals on which it does not |
| RangePayouts.SingleIntervalAgrees | ddk-manager/src/payout_curve.rs:350-368 | with one rounding interval and no extra precision in shared points, polynomial functions always agree |
| RangePayouts.ConstantsAgreeByIntervals | ddk-manager/src/payout_curve.rs:350-368 | constant pieces agree with their joints exactly when every rounding interval in force on such a piece rounds its constant to the payout of the joint |
| RangePayouts.PiecewiseLinearSucceeds | ddk-manager/src/payout_curve.rs:163-188 | piecewise linear functions with points in [0, total] never give an error |
| RangePayouts.LargestOutcomeIsDropped | ddk-manager/src/payout_curve.rs:242-242 | a piece that ends at the largest outcome leaves it out unless it is constant |
| Codecs.BigSizeIff | dlc-messages/src/ser_impls.rs:28-81 | reading accepts exactly the minimal encodings and leaves what follows |
| Codecs.VecRoundTripIff | dlc-messages/src/ser_impls.rs:314-348 | a vector comes back exactly up to the largest size, above it reading fails |
| Codecs.VecCanonical | dlc-messages/src/ser_impls.rs:331-348 | with canonical elements only written vectors are accepted |
| Codecs.VecU16RoundTrip | dlc-messages/src/ser_impls.rs:376-408 | a vector with a 16-bit length loses its length modulo 65536, so it comes back exactly below that |
| Codecs.OptionIff | dlc-messages/src/ser_impls.rs:441-473 | an option is read exactly where its encoding stands |
| Tlv.ReadAsTlvIff | dlc-messages/src/ser_impls.rs:742-763 | a record is read exactly where a header of its type frames a body that the body reader uses up, and the rest of the stream is untouched |
| Tlv.FromTlvIff | dlc-messages/src/ser_impls.rs:671-678 | the bytes of a record are accepted exactly when nothing but such a framed body is there |
| Tlv.TlvRoundTrip | dlc-messages/src/ser_impls.rs:653-678 | reading inverts writing, also within a stream |
| Tlv.TlvCanonical | dlc-messages/src/ser_impls.rs:671-678 | with a canonical body only the written bytes are accepted |
| Tlv.TlvPrefixFree | dlc-messages/src/ser_impls.rs:671-678 | of two accepted byte strings neither is a proper prefix of the other, whatever the body reader |
| Tlv.WrongTypeRefused | dlc-messages/src/ser_impls.rs:742-748 | a record of another type is refused |
| Tlv.StreamRoundTrip | dlc-messages/src/ser_impls.rs:727-749 | records written one after the other are read one after the other |
| Tlv.LegacyFallback | dlc-messages/src/ser_impls.rs:708-718 | a bare body comes back unless it is itself framed as a record of its type that reads as another value; records always come back |
| Wire.Writer.PutBigSize | dlc-messages/src/ser_impls.rs:29-47 | appends the minimal encoding |
| Wire.Writer.PutVec | dlc-messages/src/ser_impls.rs:314-327 | appends length and elements |
| Wire.Writer.PutVecU16 | dlc-messages/src/ser_impls.rs:376-389 | appends the length cut to 16 bits and the elements |
| Wire.Writer.PutAsTlv | dlc-messages/src/ser_impls.rs:727-734 | appends type, length and body |
| Wire.Reader.BigSize | dlc-messages/src/ser_impls.rs:49-81 | reads a BigSize off the stream |
| Wire.Reader.Vec | dlc-messages/src/ser_impls.rs:331-348 | reads a vector off the stream, element by element |
| Wire.Reader.VecU16 | dlc-messages/src/ser_impls.rs:394-408 | reads a vector with a 16-bit length off the stream |
| Wire.Reader.TlvBody | dlc-messages/src/ser_impls.rs:756-763 | reads a body through a window of the declared length and requires all of it to be used |
| Wire.Reader.AsTlv | dlc-messages/src/ser_impls.rs:742-749 | reads a record off the stream |
| Wire.ReadTlvOrLegacy | dlc-messages/src/ser_impls.rs:708-718 | reads a record, or else a bare body |
| Wire.ReadHashMap | dlc-messages/src/ser_impls.rs:785-799 | inserts the entries as they are read |
| Wire.MapRoundTrip | dlc-messages/src/ser_impls.rs:766-799 | a map comes back from every order in which it can be written |
| OfferMessage.ReadOffer | dlc-messages/src/lib.rs:427-478 | reads five bytes ahead and decides between the two formats |
| OfferMessage.OfferRoundTripIff | dlc-messages/src/lib.rs:404-478 | an offer comes back exactly when its protocol version is between 1 and 10 |
| OfferMessage.OldFormatIsRead | dlc-messages/src/lib.rs:441-459 | the older format is read field by field as version 1 when its first four bytes are no version, and as the present format otherwise |
| Conversions.FunctionRoundTripIff | ddk-manager/src/conversion_utils.rs:324-420 | a payout function comes back from its wire form exactly when it is continuous |
| Conversions.SerFunctionRoundTrip | ddk-manager/src/conversion_utils.rs:372-420 | every wire function with pieces comes from a continuous function |
| Conversions.GetContractInfoAndAnnouncements | ddk-manager/src/conversion_utils.rs:105-218 | converts the infos in order and stops at the first error |
| Conversions.OracleInfos | ddk-manager/src/conversion_utils.rs:246-280 | one oracle entry for each contract info |
| Conversions.InfoRoundTripIff | ddk-manager/src/conversion_utils.rs:105-420 | a contract info comes back exactly when its payouts share out the total, its function is continuous, its digits are those announced, a single oracle has threshold 1 and no difference parameters, and 16 bits suffice |
| Conversions.ContractRoundTripIff | ddk-manager/src/conversion_utils.rs:105-280 | a contract comes back, in the single and the disjoint form, exactly when each of its infos is well formed |
| Conversions.InnerRoundTripIff | ddk-manager/src/conversion_utils.rs:105-322 | a wire info that can be read is written again as it was exactly when it has its oracles in the shortest form, difference parameters with numbers only, and the least number of digits |
| Conversions.SerContractRoundTripIff | ddk-manager/src/conversion_utils.rs:105-280 | so is a wire contract, which also has to use the single form for a single info |
| ChainMonitors.ChainMonitor.Add | ddk-manager/src/chain_monitor.rs:81-102 | registers the transaction anew, and for a buffer transaction its output |
| ChainMonitors.ChainMonitor.CleanupChannel | ddk-manager/src/chain_monitor.rs:109-115 | drops exactly the entries of the channel |
| ChainMonitors.ChainMonitor.RemoveTx | ddk-manager/src/chain_monitor.rs:117-119 | drops the transaction and keeps its output |
| ChainMonitors.ChainMonitor.ProcessBlock | ddk-manager/src/chain_monitor.rs:126-142 | confirms in the order of the block, and refuses every height but the next |
| ChainMonitors.ChainMonitor.CatchUp | ddk-manager/src/manager.rs:505-527 | processes the blocks up to the current height in order, as far as they can be fetched |
| ChainMonitors.CatchUpIsHistory | ddk-manager/src/manager.rs:505-527 | catching up after any history is that history continued by every block in between, in ascending height |
| ChainMonitors.CatchUpConfirms | ddk-manager/src/manager.rs:505-527 | so every entry not seen yet is confirmed by the first transaction in those blocks that hits it, and the others stay |
| ChainMonitors.HistoryTheorem | ddk-manager/src/chain_monitor.rs:81-157 | an entry exists exactly while its latest registration was not ended, and is confirmed, by the first such transaction, exactly when a block since then contained what it watches |
| ChainMonitors.ConfirmedTxsAreTheHits | ddk-manager/src/chain_monitor.rs:145-157 | the manager is told exactly of those |
| ChainMonitors.ChainMonitor.ConfirmedTxs | ddk-manager/src/chain_monitor.rs:145-157 | gives exactly the transactions of the entries that were seen |
| ChainMonitors.HeightCountsBlocks | ddk-manager/src/chain_monitor.rs:126-142 | the height advances by one with each block |
| ContractManagers.Manager.CheckSignedContract | ddk-manager/src/manager.rs:824-862 | confirms a signed contract whose funding is deep enough |
| ContractManagers.Manager.CloseWithCet | ddk-manager/src/manager.rs:1440-1505 | broadcasts, pre-closes or closes by the confirmations of the CET |
| ContractManagers.Manager.CheckPending | ddk-manager/src/manager.rs:1149-1221 | the loop over pending closes stops at the first mined one |
| ContractManagers.Manager.CheckAndBroadcastRefund | ddk-manager/src/manager.rs:1509-1563 | refunds a confirmed contract after its lock time, broadcasting the refund where it is not mined |
| ContractManagers.Manager.CheckRefundOf | ddk-manager/src/manager.rs:1566-1598 | marks a mined refund, or broadcasts it if so configured |
| ContractManagers.Manager.CheckConfirmedContract | ddk-manager/src/manager.rs:1080-1226 | tries the CET, then the pending closes, then the refund |
| ContractManagers.Manager.CheckPreClosedContract | ddk-manager/src/manager.rs:1343-1437 | closes, broadcasts again, or moves back to confirmed |
| ContractManagers.Manager.CheckForSplicedContract | ddk-manager/src/manager.rs:884-963 | pre-closes the contracts that a known splice spends |
| ContractManagers.Manager.Check | ddk-manager/src/manager.rs:532-537 | the four checks in order, which keep every change allowed |
| ContractLifecycle.EveryUpdateIsAllowed | ddk-manager/src/manager.rs:824-1598 | over every run the store is the result of logged changes, each of them allowed. A contract is pre-closed only by its CET, given or passed in, that is mined or was just sent, by a cooperative close mined or accepted, or by the known funding of a stored splice; closed only from confirmed or pre-closed by the deep one of these; refunded only from confirmed, after its lock time, by a mined refund or one sent for the settings or a caller; and back to confirmed only from an unattested pre-close whose transaction was dropped and refused. Closed and refunded contracts never change |
| ContractLifecycle.OneCheckSettles | ddk-manager/src/manager.rs:532-537 | in a steady world one check, although it asks in turn and works on listings of its own, makes of each contract what that contract alone calls for: pre-closed by the first known splice, confirmed, closed, pre-closed or refunded by the first decisive transaction, or moved back; and where a splice stops the check, nothing but the splices before it happens |
| ContractLifecycle.CallsTakeEffect | ddk-manager/src/manager.rs:1230-1803 | a call changes exactly the confirmed contract it names, to what the world's answers make of it |
| ContractLifecycle.CallsAreNoted | ddk-manager/src/manager.rs:1230-1803 | every call of a run is in its history |
| ContractLifecycle.ClosedStaysDeep | ddk-manager/src/manager.rs:1176-1205 | a closed contract stays closed by a transaction that every later answer shows with at least max(NB_CONFIRMATIONS, 1) confirmations |
| ContractLifecycle.RefundOverwritesClosed | ddk-manager/src/manager.rs:1149-1226 | with both a close and the refund mined, one check closes a contract and then marks it refunded |
| ContractLifecycle.DeepCloseIsRecorded | ddk-manager/src/manager.rs:1343-1437 | one check closes every pre-closed contract whose closing transaction is deep enough |

## Left out

- Elliptic curves, hashes, signature schemes and key derivation: terms, as described above.
- Transaction building, fees, output ordering, lock times, the trie and adaptor infos: a transaction is an injective term of what identifies it.
- Channel setup and the offered, accepted and failed contract states: the channel model starts when the channel is signed and its first contract is confirmed.
- Contract identifiers: temporary and final identifiers are one, and those of renewals are told apart by the update index at which they were offered.
- Contract terms in renewals: one contract info. The payouts of a numerical one come with it and are kept by its wire form, for functions that the constructors accept; which functions do come back is `Conversions.FunctionRoundTripIff`, and what their payouts are is `RangePayouts`. Combinations of oracles stand for the tries built from them.
- Timeouts of pending updates: they end in a force close, which can happen at any moment in the model.
- `keys_id`, peer timestamps and references, and the message fields that no handler of the model checks.
- The secret store: the compact storage and its consistency check against earlier secrets are a map with consecutive indices.
- The closing state machine after a published buffer transaction, CETs and punishment transactions: what is modelled ends with the publication and with the decision to punish.
- Spends of a buffer's output in the channel model: no transaction of the model is a CET, so `WatchedTxSeen` says what one does but no run sees it; the chain monitor covers the registration.
- Crossing of a settle offer with a renewal offer: both ends return errors and wait for the timeout, so nothing is claimed about convergence.
- Accepting an own renewal offer, and offering a close from within a negotiation: the code does not refuse either, so both are conditions on the local caller.
- `on_counterparty_close`: it stores a contract value that its caller passes in.
- The lock time check before a manual close, and how attestations and CETs are found: what they give is an answer of the world in `ContractLifecycle`.
- Storage failures, and concurrent calls into the contract store.
- Chain reorganisations.
- Floating-point rounding: values are exact, and the square root is any function that is one.
- The width of `usize` in range counts.
- UTF-8 strings, addresses, signatures and floats on the wire, message segmentation and hexadecimal forms.
- The fields of an offer after its chain hash: one codec stands for them.
- `get_tx_input_infos`, locator and wallet plumbing, oracle clients, storage back ends, the node and its interfaces.
- SignedChannels.SignedChannel.ForceCloseChannel: does not model a refused broadcast of the published transaction, because it carries the fitting signatures of both ends; the network refuses it only once the fund output is spent.
- ChannelClose.PunishableIff: does not model fees, so a punished output that is worth less than the fee of punishing it is not told apart.
- RangePayouts.RangesRepresentCurve: speaks of functions that end below the largest outcome; `LargestOutcomeIsDropped` states the other case.
- ContractLifecycle.EveryUpdateIsAllowed: assumes that of two spends of one fund output at most one is ever mined, which is what the chain provides.
- ContractLifecycle.DeepCloseIsRecorded: assumes that queries are answered and that every spliced contract is stored, since the program stops the whole check otherwise.
