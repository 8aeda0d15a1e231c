# Custody, payments and signatures: a verified model

This project models the server side of a custodial payment platform and proves what its
value-moving code keeps. Consumers and merchants hold claims in a Vault contract, in USDC or in a
fiat currency backed by treasury tokens. The server is the custodian: it credits and debits claims,
mints and sweeps treasury tokens, pays out ERC-20 inventory, and keeps its own rows (deposits,
escrow claims, sales, vouchers, settlement requests, withdrawals, spend events) beside the chain.
No step of this is transactional across the two, so most results are about what holds when handlers
interleave, transactions revert, or the process dies between any two steps.

How the files fit together:

- `Vault`, `Treasury`, `Flows`, `Handlers`: the ledger and its transactions, the minting rule, each
  flow as the list of transactions it sends, and the handlers proved to send exactly that list. A run
  of a list takes a number of transactions the process survives to send, so every crash point is
  covered by one quantifier.
- `Backing`, `CashIn`, `Escrow`, `Settlement`, `VoucherRuns`, `Withdrawals`: small-step machines over
  events, with invariants over every reachable state. `EscrowService`, `Fulfilment`, `Vouchers`,
  `SettlementDesk` and the classes inside the machine files are the same flows as code that changes its
  fields; `EscrowAlone`, `SettlementDesk`, `VoucherRuns` and `CashIn` show that a handler run alone is a
  run of the machine. `EscrowAlone` also has the runs in which crashes cost most.
- `OneTimeStore`: the in-memory challenge, nonce and prepared-transfer maps, compared with a store
  that never sweeps.
- `Indexer`: the chunked, restartable projection of chain logs into a table.
- `Bytes`, `Utf8`, `Base64Url`, `Keys`, `Der`, `ClientData`, `SafeSignature`: the passkey signature
  codec, against decoders written from RFC 4648, RFC 8259, X.690, Web Authentication Level 2, the
  Unicode Standard, the Solidity ABI specification and the Safe contract-signature layout.
- `KycSpend`, `Conversion`, `Fees`, `Catalog`, `GasReport`: spend limits under overlap, conversions,
  withdrawal fees, the catalogue merge, the gas report as a partition.
- `Sums`, `Wrappers`: finite sums, and values that may be absent.

Where the code departs from what one would expect, the model keeps the code and states the exact
condition:

- Two top-ups that read the same treasury float use more of it than there is exactly when the spare
  float is positive and below the two amounts together (`Backing.OverlappingTopUps`); where the user
  tables name every claim holder once and all claims are backed, that leaves claims unbacked
  (`Backing.OverlapUnbacks`, `Backing.OverlapExample`). Handlers that read the float therefore run
  alone in `Backing`; all others interleave.
- A FIAT settlement debits the request's currency and sweeps the token of the merchant's country; it
  keeps every margin exactly when the two agree (`Flows.SettlementNeedsHomeCurrency`).
- Escrow covers its pending rows exactly when the debits made for rows that were never updated do not
  exceed the value no row refers to (`Escrow.EscrowConservation`), and can pay for those not yet debited
  exactly when this holds of the debits of handlers that died (`Escrow.EscrowCoversAll`). One handler
  that dies at the wrong moment is enough for it to fail (`EscrowAlone.CrashLeavesShort`), and for any
  number of them the payee is paid so many times too often (`EscrowAlone.PaidOnceIsReached`).
- The merchant's products may hold one external id twice: nothing makes it unique, and the sync's look-up
  has no order, so a duplicated id resolves to whichever row the database returns. The outcome of a sync,
  and a second sync changing nothing, are independent of that choice exactly when no writable item of
  the feed would change an API row that shares its id (`Catalog.LookUpsMatterIff`,
  `Catalog.SecondSyncIff`, `Catalog.SharedIdChangesLate`).
- After the pair check has passed, the conversion dispatcher's last line is still reached when one code
  is the empty string, and only then (`Conversion.EmptyCodeSlipsThrough`, `Conversion.LastThrowIff`).
- A passkey assertion laid out as the standard says is refused exactly when its origin or a later
  member carries a raw U+2028 or U+2029, or a later member a line break
  (`ClientData.AuthenticatorOutputSplits`).
- The gas report counts more rows than its header exactly when one transaction pays for two sales
  (`GasReport.HeaderCountAgrees`, `GasReport.TwoSalesCountTwice`).
- Sweeping is visible to a caller exactly when it asks for a key that is still live and was swept out since
  it was last stored, which needs a clock that is set back (`OneTimeStore.SweepVisibleIff`,
  `OneTimeStore.LazyExpiryInvisible`).
- With k sends outstanding the daily and the monthly limit can be exceeded, by k - 1 sends and no more
  (`KycSpend.LimitsWithOverlap`); with a monthly limit of one to 28 daily limits both bounds are reached
  (`KycSpend.OverlapReachesBound`).

## Model

| member | source | states |
|---|---|---|
| Vault.ExecuteMargin | src/Vault.sol:263-300 | A credit, debit, mint, sweep or withdrawal that lands changes reserve minus claims of each currency by its stated effect and by nothing else |
| Vault.RevertsIff | src/Vault.sol:263-300 | For each of the five operations exactly when it reverts |
| Vault.TransferMargin | src/Vault.sol:305-330 | A user's transfer moves a claim and leaves every margin as it was |
| Vault.TransferMoves | src/Vault.sol:305-330 | A transfer moves its amount between two claims, also of one wallet, and nothing else; it reverts exactly when the amount is zero or not held |
| Vault.RunMargin | server/src/escrowService.ts:78-91 | Wherever a list of transactions stops, the margin has fallen by at most the list's worst prefix |
| Treasury.ClaimsCovered | server/src/treasuryService.ts:143-155 | The listed user wallets plus the claims outside both tables cover all claims, exactly so when no wallet is listed twice |
| Treasury.MintIsLeast | server/src/treasuryService.ts:166-184 | The mint is the least that keeps the listed claims backed after the credit, or keeps a shortfall from growing |
| Treasury.TopUpNeed | server/src/treasuryService.ts:166-184 | A top-up planned on the float it read needs no margin beyond the claims held outside the user tables, and none in another currency |
| Treasury.TreasuryService.SumAllUserFiatClaims | server/src/treasuryService.ts:143-155 | The loop returns the sum of the claims of the consumer and merchant rows |
| Treasury.TreasuryService.UnallocatedTreasuryBacking | server/src/treasuryService.ts:158-164 | Vault tokens not taken up by listed claims, never negative |
| Treasury.TreasuryService.CreditFiatWithTreasuryBacking | server/src/treasuryService.ts:170-184 | Sends the mint of the shortfall, if any, and then the credit, stopping at the first that fails |
| Treasury.TreasuryService.SweepTreasuryFromVault | server/src/treasuryService.ts:187-208 | One sweep, refused when the Vault holds too few tokens |
| Treasury.TreasuryService.WithdrawToExternal | server/src/treasuryService.ts:232-241 | One withdrawal: claim and inventory fall and the destination receives, or nothing happens |
| Flows.DestroyBeforeCreate | server/src/withdrawalService.ts:328-338 | Release, cash-in, settlement and withdrawal never lower any margin, whatever transaction they stop at |
| Flows.SettlementNeedsHomeCurrency | server/src/settlement.routes.ts:82-93 | A FIAT settlement keeps all margins if and only if it sweeps the currency it debits |
| Flows.WithdrawalCompletes | server/src/withdrawalService.ts:328-338 | On completion the sender has lost the gross amount, the destination has the net and the treasury the fee; nobody else has moved |
| Flows.VoucherCompletes | server/src/changeVoucherService.ts:80-104 | The consumer gains the amount, the merchant's own claim pays what it can, the treasury issues at most the rest and no other claim moves, also when merchant and consumer are the same wallet |
| Flows.ReleaseCompletes | server/src/fulfilmentService.ts:83-86 | A finished release moved the amount from escrow to the payee and changed nothing else |
| Flows.CashInCompletes | server/src/cashInService.ts:23-55 | A finished cash-in issued the amount, credited it and changed nothing else |
| Flows.FiatSettlementCompletes | server/src/settlement.routes.ts:82-88 | A finished FIAT settlement took the merchant's claim and the swept tokens and changed nothing else |
| Flows.OnchainSettlementCompletes | server/src/settlement.routes.ts:88-93 | A finished on-chain settlement took the merchant's claim out of claims and inventory to the destination and changed nothing else |
| Flows.FiatToUsdCompletes | server/src/conversionService.ts:130-138 | A finished sale of fiat took exactly the fiat, gave exactly the USDC and touched no reserve |
| Flows.UsdToFiatCompletes | server/src/conversionService.ts:198-200 | A finished purchase of fiat took exactly the USDC, gave exactly the fiat and issued only what the float was short |
| Backing.BackingOverRuns | server/src/treasuryService.ts:143-184 | In every reachable state fiat claims exceed the Vault's treasury tokens by at most the high-water mark of claims outside the user tables; each handler sends the transactions its method in `Handlers` is proved to send |
| Backing.FullyBacked | server/src/treasuryService.ts:143-184 | From any covered start with no handler running, on runs where that mark is zero, the Vault's tokens cover every claim |
| Backing.BeginsIff | server/src/treasuryService.ts:170-184 | Which handlers may begin beside which, and what a new one has to send |
| Backing.RequestAlone | server/src/conversionService.ts:107-203 | Begun at rest, each request sends the transactions of its handler, given here one by one, up to any point of death |
| Backing.RequestCompletes | server/src/conversionService.ts:198-200 | Each of the eight requests that passes its checks and is left alone changes every claim and pays out what it is named for: a purchase of f for u takes u USDC from the wallet and gives it f of the currency, and so on for each |
| Backing.EmptyIsCovered | server/src/treasuryService.ts:143-184 | The empty ledger is a covered start |
| Backing.OverlappingTopUps | server/src/treasuryService.ts:170-184 | For any tables and claims, two top-ups on one reading of the float each take the smaller of float and amount from the margin, together more than the float if and only if it is positive and below both amounts together |
| Backing.OverlapUnbacks | server/src/treasuryService.ts:170-184 | From a fully backed ledger whose claim holders are all listed once they leave claims unbacked if and only if that is so |
| Backing.OverlapExample | server/src/treasuryService.ts:170-184 | A float of 10 and two top-ups of 10 |
| Handlers.Backend.ReleaseEscrow | server/src/fulfilmentService.ts:83-86 | Sends the debit of escrow and then the credit of the payee; succeeds if and only if both landed |
| Handlers.Backend.ExecuteTransfer | server/src/changeVoucherService.ts:80-104 | Sends the top-up of the shortfall if the merchant is short, the debit and the credit, in this order, and no more after a failure |
| Handlers.Backend.ConvertFiatToUsd | server/src/conversionService.ts:107-138 | Sends the fiat debit and the USDC credit if and only if amount, rate and result are positive, the holder has the fiat and the Vault the USDC; otherwise returns false and changes nothing |
| Handlers.Backend.ConvertUsdToFiat | server/src/conversionService.ts:175-203 | Sends the USDC debit and then the backed fiat credit, whose mint is what the float before the debit requires, if and only if amount, rate and result are positive and the holder has the USDC; otherwise changes nothing |
| Handlers.Backend.ExecuteSettlement | server/src/settlement.routes.ts:51-93 | Sends debit and sweep on the fiat rail, the withdrawal otherwise, if and only if the merchant holds the amount; otherwise changes nothing |
| Handlers.Backend.PayWithdrawal | server/src/withdrawalService.ts:309-338 | Sends the net withdrawal and the two legs of a positive fee if and only if the sender holds the gross amount and the Vault the net; otherwise changes nothing |
| CashIn.OneMintPerReference | server/src/cashInService.ts:23-55 | Under any interleaving and crashes each reference is minted at most once, credited only after its mint, and the margin is above its start by exactly what is minted and not credited |
| CashIn.Deposits.CashIn | server/src/cashInService.ts:23-55 | A used reference changes nothing; a new one gets the row that belongs to the point the process reached |
| CashIn.RowMatchesLedger | server/src/cashInService.ts:23-55 | That row says what landed, claim and backing have moved by exactly that, and a completed row was minted and credited once |
| CashIn.CashInAlone | server/src/cashInService.ts:23-55 | One request alone is a run of the machine, for a used and a new reference and every point of death |
| Escrow.EscrowConservation | server/src/escrowService.ts:78-116 | In every reachable state escrow plus unrecorded debits is what pending rows promise plus loose value, so escrow covers the rows exactly when those debits fit the loose value |
| Escrow.EscrowCoversAll | server/src/escrowService.ts:78-116 | Whatever crashed, escrow can pay all pending rows of a currency not yet debited if and only if the value lost with dead handlers is within the loose value |
| Escrow.EscrowCanAlwaysPay | server/src/fulfilmentService.ts:83-104 | While what was lost in its currency is within the loose value, no release finds escrow short, however many are in flight and whatever crashed |
| Escrow.PaidOnce | server/src/escrowService.ts:71-116 | An item has been paid exactly once for its final status or the update in progress, and once for every handler that died after paying: at most once more than its handlers crashed, a sale at most once |
| Escrow.ClaimSettlement | server/src/escrowService.ts:71-116 | Without a crash a redeemed claim paid its redeemer alone, begun by the expiry, and a reclaimed one its sender alone, after it |
| Escrow.LatePaymentsGoBack | server/src/escrowService.ts:95-116 | Every payment of a claim begun after its expiry went to the sender, crashes included |
| Escrow.SaleSettlement | server/src/fulfilmentService.ts:88-190 | Paid means API success and exactly the merchant credited; refunded means API failure and exactly the consumer credited |
| Escrow.OutcomeIsFinal | server/src/fulfilmentService.ts:123-130 | A recorded API outcome is never changed and the API not called again |
| EscrowService.ReclaimTouches | server/src/escrowService.ts:95-116 | A reclaim pass changes only listed rows, from pending to reclaimed, and counts exactly those |
| EscrowService.ReclaimPaysAll | server/src/escrowService.ts:95-116 | With enough escrow and no crash every listed row is reclaimed and every sender gets exactly what was owed |
| EscrowService.OneDoorOpen | server/src/escrowService.ts:71-116 | A pending claim is at any time open either to its recipient or to a reclaim, and a settled one to neither |
| EscrowService.Claims.CreateClaim | server/src/escrowService.ts:44-57 | For seven days the claim is refused to everyone but the holder of secret and phone, from then on to all, and exactly then the sender can have it back; no other claim is touched |
| EscrowService.Claims.RedeemClaim | server/src/escrowService.ts:71-92 | Each refusal and its condition; the row becomes claimed exactly when both transactions landed |
| EscrowService.Claims.ReclaimExpiredClaims | server/src/escrowService.ts:95-116 | The loop over expired rows is the pass described above, counter included |
| EscrowAlone.RedeemAlone | server/src/escrowService.ts:71-92 | A redemption alone is a run of the machine: row and item, ledger and escrow agree wherever the process dies |
| EscrowAlone.ReclaimAlone | server/src/escrowService.ts:95-116 | So is one row of the reclaim pass |
| EscrowAlone.ProcessAlone | server/src/fulfilmentService.ts:108-190 | Processing a sale is the machine's process event and the API's answer, with the scheduled release where the machine stands |
| EscrowAlone.BackgroundAlone | server/src/fulfilmentService.ts:88-104 | The background release of that sale is the rest of the machine's handler |
| EscrowAlone.OpensItem | server/src/consumer.routes.ts:655-690 | A claim or sale comes into being exactly for a fresh id and a positive amount that loose value covers, with the event's kind, amount and currency, pending |
| EscrowAlone.SaleRuns | server/src/fulfilmentService.ts:88-190 | A sale from its opening to its end: API success pays the merchant exactly the amount, API failure the consumer, and with no consumer nothing leaves escrow |
| EscrowAlone.ClaimRuns | server/src/escrowService.ts:44-116 | A claim from its opening to its end: up to its expiry a redemption pays the redeemer the amount and a reclaim does nothing, after it a reclaim pays the sender and a redemption does nothing |
| EscrowAlone.CrashLeavesShort | server/src/escrowService.ts:78-91 | A redemption that dies after paying leaves escrow short of the pending rows |
| EscrowAlone.PaidOnceIsReached | server/src/escrowService.ts:78-91 | For every n there is a run with n crashes in which a claim is redeemed and paid n + 1 times |
| Fulfilment.FirstAnswerDecides | server/src/fulfilmentService.ts:108-190 | However often a sale is processed, the first API answer alone decides its one release |
| Fulfilment.Sales.ProcessSaleFulfilment | server/src/fulfilmentService.ts:108-190 | The new row, the scheduled release and the reply, for every state of the row |
| Fulfilment.Sales.ReleaseEscrowInBackground | server/src/fulfilmentService.ts:88-104 | The final status is recorded exactly when the release landed on a sale still waiting and the process lived on |
| Vouchers.AdmittedAmounts | server/src/changeVoucherService.ts:43-78 | Each refusal if and only if its condition holds; a product with one true denomination admits that amount alone, any other exactly the amounts from its minimum to its maximum |
| Vouchers.ChangeVouchers.PrepareChangeVoucher | server/src/changeVoucherService.ts:152-200 | Refused for a bad amount or product; else redeemable for fifteen minutes and expired from then on, no other voucher touched |
| Vouchers.ChangeVouchers.RedeemChangeVoucher | server/src/changeVoucherService.ts:284-340 | Each refusal and its condition; when all transactions landed and the process lived on, the consumer has gained the amount, the merchant paid what it held, the issue is bounded by the rest, and every later redemption is refused |
| Vouchers.ChangeVouchers.SendChangeVoucherToTag | server/src/changeVoucherService.ts:206-257 | Refused for a bad amount or product; else paid first and stored as claimed, beyond redemption, or not stored |
| VoucherRuns.PaidOncePerLoss | server/src/changeVoucherService.ts:284-340 | Over every run, interleaved with anything else on the ledger, a voucher has been paid exactly once for being claimed, or about to be, and once for every handler in the run that crashed between paying and recording |
| VoucherRuns.PaidToItsRecipient | server/src/changeVoucherService.ts:284-340 | A claimed voucher names the wallet of its last payment, and no payment of a voucher was begun after its expiry |
| VoucherRuns.ClosedIsFinal | server/src/changeVoucherService.ts:300-308 | A claimed or expired voucher is never changed and never paid again |
| VoucherRuns.RedeemAlone | server/src/changeVoucherService.ts:284-323 | A redemption alone is a run of the machine: ledger, row and payments agree wherever the process dies |
| VoucherRuns.SendAlone | server/src/changeVoucherService.ts:206-257 | A voucher sent to a tag is a run of the machine too: paid first, and stored as claimed exactly when everything landed and the process lived on |
| Settlement.MarginIsUnswept | server/src/settlement.routes.ts:51-101 | Over any run of requests, failures, crashes and retries, the margin has moved by exactly what was debited and not swept |
| Settlement.HomeSettlementsKeepMargin | server/src/admin.routes.ts:300-327 | With home-currency requests the margin is never below its start |
| Settlement.PayoutsCounted | server/src/admin.routes.ts:300-327 | A request is paid at most once more than handlers were lost after paying, exactly so once executed, and never without approval |
| Settlement.ClosedIsFinal | server/src/settlement.routes.ts:236-276 | Executed and rejected requests stay as they are whatever follows |
| Settlement.OnchainCreated | server/src/settlement.routes.ts:181-233 | A head-office request on chain is the creation followed by the payout |
| Settlement.OnchainApproved | server/src/settlement.routes.ts:236-266 | Approving a pending request on chain is the approval followed by the payout |
| SettlementDesk.Desk.Create | server/src/settlement.routes.ts:181-233 | Status of a new request by role and rail, and the payout it triggers |
| SettlementDesk.Desk.Approve | server/src/settlement.routes.ts:236-266 | Only a pending request is approved, and paid at once on chain; otherwise nothing changes |
| SettlementDesk.Desk.Reject | server/src/settlement.routes.ts:268-276 | Only a pending request is rejected |
| SettlementDesk.Desk.Execute | server/src/admin.routes.ts:300-327 | Only an approved or failed request is paid; it ends executed exactly when its whole plan landed and the process lived on, and approved when the process died |
| SettlementDesk.AttemptIs | server/src/settlement.routes.ts:51-101 | A short merchant fails the request with nothing sent; else the rail's transactions are sent and status and answer say whether all, some or not all before a death landed |
| SettlementDesk.PayAlone | server/src/admin.routes.ts:300-327 | A payout alone is a run of the machine on either rail: ledger and row agree for every point of death |
| Withdrawals.AtMostOncePerPrepare | server/src/withdrawalService.ts:186-212 | However handlers interleave, landed payouts of an intent never outnumber its prepares |
| Withdrawals.PreparesCounted | server/src/withdrawalService.ts:254-323 | Counted over the events of the run: an intent never prepared is never paid |
| Withdrawals.PayoutsAreCounted | server/src/withdrawalService.ts:308-338 | The payouts counted are exactly the landed payment events of handlers that had passed every check |
| Withdrawals.PreparedIsPaid | server/src/withdrawalService.ts:186-338 | Prepared, submitted, signed and paid undisturbed, an intent is paid once more and its row and challenge are gone |
| Withdrawals.WithdrawalService.PrepareWithdrawal | server/src/withdrawalService.ts:109-212 | The first failing check in order, or one row and one challenge for an intent whose fee and net make its gross |
| Withdrawals.RefusalsAre | server/src/withdrawalService.ts:109-186 | Each of the ten refusals if and only if its own check fails and those before it do not |
| Withdrawals.WithdrawalService.VerifyAssertion | server/src/webauthnService.ts:92-124 | Succeeds if and only if the challenge is the row's own and live and type and signature are good; the challenge is spent in the same step even if the signature then fails |
| Withdrawals.WithdrawalService.Authorise | server/src/withdrawalService.ts:263-307 | Each refusal if and only if its check is the first to fail: row, owner, passkey, its wallet, challenge, type and signature, counter; passed, the challenge is spent |
| Withdrawals.WithdrawalService.PayOut | server/src/withdrawalService.ts:308-338 | Refused, with nothing changed, if and only if a balance is short by now; otherwise the row goes, the transactions are sent, and an executed withdrawal moved exactly gross, net and fee |
| Withdrawals.WithdrawalService.SubmitWithdrawal | server/src/withdrawalService.ts:254-338 | Every answer with its condition, as an equivalence; money is sent if and only if the row is live and the caller's, the passkey its wallet's, the challenge that of exactly its intent and live, type and signature good, the counter not back and the balances enough |
| OneTimeStore.LazyExpiryInvisible | server/src/webauthnService.ts:27-46 | With a clock that never goes back no caller can tell the swept store from one that never sweeps |
| OneTimeStore.SweepVisibleIff | server/src/webauthnService.ts:27-46 | Whatever the clock does, a caller can tell the stores apart if and only if it asks for a key still live in the one that never sweeps and swept out since it was last stored, with or without a sweep |
| OneTimeStore.ClockSetBack | server/src/webauthnService.ts:36-46 | A run with the clock set back after a sweep is such a case |
| OneTimeStore.AcceptedOncePerIssue | server/src/authNonce.ts:13-35 | Whatever the clock does, a key is accepted at most once per time it was stored |
| OneTimeStore.EntryLasts | server/src/webauthnService.ts:27-46 | An entry is answered up to the end of the lifetime it was stored with and not after, by each kind of store and question |
| OneTimeStore.AcceptedInTime | server/src/authNonce.ts:13-35 | Stored and asked for within its lifetime with a valid proof, a key is accepted, once |
| OneTimeStore.ExpiringMap.SweepExpired | server/src/consumer.routes.ts:638-644 | The loop removes exactly the expired entries |
| OneTimeStore.ExpiringMap.IssueEntry | server/src/webauthnService.ts:36-40 | Sweeps, then stores the entry with its expiry |
| OneTimeStore.ExpiringMap.PutEntry | server/src/consumer.routes.ts:1035-1062 | Stores the entry with its expiry and sweeps nothing, as the prepares do that await after their sweep |
| OneTimeStore.ExpiringMap.LookUp | server/src/withdrawalService.ts:263-267 | An entry is found if and only if it is there and not expired |
| OneTimeStore.ExpiringMap.ConsumeEntry | server/src/authNonce.ts:26-35 | Missing or expired entries are deleted and refused; a live one is deleted only with a valid proof |
| Indexer.TableIsProjection | server/src/indexerService.ts:106-152 | After any polls, crashes between writes and reorganisations above confirmed blocks the table is the projection of the indexed blocks plus a beginning of the next chunk, each log once |
| Indexer.TableHoldsBlocks | server/src/indexerService.ts:106-152 | The same block by block: every indexed log of a block past the start and up to the cursor is in the table, and every log in the table is an indexed one of a confirmed block at most one chunk past the cursor |
| Indexer.TickProgress | server/src/indexerService.ts:113-151 | A tick makes at most 25 contiguous queries, the fewest that cover its distance, and moves the cursor as far as the cap or the confirmed head allows |
| Indexer.CatchUp | server/src/indexerService.ts:113-151 | With a fixed head, k surviving ticks catch up if and only if k times 25 chunks covers the distance |
| Indexer.OneTickInFlight | server/src/indexerService.ts:162-170 | However often the timer fires, at most one tick is in flight and the flag says whether there is one |
| Indexer.TimerStartsTick | server/src/indexerService.ts:162-170 | After the timer a tick is in flight, after its end none, so the next timer starts another |
| Indexer.IndexerService.GetCursor | server/src/indexerService.ts:95-102 | The stored cursor, else the configured start or the head, which is then stored |
| Indexer.IndexerService.TickOnce | server/src/indexerService.ts:106-152 | The loop over chunks, with a crash after any write, is the tick the results above are about |
| Base64Url.Base64UrlRoundTrip | server/src/webauthnService.ts:16-21 | Decoding inverts encoding for every byte string, and the text uses the url-safe alphabet of section 5 of RFC 4648 without padding |
| Base64Url.PaddedToFour | server/src/webauthnService.ts:16-21 | The standard text before it is made url-safe has four characters for every three bytes begun, equals signs filling the last group and nowhere else |
| Base64Url.ChallengeMatchesOnlyItsHash | server/src/consumer.routes.ts:1140-1145 | A challenge signed for one hash is accepted for that hash alone |
| Keys.CoordinatesSurvive | server/src/webauthnService.ts:50-89 | Coordinates read from a key re-encode to the same 32 bytes each, leading zeros included |
| Keys.KeyIff | server/src/webauthnService.ts:50-64 | A key is read exactly from inputs that end in the byte 4 and two coordinates |
| Der.DerRoundTrip | server/src/safeWebAuthn.ts:32-46 | The parser inverts the X.690 encoding of any two numbers below 2 to the 256 |
| Der.ContentIsMinimal | server/src/safeWebAuthn.ts:29-46 | The encoding the parser inverts is the shortest non-negative one of section 8.3.2 of X.690 |
| Der.DerToRS | server/src/safeWebAuthn.ts:32-46 | The offset walk accepts, rejects and reads exactly what the parser on values does |
| Der.LowSIsCanonical | server/src/safeWebAuthn.ts:48-53 | s and n - s have the same low form, which lies in the lower half and is a fixed point |
| Der.OrderOfP256 | server/src/safeWebAuthn.ts:26-27 | The constant is the order FIPS 186-4 gives in decimal |
| Utf8.LosslessIffWellFormed | server/src/safeWebAuthn.ts:72-79 | Decoding and re-encoding client data is lossless if and only if it was well-formed UTF-8 |
| Utf8.FirstIsEncoded | server/src/safeWebAuthn.ts:72-79 | A character read stands encoded in the bytes it took; else it is the replacement and no character is encoded there |
| ClientData.ExtractIffMatches | server/src/safeWebAuthn.ts:60-66 | The extraction yields the given fields if and only if the pattern admits them |
| ClientData.AuthenticatorOutputSplits | server/src/safeWebAuthn.ts:55-66 | Client data as section 5.8.1.1 of Web Authentication Level 2 serialises it is split at its challenge, except for raw line separators |
| ClientData.EscapeRoundTrip | server/src/safeWebAuthn.ts:55-66 | The serialisation's escaping is inverted by a reader of section 7 of RFC 8259 |
| SafeSignature.AbiRoundTrip | server/src/safeWebAuthn.ts:75-79 | An ABI decoder reads back the four values of the inner signature |
| SafeSignature.SafeRoundTrip | server/src/safeWebAuthn.ts:84-93 | A decoder of the Safe layout reads back owner and inner signature from a slot that says contract signature at offset 65 |
| SafeSignature.AcceptedIff | server/src/safeWebAuthn.ts:32-79 | An assertion is accepted if and only if its client data matches the pattern, its signature parses, r fits a word and s is at most the curve's order |
| SafeSignature.AcceptedAssertionSurvives | server/src/safeWebAuthn.ts:72-93 | From the final bytes of any accepted assertion come owner, authenticator data, r and low s; the fields rejoin to the signed client data with a challenge if and only if that was well-formed UTF-8 and the challenge is the one in it |
| SafeSignature.StandardAssertionAccepted | server/src/safeWebAuthn.ts:32-79 | Every assertion encoded by the standards is accepted with its own r, low s and fields, unless a raw line separator is among them |
| SafeSignature.StandardAssertionVerifies | server/src/safeWebAuthn.ts:32-93 | End to end: the final bytes of a standard assertion for a hash decode to owner, authenticator data, r, low s and fields that rejoin to the signed client data for that hash and for no other |
| KycSpend.LimitsWithOverlap | server/src/kycSpendService.ts:100-179 | With at most k sends outstanding no day and no month records more than its limit plus k - 1 sends, each within all three limits, beyond what later valuation added |
| KycSpend.ValuationSlip | server/src/kycSpendService.ts:35-52 | Between check and record a send slips by at most the movement of the rate and one unit, and not at all outside USD or at an unchanged rate |
| KycSpend.LimitExactly | server/src/kycSpendService.ts:100-179 | One send at a time, recorded as checked, never exceeds the limit |
| KycSpend.OverlapReachesBound | server/src/kycSpendService.ts:100-179 | With a monthly limit of at least one daily limit (for the day) and at most 28 (for the month), and any single-send limit, a run with at most k sends out records the limit plus k - 1 sends; so the bound cannot be improved |
| KycSpend.StartsTogether | server/src/kycSpendService.ts:125-129 | Two times have one period start if and only if they share the month and, for the day, the day |
| KycSpend.LimitUnitsAre | server/src/kycSpendService.ts:35-52 | Limit units are hundredths of a rand to the nearest, at 18 rand to the dollar without a positive rate |
| KycSpend.SlipIsExcess | server/src/kycSpendService.ts:35-52 | What later valuation added bounds the recorded total by the checked one, and is exact when no send fell in value |
| KycSpend.KycSpendService.AssertKycSendAllowed | server/src/kycSpendService.ts:100-150 | Each answer if and only if its condition holds of the sums of rows of this very day and this very month; allowed exactly when all three limits hold |
| KycSpend.KycSpendService.RecordSpendEvent | server/src/kycSpendService.ts:152-179 | One row more, which adds its units to its own day and month and to no other |
| Conversion.NoGainConversions | server/src/conversionService.ts:124-200 | Over any sequence of conversions at fixed rates with product at most one, the holder's value never rises and falls by at least the spread on everything converted |
| Conversion.UsdcForIsFair | server/src/conversionService.ts:124-128 | The USDC paid is within one unit below the value less the spread |
| Conversion.SoldFor | server/src/conversionService.ts:107-138 | Fiat is exchanged exactly when held, worth a unit of USDC and covered by the reserve; what is taken and given is the amount and its value less the spread, rounded down |
| Conversion.BoughtFor | server/src/conversionService.ts:175-203 | USDC is exchanged exactly when held and worth a unit of fiat; what is taken and given is the amount and its value less the spread, rounded down |
| Conversion.FiatForIsFair | server/src/conversionService.ts:192-196 | The fiat paid is within one unit below the value less the spread |
| Conversion.ArbitrageGains | server/src/conversionService.ts:186-200 | Rates with a product above one can gain, so the condition on rates cannot be dropped |
| Conversion.EmptyCodeSlipsThrough | server/src/conversionService.ts:255-322 | An empty code beside an allowed currency passes the check and reaches the dispatcher's last line |
| Conversion.LastThrowIff | server/src/conversionService.ts:300-322 | After the check passes, the last line is reached if and only if a code is empty |
| Conversion.ConvertsIff | server/src/conversionService.ts:240-322 | A conversion is made if and only if it is between USD and a corridor currency that is the wallet's own or the rand, and the dispatcher takes the direction of the two codes |
| Fees.FeeIsLeast | server/src/revenueConfig.ts:52-59 | The fee is the least that covers the rate; an amount is refused if and only if no smaller fee does |
| Fees.SplittingNeverSaves | server/src/revenueConfig.ts:52-59 | Splitting a withdrawal never lowers the total fee and raises it by less than one unit per extra part |
| Catalog.UpsertsMerge | server/src/productCatalogService.ts:263-325 | For every table and whatever the look-ups return, the loop gives each API row the last item looked up to it, and each absent id one row with the last item of that id |
| Catalog.LastWins | server/src/productCatalogService.ts:263-325 | An API row alone with its id takes the last item of the feed with that id |
| Catalog.SyncUnique | server/src/productCatalogService.ts:263-325 | A sync adds no second row for an id: unique ids stay unique |
| Catalog.SyncIsMerge | server/src/productCatalogService.ts:242-348 | What every row is after a sync of any table, old rows and new, for every answer of the look-ups |
| Catalog.SyncKeeps | server/src/productCatalogService.ts:280-300 | Hand-edited rows and other merchants' rows stay as they are, ids and positions are kept, a fulfilment link already set stays |
| Catalog.ActiveIsSeen | server/src/productCatalogService.ts:327-340 | After a feed that is not empty an API product is active only if the feed names it |
| Catalog.SyncTwice | server/src/productCatalogService.ts:242-348 | For every table, a second sync of the same feed whose look-ups are answered as before changes no column |
| Catalog.SecondRetiresNothing | server/src/productCatalogService.ts:327-340 | A second sync of the same feed retires nothing, whatever the look-ups return |
| Catalog.DeactivatedIs | server/src/productCatalogService.ts:327-340 | The deactivated counter is the number of rows the last statement changes |
| Catalog.LookUpsMatterIff | server/src/productCatalogService.ts:277-286 | All answers of the look-ups lead to the same table if and only if no writable item would change an API row that shares its id with another row |
| Catalog.SecondSyncIff | server/src/productCatalogService.ts:242-348 | A second sync changes nothing, whatever the look-ups of both return, if and only if that is so |
| Catalog.SharedIdChangesLate | server/src/productCatalogService.ts:277-286 | One id on an API row and a hand-edited row: a sync that changes nothing and a second one that changes a row |
| Catalog.MappedPrice | server/src/productCatalogService.ts:82-131 | An item is mapped if and only if it has a fixed price or both ends of a range, and then only a hand-edited row keeps it out |
| Catalog.PricedBy | server/src/productCatalogService.ts:82-131 | The supplier's fixed price first, then a range end by end, the supplier's before the base one, then the base fixed price |
| Catalog.CatalogService.UpsertProduct | server/src/productCatalogService.ts:263-325 | Skipped exactly without a price or on a hand-edited row; else written over an API row of its id, whose fulfilment link stays, or added at the end when the id is absent |
| Catalog.CatalogService.SyncMerchantCatalog | server/src/productCatalogService.ts:242-348 | The table is the merge, upserted plus skipped is the feed's length, and both counters have their meaning in the table before the sync |
| GasReport.EveryRowInOneBucket | server/src/gasCostService.ts:464-480 | No two buckets share a key, each holds exactly the costs of its rows in order, and no row is without one |
| GasReport.KeyInjective | server/src/gasCostService.ts:462-476 | The text keys tell category and source apart whatever text a source is |
| GasReport.ReportIsPartition | server/src/gasCostService.ts:482-589 | By category, by group and by source, counts and wei add up to the rows, category by category |
| GasReport.GroupTotal | server/src/gasCostService.ts:533-560 | A group shows exactly the rows of its category, and a group left out has none |
| GasReport.GroupLast | server/src/gasCostService.ts:533-560 | The last cost of every group is that of a most recent row of its category, absent exactly when it has none |
| GasReport.ConsumerTotals | server/src/gasCostService.ts:482-517 | The consumer lines and the two session lines take every transaction bucket exactly once |
| GasReport.SessionCounts | server/src/gasCostService.ts:464-517 | The two session lines count the session payments that went through and that did not, and are shown together exactly when there is one |
| GasReport.ConsumerCounts | server/src/gasCostService.ts:482-517 | A consumer line counts the transaction rows of its source, relayed ones with the passkey's |
| GasReport.HeaderCountAgrees | server/src/gasCostService.ts:436-462 | The report has as many rows as the header counts if and only if no transaction pays for two sales |
| GasReport.TwoSalesCountTwice | server/src/gasCostService.ts:436-462 | One transaction with two sales counts twice |
| GasReport.AggregateCosts | server/src/gasCostService.ts:386-413 | Count, sum and the cost recorded last, the later row of equals |
| GasReport.BucketRows | server/src/gasCostService.ts:464-480 | The bucketing loop builds the partition |
| GasReport.GetGasFeeTotals | server/src/gasCostService.ts:429-600 | All three views add up to the rows they were made from, and every group shows a most recent cost |

## Left out

- Backing.BackingOverRuns: handlers that mint against the float they read do not overlap others here, because the code protects that read by nothing; what overlapping does is `Backing.OverlappingTopUps`.
- Backing.BackingOverRuns: settlements are in the merchant country's own currency, the only case in which the code keeps the margin.
- VoucherRuns.PaidOncePerLoss: one voucher is handled by one handler at a time; the row lock of its look-up ends with that statement.
- Escrow.EscrowConservation: one item is handled by one handler at a time; overlapping handlers of one claim, sale or settlement request are not modelled.
- Settlement.PayoutsCounted: a status update either happens or fails; an update that took effect although its acknowledgement was lost is not modelled.
- Vouchers.ChangeVouchers.RedeemChangeVoucher: the extra reference row of a top-up is not kept; store, till and tag look-ups are the caller's.
- Withdrawals.AtMostOncePerPrepare: counted per intent, not per withdrawal id, since two prepares of one intent share a challenge; hashes are injective and random values fresh.
- Withdrawals.WithdrawalService.PrepareWithdrawal: the travel-rule name, address syntax and registration are results of the reads it makes; database rows of withdrawals are not kept.
- Withdrawals.WithdrawalService.SubmitWithdrawal: the passkey's row is a result of its look-up, and the stored counter is not updated.
- ClientData.EscapeRoundTrip: of the escapes RFC 8259 knows, those a serialised client data never uses are not read.
- OneTimeStore.LazyExpiryInvisible: the nonce sign-in message and the signature recovery are the validity of a proof.
- Indexer.TableIsProjection: ticks run one after the other, as the `running` flag has them; the chain does not change below the confirmed head, and a failed query or insert is a crash.
- Base64Url.Base64UrlRoundTrip: text with padding characters inside is not decoded as the runtime does.
- SafeSignature.AcceptedAssertionSurvives: buffers are shorter than 2 to the 53 bytes; ECDSA, SHA-256 and keccak are not modelled.
- KycSpend.LimitsWithOverlap: limits are fixed over a run.
- KycSpend.ValuationSlip: rates and amounts are exact reals, rounded as the source rounds, not floating point.
- Conversion.NoGainConversions: rates and amounts are exact reals with the source's rounding down, not floating point; codes are given in upper case; nothing is claimed about total USD claims against the reserve.
- Catalog.CatalogService.SyncMerchantCatalog: timestamps, the fetch with its bundled fallback, and the text of names and descriptions are not modelled.
- GasReport.GetGasFeeTotals: conversions to ETH and rand, labels and the sorting of lines are not modelled.
- Every fiat currency has a treasury token; in USDC, which has none, minting and sweeping revert, so a top-up or cash-in there moves nothing.
- EscrowAlone.RedeemAlone: the escrow wallet itself is no payee of its releases.
- The Vault's price per share stays at one; yield, roles and pausing of the contracts are not modelled.
- RPC reads succeed, and best-effort database writes are made: a wallet skipped by a failed read, or a spend event that was not stored, is outside the model.
- The settlement fee of revenueConfig.ts is not modelled; on rounding ties its fee and net do not add up to the gross amount.
- HTTP routing, authentication middleware, user interface, reports other than the gas report, and the registration and reference-data endpoints.
