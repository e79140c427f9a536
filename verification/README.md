# Private channels: a verified model

A Dafny model of the decision-making core of a private payment channel: a gateway that scopes and
authorizes reads, an indexer that must notice a restored channel, an auth service that links
wallets by signed challenges, the ingress policy on a mint's seize power, and the load generator's
confirmation and queue loops. Each remote call, database statement and clock read is an input of a
step; the theorems hold over every input and, where there is state, over every interleaving of steps.

| file | what it models |
|---|---|
| `Slots.dfy`, `OwnerTimeline.dfy`, `OwnerChainRead.dfy`, `HistoryScope.dfy` | which slots of a token account's history a caller may read, against a ledger of every handoff |
| `ChannelFence.dfy` | the restore detector, run against lagging, truncated and growing replicas |
| `WhitelistRule.dfy`, `WhitelistCache.dfy` | the withdrawal whitelist: the rule, the cache that feeds it, and their agreement |
| `RoleCache.dfy` | operator claims, confirmed by racing lookups through a cache |
| `TokenAccount.dfy`, `Ownership.dfy`, `OutgoingRequest.dfy`, `ResponseCheck.dfy` | who may read an account, what the gateway asks the node for, and the reply held to the bytes that were authorized |
| `GatewayCall.dfy` | one client call end to end: role, ownership, history windows, the request forwarded and the reply served |
| `Redaction.dfy`, `UiAmount.dfy`, `Binary64.dfy` | error redaction, the balance printer with its parser, and the rounding of the number beside it |
| `WalletChallenges.dfy` | challenges, proofs, unlinking and cleanup |
| `SlotAccounting.dfy` | global and per-client budgets of connections and block listings |
| `SeizePolicy.dfy` | admission of transactions, against a model of Token-2022 |
| `Confirmations.dfy`, `SetupRounds.dfy`, `DepositQueue.dfy` | chunked sends, polling, retry rounds, and the single-producer batch queue |

Code that updates things in place is modelled by classes and by methods with loops, each proved equal
to a function of its inputs; the theorems are about those functions and about runs of the steps.

What the environment is taken to do is always a named predicate: one database snapshot per chain read
(`OneSnapshot`), account bytes read in time for a quiet account (`BytesVouch`, `ReadInTime`), hashes that bind
ancestry (`HashesBind`), replicas that show prefixes of the chain (`ValidNodes`, `GrownFrom`) and
only ever truncate more (`FloorsRise`), a cache that a block leaves only once it is replicated (`Later`), doubles
rounded to nearest (`Ieee`), base64 that round-trips on bytes that fit the address
space (`Base64RoundTrips`, `SizedDecode`), nonces drawn once (`FreshNonces`), polls an interval apart
(`ClockAdvances`). That the codec's and the doubles' can be met is proved (`SizedCodecExists`,
`NearestIsIeee`), and with the codec's all that `HeldReadRefinesAtomicRead` asks (`HeldReadHappens`).

Where a property the documentation suggests does not hold of the code in full, the model follows the
code and states when it does hold:

- A page of history with no recorded handoff is the caller's, under every ledger that fits what was
  read, exactly when the watermark is zero or the account bytes were read within the tip, for bytes read
  at or after the fetch slot (`QuietReadSafeIffInTime`, `QuietWindowSoundIffReadInTime`); bytes read past the
  tip can show a later owner (`BytesPastTheTipMislead`). The gateway learns the fetch slot and not the read
  slot, and by that alone the page is safe exactly when the watermark is zero
  (`QuietWindowSafeIffFromFirstSlot`).
- Handoffs missed in a row leave the chain linked, and so the page served, exactly when they are the
  account's first or bring it back to whoever gave it away (`MissedRunNoticedUnless`); the whole stretch
  around them is then served to whoever held it last, whoever held it meanwhile
  (`MissedRunServedToLast`). A single missed handoff is thus noticed unless it is the first or hands the
  account to itself
  (`MissedHandoffIsNoticedUnlessFirst`, `MissedFirstHandoffMovesHead`).
- A handoff's own slot is kept from everyone unless it is the last i64 slot, where the arithmetic
  saturates (`HandoffSlotServedIffSaturated`).
- A sound fence verdict is safe unless a gap had to be listed by a node truncated past the fence; for
  every floor past it there is a chain that fills the gap unseen (`SoundIsSafe`, `TruncatedGapCanHide`).
- A fence verdict stands as the node grows so long as the later probe retains what it rests on
  (`VerdictsStand`); for all floors that cut its listing short there is a chain for which a filled gap
  turns sound, or a sound verdict or a skipped fence turns into another look
  (`TruncationOverturnsFilledGap`, `TruncationOverturnsSound`, `TruncationOverturnsSkip`).
- The numeric `uiAmount` is the authorized amount to two roundings (`ServedNumberAgrees`); without decimals it
  is exact if and only if the amount is a double (`WholeAmountExactIff`), and 2^53 + 1 is the first that
  is not (`FirstInexactAmount`).
- A refused per-client slot leaves a zero entry behind exactly when the cap is zero
  (`ZeroEntryIffZeroCap`).
- The retry list is exactly the rest of what landed if and only if every status call made was answered
  with one status per signature (`RetryIsRestIffAnsweredInFull`); a lost one passes for confirmed
  (`EmptyAnswerPassesForConfirmed`).
- What the delegate moves from an account other than its own passes the policy exactly when it reaches
  the compliance account or is a plain Transfer (`DelegateMovePassesIff`): a holder's approval lets it
  move that holder's balance anywhere (`ApprovedPlainTransferEscapes`), and a run without plain
  Transfers by the delegate leaves nothing but compliance (`SeizesReachComplianceOnly`).
- A cleanup of stale challenges is invisible over every run in which nonces are drawn once
  (`CleanupIsInvisible`). Over any run, some step sees one exactly when a step issues a nonce that only
  stale rows of other users, since cleaned up, would still hold (`CleanupInvisibleIffNoneRedrawn`).

## Model

| member | source | states |
|---|---|---|
| OwnerTimeline.SlotRangesForOwner | gateway/src/auth.rs:613-652 | the loop over the handoffs returns the specified windows: none unless the chain links to the current owner, the head window only when the chain is complete |
| OwnerTimeline.WindowsUpToHold | gateway/src/auth.rs:631-649 | a slot is in the windows if and only if it is before the first handoff or strictly between two, with an owned wallet holding it |
| OwnerTimeline.WindowsByRowOwner | gateway/src/auth.rs:595-652 | a chain's windows are exactly the non-handoff slots whose owner, by the rows, is the caller; above the oldest row when the chain was cut |
| OwnerTimeline.WindowsAreOrdered | gateway/src/auth.rs:584-652 | clipped windows come out strictly increasing and disjoint, however many handoffs share a slot |
| OwnerTimeline.ClipHolds | gateway/src/auth.rs:584-593 | clipping keeps exactly the slots within coverage |
| OwnerTimeline.ClipKeepsOrder | gateway/src/auth.rs:584-593 | clipping keeps the windows strictly increasing |
| OwnerTimeline.CappedRefinesFull | gateway/src/auth.rs:536-579 | windows of the newest rows serve nothing at or below the oldest row read and agree with the full chain's windows above it |
| OwnerTimeline.RowOwnerIsLedgerOwner | gateway/src/auth.rs:595-612 | within coverage the rows name the true ledger's owner at every slot |
| OwnerTimeline.HandoffSlotsAgree | gateway/src/auth.rs:595-612 | within coverage the rows and the ledger agree on which slots are handoffs |
| OwnerChainRead.OwnerChainIsNewestSuffix | gateway/src/db.rs:42-108 | newest-first, limited, then reversed is a suffix of the table in table order, with the coverage decoded beside it |
| OwnerChainRead.CoverageRoundTrip | gateway/src/db.rs:81-90 | the watermark and tip decode to what was written; a tip past i64 reads as no coverage |
| OwnerChainRead.NoCoverageIff | gateway/src/db.rs:81-90 | no coverage is read if and only if the watermark or the tip is absent or not eight bytes, or the tip is past i64 |
| HistoryScope.ScopeByCase | gateway/src/auth.rs:471-579 | for every argument: the page is unscoped if and only if the account is no token account, an error if and only if a query it waits for failed, and hidden without a usable address, slot or coverage |
| HistoryScope.ReadRowsNameOwner | gateway/src/auth.rs:536-579 | one snapshot of rows, cut to the cap, names the ledger's owner of every covered slot above the cut |
| HistoryScope.NeverHandedOn | gateway/src/auth.rs:514-535 | with no row, an address that still derives from its owner was that owner's over all of coverage |
| HistoryScope.HistoryWindowsExact | gateway/src/auth.rs:471-652 | an accepted chain serves precisely the covered non-handoff slots the caller's wallets owned; any other chain serves nothing |
| HistoryScope.HistoryWindowsSound | gateway/src/auth.rs:471-652 | whatever handoffs land above the tip later, every slot served is covered, below the fetch slot, no handoff's, and was the caller's; windows are increasing |
| HistoryScope.LaterHandoffsChangeNothing | gateway/src/auth.rs:471-579 | handoffs above the tip change neither owners nor handoff slots at or below it |
| HistoryScope.FreshBytesLinkIffEarlyRowsDo | gateway/src/auth.rs:536-579 | with the bytes as fresh as the tip and a handoff in coverage, the chain read accounts for the current owner if and only if the rows read from below the watermark join up, into the first covered one |
| HistoryScope.FreshBytesAlwaysLink | gateway/src/auth.rs:536-579 | so with a handoff in coverage and no row below the watermark it always does |
| HistoryScope.MissedRunNoticedUnless | gateway/src/auth.rs:595-630 | dropping any run of handoffs from a chain leaves it linked if and only if the run came first or ends with whoever it began with |
| HistoryScope.MissedHandoffIsNoticedUnlessFirst | gateway/src/auth.rs:595-630 | so dropping one handoff between two holders leaves it linked if and only if it was the first |
| HistoryScope.MissedRunServedToLast | gateway/src/auth.rs:595-652 | with such a run missed, every slot from the handoff before it to the one after is served if and only if its last holder is the caller, though the ledger's holder there is the giver before each missed handoff and the receiver after |
| HistoryScope.QuietReadSafeIffInTime | gateway/src/auth.rs:514-535 | every ledger that fits a read with no row gives the owner every covered slot if and only if coverage reaches the first slot or the bytes were read in coverage or just before it |
| HistoryScope.EarlyReadSafeIffInTime | gateway/src/auth.rs:509-535 | the same of a read with rows below the watermark alone, whoever held the account first |
| HistoryScope.QuietWindowSoundIffReadInTime | gateway/src/auth.rs:464-535 | what the gateway serves with no row is the caller's under every ledger that fits if and only if the bytes were read in time; read at or after the fetch slot, that is a zero watermark or a read within the tip |
| HistoryScope.QuietWindowSafeIffFromFirstSlot | gateway/src/auth.rs:464-535 | over every slot from the fetch slot on at which the bytes may have been read, it is the caller's if and only if the watermark is zero |
| HistoryScope.BytesPastTheTipMislead | gateway/src/auth.rs:514-535 | a concrete sale below the watermark and purchase past the tip for which slots of another holder are served |
| HistoryScope.MissedFirstHandoffMovesHead | gateway/src/auth.rs:633-637 | with the first handoff missed, every slot before it is served if and only if its receiver is the caller, though its giver held it |
| HistoryScope.HandoffSlotServedIffSaturated | gateway/src/auth.rs:634-648 | a handoff's own slot is served if and only if it is the last i64 slot and the current owner is the caller |
| ChannelFence.VerifyChannelFence | indexer/src/channel_fence.rs:34-58 | no record is sound without a probe; otherwise the loop ends at the first final verdict, or unavailable once the budget is spent, and always ends |
| ChannelFence.ProbeNeverCriesWolf | indexer/src/channel_fence.rs:60-163 | on a chain grown from the indexed one a probe is sound, unavailable or retried, never a mismatch |
| ChannelFence.NeverCriesWolf | indexer/src/channel_fence.rs:34-163 | over every run with any lag, caching, truncation and errors, a channel that only grew is never reported as a mismatch |
| ChannelFence.HonestProbeWaits | indexer/src/channel_fence.rs:60-163 | an error-free, untruncated probe of a channel that only grew is sound exactly once the nodes have caught up, and until then asks for another look |
| ChannelFence.LagIsWaitedOut | indexer/src/channel_fence.rs:34-58 | a run of such probes within budget ends at the first that meets nodes that caught up, sound, and nowhere else |
| ChannelFence.EndsOnce | indexer/src/channel_fence.rs:34-58 | a run ends at one probe, with one verdict |
| ChannelFence.ErrorsDecideNothing | indexer/src/channel_fence.rs:60-163 | a result other than unavailable stands whatever the failed calls would have said |
| ChannelFence.UnavailableIffTruncated | indexer/src/channel_fence.rs:60-131 | without errors a probe is unavailable if and only if the fence block is not served and truncated away |
| ChannelFence.SoundIsSafe | indexer/src/channel_fence.rs:60-114 | a sound verdict means the channel agrees with the indexed chain through the checkpoint, unless a gap had to be listed by a node truncated past the fence |
| ChannelFence.TruncatedGapCanHide | indexer/src/channel_fence.rs:92-114 | for every floor past the fence there is a chain that fills the gap and is still reported sound |
| ChannelFence.ClearViewDecides | indexer/src/channel_fence.rs:60-163 | on a clear view a replaced fence block, a skipped fence slot or a filled gap is a mismatch with its evidence, and sound holds if and only if the chain shows the fence |
| ChannelFence.WitnessedOnce | indexer/src/channel_fence.rs:60-87 | a chain shows the fence nowhere but at its first block from the fence slot |
| ChannelFence.VerdictsStand | indexer/src/channel_fence.rs:89-163 | as the node's view grows, caches included, a sound or mismatch verdict is repeated, evidence included, or becomes unavailable, so long as the later probe's listing, where it makes one, still starts right after the fence and the block it names is still served; a sound one needs only that anything is listed |
| ChannelFence.TruncationOverturnsFilledGap | indexer/src/channel_fence.rs:92-114 | for all floors that serve the fence block and cut the listing after it, some chain is a filled gap while whole and sound at those floors, everything else a standing verdict asks for being met |
| ChannelFence.TruncationOverturnsSound | indexer/src/channel_fence.rs:92-114 | for all floors that serve the fence block and cut the listing past the checkpoint, some chain is sound while whole and another look at those floors |
| ChannelFence.TruncationOverturnsSkip | indexer/src/channel_fence.rs:119-163 | for all floors under which the fence slot does not read as truncated and the last read is cut past it, some chain is a skipped fence while whole and another look at those floors |
| WhitelistRule.WithdrawWallets | gateway/src/whitelist.rs:322-353 | the nested loops list each withdrawer and destination once, in first-seen order |
| WhitelistRule.WithdrawalNamesBoth | gateway/src/whitelist.rs:325-353 | an instruction laid out as a withdrawal names its withdrawer, then its destination, or the withdrawer again without one |
| WhitelistRule.CheckedIffNamed | gateway/src/whitelist.rs:322-353 | the wallets checked are exactly the withdrawers of the transaction's WithdrawFunds instructions and the 32-byte keys those carry as a destination |
| WhitelistRule.PlainRuleByEntries | gateway/src/whitelist.rs:357-402 | all pass where the instance does not whitelist; where it does, all pass if every wallet's entry is the escrow's and does not block, else the first that is not decides, and how |
| WhitelistRule.PushNew | gateway/src/whitelist.rs:347-351 | the inner loop extends a deduplicated list to the deduplication of the longer one |
| WhitelistRule.DedupedKeepsExactly | gateway/src/whitelist.rs:322-353 | deduplication keeps exactly the wallets named, each once |
| WhitelistRule.DedupedFirstStop | gateway/src/whitelist.rs:368-402 | checking each wallet once stops at the same wallet for the same reason as checking the raw list |
| WhitelistRule.ScanIsFirstStop | gateway/src/whitelist.rs:379-401 | scanning accounts by position is looking entries up by wallet |
| WhitelistRule.DecideIsPlainRule | gateway/src/whitelist.rs:368-402 | the decision over deduplicated wallets is the plain rule over the raw list |
| WhitelistRule.InstanceAloneDecides | gateway/src/whitelist.rs:127-132 | when the instance does not whitelist withdrawals, the early exit gives the full verdict |
| WhitelistCache.WithdrawWhitelist.Lookup | gateway/src/whitelist.rs:152-156 | the key's account while its read is younger than the TTL, else nothing |
| WhitelistCache.WithdrawWhitelist.Remember | gateway/src/whitelist.rs:160-178 | the new map: expired reads dropped, this read stored where it is newer, within the cap |
| WhitelistCache.RememberedIsFound | gateway/src/whitelist.rs:152-178 | a remembered read is found by every lookup of its keys for five seconds from its start, unless the map has no room for it or holds a fresh later one; other keys keep what they held |
| WhitelistCache.EveryRunIsRecentAndMonotone | gateway/src/whitelist.rs:152-178 | over every interleaving each answer stood on Mainnet within the TTL, read stamps per key never go back, and the map stays within its cap |
| WhitelistCache.ReadThenServed | gateway/src/whitelist.rs:152-212 | a run in which a key is read and then answered from that read, for every instant within the TTL |
| WhitelistCache.Merge | gateway/src/whitelist.rs:207-211 | the loop that consumes fetched accounts computes the positional merge |
| WhitelistCache.MergeKeepsPositions | gateway/src/whitelist.rs:182-212 | whatever holds of each account under its own key holds at that key's position of the merge |
| WhitelistCache.CheckIsPlainRuleOnRecentState | gateway/src/whitelist.rs:113-212 | over every interleaving, each key looked up after its own run of the cache: every verdict given is the plain rule over the raw wallets on accounts that each stood within the TTL; otherwise it says why it did not check |
| WhitelistCache.CheckByCase | gateway/src/whitelist.rs:113-150 | without a withdrawal the check allows, past 99 wallets it does not check, and it has no answer if and only if an account it needs is neither cached nor fetched |
| RoleCache.PrivilegeIffConfirmedOperator | gateway/src/lib.rs:1278-1354 | with auth on, operator access or raw errors are given if and only if an Operator claim names a user and the database confirmed them |
| RoleCache.GatedCallByCaller | gateway/src/auth.rs:271-307 | a gated call as a User asks about that user on the account named; each reason to refuse has its own status |
| RoleCache.PublicMethodsPass | gateway/src/lib.rs:1322-1331 | a method that is not gated passes whatever the claims and the confirmation |
| RoleCache.ConfirmedOperatorPasses | gateway/src/lib.rs:1296-1355 | a confirmed operator passes every method, unredacted |
| RoleCache.AuthOffPasses | gateway/src/lib.rs:1288-1295 | with auth off every call passes, unredacted |
| RoleCache.RoleMap.Lookup | gateway/src/lib.rs:1222-1229 | the cached role while it is younger than the TTL |
| RoleCache.RoleMap.Store | gateway/src/lib.rs:1237-1247 | the new map: expired entries dropped, this lookup's result stored, newer or older |
| RoleCache.StoredIsFound | gateway/src/lib.rs:1222-1248 | a stored role is found for thirty seconds from its check, and so is whatever else the map held |
| RoleCache.EveryRunIsGrounded | gateway/src/lib.rs:1222-1248 | over every interleaving each cached role is what the database held when it was checked |
| RoleCache.RevocationIsBounded | gateway/src/lib.rs:1222-1354 | a user demoted for good gets neither operator access nor raw errors on any request a TTL later, though older lookups may overwrite newer ones |
| RoleCache.RevocationBoundIsReached | gateway/src/lib.rs:1222-1248 | the bound is tight: a run in which a demoted user is still confirmed a millisecond before the TTL is up |
| TokenAccount.LittleEndianRoundTrip | gateway/src/auth.rs:360-368 | decoding a written little-endian integer recovers it at every width |
| TokenAccount.LayoutIsRead | gateway/src/auth.rs:180-217 | from bytes laid out as the token programs lay out an account, with or without extensions, its mint, owner and amount are read, and it is told from a mint |
| Ownership.AccessByFields | gateway/src/auth.rs:662-708 | by those fields: the owner reads the account, and off its history a delegate with something left to spend on an initialized account; every other case with its status |
| Ownership.AccessIsEntitlement | gateway/src/auth.rs:324-351 | with no lookup failing, access is granted if and only if the caller owns the account, spends from it as a delegate where that suffices, is a party of the swap, or is the wallet; a failed lookup never grants |
| Ownership.SliceRoundTrip | gateway/src/auth.rs:385-415 | a slice written into a config the node takes is read back, and a config without one asks for none |
| Ownership.BadConfigIsRefused | gateway/src/auth.rs:385-415 | a config the node would not take is a bad request, and none or a null one asks for no slice |
| Ownership.DelegateNeverOpensHistory | gateway/src/auth.rs:662-708 | for owner-only methods a token account is readable if and only if its owner is the caller's wallet, delegate or not |
| Ownership.CutIsNodeSlice | gateway/src/lib.rs:1602-1611 | the gateway's saturating cut is the node's slice, of the length the node budgets for |
| OutgoingRequest.CallerCannotWiden | gateway/src/lib.rs:485-503 | a forwarded history read carries exactly the gateway's windows, a scope of the caller's own leaves no trace, and nothing else of the request changes |
| OutgoingRequest.NodeReadsWindows | core/src/rpc/get_signatures_for_address_impl.rs:21-40 | the node reads the forwarded scope back as exactly the gateway's windows |
| OutgoingRequest.WholeAccountIsAskedFor | gateway/src/lib.rs:505-522 | any accepted request is forwarded asking for no slice, in base64, with the rest of the caller's config, params and request kept |
| ResponseCheck.HeldReadRefinesAtomicRead | gateway/src/lib.rs:1420-1614 | the two reads refine one: the state the node answered is served if and only if it is the one authorized or itself passes, and what is served is the node's slice of that state |
| ResponseCheck.SlicedAnswers | gateway/src/lib.rs:1602-1611 | a sliced reply is the reply for the sliced bytes, under the same owner, and differs from the whole one in nothing else |
| ResponseCheck.NoUncheckedAccountIsServed | gateway/src/lib.rs:1533-1614 | whatever the node answers, no token or swap account is served on bytes that did not pass or could not be read |
| ResponseCheck.AccountReplyByCase | gateway/src/lib.rs:1533-1614 | the replies not held: a wallet's, a page that is not JSON and one without an account pass as they are, and unreadable bytes are a bad gateway where they decide the reader, else empty |
| ResponseCheck.ReplyShapes | gateway/src/lib.rs:1541-1567 | a null value is no account, and only base64 beside its name is read as an account's bytes |
| ResponseCheck.BalanceByCase | gateway/src/lib.rs:1503-1532 | a reply with a balance is served if and only if the authorized bytes hold one and it has decimals and a context; one without passes as it is |
| ResponseCheck.BalanceIsOneSnapshot | gateway/src/lib.rs:1503-1532 | all three forms of a served balance, and its slot, are those of the authorized bytes: parsing the strings gives the amount back, and the number is the amount's rounded quotient |
| ResponseCheck.ServedNumberAgrees | gateway/src/lib.rs:1503-1532 | on doubles, the number in every served balance, scaled back by its decimals, is the amount its string parses to, to two roundings |
| Binary64.QuotientIsClose | gateway/src/lib.rs:1523 | for every amount and scale, the number times the power it was divided by is the amount to two roundings of 2^-53 each |
| Binary64.ShiftedBackIsClose | gateway/src/lib.rs:1523 | up to 22 decimals, whose powers of ten are doubles, that power is the true one |
| Binary64.WholeAmountExactIff | gateway/src/lib.rs:1523 | without decimals the number is the amount if and only if the amount is a double |
| Binary64.FirstInexactAmount | gateway/src/lib.rs:1523 | every amount up to 2^53 is served as itself, and 2^53 + 1 is not |
| ResponseCheck.NodeBalanceNeverReachesCaller | gateway/src/lib.rs:1503-1532 | replies that differ only in the balance and slot the node saw are served alike |
| GatewayCall.CallIsItsCallersOwn | gateway/src/lib.rs:1278-1480 | two sets of backends that agree on the caller and on the account named give the same call, whatever they say of other users and accounts |
| GatewayCall.UserCallByFetch | gateway/src/lib.rs:1357-1470 | a User's call by what the fetch found: 403 without the account, 503 without an answer, the ownership check's refusal, or the owner's policy |
| GatewayCall.NamelessCallsAreRefused | gateway/src/auth.rs:291-302 | a User's gated call without an account first among positional params is 400, and one without a user id 401 |
| GatewayCall.UserHistoryIsScoped | gateway/src/lib.rs:1384-1415 | a User's history call on a token account goes through if and only if a wallet of theirs owns it and the queries succeed, and then the node reads the resolved windows, never none |
| GatewayCall.UserReadsOwnHistory | gateway/src/lib.rs:1384-1470 | end to end, the node may return a row of a slot if and only if the chain links up and the slot is covered, no handoff's, and was held by a wallet of the caller |
| GatewayCall.UserAccountIsHeld | gateway/src/lib.rs:1418-1446 | a User's account call is the held read, of the whole account where its bytes decide the reader |
| GatewayCall.UserBalanceIsHeld | gateway/src/lib.rs:1447-1457 | a User's balance call is the balance read, asked as the caller asked it |
| GatewayCall.ErrorsReachOperatorsOnly | gateway/src/lib.rs:2187-2191 | to anyone but a confirmed operator, nodes that differ only in transaction errors answer alike |
| GatewayCall.OperatorsAndPublicPassThrough | gateway/src/lib.rs:1322-1355 | a confirmed operator's call, a public one and any with auth off are forwarded and answered unchanged |
| Redaction.RedactEntries | gateway/src/lib.rs:877-889 | the loop redacts each entry in its place |
| Redaction.RedactTransactionErrors | gateway/src/lib.rs:861-891 | a body that is not JSON is served as it is; any other is redacted entry by entry |
| Redaction.RedactionIsNonInterference | gateway/src/lib.rs:861-891 | two responses redact alike if and only if they differ in nothing but transaction errors |
| Redaction.RedactionIsIdempotent | gateway/src/lib.rs:861-891 | redacting twice is redacting once |
| Redaction.SuccessIsUntouched | gateway/src/lib.rs:877-889 | an entry with a null error and no failed status is served unchanged |
| UiAmount.BuildString | gateway/src/lib.rs:526-538 | padding, inserting the point and trimming in place gives the specified string |
| UiAmount.FormatUiAmount | gateway/src/lib.rs:526-538 | the string built by padding, inserting the point and trimming parses back to the amount and is canonical |
| UiAmount.ParseUndoesPrint | gateway/src/lib.rs:526-538 | parsing the printed amount recovers it, for every amount and scale |
| UiAmount.PrintIsCanonical | gateway/src/lib.rs:526-538 | no trailing fractional zero, no trailing point, no spare leading zero |
| UiAmount.PrintIsInjective | gateway/src/lib.rs:526-538 | different amounts never print alike |
| WalletChallenges.AuthDb.constructor | auth/src/db.rs:48-73 | both tables start empty |
| WalletChallenges.AuthDb.InsertChallenge | auth/src/db.rs:348-373 | replaces the user's row with a fresh unused one; a nonce another user's row holds is an error that changes nothing |
| WalletChallenges.AuthDb.ConsumeChallenge | auth/src/db.rs:375-398 | succeeds if and only if the user's row has this nonce, unused and unexpired, and then marks it used; otherwise changes nothing |
| WalletChallenges.AuthDb.InsertVerifiedWallet | auth/src/db.rs:400-424 | fails if and only if the user already has the wallet |
| WalletChallenges.AuthDb.VerifyWallet | auth/src/routes/verify_wallet.rs:33-80 | the whole transaction: a bad signature still spends the challenge, a failed insert spends nothing |
| WalletChallenges.AuthDb.DeleteVerifiedWallet | auth/src/db.rs:426-458 | revokes the user's challenge with the wallet; a miss changes nothing |
| WalletChallenges.AuthDb.CleanupStaleChallenges | auth/src/db.rs:460-471 | deletes exactly the used and the expired rows |
| WalletChallenges.IssueByCase | auth/src/db.rs:348-373 | a nonce another user's row holds is an error that changes nothing; any other leaves the user with that challenge alone, for ten minutes |
| WalletChallenges.ProofByCase | auth/src/routes/verify_wallet.rs:33-80 | a fresh challenge: a good signature in time links the wallet and spends it, a bad one spends it, a linked wallet or a late proof spends nothing |
| WalletChallenges.LinkByCase | auth/src/db.rs:400-458 | linking by hand and unlinking, either of which a second time is refused; unlinking leaves nothing to prove and other users alone |
| WalletChallenges.CleanupByCase | auth/src/db.rs:460-471 | exactly the unused, unexpired rows stay, unchanged, and every wallet |
| WalletChallenges.SpendsNeedIssues | auth/src/db.rs:350-471 | over every run from every state, spends of a challenge plus what is outstanding never exceed what was outstanding plus what was issued |
| WalletChallenges.UnlinkRevokes | auth/src/db.rs:426-458 | after an unlink only challenges issued later can be spent |
| WalletChallenges.UnusedRowsWereIssued | auth/src/db.rs:350-471 | every unused row was issued to its user, with no unlink of theirs since |
| WalletChallenges.LinkedWalletsWereProved | auth/src/routes/verify_wallet.rs:33-80 | over every run each linked wallet was attached by an administrator or proved by a signature over a challenge issued since the user's last unlink |
| WalletChallenges.StepKeepsNoncesUnique | auth/src/db.rs:50-57 | every step keeps nonces unique among the live rows |
| WalletChallenges.NonceIsSpentOnce | auth/src/db.rs:375-398 | with nonces drawn once, each is spent at most once over every run, by all users together |
| WalletChallenges.CleanupIsInvisible | auth/src/db.rs:460-471 | taking every cleanup out of a run changes no other step's outcome and no wallet |
| WalletChallenges.StepSeesCleanupIff | auth/src/db.rs:350-471 | between tables that differ by stale rows alone, a step's outcome differs if and only if it issues a nonce held by another user's row in the one and by none in the other; otherwise they still differ by stale rows alone |
| WalletChallenges.CleanupInvisibleIffNoneRedrawn | auth/src/db.rs:350-471 | over every run, taking the cleanups out changes no other step's outcome if and only if no step issues such a nonce |
| WalletChallenges.RedrawnNonceSeesCleanup | auth/src/db.rs:350-373 | such a run: a nonce redrawn while another user's used row holds it is refused, and issued after a cleanup |
| SlotAccounting.SameClientIffSamePrefix | auth/src/serve.rs:83-97 | two addresses share a budget if and only if they are equal or both IPv6 in one /64 |
| SlotAccounting.ZeroEntryIffZeroCap | auth/src/serve.rs:101-112 | an acquire leaves a zero entry if and only if the cap is zero and the client is new; with a cap of one or more a refusal changes nothing |
| SlotAccounting.Budgets.TryAcquirePermit | auth/src/serve.rs:198-205 | takes one global permit if any is free |
| SlotAccounting.Budgets.DropPermit | auth/src/serve.rs:239-242 | gives one global permit back |
| SlotAccounting.Budgets.TryAcquireIp | auth/src/serve.rs:101-112 | enters the client, then refuses at the cap or counts one more |
| SlotAccounting.Budgets.DropIp | auth/src/serve.rs:120-130 | counts one fewer and removes the entry at zero |
| SlotAccounting.Budgets.Accept | auth/src/serve.rs:196-220 | accepts if and only if both budgets allow, taking one of each; a refusal by either leaves both as they were |
| SlotAccounting.Budgets.TakeListing | gateway/src/lib.rs:1911-1943 | takes a listing's share and then its global slot if and only if both are free; a refusal by either leaves both budgets as they were |
| SlotAccounting.AcceptedIffBothFree | auth/src/serve.rs:196-220 | a newcomer takes both budgets if and only if both are free, in its service's order; the first that is not refuses it with what it took before |
| SlotAccounting.RefusedOnlyReleases | gateway/src/lib.rs:1911-1943 | over every interleaving, a refused listing or connection holds at most one budget and only releases it; this follows from the rule that a refused one does not try again, and what taking and refusing do is TakeListing's contract |
| SlotAccounting.StepKeepsInv | gateway/src/lib.rs:578-613 | every step of either service keeps permits adding up to the cap and each count equal to that client's live shares |
| SlotAccounting.BudgetsBalance | gateway/src/lib.rs:1911-1943 | over every interleaving the caps hold, an entry exists exactly for clients with live shares, and once nothing is held both budgets are full |
| SlotAccounting.ConnectionMapIsBounded | auth/src/serve.rs:66-69 | the map of connected clients never outgrows the global cap |
| SlotAccounting.ListingShareLeavesRoom | gateway/src/lib.rs:357-368 | a client's listing share is at least one, a sixteenth of the pool from sixteen on, and below the listing budget exactly for pools of eight or more |
| SlotAccounting.OneClientLeavesRest | gateway/src/lib.rs:778-794 | over every interleaving, free slots, one client's cap, and slots held by others or between their two budgets make up the global cap at least |
| SlotAccounting.OneClientLeavesRoom | gateway/src/lib.rs:778-794 | with the per-client cap below the global one, a client alone always leaves a slot free |
| SeizePolicy.ClassifyTransaction | core/src/stages/sigverify.rs:129-157 | the counting loop tells empty, all-admin, no-admin and mixed transactions apart |
| SeizePolicy.MintPowerTakesAdmin | core/src/stages/sigverify.rs:170-193 | no admitted transaction creates, mints, freezes, thaws, rotates a mint authority or sets the withdraw config without a configured admin signing |
| SeizePolicy.AdmitsIff | core/src/stages/sigverify.rs:170-210 | admission in full: every instruction listed, some with data, mints created alone or not at all, an admin signing for any mint power, no foreign rotation and no refused move |
| SeizePolicy.RotationRefusedIff | core/src/transactions.rs:88-105 | a rotation of the permanent delegate is refused if and only if it does not name the configured one |
| SeizePolicy.RefusedMoveIff | core/src/transactions.rs:126-175 | an instruction is refused as a seize if and only if it is a checked transfer or a burn the delegate signs for, from an account not its own, and not a transfer into compliance |
| SeizePolicy.CheckedTransferMoves | core/src/transactions.rs:122-136 | what the model of Token-2022 does with a signed checked transfer: the delegate's power first, then an approval, then the owner's |
| SeizePolicy.MintByCase | core/src/transactions.rs:88-105 | in that model a mint is initialized once, with the delegate given it before, which only that delegate's signature hands on or gives up |
| SeizePolicy.OthersByCase | core/src/transactions.rs:180-193 | in that model minting adds to one balance, and what else the classic set does leaves balances as they were |
| SeizePolicy.RunAccounts | core/src/transactions.rs:126-175 | over every run each balance is what it was, plus what the listed moves brought and took, plus what was minted: no balance moves unlisted |
| SeizePolicy.SeizeReachesCompliance | core/src/transactions.rs:161-175 | the configured delegate can move any balance of a mint carrying it into the compliance account: the transaction is admitted and the balance arrives |
| SeizePolicy.PolicySeesExactlySeizes | core/src/transactions.rs:126-175 | on a mint carrying the delegate, the policy sees a delegate move if and only if Token-2022 would move the balance by the permanent delegate's power from another's account, and refuses it if and only if it would not reach the compliance account |
| SeizePolicy.ExecutedKeepsDelegate | core/src/transactions.rs:88-105 | an instruction the rotation check lets through leaves every mint's configured delegate in place |
| SeizePolicy.DelegateMovePassesIff | core/src/transactions.rs:126-175 | on a mint carrying the delegate, a move the delegate makes from elsewhere, by any power, passes if and only if it reaches the compliance account or is a plain Transfer |
| SeizePolicy.ApprovedPlainTransferEscapes | core/src/transactions.rs:133-142 | a plain Transfer by the delegate under a holder's approval is admitted from any signer and moves the balance outside compliance |
| SeizePolicy.TransactionIsSafe | core/src/stages/sigverify.rs:170-210 | a transaction whose instructions pass keeps the delegate, and what it seizes, or moves for the delegate other than by plain Transfer, reaches compliance |
| SeizePolicy.SeizesReachComplianceOnly | core/src/transactions.rs:66-193 | over every run the mints' delegate never changes, every seize is a transfer into that mint's compliance account, never a burn, and so is whatever else the delegate moves from elsewhere, plain Transfers apart; with no plain Transfer by the delegate, without exception |
| SeizePolicy.NoComplianceOwnerNoSeize | core/src/transactions.rs:165-175 | with no compliance owner nothing is ever seized |
| Confirmations.SendParallel | bench-tps/src/rpc.rs:32-66 | filling slots chunk by chunk puts each account's signature at its own index |
| Confirmations.SweepChunk | bench-tps/src/rpc.rs:129-141 | one pass over statuses keeps the unseen and hands back the failed, in order |
| Confirmations.PollOnce | bench-tps/src/rpc.rs:116-142 | the loop over chunks of 256 computes one poll of everything pending, or fails on an RPC error |
| Confirmations.PollConfirmations | bench-tps/src/rpc.rs:83-180 | the polling loop computes the specified retry list and ends by the deadline |
| Confirmations.EveryIndexEndsOnce | bench-tps/src/rpc.rs:83-180 | whatever the node answers, every index is to be retried, landed or lost, exactly one of them and once |
| Confirmations.RetryIsComplement | bench-tps/src/rpc.rs:83-180 | the retry list has no duplicates and is exactly the complement of the landed and the lost |
| Confirmations.ConfirmedIsJustified | bench-tps/src/rpc.rs:83-180 | by the answers to the status calls the run made, an index is retried only if it was never sent, was reported failed, or was unseen past the deadline, and landed only if reported landed |
| Confirmations.RetryIsRestIffAnsweredInFull | bench-tps/src/rpc.rs:83-180 | retried is exactly not landed, for every index, if and only if every status call the run made was answered with a status per signature |
| Confirmations.EmptyAnswerPassesForConfirmed | bench-tps/src/rpc.rs:116-162 | an empty answer leaves a lone signature neither retried nor reported |
| Confirmations.ConfirmBatch | bench-tps/src/setup.rs:182-210 | what a batch hands back has no account twice and none from elsewhere, and if the batch's own status calls were answered in full every other account was reported landed |
| Confirmations.HandedIffAnswered | bench-tps/src/rpc.rs:116-142 | a batch comes to an end if and only if no status call it made failed |
| SetupRounds.ConfirmRound | bench-tps/src/setup.rs:166-211 | a round over batches of 200 leaves what its batches hand back, in order, and confirmed plus left over is conserved |
| SetupRounds.AllRemain | bench-tps/src/setup.rs:159-221 | over any number of rounds, what is left has no account twice and none from elsewhere, and if every status call the run made was answered in full every other account was reported landed by one of them |
| SetupRounds.ConfirmAll | bench-tps/src/setup.rs:159-221 | over any number of rounds confirmed and left make up the total, so no account counts twice, and what is left is as the rounds leave it |
| DepositQueue.BuildBatch | bench-tps/src/load_deposit.rs:125-131 | a batch holds consecutive nonces with keypairs in rotation, and the counter wraps |
| DepositQueue.BatchQueue.constructor | bench-tps/src/load_deposit.rs:101-108 | the queue starts empty |
| DepositQueue.PushKeepsOrder | bench-tps/src/load_deposit.rs:133-135 | pushing the batch in hand changes nothing of the order of delivered, queued and in hand together |
| DepositQueue.BatchQueue.PopFront | bench-tps/src/load_deposit.rs:166-181 | takes the oldest batch, or none, leaving the rest of the queued deposits in order |
| DepositQueue.PopKeepsOrder | bench-tps/src/load_deposit.rs:166-181 | a sender's pop changes nothing of the order of delivered, queued and in hand together |
| DepositQueue.StepKeepsInv | bench-tps/src/load_deposit.rs:101-203 | every step keeps room for the batch in hand, and delivered, queued and in hand together equal to what was built, in order |
| DepositQueue.DepthHolds | bench-tps/src/load_deposit.rs:115-135 | the queue never passes its depth, though check and push are separate critical sections |
| DepositQueue.DeliveredInOrder | bench-tps/src/load_deposit.rs:101-203 | the senders together deliver the first deposits built, in order, each signed by the next keypair in rotation |
| DepositQueue.NonceRepeatsIffWrapped | bench-tps/src/load_deposit.rs:125-131 | two deliveries carry one nonce if and only if they are a whole number of counter wraps apart |

## Left out

- HTTP serving, TLS, timeouts as wall-clock effects, CORS, metrics, logging and log outcomes.
- JWT, Argon2, Ed25519, base58, base64 and address derivation are parameters, with round-trip or injectivity predicates where a proof needs them; a signature check is its verdict on each message.
- Decoding of transactions, swap escrows, instances and whitelist entries by other crates; the model starts from the decoded values or from a decoder parameter.
- SQL text and schema: each statement or transaction is one atomic step; concurrent transactions are taken to serialize.
- Handoffs the node never recorded, other than one run of them (`MissedRunNoticedUnless`, `MissedRunServedToLast`); the soundness theorems take the table to hold every handoff within coverage.
- `fence.slot + 1` at the last u64 slot, where the source would overflow; slots are naturals here.
- The request limiters in auth/src/throttle.rs and the gateway's per-second quotas.
- User registration, deletion and its cascade, roles administration and the audit trail in auth/src/db.rs.
- WalletChallenges.AuthDb.VerifyWallet: the user name in the signed message is not modelled, because it is fixed by the user id that is.
- ResponseCheck.HeldReadRefinesAtomicRead: covers account data of up to 2^64 - 1 bytes, because a longer vector cannot exist; and accounts whose reader is decided by their own bytes, because the gateway forwards a plain wallet's reply unheld; a reply whose account is not a JSON object makes the source's indexing panic when a slice was asked for, and is a refusal here.
- ResponseCheck.BalanceIsOneSnapshot: gives the number as the platform's rounded quotient, because doubles round; how far that is from the amount is `ServedNumberAgrees`. Powers of ten past 10^22 are the platform's own, of unspecified precision, and the number's decimal printing is not modelled.
- SeizePolicy.SeizesReachComplianceOnly: covers top-level instructions, because the policy does; inner calls of the Withdraw and Swap programs are not followed. Further reasons for which Token-2022 may fail (frozen accounts, decimals, supply limits) are omitted, so the model admits more runs.
- SetupRounds.ConfirmAll: takes the number of rounds a run went through as a parameter, because the source's outer loop has no bound of its own.
- Confirmations.ConfirmBatch: does not model a transaction that lands after its retry was decided, because the node's later state is never read.
- The rest of bench-tps, the transaction pipeline, the escrow and withdraw programs, health checks and webhooks: repeated orchestration or easy members.
- ChannelFence.VerdictsStand: asks that the later probe retain what the verdict rests on, because a verdict can otherwise be overturned, even to its opposite, as `TruncationOverturnsFilledGap`, `TruncationOverturnsSound` and `TruncationOverturnsSkip` show.
