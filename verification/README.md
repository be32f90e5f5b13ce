# Metis deposit rebates: a verified model

The service watches the Metis bridge on Ethereum, stores every deposit it sees, and pays the
recipient of an eligible deposit a small drip of the L2 coin. It is crash-tolerant by design: a
signed transfer is stored before it is broadcast, and broadcast again until the chain has a
receipt for it. This project models that pipeline and proves what it guarantees over every
interleaving, failure and crash, and also where its guarantees end.

## How the model is built

- `Rounding`, `Ether`, `Rebate`: binary rounding to nearest even (section 4.3.1 of IEEE 754-2019),
  the conversions between wei and ether, and the amount of a gas rebate, on exact reals.
- `PriceCache`: the token price cache, as a class and as a function of any sequence of calls.
- `Data`, `Ingest`, `Policy`: the rows of the database, and, as functions, the chunks and rows of the
  ingester, policy selection, the eligibility decision and the transfer to sign.
- `Protocol`: the whole service as one transition system. Its state is the database, the L2 chain (the
  faucet's next nonce, all transactions ever sent, all mined ones) and the control state of the two
  goroutines. A step is one committed database transaction, one call to the chain, one update of
  memory, one mined transaction, or a crash that forgets everything but database and chain. The
  log of decisions and the record of starts are history only; no step depends on them.
- `Invariant`: an invariant of eight parts that every step keeps, so that it holds in every reachable state.
- `Safety`, `Nonces`, `Payments`, `Liveness`, `Completion`: the theorems about reachable states and runs.
- `Blocking`, `Clearing`: what happens to pending deposits when the check query returns rows in id order.
- `Restarts`, `Backlog`: concrete runs in which a property fails.
- `Repository`, `World`, `DataSync`, `FaucetService`: the code in its own imperative form. Each method
  runs against a shared `World` whose state is reachable by the steps of `Protocol`; its loops are
  proved to be runs of that system, with any number of steps of the other goroutine and of the chain
  in between. So every theorem about reachable states holds before, between and after the steps of
  these methods. In a *calm* world no call fails; in one that is *alone* neither the other goroutine nor the
  chain takes a step; in one that is *inOrder* queries return rows by id, which neither query asks for. Each
  contract names those of the three that it needs.

Assumptions: one running instance; a commit either happened or did not, and the caller knows which; no
reorganisation below the confirmation depth; the log filter returns exactly the events of its inclusive
range or an error; transaction hashes are injective; the faucet account signs nothing else; a mined
transaction carries the sender's current nonce (section 6 of the Ethereum Yellow Paper).

## What the proofs show about the code

- Exactly-once ingestion, at most one drip row per deposit, write-ahead, conservation of payments and
  one-way statuses hold without further condition.
- A restart before the first committed chunk skips block `startFrom` (`Safety.ExactlyOnce`, `Restarts.FirstBlockSkipped`): the height row
  holds the first block *to be read*, but is read back as the last block *already read*.
- After any history, a restart cannot reuse a nonce if and only if every stored drip is mined, or already lost to an
  earlier unclean restart (`Nonces.FreshStartIff`). If all are mined, every nonce of the new life is above all earlier
  ones (`Nonces.CleanRestartDistinct`); in general the new life collides exactly with the earlier drips whose nonce
  lies in the interval it uses up (`Nonces.LifeDistinctIff`). That a restart continues the sequence without a gap if
  and only if every stored drip is mined holds after clean histories (`Nonces.RestartContinuesIff`), and fails
  after unclean ones (`Restarts.UnminedButFresh`).
- If the check query may return any rows, a pending deposit can still be paid if and only if it is not lost and its
  transfer has not failed (`Payments.PayableIff`), and it is lost if and only if another mined transaction took its nonce
  (`Nonces.LostIff`). Clean restarts lose none (`Nonces.CleanNeverLoses`); an unclean one can, also with the checks of
  the shipped policy (`Restarts.UncleanRestartLoses`).
- If the check query returns rows in id order, 20 lost deposits fill its window of 20 rows for ever: no deposit above
  them becomes Done, mined or not, and one that was never sent is never paid (`Blocking.BlockedForever`,
  `Blocking.BlockedUnpaid`; a history in `Backlog.BlockedHistory`). Exactly, when every policy checks for a
  first drip: a never sent one can be paid, and become Done, if and only if its nonce is still to come and the
  unmined pending deposits below it number fewer than 20 more than the nonces before its own
  (`Clearing.UnsentPayableIff`); a mined one can become Done if and only if the unmined ones below it number fewer
  than 20 more than the nonces still to come that they have between them (`Clearing.MinedDoneIff`).
- If the send query returns rows in id order, one deposit whose decision keeps failing, for instance on a token whose
  decimals cannot be read, holds up every other one (`Liveness.HeadOfLine`, `Policy.NoDecimalsFails`).
- Two Done deposits share their mined transfer if and only if nonce, recipient, value, gas price and gas of their
  drips agree (`Payments.DoneShareIff`). Neither clean restarts nor policies that all check for a first drip allow
  that (`Payments.NeverShared`). The only shipped policy does check (`main.go:179-191`), so the shared payment of
  `Restarts.UncleanRestartSharesPayment`, whose policy does not, cannot happen with the shipped configuration.
- Done means mined, not successful: the receipt's status is never read. A Done deposit is paid if and only if its
  receipt is not a failure (`Payments.DonePaidIff`), which is final (`Payments.OutcomeFinal`). After clean restarts
  the total paid is what the mined drips promise, if and only if all of them with a value succeeded
  (`Payments.PaidExactly`).
- A deposit is ignored only for a reason that was actually established, never because a question went unanswered
  (`Safety.IgnoredForAReason`).
- The confirmation depth is kept exactly when the head is deeper than it; a head at or below the depth is
  scanned to its very end (`Ingest.ConfirmedIff`).
- A chunk end that wraps around 2^64 lies before its start, so the in-memory height goes backwards
  (`Ingest.ChunkEndIff`); without wrap-around chunks tile the range.
- `ToWei` is exact rounding for every non-negative binary64 value. For a negative one it adds the printed
  fraction instead of subtracting it, so it is right only if that fraction is all zeros, and too large by twice the fraction otherwise (`Ether.ToWeiRounds`).
- Wei to ether and back is the identity for all amounts up to a limit if and only if the limit is at most 2^-7 ether,
  7812500000000000 wei (`Ether.RoundTripUpTo`); the next wei is lost. A single amount survives if and only if it is
  within half a wei of a multiple of the binary64 spacing (`Ether.RoundTripNear`).
- A derived price of zero, which makes the dollar price zero too, makes the gas rebate panic, which ends the process (`Rebate.PanicsIff`).
- `HasGotDrip` is true when there is *no* drip yet; its callers read it that way (here it is `IsFirstDrip`).
- The deferred rollbacks test an outer `err` that the failing statements shadow, so they do not run; an
  uncommitted transaction is rolled back because the callers cancel its context. In the model a failed
  method leaves the tables as they were.
- A stream drops rows once its context is done, without reporting an error. The batch then ends early but
  successfully; dropped rows stay as they were, and a later query can return them unless 20 lost ones hide them.

## Model

| member | source | states |
|---|---|---|
| Rounding.RoundEvenUnique | internal/utils/ether.go:15-18 | rounding to nearest even is the only choice of a nearest integer that breaks ties to even |
| Rounding.NearestRepresentable | internal/utils/ether.go:14-20 | rounding gives a value with a p-bit significand |
| Rounding.NearestBest | internal/utils/ether.go:14-20 | no value with a p-bit significand is nearer |
| Rounding.NearestError | internal/utils/ether.go:14-20 | rounding is off by at most half a unit in the last place, relatively at most 2^-p |
| Rounding.NearestMonotone | internal/utils/ether.go:14-20 | rounding to p bits is monotone |
| Rounding.NearestUnique | internal/utils/ether.go:14-20 | the nearest multiple of the last place, the even one of two equally near, is what rounding gives |
| Rounding.NearestTie | internal/utils/ether.go:14-20 | half way between two multiples of the last place the even one is taken |
| Ether.ParseDigits | internal/utils/ether.go:28-30 | reading back the last k printed decimal digits gives the number modulo 10^k |
| Ether.FractionGap | internal/utils/ether.go:26-28 | the fraction of a binary64 value is at most 1 - 2^-53 |
| Ether.NoCarry | internal/utils/ether.go:26-31 | rounding the 18 fraction digits never carries into the integer part |
| Ether.ToWeiRounds | internal/utils/ether.go:24-33 | ToWei is the nearest integer to x * 10^18, ties to even, if and only if x >= 0 or the printed fraction is all zeros; otherwise it is too large by twice that fraction |
| Ether.ToWeiNegativeExample | internal/utils/ether.go:24-33 | ToWei(-1.5) is minus half an ether, not minus one and a half |
| Ether.ToWeiMonotone | internal/utils/ether.go:24-33 | ToWei is monotone on non-negative values |
| Ether.ToEtherMonotone | internal/utils/ether.go:11-22 | ToEther is monotone |
| Ether.ToEtherError | internal/utils/ether.go:11-22 | the three roundings of ToEther together cost at most w * (2^-53 + 2^-233) wei |
| Ether.DoubleRounding | internal/utils/ether.go:14-20 | for 0 < w < 2^236, rounding w / 10^18 to 236 bits first never changes its rounding to 53 bits |
| Ether.ToEtherCorrectlyRounded | internal/utils/ether.go:11-22 | for w < 2^236, ToEther(w) is the binary64 value nearest to w / 10^18 |
| Ether.RoundTripError | internal/utils/ether.go:11-33 | for every w, ToWei(ToEther(w)) differs from w by at most w * 2^-52 + 1/2 |
| Ether.RoundTripExact | internal/utils/ether.go:11-33 | for w up to 7812500000000000 (2^-7 ether), which includes all w < 2^52, ToWei(ToEther(w)) = w |
| Ether.LostAbove | internal/utils/ether.go:11-33 | the next amount, 7812500000000001, comes back as one wei more |
| Ether.RoundTripUpTo | internal/utils/ether.go:11-33 | all amounts up to a limit survive the round trip if and only if the limit is at most 7812500000000000 |
| Ether.RoundTripNear | internal/utils/ether.go:11-33 | for w < 2^236, w survives if and only if the binary64 amount nearest to w / 10^18 is less than half a wei from w, or just half a wei and w is even |
| Ether.RoundTripIff | internal/utils/ether.go:11-33 | for w < 2^236, w survives if and only if some binary64 amount denotes w at all |
| Ether.RoundTripExample | internal/utils/ether.go:11-33 | 10^18 + 1 wei come back as 10^18 |
| Ether.FloatRoundTrip | internal/utils/ether.go:11-33 | from 2^-7 ether up to 2^236 wei, ToEther(ToWei(x)) = x |
| Rebate.PanicsIff | internal/services/faucet.go:340-345 | for any prices, cap and cost the conversion panics exactly on a zero derived price, unless cost and dollar price have the same sign, or on a zero dollar price under a negative cap |
| Rebate.CapSurvivesRounding | internal/services/faucet.go:334-345 | on both branches the wei returned are worth at most 10^18 * MaxDripUSD * (1 + 2^-52) + usd / 2 |
| Rebate.RebateIsLesser | internal/services/faucet.go:340-345 | the wei returned are the lesser of gas spent and cap, both in the L2 coin, up to a relative 2^-51 and half a wei |
| Rebate.CapExactly | internal/services/faucet.go:340-343 | the cap replaces the quotient if and only if the rounded dollar value is above it |
| PriceCache.Uniswap.GetToken | internal/utils/uniswap.go:53-102 | an entry of the canonical address younger than `duration` is returned whatever the query would give; otherwise the answer is that of the query, and only a successful one changes the cache, and only that entry |
| PriceCache.FetchMeaning | internal/utils/uniswap.go:79-98 | an error exactly on a failed call, no information exactly on an answer with an empty list, and otherwise the derived price and, rounded once, its product with the ether price |
| PriceCache.CanonicalMeaning | internal/utils/uniswap.go:57-60 | the zero address stands for wrapped ether, every other one for itself in lower case |
| PriceCache.LowerCase | internal/utils/uniswap.go:57 | upper-case letters become their lower-case ones, everything else stays |
| PriceCache.CanonicalIdempotent | internal/utils/uniswap.go:57-60 | a canonical address is its own canonical form |
| PriceCache.RunHolds | internal/utils/uniswap.go:62-101 | after any calls every key is canonical and holds what the last storing call for it fetched, with that call's clock |
| PriceCache.CacheAgreement | internal/utils/uniswap.go:53-102 | under a monotone clock each success is a value fetched for the canonical address by this call, or by the last storing call less than `duration` ago |
| Data.SetStatus | internal/repository/faucet.go:143-145 | an update by id changes the status of that row and nothing else |
| Data.Inserted | internal/repository/dbsync.go:43-49 | an insertion appends the new rows in order and keeps all old ones |
| Data.HasGotDripMeaning | internal/repository/faucet.go:51-58 | HasGotDrip is true if and only if no drip row has this recipient |
| Ingest.ConfirmedIff | internal/services/datasync.go:55-58 | the target is exactly the confirmation depth below a deeper head and the head itself otherwise, so the depth is kept if and only if the head is deeper than it, or it is zero |
| Ingest.ChunkEndIff | internal/services/datasync.go:65-68 | a chunk ends at or after its start, within the range and the target, if and only if the uint64 sum does not wrap |
| Ingest.ChunkWrapExample | internal/services/datasync.go:65-68 | with the largest range, a chunk from block 10 ends at block 9 |
| Ingest.PlanTiles | internal/services/datasync.go:64-73 | the chunks of a round are non-empty, adjacent, disjoint, cover exactly the blocks up to the final height, and never pass the target |
| Ingest.PlanCount | internal/services/datasync.go:64-73 | a round makes exactly ceil((T - h) / (RangeSync + 1)) chunks and ends at T or T + 1 |
| Ingest.FormatStatus | internal/services/datasync.go:83-124 | both formatters make a row Ignore from the start exactly when its block is below DripHeight or its L2 token is Metis |
| Ingest.ChunkStatus | internal/services/datasync.go:126-165 | the same for every row collected in a chunk |
| Ingest.ChunkIsPass | internal/services/datasync.go:132-165 | the rows collected for a range are, as a multiset, those of a block-by-block pass over it |
| Ingest.StoredOrder | internal/services/datasync.go:132-165 | the k-th ERC20 event of a block is stored after those of earlier blocks, the k-th ether event after all ERC20 events and those of earlier blocks, each with its own fields |
| Ingest.PassSplit | internal/services/datasync.go:64-73 | passes over adjacent ranges add up to the pass over the whole range |
| Ingest.PassTraced | internal/services/datasync.go:83-165 | every row of a pass records an event of one of its blocks, field by field, with lower-case addresses |
| Policy.SelectsLastMatch | internal/services/faucet.go:89-94 | the loop selects the last matching policy, and none if and only if none matches |
| Policy.DefaultAlwaysSelects | internal/services/faucet.go:41-52 | once Initial has accepted the policies, every deposit gets one |
| Policy.MatchMeaning | internal/services/policy/policy.go:24-26 | a catch-all policy always matches, any other exactly for its tokens strictly between start and end |
| Policy.DecideGo | internal/services/faucet.go:148-234 | a drip is decided if and only if a policy matches, the recipient had none in this batch, and the last match's checks all pass |
| Policy.DecideNoNeed | internal/services/faucet.go:148-234 | no drip is given if and only if no policy matches, the token is unsupported, the recipient is in this batch, or a check was answered and failed after all questions before it were answered and passed |
| Policy.NoDecimalsFails | internal/services/faucet.go:176-187 | when the value of a token other than ether is needed and its decimals cannot be read, the decision is an error |
| Policy.ReadableExact | internal/services/faucet.go:177-189 | n whole tokens, n < 2^53, read as exactly n, whatever the decimals |
| Policy.ReadableError | internal/services/faucet.go:189 | an amount is read with a relative error of at most 2^-53 |
| Policy.ReadableMonotone | internal/services/faucet.go:189 | a larger amount never reads as less |
| Policy.ValueError | internal/services/faucet.go:189 | the compared dollar value differs from rate * amount / 10^decimals by at most a relative 2^-51 |
| Policy.StableRate | internal/services/faucet.go:165-175 | a stable token counts one dollar, in whatever case its address is written; any other token counts what the price feed says |
| Policy.StableTokens | internal/utils/address.go:20-33 | the stable tokens are exactly USDT, USDC, DAI and BUSD, in whatever case their address is written |
| Policy.DecimalsMeaning | internal/services/faucet.go:177-187 | ether has 18 decimals, any other token those that were read |
| Policy.GoIsWorth | internal/services/faucet.go:164-192 | under a minimum value a drip is only decided for a deposit whose exact worth is at least the minimum, up to a relative 2^-51 |
| Policy.WorthTooLittle | internal/services/faucet.go:164-192 | for a deposit worth less by more than that, the decision is that no drip is needed |
| Policy.AmountPanicsIff | internal/services/faucet.go:317-349 | only a gas rebate at answered prices can panic, and exactly on the prices of `Rebate.PanicsIff` |
| Policy.MakeTxMeaning | internal/services/faucet.go:236-260 | a transfer is built exactly from an amount that is not negative and an answered gas price and limit, and carries nonce, recipient, amount, gas price and gas limit as given |
| Policy.CompleteNeverFails | internal/services/faucet.go:96-122 | with every question answered, positive prices and a sane configuration, deciding and building the transfer cannot fail |
| Invariant.NextInv | internal/services/faucet.go:81-301 | every step of either goroutine, of the chain, and every crash keeps the whole invariant |
| Invariant.ReachableInv | main.go:126-212 | the invariant holds in every reachable state |
| Safety.ExactlyOnce | internal/services/datasync.go:64-75 | whatever chunks fail and wherever it crashes, the deposits table is, as a multiset of rows, one pass over [lo, number], empty before the first commit; lo is startFrom, or one more exactly when a restart preceded the first committed chunk |
| Safety.EveryDepositTraced | internal/services/datasync.go:126-169 | every stored deposit records a bridge event of a block from startFrom to the stored height |
| Safety.HeightsInRange | internal/services/datasync.go:126-169 | if the log filter reports events under their own block, every stored row's height is from startFrom to the stored height |
| Safety.EveryPaymentTraced | internal/services/faucet.go:119-143 | every transaction ever sent pays the recipient of such an event |
| Safety.HeightAgreement | internal/repository/dbsync.go:11-26 | between chunks the in-memory height is the stored one plus one; before the first commit the stored one is startFrom and the in-memory one startFrom, or one more after a restart |
| Safety.HeightGrows | internal/repository/dbsync.go:51-55 | the stored height never decreases, changes only with a committed chunk, and with RangeSync >= 1 strictly grows with each |
| Safety.StatusStep | internal/repository/faucet.go:75-93 | a step changes at most the status of a stored deposit, and only Unprocessed to Processing, Unprocessed to Ignore or Processing to Done |
| Safety.StatusForward | internal/repository/datamodel.go:11-16 | over any continuation a deposit keeps its data and its status only moves forward |
| Safety.StatusIffDrip | internal/repository/faucet.go:75-93 | a deposit is Processing or Done if and only if it has a drip row |
| Safety.JoinComplete | internal/repository/faucet.go:107-137 | the pending join has exactly one row for each Processing deposit and no other |
| Safety.WriteAhead | internal/services/faucet.go:119-143 | every transaction ever handed to the chain is stored, under its hash, with its deposit Processing or Done and the recipient of that deposit |
| Safety.DoneMined | internal/services/faucet.go:281-315 | the transaction of every Done deposit has been mined |
| Safety.Conservation | internal/services/faucet.go:107-143 | no transaction is mined twice, and all mined transfers together move at most the sum of the stored transactions' values |
| Safety.OneDripPerRecipient | internal/services/faucet.go:194-211 | if every policy checks for a first drip, no two drip rows ever share a recipient |
| Safety.BatchRecipients | internal/services/faucet.go:82-136 | between iterations recset is exactly the recipients committed in this batch, and none of them occurs twice |
| Safety.EveryDripEligible | internal/services/faucet.go:83-143 | every drip row belongs to a deposit at or above DripHeight and not of Metis that, when decided, passed every check of the last matching policy; its transaction pays what that policy prescribes and carries the gas price and limit answered then |
| Safety.EveryRebateCapped | internal/services/faucet.go:317-349 | in every reachable state each drip has a justifying decision under a default or gas-fee policy; a default transfer pays the configured amount, a gas-fee transfer is the lesser of gas and cap at the positive prices of that decision, and worth at most the cap, up to rounding |
| Safety.IgnoreDecides | internal/services/faucet.go:96-136 | the only step that makes an eligible deposit Ignore is the decision on it that no drip is needed |
| Safety.IgnoredForAReason | internal/services/faucet.go:96-136 | over every run, an eligible deposit is Ignore only if some step decided so, while it was unprocessed, for one of the reasons of DecideNoNeed |
| Nonces.NoncesOfOneLife | internal/services/faucet.go:115-143 | within one life of the process drips carry n0, n0 + 1, ... without gap or repeat; outside the window between commit and increment they are exactly [n0, nonce) |
| Nonces.MinedIsKth | internal/services/faucet.go:252-259 | with contiguous nonces the i-th mined transaction is that of the i-th committed drip |
| Nonces.MinedPrefix | internal/services/faucet.go:252-259 | with contiguous nonces the chain has mined a first part of the drips, all of them if and only if the counts agree |
| Nonces.FreshStartIff | internal/services/faucet.go:58-61 | after any history, no stored drip has the nonce a restart reads or a later one, if and only if every stored drip is mined, or a different mined transaction carries its nonce |
| Nonces.CleanRestartDistinct | internal/services/faucet.go:58-61 | after any history, if that holds at a restart, every drip of the new life has a higher nonce than all earlier ones |
| Nonces.LifeDistinctIff | internal/services/faucet.go:115-143 | after any history, the nonces of this life differ from all earlier ones if and only if no earlier drip has a nonce in the interval this life has used up |
| Nonces.RestartContinuesIff | internal/services/faucet.go:58-61 | after a history with contiguous nonces, the nonce a restart reads is unused, and the sequence continues, if and only if every stored drip is mined |
| Nonces.CleanRunContiguous | internal/services/faucet.go:58-61 | if all restarts find every stored drip mined, nonces are contiguous over the whole history, whatever else fails |
| Nonces.DoneMinedSeparately | internal/services/faucet.go:119-131 | with contiguous nonces different deposits never share a nonce or a transaction |
| Nonces.LostIff | internal/services/faucet.go:252-259 | after any history, a pending deposit is lost if and only if a different mined transaction carries its nonce |
| Nonces.CleanNeverLoses | internal/services/faucet.go:252-259 | with contiguous nonces no deposit is lost |
| Nonces.LostForever | internal/services/faucet.go:281-299 | a drip whose nonce went to another transaction stays Processing forever |
| Nonces.SharedNonceLoses | internal/services/faucet.go:252-259 | of two different stored transactions with one nonce, mining one loses the other |
| Payments.DoneShareIff | internal/services/faucet.go:252-259 | two Done deposits share their mined transfer if and only if nonce, recipient, value, gas price and gas of their drips agree |
| Payments.NeverShared | internal/services/faucet.go:194-211 | no two drips agree like that if nonces are contiguous, nor, whatever the restarts, if every policy checks for a first drip |
| Payments.DonePaidIff | internal/services/faucet.go:281-315 | a Done deposit has been paid if and only if its transfer has not been mined as a failure |
| Payments.OutcomeFinal | internal/services/faucet.go:281-315 | over any continuation a failed transfer is never paid and a paid one stays paid |
| Payments.PaidExactly | internal/services/faucet.go:107-143 | after clean restarts the total paid is at most what the mined first part of the drips promises, and exactly that if and only if all of them with a value succeeded |
| Payments.PayableIff | internal/services/faucet.go:41-301 | after any history, if the check query may return rows in any order, a pending deposit can be paid in some continuation if and only if it is not lost and its transfer has not been mined as a failure |
| Blocking.BlockedForever | internal/repository/faucet.go:107-109 | in every run whose checks work on the first 20 rows by id, a Processing deposit above 20 lost ones and not now being checked stays Processing |
| Blocking.BlockedUnpaid | internal/repository/faucet.go:107-109 | if besides every policy checks for a first drip and its transaction was never sent, it is never sent and never paid |
| Blocking.NextLeftover | internal/services/faucet.go:281-299 | when every policy checks for a first drip, no step reduces the number of unmined pending deposits below p in excess of the nonces still to come that they have between them |
| Blocking.BuriedForever | internal/repository/faucet.go:107-109 | if that number is 20 or more, p stays Processing in every such run |
| Clearing.Clear | internal/services/faucet.go:281-299 | if that number is below 20, some continuation settles every row below p that is mined or can be mined in time, lowest first |
| Clearing.LostLeftOver | internal/repository/faucet.go:107-109 | that number is at least the number of lost deposits below p |
| Clearing.UnsentPayableIff | internal/services/faucet.go:281-299 | after id-ordered histories and in id-ordered continuations, when every policy checks for a first drip: a never sent pending deposit can be paid, and can become Done, if and only if its nonce is still to come and the unmined pending deposits below it number fewer than 20 more than the nonces before its own |
| Clearing.MinedDoneIff | internal/services/faucet.go:281-299 | likewise, a pending deposit whose transfer was mined can become Done if and only if the unmined pending deposits below it number fewer than 20 more than their nonces still to come |
| Backlog.BlockedHistory | internal/repository/faucet.go:107-109 | a reachable history with both checks for new users whose deposit 21 is neither lost nor failed and could be paid if the query returned it, but stays Processing, unsent and unpaid in every continuation in which check queries return rows by id |
| Restarts.UncleanRestartLoses | internal/services/faucet.go:58-143 | a reachable history, with a policy that checks for new users, in which a restart leaves a deposit lost |
| Restarts.UnminedButFresh | internal/services/faucet.go:58-61 | a reachable history after which a restart reads an unused nonce although a stored drip is unmined |
| Restarts.FirstBlockSkipped | internal/repository/dbsync.go:11-26 | a reachable history whose table misses both deposits of block startFrom |
| Restarts.UncleanRestartSharesPayment | internal/services/faucet.go:58-143 | a reachable history, with a policy that does not check for a first drip, in which two Done deposits share the one transaction that was mined |
| Restarts.DoneWithoutPayment | internal/services/faucet.go:285-315 | a reachable history with clean restarts in which a deposit is Done although its only transfer failed |
| Liveness.BatchDrains | internal/services/faucet.go:81-146 | a complete batch removes min(100, n) of n Unprocessed rows; rows inserted meanwhile come on top |
| Liveness.BatchesDrain | internal/services/faucet.go:81-146 | without insertions, k complete batches leave exactly max(0, n - 100k) |
| Liveness.OrderedRunOrdered | internal/services/faucet.go:81-146 | if query results come in id order, drips and so their nonces follow deposit ids, whatever fails or crashes |
| Liveness.HeadOfLine | internal/services/faucet.go:81-146 | with id-ordered batches, as long as the lowest Unprocessed deposit stays undecided no other one is decided, whatever is ingested, mined, checked or restarted |
| Completion.SettledAfter | internal/services/faucet.go:41-146 | clean restarts and id-ordered results lead to the state that bounded completion starts from |
| Liveness.LowestInWindow | internal/repository/faucet.go:107-137 | the lowest pending drip is always within the 20 rows of the query |
| Completion.LowestIsNext | internal/services/faucet.go:281-299 | if the lowest pending drip is not mined yet, the chain waits for its transaction and for no other |
| Completion.RoundProgress | internal/services/faucet.go:281-299 | while drips are pending, a complete check round and whatever follows it brings completion closer, provided the chain then mines something if it can |
| Completion.BoundedCompletion | internal/services/faucet.go:281-299 | n pending drips are all Done after 2n complete check rounds, whichever broadcasts were lost before; during and between rounds any number of transactions may be mined, and between them the ingester, new batches, failed rounds and clean restarts may take any steps |
| Repository.FirstUnprocessedRows | internal/repository/faucet.go:15-17 | the first `limit` rows in id order are current, ascending, skip no lower row, and are min(limit, count) many |
| Repository.FirstPendingIsWindow | internal/repository/faucet.go:107-109 | the first 20 rows of the pending join in id order are exactly the window, one row each |
| Repository.Metis.InitHeight | internal/repository/dbsync.go:11-26 | inserts and returns the default on an empty table, returns the stored number plus one otherwise, changes nothing on an error |
| Repository.Metis.SaveSyncedData | internal/repository/dbsync.go:28-56 | appends all rows and overwrites the height row together, or changes nothing |
| Repository.Metis.GetDepositTxStream | internal/repository/faucet.go:15-49 | delivers at most 100 distinct, current Unprocessed rows; if no call fails as many as there are, and if besides the query returns rows by id, the lowest ids first |
| Repository.Metis.IsFirstDrip | internal/repository/faucet.go:51-58 | if the database answers, the result is true if and only if no drip row has this recipient |
| Repository.Metis.NewDrip | internal/repository/faucet.go:60-94 | stores a drip under its deposit's id with status Processing, or sets Ignore without one, or changes nothing; fails on a foreign or taken id |
| Repository.Metis.GetPendingDripsStream | internal/repository/faucet.go:107-141 | delivers at most 20 distinct rows of the join, all current; if no call fails as many as there are; if the query returns rows by id, only rows of the window, and if besides no call fails exactly the window |
| Repository.Metis.UpdateDripStatus | internal/repository/faucet.go:143-153 | succeeds exactly with the change of one row's status, and changes nothing otherwise |
| World.ForeignStep | main.go:126-212 | what a goroutine may rely on while the other one and the chain take steps |
| World.World.Interleave | main.go:126-212 | any number of such steps keeps the state reachable and that reliance |
| DataSync.DataSync.Prefight | internal/services/datasync.go:31-36 | sets the in-memory height to startFrom on a fresh database and to the stored height plus one on a resumed one |
| DataSync.DataSync.TryToSync | internal/services/datasync.go:47-75 | the committed chunks are a first part of the plan, all of it unless something fails; the table grows by one pass over exactly their blocks; a failed chunk changes neither height; a round without failure that starts below head - depth ends there or one above, and one under a head not deeper than the depth ends at the head or one above |
| DataSync.DataSync.SyncWithRange | internal/services/datasync.go:77-173 | one chunk is saved in full with its last height, or no row and no height changes |
| DataSync.DataSync.CollectDeposits | internal/services/datasync.go:132-165 | the collected rows are the formatted ERC20 events of the range followed by its ether events |
| FaucetService.FaucetService.Initial | internal/services/faucet.go:41-62 | fails without a catch-all policy, otherwise fixes the default amount and takes over the chain's nonce |
| FaucetService.FaucetService.SelectPolicy | internal/services/faucet.go:89-94 | the loop that overwrites in list order computes the last matching policy |
| FaucetService.FaucetService.ShouldTransfer | internal/services/faucet.go:148-234 | the cascade of checks computes the specified decision |
| FaucetService.FaucetService.CalMetisDrip | internal/services/faucet.go:317-349 | computes the specified amount, error or panic |
| FaucetService.FaucetService.DecideOne | internal/services/faucet.go:88-123 | decision and signed transfer of one item agree with the specification at the tables of that moment, with the local nonce; it panics exactly when the amount does |
| FaucetService.FaucetService.CommitOne | internal/services/faucet.go:124-143 | commit, increment and broadcast in this order: a failed commit changes neither tables nor nonce, a failed broadcast comes after both; the signed transaction is what is stored, and if no call fails it has been handed to the chain |
| FaucetService.FaucetService.BumpAndSend | internal/services/faucet.go:137-143 | the nonce is taken as used before the broadcast, whatever becomes of that; if no call fails the transaction has been handed to the chain |
| FaucetService.FaucetService.IgnoreOne | internal/services/faucet.go:96-136 | a deposit that needs no drip becomes Ignore, or stays untouched when the commit fails |
| FaucetService.FaucetService.SendOne | internal/services/faucet.go:83-144 | an iteration decides exactly its own row, Processing or Ignore as the decision says, or leaves all rows as they were and ends the batch; only a failed broadcast ends it after the commit; it crashes exactly when the amount of a decided drip panics |
| FaucetService.FaucetService.TryToSendDrip | internal/services/faucet.go:81-146 | the first n delivered rows are decided, all others untouched; only a failed broadcast stops a batch after its row became Processing; if no call fails the batch is complete and each of its rows that became Processing has its stored transaction handed to the chain, and if besides the query returns rows by id the lowest ids come first, whatever ingester and chain do meanwhile |
| FaucetService.RestUntouched | internal/services/faucet.go:81-146 | every row from the failing one on is exactly as the query saw it |
| FaucetService.FaucetService.GetTxStatus | internal/services/faucet.go:303-315 | reports done only for a transaction with a receipt |
| FaucetService.FaucetService.CheckOne | internal/services/faucet.go:285-298 | marks a confirmed row Done, or hands its stored transaction to the chain once more |
| FaucetService.FaucetService.TryToCheckDrip | internal/services/faucet.go:270-301 | without a balance, or with one below the reserve, nothing changes; otherwise only Processing deposits with a receipt become Done and only stored transactions are sent; if no call fails and the query returns rows by id, it is a complete check round, whatever ingester and chain do meanwhile |

## Left out

- Ingest.PlanTiles: is about targets with target + RangeSync below 2^64; beyond, the code's chunks can go backwards and need not end.
- Ingest.PlanCount: is about targets with target + RangeSync below 2^64, for the same reason.
- DataSync.DataSync.TryToSync: is about heads with head + RangeSync below 2^64, for the same reason.
- Repository.Metis.GetDepositTxStream: promises id order only where it is assumed, since the query has no ORDER BY clause.
- Repository.Metis.GetPendingDripsStream: promises id order only where it is assumed, since the query has no ORDER BY clause.
- Ingest.ChunkEndIff: shows the wrap-around of a chunk end; the transition system takes only heads with head + RangeSync below 2^64, where none happens.
- Safety.DoneMined: says mined, not successful, because the code does not look at the receipt's status; `Payments.DonePaidIff` says when it is paid.
- Completion.BoundedCompletion: assumes clean restarts, since the nonce is re-read from mined state only, and id-ordered query results; `Clearing.UnsentPayableIff` and `Clearing.MinedDoneIff` say what is possible after other restarts in id order, `Payments.PayableIff` if rows may come in any order.
- Clearing.UnsentPayableIff: leaves open, as `Clearing.MinedDoneIff` does, the deposits whose transaction was sent but not mined; for those below which 20 are lost, `Blocking.BlockedForever` applies.
- Liveness.OrderedRunOrdered: assumes id-ordered query results, since neither query has an ORDER BY clause.
- Ether.ToWeiRounds: binary64 values have an unbounded exponent here, so overflow, underflow, signed zero and subnormal values are not modelled.
- Rebate.PanicsIff: for the same reason it misses a positive subnormal price whose quotient overflows while the product for the dollar price underflows to zero.
- Policy.DecideGo: takes the token amount (`Readable`, from an imported library that is not part of this model) to be the binary64 value nearest to the quotient.
- Safety.EveryRebateCapped: is about positive prices and a cap that is not negative; the price feed is not part of this model, so nothing excludes others.
- FaucetService.FaucetService.DecideOne: prices are arbitrary answers, whether they come from the cache or from a query; the price cache is modelled and proved on its own.
- FaucetService.FaucetService.Initial: the amount given in ether on the command line is converted before; the model starts from the wei amount.
- Data.Inserted: a deposit's id is its rank of insertion; gaps that AUTO_INCREMENT leaves after a failed insertion, and the 32-bit limit of the column, are not modelled.
- Repository.Metis.SaveSyncedData: leaves out the block hash of the height row, which nothing reads.
- Repository.Metis.NewDrip: leaves out the decimal column type of the amount, which nothing reads back.
- PriceCache.CanonicalIdempotent: lower-casing is modelled for ASCII letters only, which is all an address has.
- Streams are delivered as one sequence read before the loop: channel buffering, contexts and timeouts appear only as failures and dropped rows.
- Balances, the 0.5 Metis gate before sending, the supported bridge tokens and all answers of nodes and price feed are parameters.
- HTTP, GraphQL, MySQL and RPC clients, generated bindings, key handling and signing, flags, timers, signals, logging and deployment files.
- Several running instances, commits with an unknown outcome, and reorganisations below the confirmation depth, which the code has no mechanism for.
