# Verified model of a mining pool

The pool consists of a master and any number of slaves. Miners connect to a slave over Xatum,
Stratum or Getwork; the slave hands out jobs, checks submitted shares and reports them to the
master. The master records shares, splits every coinbase reward over the recent ones, keeps the
amounts in a queue until the block is confirmed, turns them into balances and pays the balances out
in batches.

The project models five connected parts and proves what they promise over every run:

- **The money ledger** (`Pplns`, `Rewards`, `Maturing`, `Withdrawing`, `Master`, `LedgerRuns`,
  `QueueRuns`, `RequestRuns`, `QueueContents`, `MaturityRuns`, `PaymentRuns`, `AccountRuns`). `Master.Pool` is the master process, changed step by step like the source; its
  methods are proved against functions on the stored data, and `LedgerRuns` lets those steps
  interleave in any order with a book-keeper beside them. Money is conserved and leaves the queue in
  the order it came; no coinbase is queued twice as long as none is listed above the daemon's height;
  which coinbases are credited at all, what each queue entry pays to whom, what becomes of it, and who
  is paid what are stated exactly, in terms of the stored shares and the answers received.
- **Share acceptance on a connection** (`Target`, `BlockMiner`, `ShareMachine`, `ShareRuns`,
  `StratumRuns`, `SubmissionRuns`). Which submission is accepted, which share is credited, for how much
  and to whom is stated exactly. No (job id, nonce) pair passes twice, trust has to be earned, no block is lost, and
  Stratum's rebuilt block is what the miner hashed. No work is credited twice on Xatum and Getwork;
  on Stratum it is exactly when one nonce is used under two jobs with the same work.
- **The binary codec and the wire** (`Codec`, `Records`, `Frames`, `WireFormat`). Round trips with any suffix, for
  any order in which a map is written, and for any sequence of framed messages.
- **Share batching** (`Batching`). Any number of slaves with caches and lossy connections; batched
  totals equal those of single recording exactly when nothing was lost.
- **Connection counting and bans** (`RateLimit`). One counter for three servers' connection lists,
  action scores and bans.

`GoTypes`, `MapSums` and `Reals` hold Go's fixed-width arithmetic, sums over maps and facts about
real products.

Places where the code does not do what its comments, names or evident purpose say are kept as they
are, with the exact condition under which the promise holds:

- A share is meant to be credited once. On Stratum the miner id replaces the job id before hashing,
  and every `mining.authorize` hands out the current template under a new job id with its own list of
  submitted nonces; the same bytes are then credited once under each id
  (`StratumRuns.StratumCreditsTwice` is such a run, `StratumRuns.NoWorkCreditedTwice` the exact
  condition, `StratumRuns.DifferentJobsCreditOnce` a check when jobs are sent).
- `Withdraw` is documented to return true while wallets are unpaid. It returns true when an address
  comes after the 25th destination, whether or not anybody is owed anything, and false when accounts
  sharing a destination with a paid one are left over (`Withdrawing.ResultExactly`, with witnesses
  `Withdrawing.TrueWithNobodyUnpaid` and `Withdrawing.FalseWithSomebodyUnpaid`).
- The watermark of the reward queue is set to the daemon's height, not to the height of the
  credited coinbase, and it is set even when it falls (`RequestRuns.WatermarkFallsExactly`). Over every
  run a coinbase is credited exactly when it is asked for and above the daemon's height at the latest
  crediting update (`RequestRuns.CreditedExactly`, `RequestRuns.CreditedAgainExactly`). So a coinbase
  listed above the daemon's height can be credited again at once (`QueueRuns.CreditedTwice`); one that
  never was above it can be credited again after another coinbase made the watermark fall
  (`RequestRuns.WatermarkFalls`: heights 15, 25 and 15 listed while the daemon is at 20, 10 and 30);
  and one that is listed only after the watermark has passed it is not credited
  (`RequestRuns.CreditedNever`) unless the watermark falls below it (`RequestRuns.LateIsLost`).
- A fresh process asks the wallet for coinbases from the daemon's height on, not from the stored
  watermark, so a master that was away too long does not ask for every coinbase above its watermark
  (`RequestRuns.FirstRequestCovers`, `RequestRuns.LaterRequestsCover`).
- The balance shown as pending counts what the fee address earns as a miner twice, because its entry,
  which already holds that portion, is added once more (`QueueContents.PendingShown`).
- The difficulty wanted of an idle miner is commented to halve every 40 seconds. It is divided by
  1 + seconds / 40, so it takes 40, 120 and 280 seconds to halve once, twice and three times
  (`SubmissionRuns.JobSentExactly`).
- The connection limit is exceeded by one, and a Getwork request that is counted and then refused
  keeps its count for good (`RateLimit.CounterDecides`, with the runs `RateLimit.LimitExceeded` and
  `RateLimit.CounterLeaks`). The costs and the interval in the comment
  of `rate_limit/rate_limit.go` are not the constants; the constants are modelled.
- The ban for sending no shares is entered under the remote address with its port, where no lookup
  without a port finds it (`RateLimit.InactivityBanExactly`).
- Cutting the port off at the first colon leaves of an IPv6 remote only its first group, so different
  IPv6 miners of the Xatum and Stratum servers share one counter and one score
  (`RateLimit.SameKeyExactly`, `RateLimit.V6RemotesShareKey`).
- A wallet that broadcasts a transaction and then reports an error is taken for one that sent nothing;
  the books agree with what left the wallet exactly when that never happened to a batch
  (`AccountRuns.LeftWalletExactly`).
- A message of 65536 bytes or more does not survive the 16-bit length field
  (`Frames.FramedExactly`).

## Model

| member | source | states |
|---|---|---|
| Target.ValueOfTargetBytes | pow/target.go:45-54 | the 32 right-aligned bytes of a difficulty's target have exactly the target as their big-endian value |
| Target.CompareIsNumeric | pow/target.go:56-60 | lexicographic comparison of equally long byte strings is comparison of their big-endian values, for less and for equal |
| Target.CheckDiffMeaning | pow/target.go:34-60 | for every 32-byte hash and positive difficulty the check holds if and only if hash * difficulty is at most 2^256 - 1; difficulty 0 accepts exactly the zero hash |
| Target.CheckDiffAntitone | pow/target.go:34-60 | a hash good enough for a difficulty is good enough for every smaller positive one |
| Codec.Serializer.AddUvarint | serializer/serializer.go:45-48 | the loop appends exactly the base-128 encoding of the value |
| Codec.Serializer.AddUint64 | serializer/serializer.go:41-44 | appends the eight little-endian bytes |
| Codec.Serializer.AddFixedByteArray | serializer/serializer.go:49-54 | appends the bytes as they are, for a caller that states their length |
| Codec.Serializer.AddString | serializer/serializer.go:55-60 | appends the length as a varint, then the bytes |
| Codec.Deserializer.ReadUvarint | serializer/deserializer.go:76-91 | value, remaining data and sticky error for every input, truncated and overlong varints included |
| Codec.Deserializer.ReadUint64 | serializer/deserializer.go:64-75 | value, remaining data and sticky error for every input |
| Codec.Deserializer.ReadFixedByteArray | serializer/deserializer.go:93-104 | bytes, remaining data and sticky error for every input |
| Codec.Deserializer.ReadByteSlice | serializer/deserializer.go:105-127 | bytes, remaining data, sticky error and panic for every input |
| Codec.UvarintRoundTrip | serializer/deserializer.go:76-91 | every 64-bit value comes back from its encoding, whatever follows, and exactly its bytes are consumed |
| Codec.Uint64RoundTrip | serializer/deserializer.go:64-75 | the same for fixed 64-bit integers |
| Codec.StringRoundTrip | serializer/deserializer.go:105-130 | the same for every byte string Go can hold |
| Codec.ByteSlicePanicsExactly | serializer/deserializer.go:105-127 | reading a byte string panics if and only if a well-formed length of 2^63 or more is read |
| Codec.ReadsAdvance | serializer/deserializer.go:28-104 | on any input a read leaves a suffix of the data, changes nothing once an error is set, and never clears an error |
| Codec.ByteSliceAdvances | serializer/deserializer.go:105-127 | the same for byte strings |
| Records.SerializeUnconfTx | database/database.go:64-76 | writes one encoding of the record, its map in some order visiting every key once, from which exactly the record is read back |
| Records.DeserializeUnconfTx | database/database.go:78-97 | record, unread suffix, error and panic for every input |
| Records.SerializePending | database/database.go:106-120 | writes the watermark and every queue entry, each with its map in some order, from which exactly the queue is read back |
| Records.DeserializePending | database/database.go:122-147 | queue, error and panic for every input |
| Records.DeserializeShare | database/database.go:39-51 | share, error and panic for every input |
| Records.DeserializeAddrInfo | database/database.go:167-179 | address record and error for every input |
| Records.SerializeShare | database/database.go:28-37 | writes exactly the encoding that ShareRoundTrip reads back |
| Records.SerializeAddrInfo | database/database.go:155-165 | writes exactly the encoding that AddrInfoRoundTrip reads back |
| Records.ShareRoundTrip | database/database.go:28-51 | every share comes back from its encoding |
| Records.AddrInfoRoundTrip | database/database.go:155-179 | every address record comes back from its encoding |
| Records.DecBalsRoundTrip | database/database.go:69-94 | a balance map written in any order comes back as the same map, and the suffix is untouched |
| Records.UnconfTxRoundTrip | database/database.go:64-97 | a queue entry written in any map order with any bytes behind it comes back with exactly those bytes unread |
| Records.PendingRoundTrip | database/database.go:106-147 | the whole queue comes back, for every order in which each of its maps was written |
| Records.UnconfTxConsumesPrefix | database/database.go:78-97 | on any input, a decoded entry took at least 33 bytes off the front and left a suffix |
| WireFormat.VarintIsBase128 | serializer/serializer.go:45-48 | a varint is its value in base 128, lowest digit first, without leading zeros, the top bit set on every byte but the last |
| WireFormat.ShareLayout | database/database.go:28-37 | the bytes of an example share |
| WireFormat.AddrInfoLayout | database/database.go:155-165 | the bytes of an example address record |
| WireFormat.UnconfTxLayout | database/database.go:64-76 | the bytes of an example queue entry with two addresses, for one order of its map |
| WireFormat.PendingLayout | database/database.go:106-120 | the bytes around the entries of a queue |
| WireFormat.PacketLayout | slave/client.go:124-154 | the bytes of an example of every packet |
| WireFormat.FrameLayout | slave/client.go:156-165 | the length field of an example frame |
| WireFormat.ReadsFailExactly | serializer/deserializer.go:28-104 | a read of fixed size fails if and only if its bytes are not there |
| WireFormat.UnfinishedVarints | serializer/deserializer.go:76-91 | a varint that is cut off reads as 0 without an error or progress; one longer than ten bytes is an error |
| WireFormat.LengthBeyondEnd | serializer/deserializer.go:105-127 | a length beyond the end of the data is an error that consumes only the length |
| Pplns.ScanShares | cmd/master/updater.go:225-254 | one pass leaves every share but the outdated ones and yields each wallet's difficulty over the live ones and their sum |
| Pplns.PayMiners | cmd/master/updater.go:278-290 | the range loop, in any order, gives every miner its rounded-down portion and their sum modulo 2^64 |
| Pplns.SplitReward | cmd/master/updater.go:272-294 | the queue entry's amounts and the pending sums after one coinbase |
| Pplns.SplitSumsModulo | cmd/master/updater.go:278-292 | with no assumption at all the amounts sum to the block reward modulo 2^64 |
| Pplns.PortionsBound | cmd/master/updater.go:280-287 | rounding the portions down loses less than one unit a miner |
| Pplns.MinersWithinReward | cmd/master/updater.go:220-292 | when some live share carries difficulty, or there is none, the miners get at most the reward after the fee, so the subtraction for the fee address never underflows |
| Pplns.SplitIsExactAndFair | cmd/master/updater.go:220-292 | when some live share carries difficulty, or there is none, the amounts sum to exactly the reward, each miner gets the floor of its proportional share, and the fee address at least the fee and less than the fee plus one unit a miner, also when it is itself a miner |
| Rewards.SortSorts | cmd/master/updater.go:181-184 | the sorted listing is an ascending permutation of the listing, and coinbases of one height keep their order |
| Rewards.CreditedMembers | cmd/master/updater.go:216-217 | credited are exactly the listed coinbases above LastHeight |
| Rewards.CreditAllShape | cmd/master/updater.go:214-317 | an update succeeds if and only if every credited coinbase has a well-formed hash; it then appends one entry for each, in order, and moves the watermark to the daemon's height if there was any |
| Master.Pool.UpdatePendingBals | cmd/master/updater.go:151-345 | the whole stored state after an update, unchanged when the listing or a hash is bad, and the height asked for |
| Master.Pool.CreditTransfers | cmd/master/updater.go:216-315 | the loop over the listing on the transaction's copy |
| Master.Pool.PutPendings | cmd/master/updater.go:319-345 | every stored address' pending balance is this batch's, 0 for those not in it |
| QueueContents.ScanKeepsExactly | cmd/master/updater.go:232-252 | the pass over the bucket keeps, each in its place, exactly the records that do not decode or have time + window >= now |
| QueueContents.CleanupKeepsExactly | cmd/master/master.go:134-153 | the start-up pass keeps exactly those that decode and have time + window >= now |
| QueueContents.QueueFollowsShares | cmd/master/updater.go:214-317 | every update appends one entry for each listed coinbase above LastHeight: it names the wallets with a share in the window and the fee address, every other miner gets floor(D(w) / D * reward * (100 - fee) / 100) for the difficulties D of the stored shares, and the fee address the rest; exactly the shares in the window stay; a bad hash changes nothing |
| QueueContents.PendingShown | cmd/master/updater.go:288-345 | after an update every stored address shows as pending what the new entries hold for it, the fee address its own portions as a miner a second time; Balance and Paid stay |
| Master.Pool.GetTotalMoney | database/database.go:98-104 | the sum of a map modulo 2^64, in any visiting order |
| Master.Pool.GetDebt | cmd/master/api.go:367-413 | wallet balance minus all balances and pending balances, in coins; 0 when the wallet does not answer |
| Master.Pool.CheckWithdraw | cmd/master/withdraw.go:55-209 | the whole stored state for every answer of daemon and wallet: matured, orphaned, or unchanged on any error; true exactly when a block matured |
| Master.Pool.CreditBalances | cmd/master/withdraw.go:153-188 | the range loop, in any order, credits each address its scaled amount once and empties banned ones |
| MaturityRuns.CheckExactly | cmd/master/withdraw.go:78-197 | the head is paid and leaves if and only if its unlock height is below the daemon's and the daemon reports a block that is not orphaned and has a reward; it leaves unpaid if and only if that height test holds and the block is orphaned or there is no answer more than ten blocks later; otherwise nothing changes. A paid address gets floor(amount * min(1, reward / total) * factor) with factor 2 above a surplus of 50 coins, 0.5 below -10, else 1; banned ones are emptied |
| MaturityRuns.LeavesExactly | cmd/master/withdraw.go:78-197 | in every state of every run, what each step takes off the queue and how it is booked; no other step takes anything |
| MaturityRuns.FatesOfEntries | cmd/master/withdraw.go:78-197 | over every run, the entries that left are those paid and those lost under these conditions, and the money booked as matured and orphaned is theirs |
| Maturing.MultiplierRange | cmd/master/withdraw.go:132-150 | the multiplier is between 0 and the debt factor and scales the total to factor * min(block reward, total) |
| Maturing.MaturedWithinReward | cmd/master/withdraw.go:132-177 | a matured block credits in total at most factor * min(block reward, queued total), each address the floor of its scaled amount, and exactly the queued amounts when the multiplier is 1 |
| Maturing.MatureHoldings | cmd/master/withdraw.go:153-188 | below 2^64 no balance wraps: what all addresses hold grows by exactly the credits minus what banned addresses lose |
| Master.Pool.Withdraw | cmd/master/withdraw.go:215-374 | balances, result and recorded withdrawals after one call; a failed transfer leaves every account and the recorded withdrawals alone and returns false |
| Master.Pool.CollectBatch | cmd/master/withdraw.go:225-309 | the cursor loop pays exactly the addresses of the specified batch |
| Master.Pool.AlreadyListed | cmd/master/withdraw.go:265-274 | true exactly when the destination is already in the batch |
| PaymentRuns.TransfersGoHome | cmd/master/withdraw.go:250-298 | every transfer pays out an account with a balance above the threshold, minus the fee: to its own address, or to the fee address when it is the pool's or banned |
| PaymentRuns.MinerPaidExactly | cmd/master/withdraw.go:230-309 | a miner's account is paid in a call if and only if the transfer succeeds, its balance is above the threshold and fewer than 25 destinations are due before it; then exactly one transfer goes to its own address and its balance moves to Paid, otherwise nothing changes |
| PaymentRuns.PaidIsWhatWasSent | cmd/master/withdraw.go:215-374 | over every run, what was sent to a miner's address plus one fee a transfer is its Paid |
| Withdrawing.TransfersWellFormed | cmd/master/withdraw.go:230-309 | at most 25 transfers, destinations pairwise distinct, each transfer the payout of an account over the threshold to its effective destination |
| Withdrawing.BatchComplete | cmd/master/withdraw.go:230-309 | unless the loop stopped at a full batch, every account over the threshold is paid or shares its destination with one that is |
| Withdrawing.BatchConservesMoney | cmd/master/withdraw.go:291-309 | with the threshold at least the fee, transfers plus fee revenue equal the balances zeroed and the increase in Paid; nothing wraps and no other account changes |
| Withdrawing.DueAfterBatch | cmd/master/withdraw.go:250-308 | a batch takes exactly its accounts off the accounts due |
| Withdrawing.ResultMeaning | cmd/master/withdraw.go:214-235 | the result is true if and only if the transfer went through and an address came after the 25th destination; then exactly 25 due accounts were paid and somebody is unpaid if and only if more than 25 were due; after a successful false result only accounts sharing a paid destination are still due |
| Withdrawing.PaidCount | cmd/master/withdraw.go:230-309 | a batch pays as many accounts as there are destinations among the due ones, up to 25 |
| Withdrawing.FalseMeansPaid | cmd/master/withdraw.go:250-309 | a successful false result leaves nobody unpaid if and only if the due accounts have pairwise distinct destinations |
| Withdrawing.ResultExactly | cmd/master/withdraw.go:214-374 | the result says whether somebody is unpaid if and only if, for a failed call, nobody was due; for one that meets an address after 25 destinations, more than 25 accounts were; for any other, the due accounts have distinct destinations |
| Withdrawing.TrueWithNobodyUnpaid | cmd/master/withdraw.go:214-235 | for any 25 due addresses with distinct destinations, visited first and followed by addresses not due, the result is true although nobody is left to pay |
| Withdrawing.FalseWithSomebodyUnpaid | cmd/master/withdraw.go:252-274 | with the pool's and the fee address' accounts both due the result is false although one of them is left to pay |
| Master.Pool.WithdrawRounds | cmd/master/updater.go:42-56 | the bounded loop's final balances and number of calls |
| Withdrawing.LoopProgress | cmd/master/updater.go:47-54 | at most the allowed number of calls, and no more than full batches of 25 due accounts plus one; nobody becomes due |
| Withdrawing.LoopFinishes | cmd/master/updater.go:47-54 | with fewer than 25 due accounts for each allowed call and working transfers the loop ends by itself: each call but the last pays 25 due accounts, the last returns false, and afterwards nobody is due if and only if the accounts due before the last call had distinct destinations |
| Master.Pool.OnShareFound | cmd/master/master.go:164-203 | appends one share booked to the wallet, to the fee address for an invalid wallet, none for a banned one |
| Master.Pool.DatabaseCleanup | cmd/master/master.go:122-162 | the start-up pass keeps exactly the readable live shares, in order |
| Master.Pool.ApiStats | cmd/master/api.go:206-210 | zeroes a balance above half of the uint64 range and nothing else |
| LedgerRuns.Perform | cmd/master/updater.go:42-125 | every step of a run is what the process' own method does to the stored data and to the height asked from |
| LedgerRuns.BooksFollowTheProcess | cmd/master/updater.go:151-345 | the book-keeper changes no stored data: a run's ledger is the process' ledger, aborted updates included |
| LedgerRuns.EntryHoldsReward | cmd/master/updater.go:278-303 | one credited coinbase puts exactly its reward into the queue |
| LedgerRuns.UpdateKeepsBooks | cmd/master/updater.go:188-345 | an update keeps the books |
| LedgerRuns.CheckKeepsBooks | cmd/master/withdraw.go:55-209 | a maturity check keeps the books, whatever daemon and wallet answer |
| LedgerRuns.PayKeepsBooks | cmd/master/withdraw.go:215-374 | a withdrawal keeps the books, whether or not the transfer succeeds |
| LedgerRuns.StatsChangesNothing | cmd/master/api.go:206-210 | with the books kept and rewards bounded, the API's repair of huge balances never fires |
| LedgerRuns.MoneyIsConserved | cmd/master/withdraw.go:83-309 | over every interleaving: rewards credited equal queued plus orphaned plus matured amounts; matured amounts equal balances plus paid plus what banned addresses lost plus the shortfall, which is negative at most by what was paid double; what left the wallet plus fees is what is booked as paid; the queue is first in, first out |
| LedgerRuns.NeverPaysMoreThanEarned | cmd/master/withdraw.go:83-309 | while no block was paid double, all transfers, fees, balances and seizures fit into the rewards that left the queue for payment |
| AccountRuns.AccountIsWhatItEarned | cmd/master/withdraw.go:153-309 | over every run, what an account that is not banned holds and has been paid is exactly the sum of its amounts in the entries that were paid |
| AccountRuns.UnreportedExactly | cmd/master/withdraw.go:320-327 | money left the wallet unbooked if and only if some nonempty batch was broadcast and reported as failed |
| AccountRuns.LeftWalletExactly | cmd/master/withdraw.go:291-327 | over every run, what really left the wallet plus the fees kept is what is booked as paid if and only if no nonempty batch was broadcast and reported as failed |
| QueueRuns.UpdateKeepsWatermark | cmd/master/updater.go:182-317 | for a listing at or below the daemon's height, LastHeight does not fall, bounds everything ever credited, and the queue stays sorted |
| QueueRuns.WatermarkHolds | cmd/master/updater.go:214-317 | the same in every reachable state, when listings stay at or below the daemon's height |
| QueueRuns.HeadDecides | cmd/master/withdraw.go:83-84 | in every state reached with listings at or below the daemon's height, if the head of the queue has not matured nothing behind it has |
| QueueRuns.NoCoinbaseTwice | cmd/master/updater.go:214-317 | over every such run no block enters the queue twice |
| QueueRuns.RelistingCreditsNothing | cmd/master/updater.go:303-317 | handing a listing in again as the very next update, at whatever height, queues nothing if and only if nothing was new the first time or no coinbase was above the daemon's height |
| QueueRuns.CreditedTwice | cmd/master/updater.go:303-317 | a coinbase above the daemon's height that two updates credit twice |
| RequestRuns.WatermarkIsMarked | cmd/master/updater.go:214-317 | in every state of every run the watermark is the daemon height of the latest update that credited something, 0 before the first |
| RequestRuns.WatermarkFallsExactly | cmd/master/updater.go:303-317 | a step lowers the watermark if and only if it is an update that credits something while the daemon is below the watermark |
| RequestRuns.CreditedExactly | cmd/master/updater.go:156-317 | on every run an update with well-formed hashes credits a coinbase of the wallet if and only if it is asked for and the latest crediting update saw the daemon below its height |
| RequestRuns.CreditedAgainExactly | cmd/master/updater.go:214-317 | on every run a coinbase credited before is credited again under exactly that condition |
| RequestRuns.RepeatsExactly | cmd/master/updater.go:214-317 | in every state of every run some next update could credit something a second time if and only if something credited is above the watermark |
| RequestRuns.LateIsLost | cmd/master/updater.go:214-317 | on every run a coinbase the watermark has passed uncredited stays uncredited until an update credits another one while the daemon is below it |
| RequestRuns.TimelyLateIsLost | cmd/master/updater.go:214-317 | with listings at or below the daemon's height it is never credited |
| RequestRuns.TimelyWatermark | cmd/master/updater.go:214-317 | with such listings the watermark is at least the daemon height of every crediting update |
| RequestRuns.CreditedNever | cmd/master/updater.go:303-317 | a coinbase listed one update late that two updates do not credit |
| RequestRuns.WatermarkFalls | cmd/master/updater.go:303-317 | a run of three updates in which the watermark falls and a coinbase that was never above the daemon's height is credited a second time, or one already passed is credited |
| RequestRuns.FirstRequestCovers | cmd/master/updater.go:156-173 | a fresh process asks for every coinbase above its watermark if and only if the daemon is at most 6 blocks above it or at most at height 5 |
| RequestRuns.LaterRequestsCover | cmd/master/updater.go:156-211 | on every run, the request after an update covers everything above the watermark if and only if a watermark above 5 has not fallen by more than 6, or for a lower one the update's own request reached down to it |
| RequestRuns.NextUpdateCredits | cmd/master/updater.go:156-317 | once the watermark is above 5 and does not fall by more than 6, the second of two updates in a row credits every coinbase of the wallet above the watermark |
| BlockMiner.Overwrite | pow/block_miner.go:57-93 | the setters' loop replaces exactly the bytes at its position, in place |
| BlockMiner.SetTimestamp | pow/block_miner.go:57-70 | the array after the call |
| BlockMiner.SetNonce | pow/block_miner.go:71-85 | the array after the call |
| BlockMiner.SetExtraNonce | pow/block_miner.go:86-93 | the array after the call |
| BlockMiner.SetJobID | pow/block_miner.go:133-139 | the array after the call |
| BlockMiner.SetPoolNonce | pow/block_miner.go:145-149 | the array after the call |
| BlockMiner.NonceLaws | pow/block_miner.go:71-149 | after setting the nonce its getter gives it back and every other getter is unchanged |
| BlockMiner.TimestampLaws | pow/block_miner.go:57-118 | the same for the timestamp |
| BlockMiner.ExtraNonceLaws | pow/block_miner.go:86-149 | the same for the extra nonce, with the job id and pool nonce inside it |
| BlockMiner.JobIdLaws | pow/block_miner.go:128-149 | the same for the job id, the rest of the extra nonce kept |
| BlockMiner.BlockIsItsParts | pow/block_miner.go:104-118 | a block is determined by its five getters |
| BlockMiner.BlobRoundTrip | pow/block_miner.go:47-56 | a block goes through its blob and back, up to the timestamp, if and only if its nonce is 0 |
| ShareMachine.CData.GetNextDiff | xatum/server/server.go:79-94 | the difficulty after the pause since the last share |
| ShareMachine.CData.SendJob | cmd/slave/daemon_conn.go:137-166 | the job list after a Xatum or Getwork job: clamped difficulty, fresh id, oldest job dropped beyond six |
| ShareMachine.CData.SendStratumJob | cmd/slave/stratum.go:516-557 | the same state although the extra nonce is filled in three writes |
| ShareMachine.CData.Authorize | cmd/slave/stratum.go:318-335 | wallet, difficulty and the stub job that mining.authorize adds |
| ShareMachine.CData.HandleSubmit | cmd/slave/handler.go:159-303 | state and verdict of a submission for every input, in the order of the source's checks |
| ShareMachine.CData.ProcessShare | cmd/slave/handler.go:305-416 | state and outcome of judging a share: forced, skipped or repeated hash computation, score resets, credit, block |
| ShareMachine.CData.UpdateNextDiff | cmd/slave/handler.go:368-399 | the connection after the retarget |
| ShareMachine.CData.RebuildShare | cmd/slave/stratum.go:382-406 | the loop rebuilds the block of the last job with the id; nothing is handed on when its timestamp is 0 |
| StratumRuns.UnknownIdIsOutdated | cmd/slave/stratum.go:382-406 | an id that no job has is answered as outdated, whatever the nonce |
| ShareMachine.FindJob | cmd/slave/handler.go:226-232 | the last job with the id, and none exactly when no job has it |
| ShareRuns.StepKeepsInvariant | cmd/slave/handler.go:159-416 | every step of a connection keeps the job, nonce, credit and trust invariants |
| ShareRuns.InvariantHolds | cmd/slave/handler.go:159-416 | they hold on every run with fresh nonzero job ids |
| ShareRuns.NoPairPassesTwice | cmd/slave/handler.go:215-284 | no (job id, nonce) pair passes the nonce check twice over a connection's life, evicted jobs included; at most six jobs plus one for each authorize are kept |
| StratumRuns.StratumSameBytes | cmd/slave/handler.go:254-257 | two Stratum submissions hash the same bytes if and only if they have the same nonce and their jobs the same work hash, timestamp and public key |
| StratumRuns.RunKeepsFromJobs | cmd/slave/stratum.go:382-422 | on any Stratum run every accepted submission hashes what the miner hashed for the job it was accepted under, evicted jobs included |
| StratumRuns.NoWorkCreditedTwice | cmd/slave/handler.go:215-403 | on every run of any kind of connection, two credited submissions hashed the same bytes if and only if the connection is a Stratum one and one nonce was used under two different jobs with the same work |
| StratumRuns.DifferentJobsCreditOnce | cmd/slave/stratum.go:516-557 | a Stratum connection never sent the same work under two job ids never has bytes credited twice |
| StratumRuns.NonceUnderTwoJobs | cmd/slave/handler.go:215-403 | in any reachable state of a Stratum connection, an honest nonce open under two live jobs is credited under both, and the same bytes are credited twice if and only if the jobs carry the same work |
| StratumRuns.StratumCreditsTwice | cmd/slave/stratum.go:318-335 | for every miner and template, the run of two authorizes and two submissions that credits the same bytes twice |
| SubmissionRuns.JobSentExactly | cmd/slave/daemon_conn.go:137-159 | a job that is sent is the last one kept, the oldest goes when there were six, and it carries the template's work under its own id with the faded difficulty between minimum and chain difficulty |
| SubmissionRuns.AuthorizedDifficulty | cmd/slave/stratum.go:318-335 | a miner that authorizes with a difficulty gets it for its next job, within the minimum and the chain's |
| SubmissionRuns.RetargetWeights | cmd/slave/handler.go:377-397 | the new difficulty is the mean of the old and the measured one with weight 5, 12 or 20 by the score |
| SubmissionRuns.AcceptedExactly | cmd/slave/handler.go:159-303 | on any run and any kind of connection a submission is accepted if and only if it is allowed, has 112 bytes, the pool nonce and a nonzero id, and a live job has this id, the same work hash and public key, has not seen the nonce, and job timestamp <= timestamp <= now + 10 s; what is queued are its bytes with the job's difficulties |
| SubmissionRuns.CreditedExactly | cmd/slave/handler.go:305-403 | a queued submission is credited if and only if it has a nonblank hash, the claimed one if any, that meets its difficulty and, where the pool recomputes it, is the proof-of-work hash |
| SubmissionRuns.CreditsAreReported | cmd/slave/handler.go:401-403 | over every run each credit is reported once, with the difficulty at which its job was sent and for the wallet given by the last authorize or handshake before the judgement |
| ShareRuns.TrustIsEarned | cmd/slave/handler.go:343-379 | a share credited without recomputation was preceded by at least the trust score's worth of recomputed shares since the start, and twice as many since the last reset |
| ShareRuns.HonestShareCredited | cmd/slave/handler.go:305-403 | an honest hash meeting the share difficulty is credited in every connection state, and a recomputed credit is one |
| ShareRuns.RetargetStaysBetween | cmd/slave/handler.go:368-398 | for every connection state the next difficulty lies between the old one and the measured one, the latter at least the minimum; when it is finite and when it is not a number, exactly |
| ShareRuns.BlockSentExactly | cmd/slave/handler.go:305-416 | with the share difficulty between 1 and the chain's, a block goes to the daemon if and only if its recomputed hash meets the chain difficulty |
| ShareRuns.NoBlockIsLost | cmd/slave/handler.go:327-416 | the same for every submission accepted on any run, all three job senders included |
| ShareRuns.BlocksAreProven | cmd/slave/handler.go:341-416 | on any run, whatever went to the daemon was an accepted submission with a recomputed hash meeting its chain difficulty |
| StratumRuns.StratumAgreesWithMiner | cmd/slave/stratum.go:382-422 | on any run the block rebuilt from a live job id and a nonce is handed on if and only if the job has a timestamp, then accepted if and only if the nonce is new and the timestamp not too far ahead, and what is hashed is byte for byte what the miner hashed |
| Frames.Conn.SendToConn | slave/client.go:156-165 | appends exactly the frame of one message |
| Frames.ReadLoop | cmd/master/handler.go:34-82 | the messages handed on before the connection ends, for any bytes received |
| Frames.ReadsFrame | cmd/master/handler.go:38-80 | from the start of a frame the reader takes exactly that message, or waits when it is cut |
| Frames.StreamRoundTrip | cmd/master/handler.go:34-82 | any sequence of messages shorter than 65536 bytes comes out as it went in |
| Frames.CutStream | cmd/master/handler.go:34-82 | however the connection is cut, exactly the completely received messages come out |
| Frames.FramedExactly | slave/client.go:156-165 | any sequence of messages comes through as sent if and only if each is shorter than 65536 bytes |
| Frames.OnMessage | cmd/master/handler.go:93-160 | the decoded packet, or malformed, unknown or a crash, for every message; a ban packet is answered with whatever could be read |
| Frames.SendCachedShare | slave/queue.go:73-83 | builds the share packet's encoding |
| Frames.PacketRoundTrip | cmd/master/handler.go:103-155 | every packet a slave sends is decoded by the master as what it was |
| Batching.SlaveCache.CacheShare | slave/queue.go:40-50 | the cache after one share: count and sum of its wallet |
| Batching.SlaveCache.Flush | slave/queue.go:57-70 | with a connection, one framed packet for each cached wallet in some order and an empty cache; without one, nothing |
| Batching.HandleMessage | cmd/master/handler.go:103-116 | the master's bucket after a message, share packets routed by wallet |
| Batching.RecordedFor | cmd/master/master.go:164-203 | a share packet adds one share with its difficulty, under its wallet when that is valid, else under the fee address, and none when the one that applies is banned |
| Batching.RoutedExactly | cmd/master/master.go:164-173 | which wallets are booked to an address |
| Batching.FlushMovesAll | slave/queue.go:57-70 | through encoding and decoding, a flush carries exactly the cached difficulty of any class of wallets, in any order |
| Batching.StepBalances | slave/queue.go:40-70 | submit, flush, deliver and drop each keep the balance of difficulty for any class of wallets |
| Batching.DifficultyIsConserved | slave/queue.go:40-83 | over every interleaving at any number of slaves: submitted difficulty equals cached plus in flight plus dropped plus delivered, plus 2^64 for each overflow of a cached sum |
| Batching.MasterBooksDelivered | cmd/master/master.go:164-203 | what the bucket holds for a wallet is what was delivered for the wallets routed to it |
| Batching.NothingCountsTwice | cmd/master/handler.go:103-116 | at any moment a wallet has recorded what single recording would have given, minus what is cached, in flight, dropped or overflowed |
| Batching.BatchedAgreesWithSingle | cmd/master/updater.go:254-255 | once caches and wires are empty, with all batched and single shares in the window, positive difficulties and less than 2^64 a wallet, the totals a reward is split by equal those of single recording if and only if nothing the master would have booked was dropped |
| RateLimit.Limiter.CanConnect | rate_limit/perip.go:28-38 | the counters and the answer |
| RateLimit.Limiter.Disconnect | rate_limit/perip.go:39-46 | the counters after one disconnect, never below zero |
| RateLimit.Limiter.CanDoAction | rate_limit/rate_limit.go:64-89 | scores, bans and the answer |
| RateLimit.Limiter.Ban | rate_limit/rate_limit.go:55-62 | a ban of 300 seconds, whatever end was asked for |
| RateLimit.Limiter.ClearRl | rate_limit/rate_limit.go:101-117 | no scores, and exactly the bans that are not over |
| RateLimit.Server.HandleConnection | xatum/server/server.go:204-222 | the peer is listed exactly when it was counted |
| RateLimit.Server.AcceptStratum | cmd/slave/stratum.go:128-150 | score, counter and list after an accepted or refused connection |
| RateLimit.Server.ListenGetwork | cmd/slave/getwork.go:173-248 | counter, score and list after a request; refusals after the count keep the count |
| RateLimit.Server.Kick | xatum/server/server.go:184-202 | every peer with the id leaves the list and gives its count back |
| RateLimit.Server.SweepDead | cmd/slave/stratum.go:560-583 | every dead peer leaves the list and gives its count back |
| RateLimit.Perform | cmd/slave/getwork.go:76-101 | every step of a run is what the programs do to tables and lists |
| RateLimit.KeptExactly | xatum/server/server.go:184-202 | kicking an id takes out exactly the peers with it, a sweep exactly the dead ones |
| RateLimit.KeptInOrder | cmd/slave/getwork.go:83-101 | each peer is looked at for itself and those kept stay in their order |
| RateLimit.ReleaseMatches | xatum/server/server.go:184-202 | taking out any set of peers lowers an address' counter by exactly the number of its peers taken out |
| RateLimit.ConnectionsAreCounted | rate_limit/perip.go:28-46 | over every run an address' counter is its connections in the three lists plus its Getwork requests counted and refused, and at most 101 |
| RateLimit.CounterDecides | rate_limit/perip.go:26-38 | a connection is let in if and only if at most 100 are counted; with none open the counter is zero if and only if no Getwork request was refused after being counted |
| RateLimit.LimitExceeded | rate_limit/perip.go:28-38 | a run with 101 open connections of one address |
| RateLimit.CounterLeaks | cmd/slave/getwork.go:173-197 | a run after which the counter of an address without connections is 1 |
| RateLimit.HistoryDecides | rate_limit/rate_limit.go:64-117 | on every run with a clock that never goes back, an action is granted if and only if every ban imposed is over and the score asked for since the last clear, refusals included, stays within 2000 modulo 2^32 |
| RateLimit.ExcessBans | rate_limit/rate_limit.go:74-86 | asking for more than 2000 between two clears is refused and bans for 300 seconds |
| RateLimit.BannedStaysRefused | rate_limit/rate_limit.go:64-117 | whatever clears, attempts and further bans follow, a banned address is refused until its ban ends |
| RateLimit.InactivityBanExactly | cmd/slave/daemon_conn.go:188-203 | the ban for inactivity refuses the miner's own lookups if and only if its remote address has no port |
| RateLimit.InactivityBanRefusesNobody | cmd/slave/daemon_conn.go:188-203 | under an address with a port it refuses nobody looked up without one |
| RateLimit.SameKeyExactly | util/util.go:27-29 | two remotes are looked up under one key if and only if their hosts agree up to the first colon, which for hosts without colons means that they are the same |
| RateLimit.V6RemotesShareKey | util/util.go:27-29 | all IPv6 remotes with the same first group are looked up under one key, however different the rest |
| RateLimit.GrantedWithinLimit | rate_limit/rate_limit.go:64-117 | between two clears at most 2000 is granted to an address that asked for less than 2^32 |

## Left out

- Sockets, TLS, websockets, JSON, base64, hexadecimal text, Discord, the HTTP API, the web pages, logging and configuration files.
- XChaCha20-Poly1305, the Xelis proof of work, blake3 and address validation: an abstract inverse pair that adds 40 bytes, a function of the bytes and the algorithm, and parameters.
- float64 rounding: amounts, ratios and difficulties are exact reals. A conversion to uint64 that Go leaves undefined gives the constant `junk`, arbitrary in the ledger and at least 1 in job difficulties (the value common compilers produce).
- Locking and data races: every transaction, call and packet is one atomic step. Paths of the submit handler that return with the connection locked, and the pointer into a job slice that may be reallocated, are not described.
- The job a handshake or a retarget asks the caller to send afterwards: sending a job is a step of its own that may happen at any time. The daemon's subscription and the resubmission of a failed block are not modelled.
- bbolt: buckets are maps and sequences, a transaction either happens or leaves no trace, and a cursor visits a snapshot. Deleting from a bucket under its cursor is described as the source intends it.
- Stored records are taken as decoded; the round trips of `Records` justify that. A share that does not decode is kept as such; an absent queue record is an empty one.
- Records are values: `Deserialize` is a method returning a value instead of one filling its receiver, so what a receiver held before is not described.
- One reading of clock and window for each coinbase, and one daemon height for each step; the source reads both again in the same step.
- BalancePending as the sum of the queue: the code overwrites it with the current batch only, so nothing is claimed about it.
- The network fee a withdrawal deducts from its revenue: the source computes it but does not store it (`cmd/master/withdraw.go:340-364`).
- LedgerRuns.MoneyIsConserved: assumes that the rewards taken plus those paid double stay below 2^63, that every coinbase pays something and every share has a difficulty, and that the withdrawal fee is at most the threshold.
- QueueContents.QueueFollowsShares: says nothing of the amounts when there are live shares and all carry difficulty 0, where the source divides 0 by 0; PendingShown assumes that stored shares carry difficulty.
- MaturityRuns.CheckExactly: states the amounts paid for entries that hold something and less than 2^63, and all else without a bound.
- QueueRuns.NoCoinbaseTwice: assumes listings at or below the daemon's height, as WatermarkHolds, HeadDecides and the two Timely lemmas do, one height for each block hash and no hash twice in one listing; `RequestRuns` has the exact conditions without the first.
- Batching.BatchedAgreesWithSingle: assumes that all shares are in the window and carry difficulty, and that no wallet submits 2^64 or more.
- Pplns.SplitIsExactAndFair: assumes some difficulty among the live shares, or no live share; without it `Pplns.SplitSumsModulo` is what holds.
- StratumRuns.NoWorkCreditedTwice: on Stratum connections submissions come from the rebuilding of `mining.submit`, the only way the source makes them.
- ShareRuns.InvariantHolds: assumes that random job ids are nonzero and new, and that minimum and chain difficulty are at least 1.
- Frames: sends of one connection do not interleave; the master's own ban packets and the slave's read loop, which mirrors the master's, are not modelled.
- RateLimit: a Stratum or Getwork connection is accepted in one step; addresses are whatever text the server looks up, and `RemovePort` is applied only where the inactivity ban is stated; a connection that is listed but whose websocket upgrade fails stays listed, as in the source.
- The number of shares in a packet, which is only logged; worker counts, charts, hash rates and effort.
- GenExtraNonce and GenerateID: randomness is a parameter.
- uint16, uint32, big integer and bool fields of the codec: no stored record or packet uses them.
- Allocation sizes: `make` for a queue fails beyond 2^48 bytes; other memory limits are not modelled.
