# SwarmIntel momentum tracker — Dafny model

This project models the scan-and-aggregate core of `track_momentum` in
`momentum_tracker.py`. The tracker measures how fast a community grows
around a smart contract. It scans a trailing window of ledger blocks and
counts the transactions addressed to the contract. It collects the
normalised addresses of their senders and derives a "growth momentum
index": the share of those senders that are new against a baseline of
known wallets. It then classifies the index into one of three tiers.

Modules, one per component of the core:

- `Ledger` (`ledger.dfy`): addresses, transactions, block results, and the
  address normaliser, modelled as an arbitrary function
  `string -> Option<Addr>`. `None` stands for the `ValueError` raised by
  `to_checksum_address`.
- `BlockRange` (`block_range.dfy`): the closed window
  `[latest - numBlocks + 1, latest]`, visited in increasing order.
- `Accumulator` (`accumulator.dfy`): the per-block filter and the fold
  over blocks into `(count, senders)`. It keeps the source's exception
  behaviour exactly:
  - a failed fetch leaves the tally alone;
  - a recipient that fails to normalise ends its block early;
  - a matching transaction is counted before its sender is normalised.
    If the sender then fails, the transaction counts but adds no sender,
    and the rest of its block is skipped.
- `Momentum` (`momentum.dfy`): the set difference against a baseline, the
  index in exact `real` arithmetic, and the tier classifier.
- `Tracker` (`tracker.dfy`): the whole run over a chain, given as the head
  height plus a fetch function. The run records the requests it makes
  (head read, then one fetch per height), so the early return on an
  invalid target is visible as "no requests at all". `ScanWindow` is the
  imperative loop, proved equal to the fold.
- `Scenarios` (`scenarios.dfy`): worked windows. They cover repeated
  senders, a failed block, no matches, and faults in the middle of a block.

Behaviour of the code that is easy to miss, and that the model keeps:

- The start height is not clamped at genesis (`momentum_tracker.py:53`).
  A window longer than the chain asks for negative heights
  (`BlockRange.WindowNotClamped`); the fetch function decides what those
  give.
- Failed blocks are only logged. They are not recorded in a list
  (`momentum_tracker.py:74-76`).
- A transaction field that fails to normalise does more than exclude that
  one transaction. The single `try` around the block loop drops the rest
  of the block (`momentum_tracker.py:67-76`).
- The baseline is hard-coded empty (`momentum_tracker.py:83`). So the
  reported index is always exactly 100 when there is any sender, and 0
  otherwise (`Tracker.TrackMomentum`, `Momentum.EmptyBaseline`). The
  calculator still takes the baseline as a parameter.

The recipient test is Python truthiness, so an absent recipient and an
empty string are both skipped (`Ledger.HasRecipient`).

## Model

| member | source | states |
|---|---|---|
| Ledger.HasRecipient | momentum_tracker.py:70 | the truth test on a transaction's `to` field: false when the recipient is absent or the empty string |
| BlockRange.StartBlock | momentum_tracker.py:53 | the start height `latest - numBlocks + 1`, so the closed window from it to `latest` spans exactly `numBlocks` heights |
| BlockRange.HalfOpen | momentum_tracker.py:62 | `range(lo, hi)` yields `hi - lo` heights, or none when `hi <= lo`; the i-th is `lo + i` |
| BlockRange.Heights | momentum_tracker.py:52-53 | the window has `numBlocks` heights (none if `numBlocks <= 0`), starting at `latest - numBlocks + 1` and rising by one |
| BlockRange.HeightsMembership | momentum_tracker.py:53-62 | a height is scanned iff it lies in the closed window `[latest - numBlocks + 1, latest]` |
| BlockRange.HeightsStrictlyIncreasing | momentum_tracker.py:62-66 | heights are visited in strictly increasing order, so none twice |
| BlockRange.HeightsEndpoints | momentum_tracker.py:52-53 | a non-empty window starts at the start height and ends at the chain head |
| BlockRange.WindowNotClamped | momentum_tracker.py:53 | a window longer than the chain starts below height 0: there is no clamping at genesis |
| Accumulator.Examine | momentum_tracker.py:70-72 | a transaction without a recipient is ignored; it raises iff it has a recipient that fails to normalise; it is ignored iff it has no recipient or one that normalises to another address; it is counted iff its recipient normalises to the target, and then raises iff its sender fails to normalise, otherwise carrying its normalised sender |
| Accumulator.IsMatch | momentum_tracker.py:70 | a transaction is addressed to the target: its recipient is truthy and normalises to the target |
| Accumulator.ProcessBlock | momentum_tracker.py:69-73 | one block never lowers the count or removes a sender |
| Accumulator.ProcessBlockGrowth | momentum_tracker.py:71-73 | one block adds at most as many senders as it adds transactions |
| Accumulator.Absorb | momentum_tracker.py:67-76 | a failed block leaves the tally unchanged; a fetched one only grows it |
| Accumulator.Scan | momentum_tracker.py:66-76 | the scan over all blocks only grows the count and the sender set |
| Accumulator.ScanGrowth | momentum_tracker.py:66-76 | over any stretch of blocks the senders grow by at most the growth of the count |
| Accumulator.ProcessBlockBounded | momentum_tracker.py:71-73 | a block keeps unique senders at or below the transaction count |
| Accumulator.ScanBounded | momentum_tracker.py:59-76 | after the scan, unique senders are at most the transaction count |
| Accumulator.CountedStep | momentum_tracker.py:71-73 | a counted transaction with a valid sender adds one to the count and its sender to the set, then processing continues |
| Accumulator.KnownSenderOnlyCounts | momentum_tracker.py:71-73 | a transaction from an already-seen sender raises the count and leaves the set unchanged |
| Accumulator.WithRecipient | momentum_tracker.py:70 | keeps the transactions whose recipient is truthy, each one that occurs and no other |
| Accumulator.WithRecipientAppend | momentum_tracker.py:69-70 | the filter distributes over concatenation, so kept transactions stay in block order |
| Accumulator.WithRecipientSingle | momentum_tracker.py:70 | a single transaction is kept exactly when its recipient is truthy |
| Accumulator.RecipientlessIrrelevant | momentum_tracker.py:70 | removing all transactions without a recipient (contract creations) does not change a block's outcome |
| Accumulator.FirstFault | momentum_tracker.py:67-76 | locates the first transaction whose normalisation raises: none before it raises, it does |
| Accumulator.ProcessBlockExact | momentum_tracker.py:67-76 | a block yields exactly the matches before its first fault (count and senders), plus one count if the faulting transaction is itself a match; the rest is skipped |
| Accumulator.CleanBlock | momentum_tracker.py:69-73 | a block without normalisation failures adds exactly its matching transactions and their senders |
| Accumulator.UnnormalisableSender | momentum_tracker.py:71-76 | a match whose sender fails to normalise is counted, adds no sender, and ends its block |
| Accumulator.UnnormalisableRecipient | momentum_tracker.py:70-76 | a recipient that fails to normalise ends its block without counting anything more |
| Accumulator.ScanAppend | momentum_tracker.py:66 | scanning two consecutive stretches is scanning the first, then continuing from its tally |
| Accumulator.FailedBlockSkipped | momentum_tracker.py:74-76 | a failed block anywhere in the window gives the same result as removing it; later blocks are still processed |
| Accumulator.ProcessBlockShift | momentum_tracker.py:69-73 | a block's contribution is independent of the tally it starts from |
| Accumulator.AdjacentBlocksCommute | momentum_tracker.py:66-76 | swapping two neighbouring blocks leaves the final tally unchanged |
| Accumulator.ScanMoveFront | momentum_tracker.py:66-76 | absorbing a block anywhere inside a stretch gives the same tally as absorbing it first |
| Accumulator.ScanPermutation | momentum_tracker.py:66-76 | any two windows holding the same block results, in any order, give the same tally |
| Momentum.NewWallets | momentum_tracker.py:83-84 | the new wallets are exactly the unique senders outside the baseline, a subset of the unique senders |
| Momentum.Index | momentum_tracker.py:79-87 | the index lies in [0, 100]; it is 0 with no senders; otherwise index × unique = 100 × new |
| Momentum.IndexZeroIff | momentum_tracker.py:87 | the index is 0 iff no sender is new |
| Momentum.IndexFullIff | momentum_tracker.py:84-87 | the index is 100 iff there is a sender and none is in the baseline |
| Momentum.EmptyBaseline | momentum_tracker.py:83-87 | with the empty baseline the new wallets are all senders, and the index is 100 exactly when there is a sender |
| Momentum.IndexAntitone | momentum_tracker.py:83-87 | a larger baseline never raises the index |
| Momentum.Classify | momentum_tracker.py:101-106 | hyper-growth iff index > 80, strong iff 50 < index ≤ 80, moderate iff index ≤ 50 |
| Momentum.ClassifyMonotone | momentum_tracker.py:101-106 | a higher index never falls into a lower tier |
| Momentum.ClassifyBoundaries | momentum_tracker.py:101-106 | exactly 80 is strong and exactly 50 is moderate; anything just above either moves up a tier |
| Tracker.FetchAll | momentum_tracker.py:66-68 | one fetch per height, in order |
| Tracker.Summarise | momentum_tracker.py:79-106 | the report carries the target, window ends, the tally's count and its number of unique senders; new wallets are the senders outside the baseline and the index is `Index` of senders and baseline; so unique ≤ transactions, new ≤ unique, the index is in [0, 100], 0 with no senders and otherwise proportional to new/unique; the tier is the classification of the index |
| Tracker.TrackMomentum | momentum_tracker.py:46-106 | an invalid target makes no request and reports the error. Otherwise: one head read, then one fetch per window height in increasing order. The report's transaction and wallet counts are those of the fold over the fetched window, with unique ≤ transactions, new = unique, index 100 or 0, and tier hyper-growth or moderate |
| Tracker.ScanWindow | momentum_tracker.py:62-76 | the loop fetches exactly the window's heights in order, computes exactly the fold, and ends with unique senders ≤ transactions |
| Scenarios.ScenarioAScan | momentum_tracker.py:66-76 | two calls from one wallet and one from another, then two empty blocks, give count 3 and those two senders |
| Scenarios.ScenarioAIndex | momentum_tracker.py:83-106 | two senders against the empty baseline give index 100, hyper-growth |
| Scenarios.ScenarioB | momentum_tracker.py:84-106 | two senders, one already known, give index exactly 50, moderate |
| Scenarios.ScenarioC | momentum_tracker.py:67-76 | a failed second block is skipped and the later blocks are still counted |
| Scenarios.ScenarioD | momentum_tracker.py:70-87 | no transaction to the target gives an empty tally and index 0 |
| Scenarios.MidBlockFault | momentum_tracker.py:67-76 | a recipient that fails to normalise keeps the earlier call of its block and loses the later one |
| Scenarios.ScenarioAWindow | momentum_tracker.py:53-76 | the five blocks ending at head 104 of scenario A's chain scan to 3 transactions from 2 wallets |
| Scenarios.ScenarioARun | momentum_tracker.py:46-106 | the whole run on scenario A's chain: head read, blocks 100 to 104 requested in order, and a report of 3 transactions, 2 unique and 2 new wallets, index 100, hyper-growth |
| Scenarios.SenderFault | momentum_tracker.py:71-76 | a call whose sender fails to normalise is counted without a sender and ends the block |

## Left out

- Connection setup (`get_eth_connection`, `momentum_tracker.py:22-39`): credentials, HTTP provider and connectivity check are I/O. The model starts from a given chain.
- The ledger client's calls (`block_number`, `get_block`, `to_checksum_address`) are parameters: a head height, a fetch function from height to block result, and an arbitrary normaliser. Checksum computation (Keccak) is not modelled. Properties of the normaliser itself, such as idempotence, belong to that collaborator and are not stated.
- Only `ValueError` from normalising the target is caught (`momentum_tracker.py:48`); any other exception there would escape the function. The model has one failure value for the normaliser and treats it as that `ValueError`.
- Inside the block loop any exception is caught. The model covers a failed fetch and failed normalisation. Other exceptions, such as a transaction lacking a `from` field, are not modelled: every transaction has a sender string.
- Progress bar, `tqdm.write` warnings, all printed text, colours and `:.2f` formatting are display only. The printed figures are gathered in `Tracker.Report` instead.
- Floating point: the index is exact `real` arithmetic. Float rounding of `len(new) / total * 100` is not modelled.
- The command line (`momentum_tracker.py:109-118`) and the unused imports `time` and `deque`.
- Retries, timeouts, concurrency, cancellation, escalation on repeated failures, a recorded list of failed blocks, clamping of the start height, and a persistent baseline store: the code has none of these, so the model does not either.
