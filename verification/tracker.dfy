/** `track_momentum` with its ledger client replaced by data.

    The chain is the height of its latest block together with what fetching
    each height yields.  The requests the tracker makes of the chain are
    recorded in order, so that the run says not only what it computed but
    also what it asked for.  Progress display and printing are not part of
    the model; the values printed are gathered in a report. */
module Tracker {
  import opened Ledger
  import BlockRange
  import opened Accumulator
  import opened Momentum

  /** The ledger as the tracker sees it.  `fetch` answers for every height,
      including heights outside the chain (typically with `Failed`). */
  datatype Chain = Chain(head: nat, fetch: int -> BlockResult)

  /** A question put to the ledger. */
  datatype Request = ReadHead | GetBlock(height: int)

  /** The figures the tracker reports. */
  datatype Report = Report(
    target: Addr,
    startBlock: int,
    latestBlock: int,
    transactions: nat,
    uniqueWallets: nat,
    newWallets: nat,
    index: real,
    tier: Tier)

  datatype Outcome = InvalidAddress | Completed(report: Report)

  datatype Run = Run(requests: seq<Request>, outcome: Outcome)

  /** The baseline of previously known wallets: always empty in the source. */
  const KnownBeforePeriod: set<Addr> := {}

  /** The results of fetching the given heights, in order. */
  function FetchAll(chain: Chain, heights: seq<int>): (bs: seq<BlockResult>)
    ensures |bs| == |heights|
    ensures forall i :: 0 <= i < |heights| ==> bs[i] == chain.fetch(heights[i])
  {
    seq(|heights|, i requires 0 <= i < |heights| => chain.fetch(heights[i]))
  }

  /** The block requests for the given heights, in order. */
  function BlockRequests(heights: seq<int>): (rs: seq<Request>)
    ensures |rs| == |heights|
    ensures forall i :: 0 <= i < |heights| ==> rs[i] == GetBlock(heights[i])
  {
    seq(|heights|, i requires 0 <= i < |heights| => GetBlock(heights[i]))
  }

  /** The tally of the scan over the fetched window of `numBlocks` blocks
      ending at the chain head. */
  function WindowTally(chain: Chain, target: Addr, norm: Normalizer, numBlocks: int): Tally
  {
    Scan(target, norm, Empty, FetchAll(chain, BlockRange.Heights(chain.head, numBlocks)))
  }

  /** The report derived from a finished scan and a baseline. */
  function Summarise(target: Addr, startBlock: int, latest: int, t: Tally, known: set<Addr>): (rep: Report)
    requires Bounded(t)
    ensures rep.uniqueWallets <= rep.transactions
    ensures rep.newWallets <= rep.uniqueWallets
    ensures 0.0 <= rep.index <= 100.0
    ensures rep.uniqueWallets == 0 ==> rep.index == 0.0
    ensures rep.uniqueWallets > 0 ==> rep.index * (rep.uniqueWallets as real) == 100.0 * (rep.newWallets as real)
    ensures rep.tier == Classify(rep.index)
    ensures rep.target == target && rep.startBlock == startBlock && rep.latestBlock == latest
    ensures rep.transactions == t.count && rep.uniqueWallets == |t.senders|
    ensures rep.newWallets == |NewWallets(t.senders, known)| && rep.index == Index(t.senders, known)
  {
    var unique := t.senders;
    var newOnes := NewWallets(unique, known);
    var newCount := |newOnes|;
    assert newOnes <= unique;
    CardMono(newOnes, unique);
    var index := Index(unique, known);
    Report(target, startBlock, latest, t.count, |unique|, newCount, index, Classify(index))
  }

  /** One run of the tracker over the window of `numBlocks` blocks ending at
      the chain head, looking for transactions addressed to `contract`. */
  function TrackMomentum(chain: Chain, contract: string, numBlocks: int, norm: Normalizer): (run: Run)
    ensures norm(contract).None? <==> run.outcome == InvalidAddress
    ensures run.outcome == InvalidAddress ==> run.requests == []
    ensures run.outcome.Completed? ==>
      && |run.requests| == 1 + (if numBlocks > 0 then numBlocks else 0)
      && run.requests[0] == ReadHead
      && (forall i :: 1 <= i < |run.requests| ==> run.requests[i] == GetBlock(chain.head - numBlocks + i))
    ensures run.outcome.Completed? ==>
      var rep := run.outcome.report;
      && rep.target == norm(contract).value
      && rep.startBlock == chain.head - numBlocks + 1
      && rep.latestBlock == chain.head
      && rep.uniqueWallets <= rep.transactions
      && rep.newWallets == rep.uniqueWallets
      && rep.transactions == WindowTally(chain, rep.target, norm, numBlocks).count
      && rep.uniqueWallets == |WindowTally(chain, rep.target, norm, numBlocks).senders|
      && rep.index == (if rep.uniqueWallets > 0 then 100.0 else 0.0)
      && rep.tier == (if rep.uniqueWallets > 0 then HyperGrowth else Moderate)
  {
    match norm(contract)
    case None => Run([], InvalidAddress)
    case Some(target) =>
      var latest := chain.head;
      var heights := BlockRange.Heights(latest, numBlocks);
      var t := WindowTally(chain, target, norm, numBlocks);
      ScanBounded(target, norm, FetchAll(chain, heights));
      EmptyBaseline(t.senders);
      var rep := Summarise(target, BlockRange.StartBlock(latest, numBlocks), latest, t, KnownBeforePeriod);
      Run([ReadHead] + BlockRequests(heights), Completed(rep))
  }

  /** The scan loop as the source writes it: visit the window's heights in
      increasing order, fetch each block once and fold it into the tally.
      It asks for exactly the window's heights, computes exactly the fold,
      and ends with no more senders than transactions. */
  method ScanWindow(chain: Chain, target: Addr, norm: Normalizer, numBlocks: int)
    returns (tally: Tally, requested: seq<int>)
    ensures requested == BlockRange.Heights(chain.head, numBlocks)
    ensures tally == Scan(target, norm, Empty, FetchAll(chain, requested))
    ensures |tally.senders| <= tally.count
  {
    var heights := BlockRange.Heights(chain.head, numBlocks);
    ghost var blocks := FetchAll(chain, heights);
    tally, requested := Empty, [];
    var i := 0;
    while i < |heights|
      invariant 0 <= i <= |heights|
      invariant requested == heights[..i]
      invariant tally == Scan(target, norm, Empty, blocks[..i])
    {
      var block := chain.fetch(heights[i]);
      ScanPrefixStep(target, norm, Empty, blocks, i);
      tally := Absorb(target, norm, tally, block);
      requested := requested + [heights[i]];
      i := i + 1;
    }
    assert requested == heights;
    assert blocks[..i] == blocks;
    ScanBounded(target, norm, blocks);
  }
}
