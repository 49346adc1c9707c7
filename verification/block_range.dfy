/** The trailing window of block heights the tracker scans: the closed
    interval from `latest - numBlocks + 1` to `latest`, visited in increasing
    order.  The start height is not clamped at the genesis block, so for a
    window larger than the chain it is negative. */
module BlockRange {

  /** First height of the window ending at `latest` and holding `numBlocks`
      heights. */
  function StartBlock(latest: int, numBlocks: int): (s: int)
    ensures latest - s + 1 == numBlocks
  {
    latest - numBlocks + 1
  }

  /** The heights `lo, lo + 1, ..., hi - 1`; empty when `hi <= lo`. */
  function HalfOpen(lo: int, hi: int): (r: seq<int>)
    ensures |r| == if lo < hi then hi - lo else 0
    ensures forall i :: 0 <= i < |r| ==> r[i] == lo + i
    decreases hi - lo
  {
    if hi <= lo then [] else [lo] + HalfOpen(lo + 1, hi)
  }

  /** The heights the tracker visits, in visiting order. */
  function Heights(latest: int, numBlocks: int): (hs: seq<int>)
    ensures |hs| == if numBlocks > 0 then numBlocks else 0
    ensures forall i :: 0 <= i < |hs| ==> hs[i] == StartBlock(latest, numBlocks) + i
  {
    HalfOpen(StartBlock(latest, numBlocks), latest + 1)
  }

  /** A height is visited exactly when it lies in the closed window. */
  lemma HeightsMembership(latest: int, numBlocks: int, h: int)
    ensures h in Heights(latest, numBlocks) <==> StartBlock(latest, numBlocks) <= h <= latest
  {
    var hs := Heights(latest, numBlocks);
    if StartBlock(latest, numBlocks) <= h <= latest {
      assert hs[h - StartBlock(latest, numBlocks)] == h;
    }
  }

  /** Heights are visited in strictly increasing order, so none twice. */
  lemma HeightsStrictlyIncreasing(latest: int, numBlocks: int)
    ensures forall i, j :: 0 <= i < j < |Heights(latest, numBlocks)| ==>
      Heights(latest, numBlocks)[i] < Heights(latest, numBlocks)[j]
  {
  }

  /** A non-empty window ends at the chain head and begins at the start
      height. */
  lemma HeightsEndpoints(latest: int, numBlocks: int)
    requires numBlocks > 0
    ensures Heights(latest, numBlocks)[0] == StartBlock(latest, numBlocks)
    ensures Heights(latest, numBlocks)[|Heights(latest, numBlocks)| - 1] == latest
  {
  }

  /** A window longer than the chain reaches below height 0: the first
      visited height is negative. */
  lemma WindowNotClamped(latest: nat, numBlocks: int)
    requires numBlocks > latest + 1
    ensures Heights(latest, numBlocks)[0] < 0
  {
  }
}
