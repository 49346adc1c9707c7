/** The filter/accumulator: a left fold over the fetched blocks that counts
    the transactions addressed to the target and collects their normalised
    senders.

    Inside one block the source runs its transaction loop under a single
    `try`, so a normalisation failure ends the block early: work already done
    for earlier transactions of that block is kept, the rest of the block is
    skipped, and the scan moves on to the next block.  The count of a
    matching transaction is taken before its sender is normalised. */
module Accumulator {
  import opened Ledger

  /** The running pair (transaction count, unique senders). */
  datatype Tally = Tally(count: nat, senders: set<Addr>)

  const Empty: Tally := Tally(0, {})

  /** The invariant the scan keeps: every sender was added by a counted
      transaction, so there are never more senders than transactions. */
  predicate Bounded(t: Tally)
  {
    |t.senders| <= t.count
  }

  /** What examining one transaction does to the block being processed. */
  datatype Effect =
    | Ignored                 // not addressed to the target
    | Counted(sender: Addr)   // counted, sender normalised
    | CountedThenRaised       // counted, then normalising the sender failed
    | Raised                  // normalising the recipient failed

  function Examine(target: Addr, norm: Normalizer, tx: Tx): (e: Effect)
    ensures !HasRecipient(tx) ==> e == Ignored
    ensures (e.Counted? || e.CountedThenRaised?) <==> IsMatch(target, norm, tx)
    ensures e.Counted? ==> norm(tx.from) == Some(e.sender)
    ensures e.Raised? <==> HasRecipient(tx) && norm(tx.to.value).None?
    ensures e.CountedThenRaised? <==> IsMatch(target, norm, tx) && norm(tx.from).None?
    ensures e.Ignored? <==> !HasRecipient(tx) || (norm(tx.to.value).Some? && norm(tx.to.value).value != target)
  {
    if !HasRecipient(tx) then Ignored
    else match norm(tx.to.value)
      case None => Raised
      case Some(a) =>
        if a != target then Ignored
        else match norm(tx.from)
          case None => CountedThenRaised
          case Some(s) => Counted(s)
  }

  /** A transaction is addressed to the target: its recipient is present and
      normalises to the target. */
  predicate IsMatch(target: Addr, norm: Normalizer, tx: Tx)
  {
    HasRecipient(tx) && norm(tx.to.value) == Some(target)
  }

  /** Examining the transaction interrupts the block. */
  predicate Raises(target: Addr, norm: Normalizer, tx: Tx)
  {
    var e := Examine(target, norm, tx);
    e.Raised? || e.CountedThenRaised?
  }

  /** Processing the transactions of one fetched block, starting from `acc`.
      Nothing is ever taken away from the tally. */
  function ProcessBlock(target: Addr, norm: Normalizer, acc: Tally, txs: seq<Tx>): (r: Tally)
    ensures acc.count <= r.count && acc.senders <= r.senders
    decreases |txs|
  {
    if txs == [] then acc
    else match Examine(target, norm, txs[0])
      case Ignored => ProcessBlock(target, norm, acc, txs[1..])
      case Raised => acc
      case CountedThenRaised => Tally(acc.count + 1, acc.senders)
      case Counted(s) => ProcessBlock(target, norm, Tally(acc.count + 1, acc.senders + {s}), txs[1..])
  }

  /** Within a block the senders grow by at most as many addresses as the
      count grows: each counted transaction adds at most one sender. */
  lemma {:induction false} ProcessBlockGrowth(target: Addr, norm: Normalizer, acc: Tally, txs: seq<Tx>)
    ensures
      var r := ProcessBlock(target, norm, acc, txs);
      |r.senders - acc.senders| <= r.count - acc.count
    decreases |txs|
  {
    var r := ProcessBlock(target, norm, acc, txs);
    if txs == [] {
      assert acc.senders - acc.senders == {};
    } else {
      match Examine(target, norm, txs[0])
      case Ignored =>
        ProcessBlockGrowth(target, norm, acc, txs[1..]);
      case Raised =>
        assert acc.senders - acc.senders == {};
      case CountedThenRaised =>
        assert acc.senders - acc.senders == {};
      case Counted(s) =>
        var next := Tally(acc.count + 1, acc.senders + {s});
        ProcessBlockGrowth(target, norm, next, txs[1..]);
        DiffGrowth(acc.senders, s, r.senders);
    }
  }

  /** Removing one more element from a set removes at most one element from
      a difference. */
  lemma DiffGrowth(a: set<Addr>, s: Addr, b: set<Addr>)
    ensures |b - a| <= |b - (a + {s})| + 1
  {
    if s in b && s !in a {
      assert b - a == (b - (a + {s})) + {s};
    } else {
      assert b - a == b - (a + {s});
    }
  }

  /** One step of the fold: a failed block changes nothing. */
  function Absorb(target: Addr, norm: Normalizer, acc: Tally, b: BlockResult): (r: Tally)
    ensures b.Failed? ==> r == acc
    ensures acc.count <= r.count && acc.senders <= r.senders
  {
    match b
    case Failed => acc
    case Fetched(txs) => ProcessBlock(target, norm, acc, txs)
  }

  /** The whole scan: absorb the block results in order. */
  function Scan(target: Addr, norm: Normalizer, acc: Tally, bs: seq<BlockResult>): (r: Tally)
    ensures acc.count <= r.count && acc.senders <= r.senders
    decreases |bs|
  {
    if bs == [] then acc
    else Scan(target, norm, Absorb(target, norm, acc, bs[0]), bs[1..])
  }

  /** Over any stretch of blocks the senders grow by at most as many
      addresses as the count grows. */
  lemma {:induction false} ScanGrowth(target: Addr, norm: Normalizer, acc: Tally, bs: seq<BlockResult>)
    ensures
      var r := Scan(target, norm, acc, bs);
      |r.senders - acc.senders| <= r.count - acc.count
    decreases |bs|
  {
    if bs == [] {
      assert acc.senders - acc.senders == {};
    } else {
      var mid := Absorb(target, norm, acc, bs[0]);
      var r := Scan(target, norm, mid, bs[1..]);
      ScanGrowth(target, norm, mid, bs[1..]);
      if bs[0].Fetched? {
        ProcessBlockGrowth(target, norm, acc, bs[0].txs);
      } else {
        assert mid.senders - acc.senders == {};
      }
      DiffChain(acc.senders, mid.senders, r.senders);
    }
  }

  /** Differences along a chain of growing sets add up. */
  lemma DiffChain(a: set<Addr>, b: set<Addr>, c: set<Addr>)
    requires a <= b <= c
    ensures |c - a| == |c - b| + |b - a|
  {
    assert c - a == (c - b) + (b - a);
    assert (c - b) !! (b - a);
  }

  // ---------------------------------------------------------------------
  // The counting invariant

  /** Starting from a bounded tally, every block keeps the tally bounded. */
  lemma ProcessBlockBounded(target: Addr, norm: Normalizer, acc: Tally, txs: seq<Tx>)
    requires Bounded(acc)
    ensures Bounded(ProcessBlock(target, norm, acc, txs))
  {
    var r := ProcessBlock(target, norm, acc, txs);
    ProcessBlockGrowth(target, norm, acc, txs);
    assert r.senders == acc.senders + (r.senders - acc.senders);
  }

  /** After any number of blocks, unique senders never exceed transactions. */
  lemma ScanBounded(target: Addr, norm: Normalizer, bs: seq<BlockResult>)
    ensures Bounded(Scan(target, norm, Empty, bs))
  {
    var r := Scan(target, norm, Empty, bs);
    ScanGrowth(target, norm, Empty, bs);
    assert r.senders == r.senders - Empty.senders;
  }

  /** Adding a sender that is already known leaves the set unchanged, so a
      repeat sender only raises the count. */
  lemma KnownSenderOnlyCounts(target: Addr, norm: Normalizer, acc: Tally, tx: Tx, rest: seq<Tx>)
    requires Examine(target, norm, tx).Counted?
    requires Examine(target, norm, tx).sender in acc.senders
    ensures ProcessBlock(target, norm, acc, [tx] + rest)
         == ProcessBlock(target, norm, Tally(acc.count + 1, acc.senders), rest)
  {
    var s := Examine(target, norm, tx).sender;
    CountedStep(target, norm, acc, tx, rest);
    assert acc.senders + {s} == acc.senders;
  }

  /** A counted transaction with a normalised sender adds that sender and
      moves on to the next transaction. */
  lemma CountedStep(target: Addr, norm: Normalizer, acc: Tally, tx: Tx, rest: seq<Tx>)
    requires Examine(target, norm, tx).Counted?
    ensures ProcessBlock(target, norm, acc, [tx] + rest)
         == ProcessBlock(target, norm, Tally(acc.count + 1, acc.senders + {Examine(target, norm, tx).sender}), rest)
  {
    var txs := [tx] + rest;
    var s := Examine(target, norm, tx).sender;
    assert txs != [] && txs[0] == tx && txs[1..] == rest;
    assert ProcessBlock(target, norm, acc, txs)
        == ProcessBlock(target, norm, Tally(acc.count + 1, acc.senders + {s}), txs[1..]);
  }

  // ---------------------------------------------------------------------
  // Matching: transactions without a recipient never matter

  /** The transactions that have a recipient, in order. */
  function WithRecipient(txs: seq<Tx>): (r: seq<Tx>)
    ensures |r| <= |txs|
    ensures forall i :: 0 <= i < |r| ==> HasRecipient(r[i])
    ensures forall tx :: tx in r <==> tx in txs && HasRecipient(tx)
    decreases |txs|
  {
    if txs == [] then []
    else if HasRecipient(txs[0]) then [txs[0]] + WithRecipient(txs[1..])
    else WithRecipient(txs[1..])
  }

  /** Filtering distributes over concatenation, so the filter keeps the
      transactions with a recipient in their original order. */
  lemma {:induction false} WithRecipientAppend(a: seq<Tx>, b: seq<Tx>)
    ensures WithRecipient(a + b) == WithRecipient(a) + WithRecipient(b)
    decreases |a|
  {
    if a == [] {
      assert a + b == b;
    } else {
      assert (a + b)[0] == a[0] && (a + b)[1..] == a[1..] + b;
      WithRecipientAppend(a[1..], b);
    }
  }

  /** A single transaction is kept exactly when it has a recipient. */
  lemma WithRecipientSingle(tx: Tx)
    ensures WithRecipient([tx]) == if HasRecipient(tx) then [tx] else []
  {
    assert [tx][1..] == [];
  }

  /** Dropping every transaction that has no recipient (contract creations)
      does not change the outcome of a block. */
  lemma {:induction false} RecipientlessIrrelevant(target: Addr, norm: Normalizer, acc: Tally, txs: seq<Tx>)
    ensures ProcessBlock(target, norm, acc, txs) == ProcessBlock(target, norm, acc, WithRecipient(txs))
    decreases |txs|
  {
    if txs == [] {
    } else if !HasRecipient(txs[0]) {
      RecipientlessIrrelevant(target, norm, acc, txs[1..]);
    } else {
      var w := WithRecipient(txs);
      assert w[0] == txs[0] && w[1..] == WithRecipient(txs[1..]);
      match Examine(target, norm, txs[0])
      case Ignored =>
        RecipientlessIrrelevant(target, norm, acc, txs[1..]);
      case Raised =>
      case CountedThenRaised =>
      case Counted(s) =>
        RecipientlessIrrelevant(target, norm, Tally(acc.count + 1, acc.senders + {s}), txs[1..]);
    }
  }

  // ---------------------------------------------------------------------
  // Reference definition of one block: count and senders of the matching
  // transactions, cut at the first transaction that raises

  /** Number of transactions addressed to the target. */
  function MatchCount(target: Addr, norm: Normalizer, txs: seq<Tx>): nat
    decreases |txs|
  {
    if txs == [] then 0
    else (if IsMatch(target, norm, txs[0]) then 1 else 0) + MatchCount(target, norm, txs[1..])
  }

  /** Normalised senders of the transactions addressed to the target. */
  function MatchSenders(target: Addr, norm: Normalizer, txs: seq<Tx>): set<Addr>
    decreases |txs|
  {
    if txs == [] then {}
    else
      var tx := txs[0];
      var here: set<Addr> := if IsMatch(target, norm, tx) && norm(tx.from).Some? then {norm(tx.from).value} else {};
      here + MatchSenders(target, norm, txs[1..])
  }

  /** Index of the first transaction that interrupts the block, or the
      block's length when none does. */
  function FirstFault(target: Addr, norm: Normalizer, txs: seq<Tx>): (k: nat)
    ensures k <= |txs|
    ensures forall j :: 0 <= j < k ==> !Raises(target, norm, txs[j])
    ensures k < |txs| ==> Raises(target, norm, txs[k])
    decreases |txs|
  {
    if txs == [] then 0
    else if Raises(target, norm, txs[0]) then 0
    else 1 + FirstFault(target, norm, txs[1..])
  }

  /** The reference outcome of one block, stated without the transaction
      loop: the matching transactions before the first fault are all counted
      and contribute their senders; the faulting transaction is counted too
      when it is itself a match (its sender failed to normalise); everything
      after it is skipped. */
  function Reference(target: Addr, norm: Normalizer, acc: Tally, txs: seq<Tx>): Tally
  {
    var k := FirstFault(target, norm, txs);
    var extra := if k < |txs| && IsMatch(target, norm, txs[k]) then 1 else 0;
    Tally(acc.count + MatchCount(target, norm, txs[..k]) + extra,
          acc.senders + MatchSenders(target, norm, txs[..k]))
  }

  /** The transaction loop of a block computes exactly its reference
      outcome. */
  lemma {:induction false} ProcessBlockExact(target: Addr, norm: Normalizer, acc: Tally, txs: seq<Tx>)
    ensures ProcessBlock(target, norm, acc, txs) == Reference(target, norm, acc, txs)
    decreases |txs|
  {
    if txs == [] {
    } else if Raises(target, norm, txs[0]) {
      assert txs[..0] == [];
    } else {
      var here := Examine(target, norm, txs[0]);
      var next := if here.Counted? then Tally(acc.count + 1, acc.senders + {here.sender}) else acc;
      assert ProcessBlock(target, norm, acc, txs) == ProcessBlock(target, norm, next, txs[1..]);
      ProcessBlockExact(target, norm, next, txs[1..]);
      ReferenceStep(target, norm, acc, txs);
    }
  }

  /** The reference outcome peels off a first transaction that does not
      raise. */
  lemma ReferenceStep(target: Addr, norm: Normalizer, acc: Tally, txs: seq<Tx>)
    requires txs != [] && !Raises(target, norm, txs[0])
    ensures
      var here := Examine(target, norm, txs[0]);
      var next := if here.Counted? then Tally(acc.count + 1, acc.senders + {here.sender}) else acc;
      Reference(target, norm, acc, txs) == Reference(target, norm, next, txs[1..])
  {
    var k := FirstFault(target, norm, txs);
    assert FirstFault(target, norm, txs[1..]) == k - 1;
    assert txs[..k][0] == txs[0];
    assert txs[..k][1..] == txs[1..][..k - 1];
    assert k < |txs| ==> txs[k] == txs[1..][k - 1];
  }

  /** A block in which no normalisation fails contributes exactly its
      matching transactions and their senders. */
  lemma CleanBlock(target: Addr, norm: Normalizer, acc: Tally, txs: seq<Tx>)
    requires forall j :: 0 <= j < |txs| ==> !Raises(target, norm, txs[j])
    ensures ProcessBlock(target, norm, acc, txs)
         == Tally(acc.count + MatchCount(target, norm, txs), acc.senders + MatchSenders(target, norm, txs))
  {
    ProcessBlockExact(target, norm, acc, txs);
    var k := FirstFault(target, norm, txs);
    assert k == |txs|;
    assert txs[..k] == txs;
  }

  /** A matching transaction whose sender cannot be normalised is counted,
      adds no sender, and ends its block. */
  lemma UnnormalisableSender(target: Addr, norm: Normalizer, acc: Tally, tx: Tx, rest: seq<Tx>)
    requires IsMatch(target, norm, tx) && norm(tx.from).None?
    ensures ProcessBlock(target, norm, acc, [tx] + rest) == Tally(acc.count + 1, acc.senders)
  {
  }

  /** A transaction whose recipient cannot be normalised ends its block and
      is not counted, whatever follows it. */
  lemma UnnormalisableRecipient(target: Addr, norm: Normalizer, acc: Tally, tx: Tx, rest: seq<Tx>)
    requires HasRecipient(tx) && norm(tx.to.value).None?
    ensures ProcessBlock(target, norm, acc, [tx] + rest) == acc
  {
  }

  // ---------------------------------------------------------------------
  // The fold over blocks

  /** Scanning two consecutive stretches of blocks is scanning the first and
      continuing from its tally. */
  lemma {:induction false} ScanAppend(target: Addr, norm: Normalizer, acc: Tally, a: seq<BlockResult>, b: seq<BlockResult>)
    ensures Scan(target, norm, acc, a + b) == Scan(target, norm, Scan(target, norm, acc, a), b)
    decreases |a|
  {
    if a == [] {
      assert a + b == b;
    } else {
      assert (a + b)[0] == a[0];
      assert (a + b)[1..] == a[1..] + b;
      ScanAppend(target, norm, Absorb(target, norm, acc, a[0]), a[1..], b);
    }
  }

  /** Scanning one more block is absorbing it into the tally so far. */
  lemma ScanSnoc(target: Addr, norm: Normalizer, acc: Tally, a: seq<BlockResult>, b: BlockResult)
    ensures Scan(target, norm, acc, a + [b]) == Absorb(target, norm, Scan(target, norm, acc, a), b)
  {
    ScanAppend(target, norm, acc, a, [b]);
  }

  /** Each longer prefix of the blocks absorbs one more block. */
  lemma ScanPrefixStep(target: Addr, norm: Normalizer, acc: Tally, bs: seq<BlockResult>, i: nat)
    requires i < |bs|
    ensures Scan(target, norm, acc, bs[..i + 1]) == Absorb(target, norm, Scan(target, norm, acc, bs[..i]), bs[i])
  {
    assert bs[..i + 1] == bs[..i] + [bs[i]];
    ScanSnoc(target, norm, acc, bs[..i], bs[i]);
  }

  /** A failed block is skipped and every later block is still processed:
      the scan equals the scan with that block removed. */
  lemma FailedBlockSkipped(target: Addr, norm: Normalizer, acc: Tally, a: seq<BlockResult>, b: seq<BlockResult>)
    ensures Scan(target, norm, acc, a + [Failed] + b) == Scan(target, norm, acc, a + b)
  {
    ScanAppend(target, norm, acc, a + [Failed], b);
    ScanSnoc(target, norm, acc, a, Failed);
    ScanAppend(target, norm, acc, a, b);
  }

  // ---------------------------------------------------------------------
  // Independence of block order

  /** What a block contributes does not depend on the tally it starts from. */
  lemma {:induction false} ProcessBlockShift(target: Addr, norm: Normalizer, acc: Tally, txs: seq<Tx>)
    ensures
      var d := ProcessBlock(target, norm, Empty, txs);
      ProcessBlock(target, norm, acc, txs) == Tally(acc.count + d.count, acc.senders + d.senders)
  {
    ProcessBlockExact(target, norm, acc, txs);
    ProcessBlockExact(target, norm, Empty, txs);
  }

  /** Swapping two neighbouring blocks does not change the result of the
      scan. */
  lemma AdjacentBlocksCommute(target: Addr, norm: Normalizer, acc: Tally,
                              p: seq<BlockResult>, x: BlockResult, y: BlockResult, q: seq<BlockResult>)
    ensures Scan(target, norm, acc, p + [x, y] + q) == Scan(target, norm, acc, p + [y, x] + q)
  {
    var mid := Scan(target, norm, acc, p);
    ScanAppend(target, norm, acc, p + [x, y], q);
    ScanAppend(target, norm, acc, p + [y, x], q);
    ScanAppend(target, norm, acc, p, [x, y]);
    ScanAppend(target, norm, acc, p, [y, x]);
    assert [x, y][1..] == [y] && [y, x][1..] == [x];
    AbsorbCommute(target, norm, mid, x, y);
  }

  lemma AbsorbCommute(target: Addr, norm: Normalizer, acc: Tally, x: BlockResult, y: BlockResult)
    ensures Absorb(target, norm, Absorb(target, norm, acc, x), y)
         == Absorb(target, norm, Absorb(target, norm, acc, y), x)
  {
    if x.Fetched? && y.Fetched? {
      var ax := Absorb(target, norm, acc, x);
      var ay := Absorb(target, norm, acc, y);
      ProcessBlockShift(target, norm, acc, x.txs);
      ProcessBlockShift(target, norm, acc, y.txs);
      ProcessBlockShift(target, norm, ax, y.txs);
      ProcessBlockShift(target, norm, ay, x.txs);
    }
  }

  /** Absorbing a block somewhere inside a stretch is the same as absorbing
      it first. */
  lemma {:induction false} ScanMoveFront(target: Addr, norm: Normalizer, acc: Tally,
                                         p: seq<BlockResult>, x: BlockResult, q: seq<BlockResult>)
    ensures Scan(target, norm, acc, p + [x] + q) == Scan(target, norm, Absorb(target, norm, acc, x), p + q)
    decreases |p|
  {
    if p == [] {
      assert p + [x] + q == [x] + q && p + q == q;
      assert ([x] + q)[0] == x && ([x] + q)[1..] == q;
    } else {
      var a0 := Absorb(target, norm, acc, p[0]);
      assert (p + [x] + q)[0] == p[0] && (p + [x] + q)[1..] == p[1..] + [x] + q;
      assert (p + q)[0] == p[0] && (p + q)[1..] == p[1..] + q;
      ScanMoveFront(target, norm, a0, p[1..], x, q);
      AbsorbCommute(target, norm, acc, p[0], x);
    }
  }

  /** The scan does not depend on the order of the blocks at all: any two
      windows holding the same block results give the same tally. */
  lemma {:induction false} ScanPermutation(target: Addr, norm: Normalizer, acc: Tally,
                                           a: seq<BlockResult>, b: seq<BlockResult>)
    requires multiset(a) == multiset(b)
    ensures Scan(target, norm, acc, a) == Scan(target, norm, acc, b)
    decreases |a|
  {
    if a != [] {
      var x := a[0];
      assert x in multiset(b);
      var j :| 0 <= j < |b| && b[j] == x;
      var p, q := b[..j], b[j + 1..];
      assert b == p + [x] + q;
      assert a == [x] + a[1..];
      assert multiset(a) == multiset{x} + multiset(a[1..]);
      assert multiset(b) == multiset(p) + multiset{x} + multiset(q);
      assert multiset(p + q) == multiset(p) + multiset(q);
      assert multiset(a[1..]) == multiset(a) - multiset{x};
      assert multiset(p + q) == multiset(b) - multiset{x};
      ScanMoveFront(target, norm, acc, p, x, q);
      ScanPermutation(target, norm, Absorb(target, norm, acc, x), a[1..], p + q);
    } else {
      assert |b| == |multiset(b)| == 0;
    }
  }
}
