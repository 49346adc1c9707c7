/** Worked runs of the scan and the calculator on small concrete windows. */
module Scenarios {
  import opened Ledger
  import opened Accumulator
  import opened Momentum
  import BlockRange
  import opened Tracker

  const Target: Addr := "0xAAAA"

  /** A normaliser that accepts every string except "bad" as already
      canonical. */
  function Norm(raw: string): Option<Addr>
  {
    if raw == "bad" then None else Some(raw)
  }

  function Call(from: string): Tx
  {
    Tx(from, Some(Target))
  }

  /** A block holding one call from a well-formed wallet counts it and adds
      the wallet. */
  lemma OneCall(acc: Tally, from: string)
    requires from != "bad"
    ensures Absorb(Target, Norm, acc, Fetched([Call(from)])) == Tally(acc.count + 1, acc.senders + {from})
  {
    assert Target != "" && Target != "bad";
    assert Examine(Target, Norm, Call(from)) == Counted(from);
    CountedStep(Target, Norm, acc, Call(from), []);
    assert [Call(from)] + [] == [Call(from)];
  }

  /** A block holding one more call from a wallet already seen only raises
      the count. */
  lemma RepeatCall(acc: Tally, from: string)
    requires from != "bad" && from in acc.senders
    ensures Absorb(Target, Norm, acc, Fetched([Call(from)])) == Tally(acc.count + 1, acc.senders)
  {
    assert Target != "" && Target != "bad";
    assert Examine(Target, Norm, Call(from)) == Counted(from);
    KnownSenderOnlyCounts(Target, Norm, acc, Call(from), []);
    assert [Call(from)] + [] == [Call(from)];
  }

  /** Scanning a non-empty stretch absorbs its first block, then the rest. */
  lemma ScanCons(acc: Tally, b: BlockResult, rest: seq<BlockResult>)
    ensures Scan(Target, Norm, acc, [b] + rest) == Scan(Target, Norm, Absorb(Target, Norm, acc, b), rest)
  {
    assert ([b] + rest)[0] == b && ([b] + rest)[1..] == rest;
  }

  /** Two empty blocks change nothing. */
  lemma Quiet(acc: Tally)
    ensures Scan(Target, Norm, acc, [Fetched([]), Fetched([])]) == acc
  {
    ScanCons(acc, Fetched([]), [Fetched([])]);
    ScanCons(acc, Fetched([]), []);
  }

  /** A call from `b` followed by two empty blocks adds one transaction and
      the wallet `b`. */
  lemma CallThenQuiet(acc: Tally, b: string)
    requires b != "bad"
    ensures Scan(Target, Norm, acc, [Fetched([Call(b)]), Fetched([]), Fetched([])])
         == Tally(acc.count + 1, acc.senders + {b})
  {
    var quiet := [Fetched([]), Fetched([])];
    ScanCons(acc, Fetched([Call(b)]), quiet);
    OneCall(acc, b);
    Quiet(Tally(acc.count + 1, acc.senders + {b}));
    assert [Fetched([Call(b)])] + quiet == [Fetched([Call(b)]), Fetched([]), Fetched([])];
  }

  /** Blocks 100 to 104 hold two calls from wallet `a`, one from wallet `b`,
      then two empty blocks: the count is 3 and the senders are the two
      wallets. */
  lemma ScenarioAScan(a: string, b: string)
    requires a != "bad" && b != "bad"
    ensures Scan(Target, Norm, Empty, [Fetched([Call(a)]), Fetched([Call(a)]), Fetched([Call(b)]), Fetched([]), Fetched([])])
         == Tally(3, {a, b})
  {
    var w2 := [Fetched([Call(b)]), Fetched([]), Fetched([])];
    var t1 := Tally(1, {a});
    ScanCons(Empty, Fetched([Call(a)]), [Fetched([Call(a)])] + w2);
    OneCall(Empty, a);
    assert {} + {a} == {a};
    ScanCons(t1, Fetched([Call(a)]), w2);
    RepeatCall(t1, a);
    CallThenQuiet(Tally(2, {a}), b);
    assert [Fetched([Call(a)]), Fetched([Call(a)]), Fetched([Call(b)]), Fetched([]), Fetched([])]
        == [Fetched([Call(a)])] + ([Fetched([Call(a)])] + w2);
  }

  /** Against the empty baseline both wallets are new: the index is 100, the
      hyper-growth tier. */
  lemma ScenarioAIndex()
    ensures Index({"0x1", "0x2"}, {}) == 100.0
    ensures Classify(100.0) == HyperGrowth
  {
    EmptyBaseline({"0x1", "0x2"});
  }

  /** The same senders against a baseline that already knows "0x1": one new
      wallet out of two is an index of exactly 50, which is moderate. */
  lemma ScenarioB()
    ensures NewWallets({"0x1", "0x2"}, {"0x1"}) == {"0x2"}
    ensures Index({"0x1", "0x2"}, {"0x1"}) == 50.0
    ensures Classify(50.0) == Moderate
  {
    assert NewWallets({"0x1", "0x2"}, {"0x1"}) == {"0x2"};
    assert |{"0x1", "0x2"}| == 2;
  }

  /** Block 101 fails to load: the remaining blocks are still scanned. */
  lemma ScenarioC(a: string, b: string)
    requires a != "bad" && b != "bad"
    ensures Scan(Target, Norm, Empty, [Fetched([Call(a)]), Failed, Fetched([Call(b)]), Fetched([]), Fetched([])])
         == Tally(2, {a, b})
  {
    var w2 := [Fetched([Call(b)]), Fetched([]), Fetched([])];
    var t1 := Tally(1, {a});
    ScanCons(Empty, Fetched([Call(a)]), [Failed] + w2);
    OneCall(Empty, a);
    assert {} + {a} == {a};
    ScanCons(t1, Failed, w2);
    CallThenQuiet(t1, b);
    assert [Fetched([Call(a)]), Failed, Fetched([Call(b)]), Fetched([]), Fetched([])]
        == [Fetched([Call(a)])] + ([Failed] + w2);
  }

  /** A window without calls to the target: nothing counted, index 0. */
  lemma ScenarioD()
    ensures Scan(Target, Norm, Empty, [Fetched([Tx("0x1", Some("0xBBBB")), Tx("0x2", None)])]) == Empty
    ensures Index({}, {}) == 0.0
  {
    var txs := [Tx("0x1", Some("0xBBBB")), Tx("0x2", None)];
    assert txs[1..][1..] == [];
  }

  /** A recipient that fails to normalise ends its block: the call before it
      is kept, the call after it is lost. */
  lemma MidBlockFault()
    ensures ProcessBlock(Target, Norm, Empty, [Call("0x1"), Tx("0x3", Some("bad")), Call("0x2")])
         == Tally(1, {"0x1"})
  {
    var txs := [Call("0x1"), Tx("0x3", Some("bad")), Call("0x2")];
    assert txs[1..][0] == Tx("0x3", Some("bad"));
  }

  /** A call whose sender fails to normalise is counted without a sender. */
  lemma SenderFault()
    ensures ProcessBlock(Target, Norm, Empty, [Call("bad"), Call("0x2")]) == Tally(1, {})
  {
  }

  /** The chain of scenario A: its head is block 104; blocks 100 and 101 each
      hold a call from 0x1, block 102 one from 0x2, every other height is
      empty. */
  function BlocksA(h: int): BlockResult
  {
    if h == 100 || h == 101 then Fetched([Call("0x1")])
    else if h == 102 then Fetched([Call("0x2")])
    else Fetched([])
  }

  /** Scenario A's window holds the five blocks of `ScenarioAScan`. */
  lemma ScenarioAWindow()
    ensures WindowTally(Chain(104, BlocksA), Target, Norm, 5) == Tally(3, {"0x1", "0x2"})
  {
    var hs := BlockRange.Heights(104, 5);
    assert hs == [100, 101, 102, 103, 104];
    assert FetchAll(Chain(104, BlocksA), hs)
        == [Fetched([Call("0x1")]), Fetched([Call("0x1")]), Fetched([Call("0x2")]), Fetched([]), Fetched([])];
    ScenarioAScan("0x1", "0x2");
  }

  /** The whole run of scenario A over the five blocks ending at the head:
      it reads the head, asks for blocks 100 to 104 in order, and reports 3
      transactions from 2 wallets, both new, index 100, hyper-growth. */
  lemma ScenarioARun()
    ensures
      var run := TrackMomentum(Chain(104, BlocksA), Target, 5, Norm);
      && run.requests == [ReadHead, GetBlock(100), GetBlock(101), GetBlock(102), GetBlock(103), GetBlock(104)]
      && run.outcome == Completed(Report(Target, 100, 104, 3, 2, 2, 100.0, HyperGrowth))
  {
    var run := TrackMomentum(Chain(104, BlocksA), Target, 5, Norm);
    assert Norm(Target) == Some(Target);
    ScenarioAWindow();
    assert |{"0x1", "0x2"}| == 2;
    assert |run.requests| == 6;
  }
}
