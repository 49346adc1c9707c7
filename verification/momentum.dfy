/** The momentum calculator and the tier classifier.

    The new wallets of a period are the unique senders not in a baseline of
    previously known wallets; the growth momentum index is the share of new
    wallets among the unique senders, as a percentage, and exactly 0 when
    there are no senders.  The index is computed in exact rational arithmetic
    here, where the source uses a float. */
module Momentum {
  import opened Ledger

  /** Unique senders that the baseline did not already know. */
  function NewWallets(unique: set<Addr>, known: set<Addr>): (newOnes: set<Addr>)
    ensures newOnes <= unique
    ensures forall a :: a in newOnes <==> a in unique && a !in known
  {
    unique - known
  }

  /** The growth momentum index, a percentage. */
  function Index(unique: set<Addr>, known: set<Addr>): (r: real)
    ensures 0.0 <= r <= 100.0
    ensures |unique| == 0 ==> r == 0.0
    ensures |unique| > 0 ==> r * (|unique| as real) == 100.0 * (|NewWallets(unique, known)| as real)
  {
    var total := |unique|;
    if total > 0 then (|NewWallets(unique, known)| as real / total as real) * 100.0 else 0.0
  }

  /** The index is 0 exactly when no sender is new. */
  lemma IndexZeroIff(unique: set<Addr>, known: set<Addr>)
    ensures Index(unique, known) == 0.0 <==> unique <= known
  {
    if unique <= known {
      assert NewWallets(unique, known) == {};
    } else {
      var a :| a in unique && a !in known;
      assert a in NewWallets(unique, known);
    }
  }

  /** The index is 100 exactly when there is a sender and none of them was
      already known. */
  lemma IndexFullIff(unique: set<Addr>, known: set<Addr>)
    ensures Index(unique, known) == 100.0 <==> unique != {} && unique !! known
  {
    var newOnes := NewWallets(unique, known);
    if unique != {} && unique !! known {
      assert newOnes == unique;
    } else if unique != {} {
      var a :| a in unique && a in known;
      assert newOnes <= unique - {a};
      assert |newOnes| <= |unique - {a}| < |unique|;
    }
  }

  /** With the empty baseline the source uses, every unique sender is new and
      the index is 100 whenever there is at least one sender. */
  lemma EmptyBaseline(unique: set<Addr>)
    ensures NewWallets(unique, {}) == unique
    ensures Index(unique, {}) == if unique == {} then 0.0 else 100.0
  {
    IndexFullIff(unique, {});
  }

  /** A larger baseline never raises the index. */
  lemma IndexAntitone(unique: set<Addr>, known: set<Addr>, known': set<Addr>)
    requires known <= known'
    ensures Index(unique, known') <= Index(unique, known)
  {
    var f := NewWallets(unique, known);
    var f' := NewWallets(unique, known');
    assert f' <= f;
    if |unique| > 0 {
      CardMono(f', f);
      var n := |unique| as real;
      CancelPositive(Index(unique, known'), Index(unique, known), n, |f'| as real, |f| as real);
    }
  }

  /** Two percentages of the same positive total compare as their parts. */
  lemma CancelPositive(a: real, b: real, n: real, x: real, y: real)
    requires n > 0.0 && a * n == 100.0 * x && b * n == 100.0 * y && x <= y
    ensures a <= b
  {
  }

  lemma CardMono(a: set<Addr>, b: set<Addr>)
    requires a <= b
    ensures |a| <= |b|
  {
    assert b == a + (b - a);
  }

  // ---------------------------------------------------------------------
  // Tiers

  datatype Tier = HyperGrowth | Strong | Moderate

  /** Classification of an index: above 80 is hyper-growth, above 50 up to
      and including 80 is strong, 50 and below is moderate. */
  function Classify(index: real): (t: Tier)
    ensures t == HyperGrowth <==> 80.0 < index
    ensures t == Strong <==> 50.0 < index <= 80.0
    ensures t == Moderate <==> index <= 50.0
  {
    if index > 80.0 then HyperGrowth
    else if index > 50.0 then Strong
    else Moderate
  }

  /** Position of a tier in the order moderate < strong < hyper-growth. */
  function Rank(t: Tier): nat
  {
    match t
    case Moderate => 0
    case Strong => 1
    case HyperGrowth => 2
  }

  /** A higher index never lands in a lower tier. */
  lemma ClassifyMonotone(x: real, y: real)
    requires x <= y
    ensures Rank(Classify(x)) <= Rank(Classify(y))
  {
  }

  /** The boundaries belong to the lower tier: exactly 80 is strong and
      exactly 50 is moderate, while anything just above them moves up. */
  lemma ClassifyBoundaries(eps: real)
    requires 0.0 < eps <= 30.0
    ensures Classify(80.0) == Strong && Classify(80.0 + eps) == HyperGrowth
    ensures Classify(50.0) == Moderate && Classify(50.0 + eps) == Strong
  {
  }
}
