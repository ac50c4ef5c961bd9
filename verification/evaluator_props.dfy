/** What the evaluator returns for seven different cards. */
module EvaluatorProps {
  import opened Seqs
  import opened Cards
  import opened Outcomes
  import opened HandEvaluator
  import opened EvaluatorFacts

  /** The seven cards the evaluator sees at a showdown. */
  ghost predicate SevenCards(h: set<Card>)
  {
    ValidSet(h) && |h| == 7
  }

  /** Every point outside `x` is held at most once. */
  ghost predicate SinglesOutside(h: set<Card>, x: set<int>)
  {
    forall p :: MinPoint <= p <= MaxPoint && p !in x ==> Count(h, p) <= 1
  }

  /** With no point held four times, at most one held three times and at
      most one held twice, every point other than those is held at most once. */
  lemma SinglesFromLists(h: set<Card>, q: int)
    requires |PointsWithCount(h, 4)| == 0
    requires |PointsWithCount(h, 3)| + |PointsWithCount(h, 2)| == 1
    requires q == (PointsWithCount(h, 3) + PointsWithCount(h, 2))[0]
    ensures SinglesOutside(h, {q})
  {
    var n3 := PointsWithCount(h, 3);
    var n2 := PointsWithCount(h, 2);
    assert PointsWithCount(h, 4) == [];
    if |n3| == 1 {
      assert n3 == [q] && n2 == [];
    } else {
      assert n2 == [q] && n3 == [];
    }
    forall p | MinPoint <= p <= MaxPoint && p != q
      ensures Count(h, p) <= 1
    {
      assert Count(h, p) <= 4;
      PointsWithCountMember(h, 4, MaxPoint, p);
      PointsWithCountMember(h, 3, MaxPoint, p);
      PointsWithCountMember(h, 2, MaxPoint, p);
    }
  }

  /** With `c` cards of the points in `x` set aside, the kicker walk over
      the other points finds `min(k, 7 - c)` of them when those are singles,
      and at least one when any card is left. */
  lemma KickersFound(h: set<Card>, x: set<int>, inX: int, k: nat)
    requires SevenCards(h)
    requires SumOnly(h, MaxPoint, x) == inX
    ensures inX < 7 && k > 0 ==> |OthersCards(h, SortedPoints(h), x, k)| >= 1
    ensures SinglesOutside(h, x) ==> |OthersCards(h, SortedPoints(h), x, k)| == Min(k, 7 - inX)
  {
    SumCountAll(h);
    SumSplit(h, MaxPoint, x);
    OthersCardsLength(h, MaxPoint, x, k);
    if inX < 7 {
      PresentPositive(h, MaxPoint, x);
    }
    if SinglesOutside(h, x) {
      PresentIsSumWhenSingles(h, MaxPoint, x);
    }
  }

  /** The guards of the evaluator's branches below the straight flush. */
  ghost predicate NoStraightFlush(h: set<Card>)
  {
    SameSuitStraight(h, 0).None?
  }

  ghost predicate NoFlush(h: set<Card>)
  {
    FlushCards(h, 0).None?
  }

  /** The `i`-th entry of `num2point[k]` is a point held exactly `k` times. */
  lemma ListedCount(h: set<Card>, k: nat, i: int)
    requires 0 <= i < |PointsWithCount(h, k)|
    ensures MinPoint <= PointsWithCount(h, k)[i] <= MaxPoint
    ensures Count(h, PointsWithCount(h, k)[i]) == k
  {
    PointsWithCountSorted(h, k, MaxPoint);
    PointsWithCountMember(h, k, MaxPoint, PointsWithCount(h, k)[i]);
  }

  // Which branch the evaluator takes, and what it returns there.

  lemma QuadsBranch(h: set<Card>)
    requires NoStraightFlush(h) && |PointsWithCount(h, 4)| > 0
    ensures var q := PointsWithCount(h, 4)[0];
            EvaluateSet(h) == Evaluation(FourOfAKind, Take(PointCards(h, q), 4) + OthersCards(h, SortedPoints(h), {q}, 1))
  {
  }

  lemma TripsBranch(h: set<Card>)
    requires NoStraightFlush(h) && NoFlush(h)
    requires |PointsWithCount(h, 4)| == 0 && |PointsWithCount(h, 3)| == 1 && |PointsWithCount(h, 2)| == 0
    ensures var q := PointsWithCount(h, 3)[0];
            EvaluateSet(h) == Evaluation(ThreeOfAKind, Take(PointCards(h, q), 3) + OthersCards(h, SortedPoints(h), {q}, 2))
  {
  }

  lemma TwoPairBranch(h: set<Card>)
    requires NoStraightFlush(h) && NoFlush(h)
    requires |PointsWithCount(h, 4)| == 0 && |PointsWithCount(h, 3)| == 0 && |PointsWithCount(h, 2)| >= 2
    ensures var n2 := PointsWithCount(h, 2);
            var a := n2[|n2| - 1];
            var b := n2[|n2| - 2];
            EvaluateSet(h) == Evaluation(TwoPair, PointCards(h, a) + PointCards(h, b) + OthersCards(h, SortedPoints(h), {a, b}, 1))
  {
  }

  lemma PairBranch(h: set<Card>)
    requires NoStraightFlush(h) && NoFlush(h)
    requires |PointsWithCount(h, 4)| == 0 && |PointsWithCount(h, 3)| == 0 && |PointsWithCount(h, 2)| == 1
    ensures var q := PointsWithCount(h, 2)[0];
            EvaluateSet(h) == Evaluation(OnePair, Take(PointCards(h, q), 2) + OthersCards(h, SortedPoints(h), {q}, |SortedPoints(h)|))
  {
  }

  lemma HighCardBranch(h: set<Card>)
    requires NoStraightFlush(h) && NoFlush(h)
    requires |PointsWithCount(h, 4)| == 0 && |PointsWithCount(h, 3)| == 0 && |PointsWithCount(h, 2)| == 0
    ensures EvaluateSet(h) == Evaluation(HighCard, Take(RankCardsDesc(h, SortedPoints(h)), 5))
  {
  }

  lemma FullHouseBranch(h: set<Card>)
    requires NoStraightFlush(h) && |PointsWithCount(h, 4)| == 0
    requires |PointsWithCount(h, 3)| == 2 || (|PointsWithCount(h, 3)| >= 1 && |PointsWithCount(h, 2)| >= 1)
    ensures var n3 := PointsWithCount(h, 3);
            var n2 := PointsWithCount(h, 2);
            EvaluateSet(h) ==
              if |n3| == 2 then Evaluation(FullHouse, Take(PointCards(h, n3[1]), 3) + Take(PointCards(h, n3[0]), 2))
              else Evaluation(FullHouse, Take(PointCards(h, n3[0]), 3) + Take(PointCards(h, n2[|n2| - 1]), 2))
  {
  }

  // How many cards each branch selects.

  lemma QuadsLength(h: set<Card>)
    requires SevenCards(h) && |PointsWithCount(h, 4)| > 0
    ensures var q := PointsWithCount(h, 4)[0];
            |Take(PointCards(h, q), 4) + OthersCards(h, SortedPoints(h), {q}, 1)| == 5
  {
    var q := PointsWithCount(h, 4)[0];
    ListedCount(h, 4, 0);
    SumOnlyOne(h, MaxPoint, q);
    KickersFound(h, {q}, 4, 1);
  }

  lemma FullHouseLength(h: set<Card>)
    requires |PointsWithCount(h, 3)| == 2 || (|PointsWithCount(h, 3)| >= 1 && |PointsWithCount(h, 2)| >= 1)
    ensures var n3 := PointsWithCount(h, 3);
            var n2 := PointsWithCount(h, 2);
            if |n3| == 2 then |Take(PointCards(h, n3[1]), 3) + Take(PointCards(h, n3[0]), 2)| == 5
            else |Take(PointCards(h, n3[0]), 3) + Take(PointCards(h, n2[|n2| - 1]), 2)| == 5
  {
    ListedCount(h, 3, 0);
    if |PointsWithCount(h, 3)| == 2 {
      ListedCount(h, 3, 1);
    } else {
      ListedCount(h, 2, |PointsWithCount(h, 2)| - 1);
    }
  }

  lemma TripsLength(h: set<Card>)
    requires SevenCards(h)
    requires |PointsWithCount(h, 4)| == 0 && |PointsWithCount(h, 3)| == 1 && |PointsWithCount(h, 2)| == 0
    ensures var q := PointsWithCount(h, 3)[0];
            |Take(PointCards(h, q), 3) + OthersCards(h, SortedPoints(h), {q}, 2)| == 5
  {
    var q := PointsWithCount(h, 3)[0];
    ListedCount(h, 3, 0);
    SinglesFromLists(h, q);
    SumOnlyOne(h, MaxPoint, q);
    KickersFound(h, {q}, 3, 2);
  }

  lemma TwoPairLength(h: set<Card>)
    requires SevenCards(h) && |PointsWithCount(h, 2)| >= 2
    ensures var n2 := PointsWithCount(h, 2);
            var a := n2[|n2| - 1];
            var b := n2[|n2| - 2];
            |PointCards(h, a) + PointCards(h, b) + OthersCards(h, SortedPoints(h), {a, b}, 1)| == 5
  {
    var n2 := PointsWithCount(h, 2);
    var a := n2[|n2| - 1];
    var b := n2[|n2| - 2];
    ListedCount(h, 2, |n2| - 1);
    ListedCount(h, 2, |n2| - 2);
    PointsWithCountSorted(h, 2, MaxPoint);
    TwoPairKicker(h, a, b);
  }

  lemma TwoPairKicker(h: set<Card>, a: int, b: int)
    requires SevenCards(h)
    requires MinPoint <= b < a && Count(h, a) == 2 && Count(h, b) == 2
    ensures |OthersCards(h, SortedPoints(h), {a, b}, 1)| == 1
  {
    SumOnlyTwo(h, MaxPoint, a, b);
    KickersFound(h, {a, b}, 4, 1);
  }

  /** The one-pair branch selects all seven cards: its kicker counter is
      never advanced, so every other point is appended. */
  lemma PairLength(h: set<Card>)
    requires SevenCards(h)
    requires |PointsWithCount(h, 4)| == 0 && |PointsWithCount(h, 3)| == 0 && |PointsWithCount(h, 2)| == 1
    ensures var q := PointsWithCount(h, 2)[0];
            |Take(PointCards(h, q), 2) + OthersCards(h, SortedPoints(h), {q}, |SortedPoints(h)|)| == 7
  {
    var q := PointsWithCount(h, 2)[0];
    ListedCount(h, 2, 0);
    assert |Take(PointCards(h, q), 2)| == 2;
    SinglesFromLists(h, q);
    var rest := SumExcept(h, MaxPoint, {q});
    assert rest == 5 by {
      SumOnlyOne(h, MaxPoint, q);
      SumCountAll(h);
      SumSplit(h, MaxPoint, {q});
    }
    PresentIsSumWhenSingles(h, MaxPoint, {q});
    PointsLength(h, MaxPoint, {q});
    OthersCardsLength(h, MaxPoint, {q}, |SortedPoints(h)|);
  }

  lemma HighCardLength(h: set<Card>)
    requires SevenCards(h)
    ensures |Take(RankCardsDesc(h, SortedPoints(h)), 5)| == 5
  {
    SumCountAll(h);
    RankCardsDescLength(h, MaxPoint);
  }

  lemma ThreeCountsBound(h: set<Card>)
    requires SevenCards(h)
    ensures |PointsWithCount(h, 3)| <= 2
  {
    SumCountAll(h);
    PointsWithCountBound(h, 3, MaxPoint);
  }

  /** Below the flush: three of a kind, two pairs, one pair or high card. */
  lemma LowerBranchesSelect(h: set<Card>)
    requires SevenCards(h) && NoStraightFlush(h) && NoFlush(h)
    requires |PointsWithCount(h, 4)| == 0
    requires !(|PointsWithCount(h, 3)| == 2 || (|PointsWithCount(h, 3)| >= 1 && |PointsWithCount(h, 2)| >= 1))
    ensures EvaluateSet(h).pattern != OnePair ==> |EvaluateSet(h).cards| == 5
    ensures EvaluateSet(h).pattern == OnePair ==> |EvaluateSet(h).cards| == 7
  {
    ThreeCountsBound(h);
    if |PointsWithCount(h, 3)| == 1 {
      TripsBranch(h);
      TripsLength(h);
    } else if |PointsWithCount(h, 2)| >= 2 {
      TwoPairBranch(h);
      TwoPairLength(h);
    } else if |PointsWithCount(h, 2)| == 1 {
      PairBranch(h);
      PairLength(h);
    } else {
      HighCardBranch(h);
      HighCardLength(h);
    }
  }

  /** The evaluator always selects at least five cards from seven different
      ones, so the comparator's five reads stay in range; only the one-pair
      branch selects more. */
  lemma EvaluateSelectsFive(h: set<Card>)
    requires SevenCards(h)
    ensures |EvaluateSet(h).cards| >= 5
    ensures EvaluateSet(h).pattern != OnePair ==> |EvaluateSet(h).cards| == 5
    ensures EvaluateSet(h).pattern == OnePair ==> |EvaluateSet(h).cards| == 7
  {
    var n3 := PointsWithCount(h, 3);
    var n2 := PointsWithCount(h, 2);
    if !NoStraightFlush(h) {
    } else if |PointsWithCount(h, 4)| > 0 {
      QuadsBranch(h);
      QuadsLength(h);
    } else if |n3| == 2 || (|n3| >= 1 && |n2| >= 1) {
      FullHouseBranch(h);
      FullHouseLength(h);
    } else if !NoFlush(h) {
    } else {
      LowerBranchesSelect(h);
    }
  }
}
