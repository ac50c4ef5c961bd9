/** Which cards the full-house, three-of-a-kind, two-pair and one-pair
    branches select: the cards of the points held more than once, lowest
    suits first, then kickers taken from the highest other points down. */
module EvaluatorKickers {
  import opened Seqs
  import opened Cards
  import opened HandEvaluator
  import opened EvaluatorFacts
  import opened EvaluatorProps
  import opened EvaluatorContent

  // ---------------------------------------------------------------------
  // Shapes of a selection

  /** `t` holds cards of point `p` from the hand in ascending suit order,
      and every card of that point left out has a higher suit than all of
      them: they are the point's `|t|` lowest-suit cards. */
  ghost predicate LowestOfPoint(h: set<Card>, p: int, t: seq<Card>)
  {
    && (forall i :: 0 <= i < |t| ==> t[i] in h && t[i].point == p)
    && (forall i, j :: 0 <= i < j < |t| ==> t[i].suit < t[j].suit)
    && (forall c :: c in h && c.point == p && c !in t ==> forall i :: 0 <= i < |t| ==> t[i].suit < c.suit)
  }

  /** Some card of `r` has point `p`. */
  ghost predicate HasPoint(r: seq<Card>, p: int)
  {
    exists i :: 0 <= i < |r| && r[i].point == p
  }

  /** `r` is what a walk for `k` kickers outside the points `x` should
      collect: cards of the hand, one per point and the lowest suit of it,
      in strictly descending point order, and a point outside `x` that is
      held but not taken ranks below all of the `k` cards taken. */
  ghost predicate TopKickers(h: set<Card>, x: set<int>, k: nat, r: seq<Card>)
  {
    && |r| <= k
    && (forall i :: 0 <= i < |r| ==> r[i] in h && r[i].point !in x)
    && (forall i :: 0 <= i < |r| ==> forall c :: c in h && c.point == r[i].point ==> r[i].suit <= c.suit)
    && (forall i, j :: 0 <= i < j < |r| ==> r[i].point > r[j].point)
    && (forall c :: c in h && c.point !in x && !HasPoint(r, c.point) ==>
          |r| == k && (k == 0 || c.point < r[k - 1].point))
  }

  /** The best full house: the three cards of the highest point held three
      times, then the two lowest-suit cards of the highest other point held
      at least twice. */
  ghost predicate BestFullHouse(h: set<Card>, f: seq<Card>)
  {
    && |f| == 5
    && f[0].point != f[3].point
    && Count(h, f[0].point) == 3 && Count(h, f[3].point) >= 2
    && (forall p :: Count(h, p) >= 3 ==> p <= f[0].point)
    && (forall p :: p != f[0].point && Count(h, p) >= 2 ==> p <= f[3].point)
    && LowestOfPoint(h, f[0].point, f[..3])
    && LowestOfPoint(h, f[3].point, f[3..])
  }

  /** Three of a kind: the three cards of the only point held more than
      once, then the cards of the two highest other points. */
  ghost predicate TripsWithKickers(h: set<Card>, f: seq<Card>)
  {
    && |f| == 5
    && Count(h, f[0].point) == 3
    && (forall p :: p != f[0].point ==> Count(h, p) <= 1)
    && LowestOfPoint(h, f[0].point, f[..3])
    && TopKickers(h, {f[0].point}, 2, f[3..])
  }

  /** Two pairs: the cards of the highest pair, then those of the next
      highest, then a card of the highest point outside both. */
  ghost predicate TwoPairWithKicker(h: set<Card>, f: seq<Card>)
  {
    && |f| == 5
    && f[2].point < f[0].point
    && Count(h, f[0].point) == 2 && Count(h, f[2].point) == 2
    && (forall p :: p != f[0].point && Count(h, p) >= 2 ==> p <= f[2].point)
    && LowestOfPoint(h, f[0].point, f[..2])
    && LowestOfPoint(h, f[2].point, f[2..4])
    && TopKickers(h, {f[0].point, f[2].point}, 1, f[4..])
  }

  /** One pair as the code selects it: the pair's two cards, then every
      other card, highest point first. */
  ghost predicate PairWithAllKickers(h: set<Card>, f: seq<Card>)
  {
    && |f| == 7
    && Count(h, f[0].point) == 2
    && (forall p :: p != f[0].point ==> Count(h, p) <= 1)
    && LowestOfPoint(h, f[0].point, f[..2])
    && (forall c :: c in f[2..] <==> c in h && c.point != f[0].point)
    && (forall i, j :: 2 <= i < j < 7 ==> f[i].point > f[j].point)
  }

  // ---------------------------------------------------------------------
  // The groups and the kicker walk

  /** A point held at all is a valid point. */
  lemma HeldPointValid(h: set<Card>, p: int)
    requires ValidSet(h) && Count(h, p) > 0
    ensures MinPoint <= p <= MaxPoint
  {
    PointCardsFacts(h, p);
    assert PointCards(h, p)[0] in PointCards(h, p);
  }

  /** The first `n` cards of a point's group are its `n` lowest-suit cards. */
  lemma LowestSuits(h: set<Card>, p: int, n: nat)
    requires ValidSet(h) && n <= Count(h, p)
    ensures |Take(PointCards(h, p), n)| == n
    ensures LowestOfPoint(h, p, Take(PointCards(h, p), n))
  {
    var pc := PointCards(h, p);
    var t := Take(pc, n);
    PointCardsFacts(h, p);
    forall i | 0 <= i < n
      ensures t[i] in h && t[i].point == p
    {
      assert pc[i] in pc;
    }
    forall c | c in h && c.point == p && c !in t
      ensures forall i :: 0 <= i < |t| ==> t[i].suit < c.suit
    {
      assert c in pc;
      var m := IndexOf(pc, c);
      assert m >= n;
    }
  }

  /** What the kicker walk over the points `sp` collects: cards of the
      hand with points in `sp` and outside `x`, each the lowest suit of its
      point, in strictly descending point order ... */
  ghost predicate WalkOrder(h: set<Card>, sp: seq<int>, x: set<int>, r: seq<Card>)
  {
    && (forall i :: 0 <= i < |r| ==> r[i] in h && r[i].point in sp && r[i].point !in x)
    && (forall i :: 0 <= i < |r| ==> forall c :: c in h && c.point == r[i].point ==> r[i].suit <= c.suit)
    && (forall i, j :: 0 <= i < j < |r| ==> r[i].point > r[j].point)
  }

  /** ... such that a point of `sp` outside `x` left out ranks below all
      of the `k` cards taken, and there are as many cards as points only
      when no point of `sp` is in `x`. */
  ghost predicate WalkComplete(h: set<Card>, sp: seq<int>, x: set<int>, k: nat, r: seq<Card>)
  {
    && (forall c :: c in h && c.point in sp && c.point !in x && !HasPoint(r, c.point) ==>
          |r| == k && (k == 0 || c.point < r[k - 1].point))
    && |r| <= |sp|
    && (|r| == |sp| ==> forall p :: p in sp ==> p !in x)
  }

  ghost predicate WalkFacts(h: set<Card>, sp: seq<int>, x: set<int>, k: nat, r: seq<Card>)
  {
    WalkOrder(h, sp, x, r) && WalkComplete(h, sp, x, k, r)
  }

  /** The kicker walk over ascending held points collects, for each point
      outside `x` from the highest down, its lowest-suit card, until it has
      `k`. */
  lemma {:induction false} KickerWalk(h: set<Card>, sp: seq<int>, x: set<int>, k: nat)
    requires ValidSet(h) && PresentAscending(h, sp)
    ensures WalkFacts(h, sp, x, k, OthersCards(h, sp, x, k))
    decreases |sp|
  {
    if |sp| > 0 && k > 0 {
      var p := sp[|sp| - 1];
      var rest := sp[..|sp| - 1];
      assert sp == rest + [p];
      assert PresentAscending(h, rest);
      AscendingBelowLast(rest, p);
      if p !in x {
        KickerWalk(h, rest, x, k - 1);
        KickerTake(h, p, rest, x, k);
      } else {
        KickerWalk(h, rest, x, k);
        KickerSkip(h, p, rest, x, k);
      }
    }
  }

  /** Every point before the last of a strictly ascending sequence is below it. */
  lemma AscendingBelowLast(rest: seq<int>, p: int)
    requires forall i, j :: 0 <= i < j < |rest + [p]| ==> (rest + [p])[i] < (rest + [p])[j]
    ensures forall q :: q in rest ==> q < p
  {
    forall q | q in rest
      ensures q < p
    {
      var m := IndexOf(rest, q);
      assert (rest + [p])[m] == q && (rest + [p])[|rest|] == p;
    }
  }

  /** The step of the walk that skips the highest point `p`, being in `x`. */
  lemma KickerSkip(h: set<Card>, p: int, rest: seq<int>, x: set<int>, k: nat)
    requires k > 0 && p in x
    requires WalkFacts(h, rest, x, k, OthersCards(h, rest, x, k))
    ensures WalkFacts(h, rest + [p], x, k, OthersCards(h, rest + [p], x, k))
  {
    var sp := rest + [p];
    assert sp[..|sp| - 1] == rest;
    assert OthersCards(h, sp, x, k) == OthersCards(h, rest, x, k);
  }

  /** The step of the walk that takes the highest point `p`. */
  lemma KickerTake(h: set<Card>, p: int, rest: seq<int>, x: set<int>, k: nat)
    requires ValidSet(h) && k > 0 && p !in x && Count(h, p) > 0
    requires forall q :: q in rest ==> q < p
    requires WalkFacts(h, rest, x, k - 1, OthersCards(h, rest, x, k - 1))
    ensures WalkFacts(h, rest + [p], x, k, OthersCards(h, rest + [p], x, k))
  {
    var sp := rest + [p];
    var pc := PointCards(h, p);
    PointCardsFacts(h, p);
    assert sp[..|sp| - 1] == rest;
    assert Take(pc, 1) == [pc[0]];
    LowestCard(h, p);
    PrependKicker(h, pc[0], rest, x, k, OthersCards(h, rest, x, k - 1));
  }

  /** The first card of a held point's group is its lowest-suit card. */
  lemma LowestCard(h: set<Card>, p: int)
    requires ValidSet(h) && Count(h, p) > 0
    ensures PointCards(h, p)[0] in h && PointCards(h, p)[0].point == p
    ensures forall c :: c in h && c.point == p ==> PointCards(h, p)[0].suit <= c.suit
  {
    var pc := PointCards(h, p);
    PointCardsFacts(h, p);
    assert pc[0] in pc;
    forall c | c in h && c.point == p
      ensures pc[0].suit <= c.suit
    {
      assert c in pc;
      var m := IndexOf(pc, c);
    }
  }

  /** Taking the lowest-suit card of a point above all of `rest` in front
      of a walk over `rest` gives a walk over `rest` and that point. */
  lemma PrependKicker(h: set<Card>, top: Card, rest: seq<int>, x: set<int>, k: nat, tail: seq<Card>)
    requires k > 0 && top in h && top.point !in x
    requires forall c :: c in h && c.point == top.point ==> top.suit <= c.suit
    requires forall q :: q in rest ==> q < top.point
    requires WalkFacts(h, rest, x, k - 1, tail)
    ensures WalkFacts(h, rest + [top.point], x, k, [top] + tail)
  {
    PrependOrder(h, top, rest, x, tail);
    PrependComplete(h, top, rest, x, k, tail);
  }

  lemma PrependOrder(h: set<Card>, top: Card, rest: seq<int>, x: set<int>, tail: seq<Card>)
    requires top in h && top.point !in x
    requires forall c :: c in h && c.point == top.point ==> top.suit <= c.suit
    requires forall q :: q in rest ==> q < top.point
    requires WalkOrder(h, rest, x, tail)
    ensures WalkOrder(h, rest + [top.point], x, [top] + tail)
  {
  }

  lemma PrependComplete(h: set<Card>, top: Card, rest: seq<int>, x: set<int>, k: nat, tail: seq<Card>)
    requires k > 0 && top.point !in x
    requires forall q :: q in rest ==> q < top.point
    requires forall i :: 0 <= i < |tail| ==> tail[i].point in rest
    requires WalkComplete(h, rest, x, k - 1, tail)
    ensures WalkComplete(h, rest + [top.point], x, k, [top] + tail)
  {
    var sp := rest + [top.point];
    var r := [top] + tail;
    forall c | c in h && c.point in sp && c.point !in x && !HasPoint(r, c.point)
      ensures |r| == k && (k == 0 || c.point < r[k - 1].point)
    {
      assert r[0].point == top.point;
      assert c.point in rest;
      assert !HasPoint(tail, c.point) by {
        forall i | 0 <= i < |tail|
          ensures tail[i].point != c.point
        {
          assert r[i + 1] == tail[i];
        }
      }
    }
  }

  /** The walk over the sorted points of a hand of valid cards. */
  lemma SortedKickers(h: set<Card>, x: set<int>, k: nat)
    requires ValidSet(h)
    ensures TopKickers(h, x, k, OthersCards(h, SortedPoints(h), x, k))
    ensures var r := OthersCards(h, SortedPoints(h), x, k);
            |r| == |SortedPoints(h)| ==> forall p :: p in SortedPoints(h) ==> p !in x
  {
    SortedPointsCover(h);
    KickerWalk(h, SortedPoints(h), x, k);
  }

  // ---------------------------------------------------------------------
  // Counting points

  lemma {:induction false} SumOnlyThree(h: set<Card>, hi: int, q1: int, q2: int, q3: int)
    requires MinPoint <= q1 && MinPoint <= q2 && MinPoint <= q3
    requires q1 != q2 && q1 != q3 && q2 != q3
    ensures SumOnly(h, hi, {q1, q2, q3}) ==
              (if q1 <= hi then Count(h, q1) else 0) + (if q2 <= hi then Count(h, q2) else 0)
              + (if q3 <= hi then Count(h, q3) else 0)
    decreases hi
  {
    if hi >= MinPoint {
      SumOnlyThree(h, hi - 1, q1, q2, q3);
    }
  }

  lemma {:induction false} SumExceptNonNegative(h: set<Card>, hi: int, x: set<int>)
    ensures SumExcept(h, hi, x) >= 0
    decreases hi
  {
    if hi >= MinPoint {
      SumExceptNonNegative(h, hi - 1, x);
    }
  }

  /** Three different points of seven cards hold at most seven of them. */
  lemma ThreePointsBound(h: set<Card>, a: int, b: int, p: int)
    requires SevenCards(h)
    requires MinPoint <= a <= MaxPoint && MinPoint <= b <= MaxPoint && MinPoint <= p <= MaxPoint
    requires a != b && a != p && b != p
    ensures Count(h, a) + Count(h, b) + Count(h, p) <= 7
  {
    SumCountAll(h);
    SumSplit(h, MaxPoint, {a, b, p});
    SumOnlyThree(h, MaxPoint, a, b, p);
    SumExceptNonNegative(h, MaxPoint, {a, b, p});
  }

  /** A point held `k` times is listed in `num2point[k]`, at or below its
      last entry, and at or below the entry before that unless it is the last. */
  lemma ListedBelow(h: set<Card>, k: nat, p: int)
    requires ValidSet(h) && k > 0 && Count(h, p) == k
    ensures var l := PointsWithCount(h, k);
            && |l| > 0 && p <= l[|l| - 1]
            && (p != l[|l| - 1] ==> |l| >= 2 && p <= l[|l| - 2])
  {
    var l := PointsWithCount(h, k);
    HeldPointValid(h, p);
    PointsWithCountMember(h, k, MaxPoint, p);
    PointsWithCountSorted(h, k, MaxPoint);
    var m := IndexOf(l, p);
  }

  // ---------------------------------------------------------------------
  // The guards of the four branches

  /** The conditions under which the evaluator answers each of the four
      patterns between four of a kind and high card. */
  lemma LowerGuards(h: set<Card>)
    requires SevenCards(h)
    ensures var e := EvaluateSet(h);
            var n3 := PointsWithCount(h, 3);
            var n2 := PointsWithCount(h, 2);
            && (e.pattern == FullHouse ==>
                  NoStraightFlush(h) && |PointsWithCount(h, 4)| == 0 && (|n3| == 2 || (|n3| >= 1 && |n2| >= 1)))
            && (e.pattern == ThreeOfAKind ==>
                  NoStraightFlush(h) && NoFlush(h) && |PointsWithCount(h, 4)| == 0 && |n3| == 1 && |n2| == 0)
            && (e.pattern == TwoPair ==>
                  NoStraightFlush(h) && NoFlush(h) && |PointsWithCount(h, 4)| == 0 && |n3| == 0 && |n2| >= 2)
            && (e.pattern == OnePair ==>
                  NoStraightFlush(h) && NoFlush(h) && |PointsWithCount(h, 4)| == 0 && |n3| == 0 && |n2| == 1)
  {
    ThreeCountsBound(h);
  }

  // ---------------------------------------------------------------------
  // Full house

  /** No point is held four times, so every count is at most three. */
  lemma NoQuads(h: set<Card>, p: int)
    requires ValidSet(h) && |PointsWithCount(h, 4)| == 0
    ensures Count(h, p) <= 3
  {
    PointCardsFacts(h, p);
    if Count(h, p) == 4 {
      HeldPointValid(h, p);
      PointsWithCountMember(h, 4, MaxPoint, p);
    }
  }

  /** The full house selection of the three lowest-suit cards of `a` and
      the two lowest-suit cards of `b`, when `a` is the highest point held
      three times and `b` the highest other point held at least twice. */
  lemma FullHouseShape(h: set<Card>, a: int, b: int)
    requires ValidSet(h) && a != b && Count(h, a) == 3 && Count(h, b) >= 2
    requires forall p :: Count(h, p) >= 3 ==> p <= a
    requires forall p :: p != a && Count(h, p) >= 2 ==> p <= b
    ensures BestFullHouse(h, Take(PointCards(h, a), 3) + Take(PointCards(h, b), 2))
  {
    LowestSuits(h, a, 3);
    LowestSuits(h, b, 2);
    var f := Take(PointCards(h, a), 3) + Take(PointCards(h, b), 2);
    assert f[..3] == Take(PointCards(h, a), 3) && f[3..] == Take(PointCards(h, b), 2);
  }

  /** The points held three times are at most the last one listed. */
  lemma HighestTrips(h: set<Card>)
    requires ValidSet(h) && |PointsWithCount(h, 4)| == 0 && |PointsWithCount(h, 3)| >= 1
    ensures var n3 := PointsWithCount(h, 3);
            forall p :: Count(h, p) >= 3 ==> p <= n3[|n3| - 1]
  {
    forall p | Count(h, p) >= 3
      ensures p <= PointsWithCount(h, 3)[|PointsWithCount(h, 3)| - 1]
    {
      NoQuads(h, p);
      ListedBelow(h, 3, p);
    }
  }

  /** With two points held three times, no third point is held twice. */
  lemma TwoTripsOrder(h: set<Card>)
    requires SevenCards(h) && |PointsWithCount(h, 4)| == 0 && |PointsWithCount(h, 3)| == 2
    ensures var n3 := PointsWithCount(h, 3);
            && n3[0] < n3[1] && Count(h, n3[0]) == 3 && Count(h, n3[1]) == 3
            && forall p :: p != n3[1] && Count(h, p) >= 2 ==> p <= n3[0]
  {
    var n3 := PointsWithCount(h, 3);
    var a := n3[1];
    var b := n3[0];
    ListedCount(h, 3, 0);
    ListedCount(h, 3, 1);
    PointsWithCountSorted(h, 3, MaxPoint);
    forall p | p != a && Count(h, p) >= 2
      ensures p <= b
    {
      NoQuads(h, p);
      HeldPointValid(h, p);
      if Count(h, p) == 2 {
        ThreePointsBound(h, a, b, p);
      } else {
        ListedBelow(h, 3, p);
      }
    }
  }

  /** With one point held three times, every other point held at least
      twice is at most the highest pair. */
  lemma TripsPairOrder(h: set<Card>)
    requires ValidSet(h) && |PointsWithCount(h, 4)| == 0
    requires |PointsWithCount(h, 3)| == 1 && |PointsWithCount(h, 2)| >= 1
    ensures var n3 := PointsWithCount(h, 3);
            var n2 := PointsWithCount(h, 2);
            && n3[0] != n2[|n2| - 1] && Count(h, n3[0]) == 3 && Count(h, n2[|n2| - 1]) == 2
            && forall p :: p != n3[0] && Count(h, p) >= 2 ==> p <= n2[|n2| - 1]
  {
    var n3 := PointsWithCount(h, 3);
    var n2 := PointsWithCount(h, 2);
    ListedCount(h, 3, 0);
    ListedCount(h, 2, |n2| - 1);
    forall p | p != n3[0] && Count(h, p) >= 2
      ensures p <= n2[|n2| - 1]
    {
      NoQuads(h, p);
      if Count(h, p) == 2 {
        ListedBelow(h, 2, p);
      } else {
        ListedBelow(h, 3, p);
      }
    }
  }

  /** What the full-house branch selects, under its guards. */
  lemma FullHouseSelection(h: set<Card>)
    requires SevenCards(h) && |PointsWithCount(h, 4)| == 0
    requires |PointsWithCount(h, 3)| == 2 || (|PointsWithCount(h, 3)| >= 1 && |PointsWithCount(h, 2)| >= 1)
    ensures var n3 := PointsWithCount(h, 3);
            var n2 := PointsWithCount(h, 2);
            BestFullHouse(h, if |n3| == 2 then Take(PointCards(h, n3[1]), 3) + Take(PointCards(h, n3[0]), 2)
                             else Take(PointCards(h, n3[0]), 3) + Take(PointCards(h, n2[|n2| - 1]), 2))
  {
    var n3 := PointsWithCount(h, 3);
    var n2 := PointsWithCount(h, 2);
    ThreeCountsBound(h);
    HighestTrips(h);
    if |n3| == 2 {
      TwoTripsOrder(h);
      FullHouseShape(h, n3[1], n3[0]);
    } else {
      TripsPairOrder(h);
      FullHouseShape(h, n3[0], n2[|n2| - 1]);
    }
  }

  /** A full house is the three cards of the highest point held three
      times and the two lowest-suit cards of the highest other point held
      at least twice. */
  lemma FullHouseCards(h: set<Card>)
    requires SevenCards(h)
    ensures var e := EvaluateSet(h);
            e.pattern == FullHouse ==> BestFullHouse(h, e.cards)
  {
    LowerGuards(h);
    if EvaluateSet(h).pattern == FullHouse {
      FullHouseBranch(h);
      FullHouseSelection(h);
    }
  }

  // ---------------------------------------------------------------------
  // Three of a kind

  /** Every point but one is held at most once. */
  lemma OnlyPointHeldTwice(h: set<Card>, q: int)
    requires ValidSet(h) && SinglesOutside(h, {q})
    ensures forall p :: p != q ==> Count(h, p) <= 1
  {
    forall p | p != q
      ensures Count(h, p) <= 1
    {
      if Count(h, p) > 0 {
        HeldPointValid(h, p);
      }
    }
  }

  lemma TripsSelection(h: set<Card>)
    requires SevenCards(h)
    requires |PointsWithCount(h, 4)| == 0 && |PointsWithCount(h, 3)| == 1 && |PointsWithCount(h, 2)| == 0
    ensures var q := PointsWithCount(h, 3)[0];
            TripsWithKickers(h, Take(PointCards(h, q), 3) + OthersCards(h, SortedPoints(h), {q}, 2))
  {
    var q := PointsWithCount(h, 3)[0];
    var f := Take(PointCards(h, q), 3) + OthersCards(h, SortedPoints(h), {q}, 2);
    TripsLength(h);
    ListedCount(h, 3, 0);
    LowestSuits(h, q, 3);
    SinglesFromLists(h, q);
    OnlyPointHeldTwice(h, q);
    SortedKickers(h, {q}, 2);
    assert f[..3] == Take(PointCards(h, q), 3) && f[3..] == OthersCards(h, SortedPoints(h), {q}, 2);
  }

  /** Three of a kind is the three cards of the only point held more than
      once, then the lowest-suit cards of the two highest other points, in
      descending point order. */
  lemma TripsCards(h: set<Card>)
    requires SevenCards(h)
    ensures var e := EvaluateSet(h);
            e.pattern == ThreeOfAKind ==> TripsWithKickers(h, e.cards)
  {
    LowerGuards(h);
    if EvaluateSet(h).pattern == ThreeOfAKind {
      TripsBranch(h);
      TripsSelection(h);
    }
  }

  // ---------------------------------------------------------------------
  // Two pairs

  /** The two-pair selection of all the cards of `a`, all those of `b`
      and the first kicker outside both, when `a` and `b` are the two
      highest pairs. */
  lemma TwoPairShape(h: set<Card>, a: int, b: int)
    requires SevenCards(h) && MinPoint <= b < a && Count(h, a) == 2 && Count(h, b) == 2
    requires forall p :: p != a && Count(h, p) >= 2 ==> p <= b
    ensures TwoPairWithKicker(h, PointCards(h, a) + PointCards(h, b) + OthersCards(h, SortedPoints(h), {a, b}, 1))
  {
    LowestSuits(h, a, 2);
    LowestSuits(h, b, 2);
    assert Take(PointCards(h, a), 2) == PointCards(h, a) && Take(PointCards(h, b), 2) == PointCards(h, b);
    SortedKickers(h, {a, b}, 1);
    SumOnlyTwo(h, MaxPoint, a, b);
    KickersFound(h, {a, b}, 4, 1);
    TwoPairParts(h, a, b, PointCards(h, a), PointCards(h, b), OthersCards(h, SortedPoints(h), {a, b}, 1));
  }

  /** Two pairs assembled from their three parts. */
  lemma TwoPairParts(h: set<Card>, a: int, b: int, u: seq<Card>, v: seq<Card>, w: seq<Card>)
    requires |u| == 2 && |v| == 2 && |w| == 1
    requires b < a && Count(h, a) == 2 && Count(h, b) == 2
    requires forall p :: p != a && Count(h, p) >= 2 ==> p <= b
    requires LowestOfPoint(h, a, u) && LowestOfPoint(h, b, v) && TopKickers(h, {a, b}, 1, w)
    ensures TwoPairWithKicker(h, u + v + w)
  {
    var f := u + v + w;
    assert f[..2] == u && f[2..4] == v && f[4..] == w;
    assert f[0] == u[0] && f[2] == v[0];
  }

  /** With no point held three or four times, the last two pairs listed
      are the two highest. */
  lemma TwoPairOrder(h: set<Card>)
    requires ValidSet(h)
    requires |PointsWithCount(h, 4)| == 0 && |PointsWithCount(h, 3)| == 0 && |PointsWithCount(h, 2)| >= 2
    ensures var n2 := PointsWithCount(h, 2);
            && MinPoint <= n2[|n2| - 2] < n2[|n2| - 1] && Count(h, n2[|n2| - 1]) == 2 && Count(h, n2[|n2| - 2]) == 2
            && forall p :: p != n2[|n2| - 1] && Count(h, p) >= 2 ==> p <= n2[|n2| - 2]
  {
    var n2 := PointsWithCount(h, 2);
    ListedCount(h, 2, |n2| - 1);
    ListedCount(h, 2, |n2| - 2);
    PointsWithCountSorted(h, 2, MaxPoint);
    forall p | p != n2[|n2| - 1] && Count(h, p) >= 2
      ensures p <= n2[|n2| - 2]
    {
      NoQuads(h, p);
      if Count(h, p) == 3 {
        HeldPointValid(h, p);
        PointsWithCountMember(h, 3, MaxPoint, p);
      }
      ListedBelow(h, 2, p);
    }
  }

  /** Two pairs are the cards of the highest pair, then those of the next
      highest, then the lowest-suit card of the highest point outside both. */
  lemma TwoPairCards(h: set<Card>)
    requires SevenCards(h)
    ensures var e := EvaluateSet(h);
            e.pattern == TwoPair ==> TwoPairWithKicker(h, e.cards)
  {
    LowerGuards(h);
    if EvaluateSet(h).pattern == TwoPair {
      TwoPairBranch(h);
      var n2 := PointsWithCount(h, 2);
      TwoPairOrder(h);
      TwoPairShape(h, n2[|n2| - 1], n2[|n2| - 2]);
    }
  }

  // ---------------------------------------------------------------------
  // One pair

  /** Two cards of a point held at most once are the same card. */
  lemma SingleCard(h: set<Card>, c: Card, d: Card)
    requires c in h && d in h && c.point == d.point && Count(h, c.point) <= 1
    requires ValidSet(h)
    ensures c == d
  {
    PointCardsFacts(h, c.point);
    assert c in PointCards(h, c.point) && d in PointCards(h, c.point);
  }

  lemma PairSelection(h: set<Card>)
    requires SevenCards(h)
    requires |PointsWithCount(h, 4)| == 0 && |PointsWithCount(h, 3)| == 0 && |PointsWithCount(h, 2)| == 1
    ensures var q := PointsWithCount(h, 2)[0];
            PairWithAllKickers(h, Take(PointCards(h, q), 2) + OthersCards(h, SortedPoints(h), {q}, |SortedPoints(h)|))
  {
    var q := PointsWithCount(h, 2)[0];
    var sp := SortedPoints(h);
    var r := OthersCards(h, sp, {q}, |sp|);
    PairLength(h);
    ListedCount(h, 2, 0);
    LowestSuits(h, q, 2);
    assert q == (PointsWithCount(h, 3) + PointsWithCount(h, 2))[0];
    SinglesFromLists(h, q);
    OnlyPointHeldTwice(h, q);
    SortedKickers(h, {q}, |sp|);
    AllOtherCards(h, q);
    PairParts(h, q, Take(PointCards(h, q), 2), r);
  }

  /** With `q` held, the walk for as many kickers as there are points takes
      every card outside `q` when those are the only cards of their points. */
  lemma AllOtherCards(h: set<Card>, q: int)
    requires ValidSet(h) && Count(h, q) > 0
    requires forall p :: p != q ==> Count(h, p) <= 1
    ensures var r := OthersCards(h, SortedPoints(h), {q}, |SortedPoints(h)|);
            forall c :: c in r <==> c in h && c.point != q
  {
    var sp := SortedPoints(h);
    var r := OthersCards(h, sp, {q}, |sp|);
    SortedKickers(h, {q}, |sp|);
    SortedPointsAscending(h);
    HeldPointValid(h, q);
    assert q in sp;
    assert |r| < |sp|;
    forall c
      ensures c in r <==> c in h && c.point != q
    {
      if c in h && c.point != q {
        assert HasPoint(r, c.point);
        var i :| 0 <= i < |r| && r[i].point == c.point;
        SingleCard(h, r[i], c);
      }
    }
  }

  /** One pair assembled from the pair and the other cards. */
  lemma PairParts(h: set<Card>, q: int, u: seq<Card>, r: seq<Card>)
    requires |u| == 2 && |u + r| == 7 && Count(h, q) == 2
    requires forall p :: p != q ==> Count(h, p) <= 1
    requires LowestOfPoint(h, q, u)
    requires forall c :: c in r <==> c in h && c.point != q
    requires forall i, j :: 0 <= i < j < |r| ==> r[i].point > r[j].point
    ensures PairWithAllKickers(h, u + r)
  {
    var f := u + r;
    assert f[..2] == u && f[2..] == r;
    assert f[0] == u[0];
    forall i, j | 2 <= i < j < 7
      ensures f[i].point > f[j].point
    {
      assert f[i] == r[i - 2] && f[j] == r[j - 2];
    }
  }

  /** One pair is the pair's two cards, then every other card, highest
      point first: the kicker counter never advances, so the walk takes
      them all. */
  lemma PairCards(h: set<Card>)
    requires SevenCards(h)
    ensures var e := EvaluateSet(h);
            e.pattern == OnePair ==> PairWithAllKickers(h, e.cards)
  {
    LowerGuards(h);
    if EvaluateSet(h).pattern == OnePair {
      PairBranch(h);
      PairSelection(h);
    }
  }
}
