/** Facts about the grouping functions of the evaluator: what each list
    holds, in which order, and how many cards and points there are. */
module EvaluatorFacts {
  import opened Seqs
  import opened Cards
  import opened HandEvaluator

  // ---------------------------------------------------------------------
  // Contents and order of the groups

  /** `pointrank2cards[p]` holds exactly the cards of point `p`, in
      ascending suit order, and there are at most four of them. */
  lemma PointCardsFacts(h: set<Card>, p: int)
    ensures forall c :: c in PointCards(h, p) <==> c in h && c.point == p && 0 <= c.suit < NumSuits
    ensures forall i :: 0 <= i < |PointCards(h, p)| ==> PointCards(h, p)[i].point == p
    ensures forall i, j :: 0 <= i < j < |PointCards(h, p)| ==> PointCards(h, p)[i].suit < PointCards(h, p)[j].suit
    ensures Count(h, p) <= 4
  {
    assert SlotsBelow(h, p, 1) == Slot(h, p, 0);
    assert SlotsBelow(h, p, 2) == Slot(h, p, 0) + Slot(h, p, 1);
    assert SlotsBelow(h, p, 3) == Slot(h, p, 0) + Slot(h, p, 1) + Slot(h, p, 2);
    assert PointCards(h, p) == SlotsBelow(h, p, 4);
    SlotsBelowFacts(h, p, 4);
  }

  /** The slots of suits `0 .. k-1` of point `p`, in suit order. */
  ghost function SlotsBelow(h: set<Card>, p: int, k: nat): seq<Card>
  {
    if k == 0 then [] else SlotsBelow(h, p, k - 1) + Slot(h, p, k - 1)
  }

  lemma {:induction false} SlotsBelowFacts(h: set<Card>, p: int, k: nat)
    ensures forall c :: c in SlotsBelow(h, p, k) <==> c in h && c.point == p && 0 <= c.suit < k
    ensures forall i :: 0 <= i < |SlotsBelow(h, p, k)| ==>
              SlotsBelow(h, p, k)[i].point == p && 0 <= SlotsBelow(h, p, k)[i].suit < k
    ensures forall i, j :: 0 <= i < j < |SlotsBelow(h, p, k)| ==> SlotsBelow(h, p, k)[i].suit < SlotsBelow(h, p, k)[j].suit
    ensures |SlotsBelow(h, p, k)| <= k
  {
    if k > 0 {
      SlotsBelowFacts(h, p, k - 1);
      var pre := SlotsBelow(h, p, k - 1);
      var last := Slot(h, p, k - 1);
      assert SlotsBelow(h, p, k) == pre + last;
      assert forall c :: c in last <==> c in h && c == Card(p, k - 1);
    }
  }

  lemma {:induction false} SuitCardsFacts(h: set<Card>, s: int, hi: int)
    ensures forall c :: c in SuitCardsUpTo(h, s, hi) <==> c in h && c.suit == s && MinPoint <= c.point <= hi
    ensures forall i :: 0 <= i < |SuitCardsUpTo(h, s, hi)| ==>
              SuitCardsUpTo(h, s, hi)[i].suit == s && MinPoint <= SuitCardsUpTo(h, s, hi)[i].point <= hi
    ensures forall i, j :: 0 <= i < j < |SuitCardsUpTo(h, s, hi)| ==>
              SuitCardsUpTo(h, s, hi)[i].point < SuitCardsUpTo(h, s, hi)[j].point
    decreases hi
  {
    if hi >= MinPoint {
      SuitCardsFacts(h, s, hi - 1);
    }
  }

  lemma {:induction false} PointsUpToMember(h: set<Card>, hi: int, p: int)
    ensures p in PointsUpTo(h, hi) <==> MinPoint <= p <= hi && Count(h, p) > 0
    decreases hi
  {
    if hi >= MinPoint {
      PointsUpToMember(h, hi - 1, p);
      assert PointsUpTo(h, hi) == PointsUpTo(h, hi - 1) + (if Count(h, hi) > 0 then [hi] else []);
    }
  }

  lemma {:induction false} PointsUpToSorted(h: set<Card>, hi: int)
    ensures forall i :: 0 <= i < |PointsUpTo(h, hi)| ==> MinPoint <= PointsUpTo(h, hi)[i] <= hi
    ensures forall i, j :: 0 <= i < j < |PointsUpTo(h, hi)| ==> PointsUpTo(h, hi)[i] < PointsUpTo(h, hi)[j]
    decreases hi
  {
    if hi >= MinPoint {
      PointsUpToSorted(h, hi - 1);
    }
  }

  /** `sorted_point` holds the points present, each once, in ascending order. */
  lemma PointsUpToFacts(h: set<Card>, hi: int)
    ensures forall p :: p in PointsUpTo(h, hi) <==> MinPoint <= p <= hi && Count(h, p) > 0
    ensures forall i :: 0 <= i < |PointsUpTo(h, hi)| ==> MinPoint <= PointsUpTo(h, hi)[i] <= hi
    ensures forall i, j :: 0 <= i < j < |PointsUpTo(h, hi)| ==> PointsUpTo(h, hi)[i] < PointsUpTo(h, hi)[j]
  {
    forall p
      ensures p in PointsUpTo(h, hi) <==> MinPoint <= p <= hi && Count(h, p) > 0
    {
      PointsUpToMember(h, hi, p);
    }
    PointsUpToSorted(h, hi);
  }

  lemma {:induction false} PointsWithCountMember(h: set<Card>, k: nat, hi: int, p: int)
    ensures p in PointsWithCountUpTo(h, k, hi) <==> MinPoint <= p <= hi && Count(h, p) == k
    decreases hi
  {
    if hi >= MinPoint {
      PointsWithCountMember(h, k, hi - 1, p);
      assert PointsWithCountUpTo(h, k, hi) ==
        PointsWithCountUpTo(h, k, hi - 1) + (if Count(h, hi) == k then [hi] else []);
    }
  }

  lemma {:induction false} PointsWithCountSorted(h: set<Card>, k: nat, hi: int)
    ensures forall i :: 0 <= i < |PointsWithCountUpTo(h, k, hi)| ==> MinPoint <= PointsWithCountUpTo(h, k, hi)[i] <= hi
    ensures forall i, j :: 0 <= i < j < |PointsWithCountUpTo(h, k, hi)| ==>
              PointsWithCountUpTo(h, k, hi)[i] < PointsWithCountUpTo(h, k, hi)[j]
    decreases hi
  {
    if hi >= MinPoint {
      PointsWithCountSorted(h, k, hi - 1);
    }
  }

  /** `num2point[k]` holds the points held exactly `k` times, ascending. */
  lemma PointsWithCountFacts(h: set<Card>, k: nat, hi: int)
    ensures forall p :: p in PointsWithCountUpTo(h, k, hi) <==> MinPoint <= p <= hi && Count(h, p) == k
    ensures forall i :: 0 <= i < |PointsWithCountUpTo(h, k, hi)| ==> MinPoint <= PointsWithCountUpTo(h, k, hi)[i] <= hi
    ensures forall i, j :: 0 <= i < j < |PointsWithCountUpTo(h, k, hi)| ==>
              PointsWithCountUpTo(h, k, hi)[i] < PointsWithCountUpTo(h, k, hi)[j]
  {
    forall p
      ensures p in PointsWithCountUpTo(h, k, hi) <==> MinPoint <= p <= hi && Count(h, p) == k
    {
      PointsWithCountMember(h, k, hi, p);
    }
    PointsWithCountSorted(h, k, hi);
  }

  // ---------------------------------------------------------------------
  // Counting cards and points

  /** The cards of `h` whose point is at most `hi`. */
  ghost function CardsUpTo(h: set<Card>, hi: int): set<Card>
  {
    set c | c in h && c.point <= hi
  }

  /** The cards of `h` whose point is `p`. */
  ghost function CardsOfPoint(h: set<Card>, p: int): set<Card>
  {
    set c | c in h && c.point == p
  }

  /** Number of cards with point in MinPoint..hi. */
  ghost function SumCount(h: set<Card>, hi: int): int
    decreases hi
  {
    if hi < MinPoint then 0 else SumCount(h, hi - 1) + Count(h, hi)
  }

  /** Number of cards with point in MinPoint..hi and outside `x`. */
  ghost function SumExcept(h: set<Card>, hi: int, x: set<int>): int
    decreases hi
  {
    if hi < MinPoint then 0 else SumExcept(h, hi - 1, x) + (if hi in x then 0 else Count(h, hi))
  }

  /** Number of cards with point in MinPoint..hi and inside `x`. */
  ghost function SumOnly(h: set<Card>, hi: int, x: set<int>): int
    decreases hi
  {
    if hi < MinPoint then 0 else SumOnly(h, hi - 1, x) + (if hi in x then Count(h, hi) else 0)
  }

  /** Number of points present in MinPoint..hi and outside `x`. */
  ghost function PresentExcept(h: set<Card>, hi: int, x: set<int>): nat
    decreases hi
  {
    if hi < MinPoint then 0
    else PresentExcept(h, hi - 1, x) + (if hi !in x && Count(h, hi) > 0 then 1 else 0)
  }

  lemma CountIsCardinality(h: set<Card>, p: int)
    requires ValidSet(h)
    ensures Count(h, p) == |CardsOfPoint(h, p)|
  {
    var pc := PointCards(h, p);
    PointCardsFacts(h, p);
    assert Distinct(pc);
    DistinctCardinality(pc);
    assert SetOf(pc) == CardsOfPoint(h, p);
  }

  lemma {:induction false} SumCountIsCardinality(h: set<Card>, hi: int)
    requires ValidSet(h)
    ensures SumCount(h, hi) == |CardsUpTo(h, hi)|
    decreases hi
  {
    if hi < MinPoint {
      assert CardsUpTo(h, hi) == {};
    } else {
      SumCountIsCardinality(h, hi - 1);
      CountIsCardinality(h, hi);
      assert CardsUpTo(h, hi) == CardsUpTo(h, hi - 1) + CardsOfPoint(h, hi);
      assert CardsUpTo(h, hi - 1) !! CardsOfPoint(h, hi);
    }
  }

  /** Every card is counted under its point: the counts add up to the number of cards. */
  lemma SumCountAll(h: set<Card>)
    requires ValidSet(h)
    ensures SumCount(h, MaxPoint) == |h|
  {
    SumCountIsCardinality(h, MaxPoint);
    assert CardsUpTo(h, MaxPoint) == h;
  }

  lemma {:induction false} SumSplit(h: set<Card>, hi: int, x: set<int>)
    ensures SumCount(h, hi) == SumExcept(h, hi, x) + SumOnly(h, hi, x)
    decreases hi
  {
    if hi >= MinPoint {
      SumSplit(h, hi - 1, x);
    }
  }

  lemma {:induction false} SumOnlyOne(h: set<Card>, hi: int, q: int)
    requires MinPoint <= q
    ensures SumOnly(h, hi, {q}) == (if q <= hi then Count(h, q) else 0)
    decreases hi
  {
    if hi >= MinPoint {
      SumOnlyOne(h, hi - 1, q);
    }
  }

  lemma {:induction false} SumOnlyTwo(h: set<Card>, hi: int, q1: int, q2: int)
    requires MinPoint <= q1 && MinPoint <= q2 && q1 != q2
    ensures SumOnly(h, hi, {q1, q2}) ==
              (if q1 <= hi then Count(h, q1) else 0) + (if q2 <= hi then Count(h, q2) else 0)
    decreases hi
  {
    if hi >= MinPoint {
      SumOnlyTwo(h, hi - 1, q1, q2);
    }
  }

  /** When every point outside `x` is held at most once, the points outside
      `x` are as many as the cards outside `x`. */
  lemma {:induction false} PresentIsSumWhenSingles(h: set<Card>, hi: int, x: set<int>)
    requires forall p :: MinPoint <= p <= hi && p !in x ==> Count(h, p) <= 1
    ensures PresentExcept(h, hi, x) == SumExcept(h, hi, x)
    decreases hi
  {
    if hi >= MinPoint {
      PresentIsSumWhenSingles(h, hi - 1, x);
    }
  }

  lemma {:induction false} PresentPositive(h: set<Card>, hi: int, x: set<int>)
    requires SumExcept(h, hi, x) > 0
    ensures PresentExcept(h, hi, x) > 0
    decreases hi
  {
    if hi >= MinPoint && SumExcept(h, hi - 1, x) > 0 {
      PresentPositive(h, hi - 1, x);
    }
  }

  lemma {:induction false} PointsLength(h: set<Card>, hi: int, x: set<int>)
    ensures |PointsUpTo(h, hi)| >= PresentExcept(h, hi, x)
    decreases hi
  {
    if hi >= MinPoint {
      PointsLength(h, hi - 1, x);
    }
  }

  lemma {:induction false} OthersCardsLength(h: set<Card>, hi: int, x: set<int>, k: nat)
    ensures |OthersCards(h, PointsUpTo(h, hi), x, k)| == Min(k, PresentExcept(h, hi, x))
    decreases hi
  {
    if hi >= MinPoint {
      var sp := PointsUpTo(h, hi);
      var prev := PointsUpTo(h, hi - 1);
      if Count(h, hi) > 0 {
        assert sp == prev + [hi];
        if k > 0 {
          OthersCardsStep(h, sp, x, k);
          assert sp[..|sp| - 1] == prev;
          if hi !in x {
            OthersCardsLength(h, hi - 1, x, k - 1);
          } else {
            OthersCardsLength(h, hi - 1, x, k);
          }
        }
      } else {
        OthersCardsLength(h, hi - 1, x, k);
        assert sp == prev;
      }
    }
  }

  /** One step of the kicker walk over a point that is held. */
  lemma OthersCardsStep(h: set<Card>, sp: seq<int>, x: set<int>, k: nat)
    requires |sp| > 0 && k > 0 && Count(h, sp[|sp| - 1]) > 0
    ensures var p := sp[|sp| - 1];
            |OthersCards(h, sp, x, k)| ==
              if p !in x then 1 + |OthersCards(h, sp[..|sp| - 1], x, k - 1)|
              else |OthersCards(h, sp[..|sp| - 1], x, k)|
  {
    assert |Take(PointCards(h, sp[|sp| - 1]), 1)| == 1;
  }

  lemma {:induction false} RankCardsDescLength(h: set<Card>, hi: int)
    ensures |RankCardsDesc(h, PointsUpTo(h, hi))| == SumCount(h, hi)
    decreases hi
  {
    if hi >= MinPoint {
      var sp := PointsUpTo(h, hi);
      var prev := PointsUpTo(h, hi - 1);
      RankCardsDescLength(h, hi - 1);
      if Count(h, hi) > 0 {
        assert sp == prev + [hi];
        assert sp[..|sp| - 1] == prev;
      } else {
        assert sp == prev;
      }
    }
  }

  lemma {:induction false} PointsWithCountBound(h: set<Card>, k: nat, hi: int)
    ensures k * |PointsWithCountUpTo(h, k, hi)| <= SumCount(h, hi)
    decreases hi
  {
    if hi >= MinPoint {
      PointsWithCountBound(h, k, hi - 1);
      var prev := PointsWithCountUpTo(h, k, hi - 1);
      if Count(h, hi) == k {
        assert |PointsWithCountUpTo(h, k, hi)| == |prev| + 1;
        assert k * (|prev| + 1) == k * |prev| + k;
      }
    }
  }
}
