/** What the evaluator's strongest branches and its last one return: a
    same-suit run of five is found whenever there is one and wins over
    every other pattern, four of a kind comes with the highest other card,
    a flush is the top five cards of its suit, and a high-card hand is the
    five highest cards. */
module EvaluatorContent {
  import opened Seqs
  import opened Cards
  import opened Outcomes
  import opened HandEvaluator
  import opened EvaluatorFacts
  import opened EvaluatorProps

  // ---------------------------------------------------------------------
  // Straight flush

  /** The five cards of suit `s` with points `low` to `low + 4`. */
  function RunCards(low: int, s: int): (r: seq<Card>)
    ensures |r| == 5 && forall j :: 0 <= j < 5 ==> r[j] == Card(low + j, s)
  {
    seq(5, j => Card(low + j, s))
  }

  /** The cards hold a same-suit run of five consecutive points from `low`. */
  ghost predicate SuitedRun(h: set<Card>, low: int, s: int)
  {
    && MinPoint <= low && low + 4 <= MaxPoint && 0 <= s < NumSuits
    && forall p :: low <= p < low + 5 ==> Card(p, s) in h
  }

  /** The cards of one suit in ascending point order. */
  ghost predicate SuitSorted(cs: seq<Card>, s: int)
  {
    && (forall i :: 0 <= i < |cs| ==> cs[i].suit == s)
    && (forall i, j :: 0 <= i < j < |cs| ==> cs[i].point < cs[j].point)
  }

  /** The run from index `k + 1` cannot be extended upwards. */
  ghost predicate Maximal(cs: seq<Card>, k: int, len: int)
    requires 0 <= k && 1 <= len && k + len <= |cs|
  {
    k + len == |cs| || cs[k + len - 1].point + 1 != cs[k + len].point
  }

  /** The scan finds a run whenever one starts at or below `i`, and the run it
      finds is the highest. `run` is the length of the longest chain that
      starts at `i + 1`, and no run starts above `i`. */
  lemma {:induction false} ScanFinds(cs: seq<Card>, i: int, run: int)
    requires -1 <= i && 1 <= run <= 4 && i + 1 + run <= |cs|
    requires Chain(cs, i + 1, run) && Maximal(cs, i + 1, run)
    requires forall k :: i < k && Run5(cs, k) ==> false
    ensures (exists k :: 0 <= k <= i && Run5(cs, k)) ==> StraightScan(cs, i, run).Some?
    ensures StraightScan(cs, i, run).Some? ==> forall k :: StraightScan(cs, i, run).value < k && Run5(cs, k) ==> false
    decreases i + 1
  {
    if i >= 0 {
      var run' := if cs[i].point == cs[i + 1].point - 1 then run + 1 else 1;
      if run' < 5 {
        assert Chain(cs, i, run');
        assert Maximal(cs, i, run');
        assert !Run5(cs, i);
        ScanFinds(cs, i - 1, run');
      }
    }
  }

  /** In a list of strictly ascending points, points grow at least as fast
      as indices. */
  lemma {:induction false} AscendingGap(cs: seq<Card>, i: int, j: int)
    requires forall x, y :: 0 <= x < y < |cs| ==> cs[x].point < cs[y].point
    requires 0 <= i <= j < |cs|
    ensures cs[j].point - cs[i].point >= j - i
    decreases j - i
  {
    if i < j {
      AscendingGap(cs, i, j - 1);
    }
  }

  /** In a list of strictly ascending points, the card one point above
      another comes right after it. */
  lemma Adjacent(cs: seq<Card>, a: int, b: int)
    requires forall i, j :: 0 <= i < j < |cs| ==> cs[i].point < cs[j].point
    requires 0 <= a < |cs| && 0 <= b < |cs| && cs[b].point == cs[a].point + 1
    ensures b == a + 1
  {
    if a <= b {
      AscendingGap(cs, a, b);
    }
  }

  /** Five same-suit cards with consecutive points sit next to each other in
      their suit's sorted list. */
  lemma RunInSuit(cs: seq<Card>, low: int, s: int) returns (k: int)
    requires SuitSorted(cs, s)
    requires forall p :: low <= p < low + 5 ==> Card(p, s) in cs
    ensures 0 <= k && k + 5 <= |cs| && Run5(cs, k)
  {
    assert Card(low, s) in cs && Card(low + 1, s) in cs && Card(low + 2, s) in cs;
    assert Card(low + 3, s) in cs && Card(low + 4, s) in cs;
    k := IndexOf(cs, Card(low, s));
    var k1 := IndexOf(cs, Card(low + 1, s));
    var k2 := IndexOf(cs, Card(low + 2, s));
    var k3 := IndexOf(cs, Card(low + 3, s));
    var k4 := IndexOf(cs, Card(low + 4, s));
    Adjacent(cs, k, k1);
    Adjacent(cs, k1, k2);
    Adjacent(cs, k2, k3);
    Adjacent(cs, k3, k4);
  }

  /** The index of a member of a sequence. */
  function IndexOf<T(==)>(s: seq<T>, x: T): (r: nat)
    requires x in s
    ensures r < |s| && s[r] == x
  {
    if s[0] == x then 0 else 1 + IndexOf(s[1..], x)
  }

  /** The cards of suit `s` up to point `hi`, sorted. */
  lemma SuitCardsSorted(h: set<Card>, s: int, hi: int)
    ensures SuitSorted(SuitCardsUpTo(h, s, hi), s)
    ensures forall c :: c in SuitCardsUpTo(h, s, hi) <==> c in h && c.suit == s && MinPoint <= c.point <= hi
  {
    SuitCardsFacts(h, s, hi);
  }

  /** A run found in one suit's sorted cards is a same-suit run of the cards. */
  lemma RunIsSuited(cs: seq<Card>, h: set<Card>, s: int, i: int)
    requires SuitSorted(cs, s) && 0 <= s < NumSuits
    requires forall c :: c in cs ==> c in h && MinPoint <= c.point <= MaxPoint
    requires 0 <= i && i + 5 <= |cs| && Run5(cs, i)
    ensures cs[i..i + 5] == RunCards(cs[i].point, s) && SuitedRun(h, cs[i].point, s)
  {
    var f := cs[i..i + 5];
    assert forall j :: 0 <= j < 5 ==> f[j] == cs[i + j];
    assert f[0] in cs && f[4] in cs;
    forall p | f[0].point <= p < f[0].point + 5
      ensures Card(p, s) in h
    {
      assert cs[i + (p - f[0].point)] == Card(p, s);
      assert cs[i + (p - f[0].point)] in cs;
    }
  }

  /** One suit's sorted cards hold a run exactly when the scan finds one. */
  lemma ScanSuit(cs: seq<Card>, k: int)
    requires 0 <= k && k + 5 <= |cs| && Run5(cs, k)
    ensures StraightScan(cs, |cs| - 2, 1).Some?
  {
    ScanFinds(cs, |cs| - 2, 1);
  }

  /** The run the scan finds among the cards of suit `s` up to point `hi`
      is a same-suit run of the cards. */
  lemma SuitRunFound(h: set<Card>, s: int, hi: int)
    requires 0 <= s < NumSuits && hi <= MaxPoint
    requires |SuitCardsUpTo(h, s, hi)| >= 5 && StraightScan(SuitCardsUpTo(h, s, hi), |SuitCardsUpTo(h, s, hi)| - 2, 1).Some?
    ensures var cs := SuitCardsUpTo(h, s, hi);
            var i := StraightScan(cs, |cs| - 2, 1).value;
            cs[i..i + 5] == RunCards(cs[i].point, s) && SuitedRun(h, cs[i].point, s)
  {
    var cs := SuitCardsUpTo(h, s, hi);
    var i := StraightScan(cs, |cs| - 2, 1).value;
    assert 0 <= i && i + 5 <= |cs| && Run5(cs, i);
    SuitCardsSorted(h, s, hi);
    RunIsSuited(cs, h, s, i);
  }

  /** A same-suit run in suit `s` is found by the scan of that suit's cards
      up to any point `hi` the run does not pass. */
  lemma SuitRunSeen(h: set<Card>, low: int, s: int, hi: int)
    requires SuitedRun(h, low, s) && low + 4 <= hi
    ensures |SuitCardsUpTo(h, s, hi)| >= 5 && StraightScan(SuitCardsUpTo(h, s, hi), |SuitCardsUpTo(h, s, hi)| - 2, 1).Some?
  {
    var cs := SuitCardsUpTo(h, s, hi);
    SuitCardsSorted(h, s, hi);
    var k := RunInSuit(cs, low, s);
    ScanSuit(cs, k);
  }

  /** What the same-suit search returns: five cards of one suit with
      consecutive points, all among the cards. */
  lemma {:induction false} SameSuitStraightSound(h: set<Card>, s0: int)
    requires 0 <= s0
    ensures var r := SameSuitStraight(h, s0);
            r.Some? ==> SuitedRun(h, r.value[0].point, r.value[0].suit)
                        && r.value == RunCards(r.value[0].point, r.value[0].suit)
    decreases NumSuits - s0
  {
    if s0 < NumSuits {
      var cs := SuitCards(h, s0);
      if |cs| >= 5 && StraightScan(cs, |cs| - 2, 1).Some? {
        SuitRunFound(h, s0, MaxPoint);
      } else {
        SameSuitStraightSound(h, s0 + 1);
      }
    }
  }

  /** The same-suit search finds a run whenever the cards hold one in a suit
      it still visits. */
  lemma {:induction false} SameSuitStraightComplete(h: set<Card>, s0: int, low: int, s: int)
    requires 0 <= s0 <= s && SuitedRun(h, low, s)
    ensures SameSuitStraight(h, s0).Some?
    decreases NumSuits - s0
  {
    if s0 == s {
      SameSuitStraightHere(h, low, s);
    } else {
      SameSuitStraightComplete(h, s0 + 1, low, s);
      SameSuitStraightStep(h, s0);
    }
  }

  /** The search, started at the suit holding a run, stops there. */
  lemma SameSuitStraightHere(h: set<Card>, low: int, s: int)
    requires SuitedRun(h, low, s)
    ensures SameSuitStraight(h, s).Some?
  {
    SuitRunSeen(h, low, s, MaxPoint);
    SameSuitStraightStep(h, s);
  }

  /** One step of the same-suit search: a suit it visits either yields a
      run or hands the search on to the next suit. */
  lemma SameSuitStraightStep(h: set<Card>, s0: int)
    requires 0 <= s0 < NumSuits
    ensures var cs := SuitCardsUpTo(h, s0, MaxPoint);
            SameSuitStraight(h, s0).Some? <==>
              (|cs| >= 5 && StraightScan(cs, |cs| - 2, 1).Some?) || SameSuitStraight(h, s0 + 1).Some?
  {
  }

  // ---------------------------------------------------------------------
  // Which branch answers which pattern

  lemma StraightFlushBranch(h: set<Card>)
    requires SameSuitStraight(h, 0).Some?
    ensures EvaluateSet(h) == Evaluation(StraightFlush, SameSuitStraight(h, 0).value)
  {
  }

  lemma FlushBranch(h: set<Card>)
    requires NoStraightFlush(h) && !NoFlush(h) && |PointsWithCount(h, 4)| == 0
    requires !(|PointsWithCount(h, 3)| == 2 || (|PointsWithCount(h, 3)| >= 1 && |PointsWithCount(h, 2)| >= 1))
    ensures EvaluateSet(h) == Evaluation(Flush, FlushCards(h, 0).value)
  {
  }

  /** Below the flush the evaluator answers one of the four weakest
      patterns, and high card only when no point is held twice or more. */
  lemma LowerPatterns(h: set<Card>)
    requires NoStraightFlush(h) && NoFlush(h) && |PointsWithCount(h, 4)| == 0
    requires !(|PointsWithCount(h, 3)| == 2 || (|PointsWithCount(h, 3)| >= 1 && |PointsWithCount(h, 2)| >= 1))
    ensures EvaluateSet(h).pattern in {ThreeOfAKind, TwoPair, OnePair, HighCard}
    ensures EvaluateSet(h).pattern == HighCard ==> |PointsWithCount(h, 3)| != 1 && |PointsWithCount(h, 2)| == 0
  {
    if |PointsWithCount(h, 3)| == 1 {
      TripsBranch(h);
    } else if |PointsWithCount(h, 3)| == 0 {
      if |PointsWithCount(h, 2)| >= 2 {
        TwoPairBranch(h);
      } else if |PointsWithCount(h, 2)| == 1 {
        PairBranch(h);
      } else {
        HighCardBranch(h);
      }
    }
  }

  /** The guards that hold when the evaluator answers each of the patterns
      whose cards are described below. */
  lemma PatternGuards(h: set<Card>)
    ensures var e := EvaluateSet(h);
            && (e.pattern == StraightFlush <==> SameSuitStraight(h, 0).Some?)
            && (e.pattern == StraightFlush ==> e.cards == SameSuitStraight(h, 0).value)
            && (e.pattern == FourOfAKind ==> NoStraightFlush(h) && |PointsWithCount(h, 4)| > 0)
            && (e.pattern == Flush ==>
                  && NoStraightFlush(h) && |PointsWithCount(h, 4)| == 0 && FlushCards(h, 0).Some?
                  && e.cards == FlushCards(h, 0).value)
            && (e.pattern == HighCard ==>
                  && NoStraightFlush(h) && NoFlush(h) && |PointsWithCount(h, 4)| == 0
                  && |PointsWithCount(h, 3)| != 1 && |PointsWithCount(h, 3)| != 2
                  && |PointsWithCount(h, 2)| == 0)
  {
    var n3 := PointsWithCount(h, 3);
    var n2 := PointsWithCount(h, 2);
    if !NoStraightFlush(h) {
      StraightFlushBranch(h);
    } else if |PointsWithCount(h, 4)| > 0 {
      QuadsBranch(h);
    } else if |n3| == 2 || (|n3| >= 1 && |n2| >= 1) {
      FullHouseBranch(h);
    } else if !NoFlush(h) {
      FlushBranch(h);
    } else {
      LowerPatterns(h);
    }
  }

  // ---------------------------------------------------------------------
  // Straight flush first

  /** A same-suit run of five is reported before any other pattern, and it
      is reported exactly when the cards hold one: the evaluator answers
      straight flush with five same-suit cards of consecutive points taken
      from the cards. */
  lemma StraightFlushFirst(h: set<Card>)
    ensures var e := EvaluateSet(h);
            e.pattern == StraightFlush ==>
              && |e.cards| == 5
              && e.cards == RunCards(e.cards[0].point, e.cards[0].suit)
              && SuitedRun(h, e.cards[0].point, e.cards[0].suit)
    ensures forall low, s :: SuitedRun(h, low, s) ==> EvaluateSet(h).pattern == StraightFlush
  {
    PatternGuards(h);
    SameSuitStraightSound(h, 0);
    forall low, s | SuitedRun(h, low, s)
      ensures EvaluateSet(h).pattern == StraightFlush
    {
      SameSuitStraightComplete(h, 0, low, s);
    }
  }

  // ---------------------------------------------------------------------
  // Kickers and the highest cards

  /** Points in strictly ascending order, each held at least once. */
  ghost predicate PresentAscending(h: set<Card>, sp: seq<int>)
  {
    && (forall i, j :: 0 <= i < j < |sp| ==> sp[i] < sp[j])
    && (forall i :: 0 <= i < |sp| ==> Count(h, sp[i]) > 0)
  }

  lemma SortedPointsAscending(h: set<Card>)
    ensures PresentAscending(h, SortedPoints(h))
    ensures forall p :: p in SortedPoints(h) <==> MinPoint <= p <= MaxPoint && Count(h, p) > 0
  {
    PointsUpToFacts(h, MaxPoint);
  }

  /** The first kicker is a card of the highest listed point outside `x`. */
  lemma {:induction false} FirstKicker(h: set<Card>, sp: seq<int>, x: set<int>, k: nat)
    requires PresentAscending(h, sp) && k > 0
    ensures var r := OthersCards(h, sp, x, k);
            |r| > 0 ==>
              && r[0] in h && r[0].point in sp && r[0].point !in x
              && forall p :: p in sp && p > r[0].point ==> p in x
    decreases |sp|
  {
    if |sp| > 0 {
      var p := sp[|sp| - 1];
      var rest := sp[..|sp| - 1];
      assert PresentAscending(h, rest);
      PointCardsFacts(h, p);
      if p !in x {
        assert PointCards(h, p)[0] in PointCards(h, p);
        assert OthersCards(h, sp, x, k)[0] == PointCards(h, p)[0];
      } else {
        FirstKicker(h, rest, x, k);
        assert forall q :: q in sp && q != p ==> q in rest;
      }
    }
  }

  /** The points' cards from the highest point down: exactly the cards of
      the listed points, in non-increasing point order. */
  lemma RankCardsDescFacts(h: set<Card>, sp: seq<int>)
    requires PresentAscending(h, sp)
    ensures forall c :: c in RankCardsDesc(h, sp) <==> c in h && c.point in sp && 0 <= c.suit < NumSuits
    ensures forall i, j :: 0 <= i < j < |RankCardsDesc(h, sp)| ==>
              RankCardsDesc(h, sp)[i].point >= RankCardsDesc(h, sp)[j].point
  {
    RankCardsDescMembers(h, sp);
    RankCardsDescOrdered(h, sp);
  }

  lemma {:induction false} RankCardsDescMembers(h: set<Card>, sp: seq<int>)
    ensures forall c :: c in RankCardsDesc(h, sp) <==> c in h && c.point in sp && 0 <= c.suit < NumSuits
    decreases |sp|
  {
    if |sp| > 0 {
      var p := sp[|sp| - 1];
      var rest := sp[..|sp| - 1];
      RankCardsDescMembers(h, rest);
      PointCardsFacts(h, p);
      assert RankCardsDesc(h, sp) == PointCards(h, p) + RankCardsDesc(h, rest);
      assert forall q :: q in sp <==> q == p || q in rest;
    }
  }

  lemma {:induction false} RankCardsDescOrdered(h: set<Card>, sp: seq<int>)
    requires PresentAscending(h, sp)
    ensures forall i, j :: 0 <= i < j < |RankCardsDesc(h, sp)| ==>
              RankCardsDesc(h, sp)[i].point >= RankCardsDesc(h, sp)[j].point
    decreases |sp|
  {
    if |sp| > 0 {
      var p := sp[|sp| - 1];
      var rest := sp[..|sp| - 1];
      assert PresentAscending(h, rest);
      RankCardsDescOrdered(h, rest);
      RankCardsDescMembers(h, rest);
      PointCardsFacts(h, p);
      var low := RankCardsDesc(h, rest);
      assert forall j :: 0 <= j < |low| ==> low[j].point < p by {
        forall j | 0 <= j < |low|
          ensures low[j].point < p
        {
          assert low[j] in low;
          var m := IndexOf(rest, low[j].point);
          assert sp[m] < sp[|sp| - 1];
        }
      }
      NonIncreasingConcat(PointCards(h, p), low, p);
      assert RankCardsDesc(h, sp) == PointCards(h, p) + low;
    }
  }

  /** Cards all of point `p` followed by non-increasing cards below `p`
      are non-increasing. */
  lemma NonIncreasingConcat(top: seq<Card>, low: seq<Card>, p: int)
    requires forall i :: 0 <= i < |top| ==> top[i].point == p
    requires forall j :: 0 <= j < |low| ==> low[j].point < p
    requires forall i, j :: 0 <= i < j < |low| ==> low[i].point >= low[j].point
    ensures forall i, j :: 0 <= i < j < |top + low| ==> (top + low)[i].point >= (top + low)[j].point
  {
  }

  // ---------------------------------------------------------------------
  // Four of a kind

  /** Four cards of point `q`, one per suit, then a card of the highest
      other point among the cards. */
  ghost predicate QuadsKicker(h: set<Card>, q: int, f: seq<Card>)
  {
    && |f| == 5 && Count(h, q) == 4
    && f[..4] == [Card(q, 0), Card(q, 1), Card(q, 2), Card(q, 3)]
    && f[4] in h && f[4].point != q
    && forall c :: c in h && c.point != q ==> c.point <= f[4].point
  }

  /** All four suits of a point held four times. */
  lemma QuadCards(h: set<Card>, q: int)
    requires Count(h, q) == 4
    ensures Take(PointCards(h, q), 4) == [Card(q, 0), Card(q, 1), Card(q, 2), Card(q, 3)]
  {
  }

  /** Four of a kind's cards, over any ascending list of points that covers
      every card. */
  lemma QuadsOver(h: set<Card>, sp: seq<int>, q: int)
    requires PresentAscending(h, sp) && Count(h, q) == 4
    requires forall c :: c in h ==> c.point in sp
    requires |Take(PointCards(h, q), 4) + OthersCards(h, sp, {q}, 1)| == 5
    ensures QuadsKicker(h, q, Take(PointCards(h, q), 4) + OthersCards(h, sp, {q}, 1))
  {
    var kick := OthersCards(h, sp, {q}, 1);
    var f := Take(PointCards(h, q), 4) + kick;
    QuadCards(h, q);
    assert f[..4] == [Card(q, 0), Card(q, 1), Card(q, 2), Card(q, 3)] && f[4] == kick[0];
    FirstKicker(h, sp, {q}, 1);
  }

  /** Every card's point is among the sorted points. */
  lemma SortedPointsCover(h: set<Card>)
    requires ValidSet(h)
    ensures PresentAscending(h, SortedPoints(h))
    ensures forall c :: c in h ==> c.point in SortedPoints(h)
  {
    SortedPointsAscending(h);
    forall c | c in h
      ensures c.point in SortedPoints(h)
    {
      PointCardsFacts(h, c.point);
      assert c in PointCards(h, c.point);
    }
  }

  /** The four-of-a-kind branch's cards. */
  lemma QuadsCardsKicker(h: set<Card>)
    requires SevenCards(h) && |PointsWithCount(h, 4)| > 0
    ensures var q := PointsWithCount(h, 4)[0];
            QuadsKicker(h, q, Take(PointCards(h, q), 4) + OthersCards(h, SortedPoints(h), {q}, 1))
  {
    ListedCount(h, 4, 0);
    QuadsLength(h);
    SortedPointsCover(h);
    QuadsOver(h, SortedPoints(h), PointsWithCount(h, 4)[0]);
  }

  /** Four of a kind returns the four cards of its point, one per suit,
      and then a card of the highest other point among the cards. */
  lemma QuadsWithKicker(h: set<Card>)
    requires SevenCards(h)
    ensures var e := EvaluateSet(h);
            e.pattern == FourOfAKind ==> |e.cards| == 5 && QuadsKicker(h, e.cards[0].point, e.cards)
  {
    PatternGuards(h);
    if EvaluateSet(h).pattern == FourOfAKind {
      QuadsBranch(h);
      QuadsCardsKicker(h);
    }
  }

  // ---------------------------------------------------------------------
  // Flush

  /** Five cards of suit `s` in ascending point order, with no card of that
      suit up to point `hi` left out ranking above the lowest of them. */
  ghost predicate TopOfSuit(h: set<Card>, s: int, hi: int, f: seq<Card>)
  {
    && |f| == 5 && 0 <= s < NumSuits
    && (forall i :: 0 <= i < 5 ==> f[i] in h && f[i].suit == s)
    && (forall i, j :: 0 <= i < j < 5 ==> f[i].point < f[j].point)
    && (forall c :: c in h && c.suit == s && MinPoint <= c.point <= hi && c !in f ==> c.point < f[0].point)
  }

  /** The last five of one suit's sorted cards are its five highest. */
  lemma TopFiveOfSuit(cs: seq<Card>, h: set<Card>, s: int, hi: int)
    requires SuitSorted(cs, s) && |cs| >= 5 && 0 <= s < NumSuits
    requires forall c :: c in cs <==> c in h && c.suit == s && MinPoint <= c.point <= hi
    ensures TopOfSuit(h, s, hi, cs[|cs| - 5..])
  {
    var f := cs[|cs| - 5..];
    assert forall i :: 0 <= i < 5 ==> f[i] == cs[|cs| - 5 + i];
    forall i | 0 <= i < 5
      ensures f[i] in h
    {
      assert cs[|cs| - 5 + i] in cs;
    }
    forall c | c in h && c.suit == s && MinPoint <= c.point <= hi && c !in f
      ensures c.point < f[0].point
    {
      var m := IndexOf(cs, c);
    }
  }

  lemma SuitTopFive(h: set<Card>, s: int, hi: int)
    requires 0 <= s < NumSuits && |SuitCardsUpTo(h, s, hi)| >= 5
    ensures TopOfSuit(h, s, hi, SuitCardsUpTo(h, s, hi)[|SuitCardsUpTo(h, s, hi)| - 5..])
  {
    SuitCardsSorted(h, s, hi);
    TopFiveOfSuit(SuitCardsUpTo(h, s, hi), h, s, hi);
  }

  /** The flush search returns the five highest cards of the first suit
      holding five or more. */
  lemma {:induction false} FlushTopFive(h: set<Card>, s0: int)
    requires 0 <= s0
    ensures var r := FlushCards(h, s0);
            r.Some? ==> TopOfSuit(h, r.value[0].suit, MaxPoint, r.value)
    decreases NumSuits - s0
  {
    if s0 < NumSuits {
      var cs := SuitCards(h, s0);
      if |cs| >= 5 {
        SuitTopFive(h, s0, MaxPoint);
      } else {
        FlushTopFive(h, s0 + 1);
      }
    }
  }

  /** A flush is the top five cards of its suit, in ascending order. */
  lemma FlushIsTopFive(h: set<Card>)
    ensures var e := EvaluateSet(h);
            e.pattern == Flush ==> |e.cards| == 5 && TopOfSuit(h, e.cards[0].suit, MaxPoint, e.cards)
  {
    PatternGuards(h);
    FlushTopFive(h, 0);
  }

  // ---------------------------------------------------------------------
  // High card

  /** Five of the cards in non-increasing point order, with no card left
      out ranking above the lowest of them. */
  ghost predicate HighestFive(h: set<Card>, f: seq<Card>)
  {
    && |f| == 5
    && (forall i :: 0 <= i < 5 ==> f[i] in h)
    && (forall i, j :: 0 <= i < j < 5 ==> f[i].point >= f[j].point)
    && (forall c :: c in h && c !in f ==> c.point <= f[4].point)
  }

  /** The first five of a list of all the cards in non-increasing point
      order are the five highest. */
  lemma FirstFiveHighest(h: set<Card>, all: seq<Card>)
    requires |all| >= 5 && forall c :: c in h ==> c in all
    requires forall c :: c in all ==> c in h
    requires forall i, j :: 0 <= i < j < |all| ==> all[i].point >= all[j].point
    ensures HighestFive(h, Take(all, 5))
  {
    var f := Take(all, 5);
    forall i | 0 <= i < 5
      ensures f[i] in h
    {
      assert all[i] in all;
    }
    forall c | c in h && c !in f
      ensures c.point <= f[4].point
    {
      var m := IndexOf(all, c);
    }
  }

  /** The first five of the cards listed from the highest point down, over
      any ascending list of points that covers every card. */
  lemma HighestOver(h: set<Card>, sp: seq<int>)
    requires PresentAscending(h, sp) && |RankCardsDesc(h, sp)| >= 5
    requires forall c :: c in h ==> c.point in sp && 0 <= c.suit < NumSuits
    ensures HighestFive(h, Take(RankCardsDesc(h, sp), 5))
  {
    RankCardsDescFacts(h, sp);
    FirstFiveHighest(h, RankCardsDesc(h, sp));
  }

  /** The high-card branch's cards are the five highest. */
  lemma HighCardCards(h: set<Card>)
    requires SevenCards(h)
    ensures HighestFive(h, Take(RankCardsDesc(h, SortedPoints(h)), 5))
  {
    HighCardLength(h);
    SortedPointsCover(h);
    HighestOver(h, SortedPoints(h));
  }

  /** A high-card hand is five of the cards in non-increasing point order,
      and no card left out has a higher point than any card taken. */
  lemma HighCardTopFive(h: set<Card>)
    requires SevenCards(h)
    ensures var e := EvaluateSet(h);
            e.pattern == HighCard ==> HighestFive(h, e.cards)
  {
    PatternGuards(h);
    if EvaluateSet(h).pattern == HighCard {
      ThreeCountsBound(h);
      HighCardBranch(h);
      HighCardCards(h);
    }
  }
}
