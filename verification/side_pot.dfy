/** A worked showdown in which the side-pot layers pay out more than was
    bet. Three seats bet 100, 300 and 500 and nobody folds; seats 0 and 1
    tie with the best hand (rank 7) and seat 2 holds the worst (rank 3);
    seat 0 is the dealer. */
module SidePot {
  import opened Seqs
  import opened Settlement

  const Bets: seq<int> := [100, 300, 500]
  const NoFolds: seq<bool> := [false, false, false]
  const Ranks: seq<int> := [7, 7, 3]

  const First: Contender := Contender(0, 7, 100)
  const Second: Contender := Contender(1, 7, 300)
  const Third: Contender := Contender(2, 3, 500)

  /** The pot before anything is paid, then after the tie group's first
      layer, its second layer and the last group's layer. */
  const Empty: Pot := Pot([0, 0, 0], 0)
  const AfterFirst: Pot := Pot([150, 150, 0], 100)
  const AfterSecond: Pot := Pot([150, 650, 0], 300)
  const AfterThird: Pot := Pot([150, 650, 200], 500)

  lemma ExampleEmpty()
    ensures EmptyPot(3) == Empty
  {
    assert EmptyPot(3).scores == [0, 0, 0];
  }

  /** A layer over three bets is the sum of the three seats' takes. */
  lemma CollectThree(a: int, b: int, c: int, potLine: int, cap: int)
    ensures Collect([a, b, c], potLine, cap)
              == LayerTake(a, potLine, cap) + LayerTake(b, potLine, cap) + LayerTake(c, potLine, cap)
  {
    assert [a, b, c][1..] == [b, c];
    assert [b, c][1..] == [c];
    assert [c][1..] == [];
    assert Collect([c], potLine, cap) == LayerTake(c, potLine, cap) + Collect([], potLine, cap);
    assert Collect([b, c], potLine, cap) == LayerTake(b, potLine, cap) + Collect([c], potLine, cap);
  }

  lemma ExampleContenders()
    ensures Contenders(NoFolds, Ranks, Bets, 3) == [First, Second, Third]
  {
    assert Contenders(NoFolds, Ranks, Bets, 1) == [First];
    assert Contenders(NoFolds, Ranks, Bets, 2) == [First, Second];
  }

  lemma ExampleTiedPair()
    ensures SortBy([First, Second], ByRank) == [First, Second]
  {
    assert [First, Second][..1] == [First];
    assert [First][..0] == [];
    assert SortBy([First], ByRank) == [First];
  }

  lemma ExampleInsertLast()
    ensures Insert([First, Second], Third, ByRank) == [Third, First, Second]
  {
    assert [First, Second][..1] == [First];
    assert [First][..0] == [];
    assert Insert([], Third, ByRank) == [Third];
    assert Insert([First], Third, ByRank) == [Third, First];
  }

  /** Sorting by rank is stable: the tied seats keep their order. */
  lemma ExampleByRank()
    ensures SortBy([First, Second, Third], ByRank) == [Third, First, Second]
  {
    var s := [First, Second, Third];
    assert s[..2] == [First, Second];
    ExampleTiedPair();
    ExampleInsertLast();
    assert SortBy(s, ByRank) == Insert(SortBy(s[..2], ByRank), Third, ByRank);
  }

  lemma ExampleByBet()
    ensures SortBy([Second, First], ByBet) == [First, Second]
  {
    assert [Second, First][..1] == [Second];
    assert [Second][..0] == [];
    assert SortBy([Second], ByBet) == [Second];
    assert Insert([], First, ByBet) == [First];
  }

  /** The tie group's first layer, opened by seat 0's bet of 100, collects
      100 from each seat and splits it evenly. */
  lemma ExampleFirstLayer()
    ensures OneLayer(Bets, 0, [First, Second], 0, Empty) == AfterFirst
  {
    CollectThree(100, 300, 500, 0, 100);
    assert Collect(Bets, 0, 100) == 300;
    assert 300 / 2 == 150 && 300 % 2 == 0;
    assert AddShare([0, 0, 0], [First, Second], 0, 150) == [150, 150, 0];
  }

  /** The second layer is capped at seat 1's whole bet of 300, not at the
      200 it has above the pot line, and so collects 500 of the 600 left. */
  lemma ExampleSecondLayer()
    ensures OneLayer(Bets, 0, [First, Second], 1, AfterFirst) == AfterSecond
  {
    CollectThree(100, 300, 500, 100, 300);
    assert Collect(Bets, 100, 300) == 500;
    assert 500 / 1 == 500 && 500 % 1 == 0;
    assert AddShare([150, 150, 0], [First, Second], 1, 500) == [150, 650, 0];
  }

  /** The losing group's layer still finds the 200 of seat 2 above the pot line. */
  lemma ExampleThirdLayer()
    ensures OneLayer(Bets, 0, [Third], 0, AfterSecond) == AfterThird
  {
    CollectThree(100, 300, 500, 300, 500);
    assert Collect(Bets, 300, 500) == 200;
    assert 200 / 1 == 200 && 200 % 1 == 0;
    assert AddShare([150, 650, 0], [Third], 0, 200) == [150, 650, 200];
  }

  lemma ExampleTieFirst()
    ensures PayLayers(Bets, 0, [First, Second], 0, Empty) == PayLayers(Bets, 0, [First, Second], 1, AfterFirst)
  {
    ExampleFirstLayer();
  }

  lemma ExampleTieSecond()
    ensures PayLayers(Bets, 0, [First, Second], 1, AfterFirst) == AfterSecond
  {
    ExampleSecondLayer();
    assert PayLayers(Bets, 0, [First, Second], 1, AfterFirst) == PayLayers(Bets, 0, [First, Second], 2, AfterSecond);
  }

  lemma ExampleTieGroup()
    ensures PayGroup(Bets, 0, [Second, First], Empty) == AfterSecond
  {
    ExampleByBet();
    ExampleTieFirst();
    ExampleTieSecond();
  }

  lemma ExampleLastGroup()
    ensures PayGroup(Bets, 0, [Third], AfterSecond) == AfterThird
  {
    assert SortBy([Third], ByBet) == [Third] by {
      assert [Third][..0] == [];
    }
    ExampleThirdLayer();
    assert PayLayers(Bets, 0, [Third], 0, AfterSecond) == PayLayers(Bets, 0, [Third], 1, AfterThird);
  }

  /** The showdown opens a group with seat 1, the best rank. */
  lemma ExampleOpens()
    ensures Showdown(Bets, 0, [Third, First, Second], 3, [], Empty)
              == Showdown(Bets, 0, [Third, First, Second], 2, [Second], Empty)
  {
  }

  /** Seat 0 ties with seat 1 and joins its group. */
  lemma ExampleGathers()
    ensures Showdown(Bets, 0, [Third, First, Second], 2, [Second], Empty)
              == Showdown(Bets, 0, [Third, First, Second], 1, [Second, First], Empty)
  {
    var sorted := [Third, First, Second];
    ShowdownJoins(Bets, 0, sorted, 2, [Second], Empty);
    assert sorted[1] == First;
    assert [Second] + [First] == [Second, First];
  }

  /** Seat 2's lower rank closes the tie group, which is paid; seat 2's
      group is paid last. */
  lemma ExampleCloses()
    ensures Showdown(Bets, 0, [Third, First, Second], 1, [Second, First], Empty) == AfterThird
  {
    var sorted := [Third, First, Second];
    ShowdownNextGroup(Bets, 0, sorted, 1, [Second, First], Empty);
    ExampleTieGroup();
    assert Showdown(Bets, 0, sorted, 0, [Third], AfterSecond) == PayGroup(Bets, 0, [Third], AfterSecond);
    ExampleLastGroup();
  }

  /** The showdown walks the contenders from the best rank down: the tie
      group of seats 1 and 0 is paid when seat 2's lower rank closes it,
      then seat 2's group. */
  lemma ExampleShowdown()
    ensures Showdown(Bets, 0, [Third, First, Second], 3, [], EmptyPot(3)) == AfterThird
  {
    ExampleEmpty();
    ExampleOpens();
    ExampleGathers();
    ExampleCloses();
  }

  lemma ExampleAwards()
    ensures Awards(Bets, NoFolds, 0, 0, Ranks) == AfterThird.scores
  {
    ExampleContenders();
    ExampleByRank();
    AwardsAtShowdown(Bets, NoFolds, 0, 0, Ranks, [Third, First, Second]);
    ExampleShowdown();
  }

  lemma SumThree(a: int, b: int, c: int)
    ensures Sum([a, b, c]) == a + b + c
  {
    assert [a, b, c][1..] == [b, c];
    assert [b, c][1..] == [c];
    assert [c][1..] == [];
    assert Sum([c]) == c + Sum([]);
    assert Sum([b, c]) == b + Sum([c]);
  }

  /** The awards total 1000 although only 900 was bet: seat 1's layer takes
      500 where 400 was left above the pot line. */
  lemma SidePotOverpays()
    ensures var r := Awards(Bets, NoFolds, 0, 0, Ranks);
            && r == [150, 650, 200]
            && Sum(r) == 1000 && Sum(Bets) == 900
  {
    ExampleAwards();
    SumThree(150, 650, 200);
    SumThree(100, 300, 500);
  }
}
