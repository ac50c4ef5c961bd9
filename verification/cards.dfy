/** Playing cards as the engine sees them: a point rank and a suit rank. */
module Cards {
  import opened Seqs

  /** Point ranks run from 2 to 14 (the Ace); suits from 0 to 3. */
  const MinPoint: int := 2
  const MaxPoint: int := 14
  const NumSuits: int := 4

  datatype Card = Card(point: int, suit: int)

  predicate ValidCard(c: Card)
  {
    MinPoint <= c.point <= MaxPoint && 0 <= c.suit < NumSuits
  }

  predicate ValidCards(s: seq<Card>)
  {
    forall i :: 0 <= i < |s| ==> ValidCard(s[i])
  }

  ghost predicate ValidSet(h: set<Card>)
  {
    forall c :: c in h ==> ValidCard(c)
  }

  /** Seven different cards of the deck: a seat's two hole cards and the five board cards. */
  ghost predicate ValidSeven(s: seq<Card>)
  {
    |s| == 7 && ValidCards(s) && Distinct(s)
  }

  lemma SevenCardSet(s: seq<Card>)
    requires ValidSeven(s)
    ensures |SetOf(s)| == 7 && ValidSet(SetOf(s))
  {
    DistinctCardinality(s);
  }
}
