/** The comparator of the evaluator's results: `__compute_rank_pattern_cards__`
    packs the pattern strength and the points of the first five selected
    cards into one integer, base 1000, and `__compare_patterns_cards__`
    subtracts two such integers. */
module Ranking {
  import opened Cards
  import opened HandEvaluator

  /** Horner evaluation base 1000: starting from `acc`, each digit in turn
      is appended as the new lowest digit. */
  function Horner(acc: int, ds: seq<int>): (r: int)
    decreases |ds|
  {
    if |ds| == 0 then acc else Horner(acc * 1000 + ds[0], ds[1..])
  }

  /** The points of the first five selected cards; the rest are never read. */
  function FivePoints(cards: seq<Card>): (r: seq<int>)
    requires |cards| >= 5
    ensures |r| == 5
    ensures forall i :: 0 <= i < 5 ==> r[i] == cards[i].point
  {
    [cards[0].point, cards[1].point, cards[2].point, cards[3].point, cards[4].point]
  }

  /** `__compute_rank_pattern_cards__`: the strength times 1000, then five
      more base-1000 digits. */
  function Rank(e: Evaluation): (r: int)
    requires |e.cards| >= 5
  {
    Horner(Strength(e.pattern) * 1000, FivePoints(e.cards))
  }

  /** `__compare_patterns_cards__`. */
  function Compare(a: Evaluation, b: Evaluation): (r: int)
    requires |a.cards| >= 5 && |b.cards| >= 5
  {
    Rank(a) - Rank(b)
  }

  /** Every entry is a base-1000 digit. */
  ghost predicate Digits(ds: seq<int>)
  {
    forall i :: 0 <= i < |ds| ==> 0 <= ds[i] < 1000
  }

  /** Strict lexicographic order on sequences of equal length. */
  ghost predicate LexLess(ds: seq<int>, es: seq<int>)
    decreases |ds|
  {
    && |ds| > 0
    && |es| > 0
    && (ds[0] < es[0] || (ds[0] == es[0] && LexLess(ds[1..], es[1..])))
  }

  /** The sort key the rank encodes: the strength, then the five points. */
  function Key(e: Evaluation): (k: seq<int>)
    requires |e.cards| >= 5
    ensures |k| == 6 && k[0] == Strength(e.pattern)
    ensures forall i :: 0 <= i < 5 ==> k[i + 1] == e.cards[i].point
  {
    [Strength(e.pattern)] + FivePoints(e.cards)
  }

  /** Horner encodings with the same number of digits compare as their
      leading values and then their digits, lexicographically. */
  lemma {:induction false} HornerOrder(a: int, b: int, ds: seq<int>, es: seq<int>)
    requires |ds| == |es| && Digits(ds) && Digits(es)
    ensures Horner(a, ds) < Horner(b, es) <==> a < b || (a == b && LexLess(ds, es))
    ensures Horner(a, ds) == Horner(b, es) <==> a == b && ds == es
    decreases |ds|
  {
    if |ds| > 0 {
      HornerOrder(a * 1000 + ds[0], b * 1000 + es[0], ds[1..], es[1..]);
      if ds[1..] == es[1..] && ds[0] == es[0] {
        assert ds == es;
      }
    }
  }

  /** The card points of an evaluation are base-1000 digits. */
  ghost predicate SmallPoints(e: Evaluation)
  {
    forall i :: 0 <= i < |e.cards| ==> 0 <= e.cards[i].point < 1000
  }

  /** The comparator orders evaluations lexicographically by
      (strength, five selected points): negative exactly when the first key
      is smaller, zero exactly when the keys are equal. */
  lemma CompareIsLexicographic(a: Evaluation, b: Evaluation)
    requires |a.cards| >= 5 && |b.cards| >= 5
    requires SmallPoints(a) && SmallPoints(b)
    ensures Compare(a, b) < 0 <==> LexLess(Key(a), Key(b))
    ensures Compare(a, b) == 0 <==> Key(a) == Key(b)
  {
    var da := FivePoints(a.cards);
    var db := FivePoints(b.cards);
    HornerOrder(Strength(a.pattern) * 1000, Strength(b.pattern) * 1000, da, db);
    assert Key(a)[1..] == da && Key(b)[1..] == db;
    if Key(a) == Key(b) {
      assert da == db;
    }
  }

  /** Valid cards have small points, so the lexicographic reading applies
      to every evaluation of real cards. */
  lemma ValidCardsSmall(e: Evaluation)
    requires ValidCards(e.cards)
    ensures SmallPoints(e)
  {
  }
}
