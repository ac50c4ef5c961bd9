/** The seven-card hand evaluator of TexasHoldemEnv.__cards2pattern_cards__.

    The source groups the cards by point rank and by suit into dictionaries
    of lists sorted in card order (point rank, then suit rank). Here the
    seven cards are taken as a set, and each group is built by walking the
    suits 0..3 or the points 2..14 in ascending order, which yields the same
    sorted lists for seven different cards. */
module HandEvaluator {
  import opened Seqs
  import opened Cards
  import opened Outcomes

  /** The nine patterns of the evaluator, strongest first. */
  datatype Pattern =
    | StraightFlush   // "Straight_SameSuit"
    | FourOfAKind     // "4_1"
    | FullHouse       // "3_2"
    | Flush           // "SameSuit"
    | Straight        // "Straight_DiffSuit"
    | ThreeOfAKind    // "3_1_1"
    | TwoPair         // "2_2_1"
    | OnePair         // "2_1_1_1"
    | HighCard        // "1_1_1_1_1"

  /** The pattern's rank field. Only the order of these numbers matters to
      the engine; the table that holds the real values is not part of this model. */
  function Strength(p: Pattern): (r: int)
    ensures 1 <= r <= 9
  {
    match p
    case HighCard => 1
    case OnePair => 2
    case TwoPair => 3
    case ThreeOfAKind => 4
    case Straight => 5
    case Flush => 6
    case FullHouse => 7
    case FourOfAKind => 8
    case StraightFlush => 9
  }

  /** The evaluator's result: the pattern and the cards that realise it. */
  datatype Evaluation = Evaluation(pattern: Pattern, cards: seq<Card>)

  // ---------------------------------------------------------------------
  // Grouping by point rank and by suit

  /** The card of point `p` and suit `s`, when it is among the cards. */
  function Slot(h: set<Card>, p: int, s: int): seq<Card>
  {
    if Card(p, s) in h then [Card(p, s)] else []
  }

  /** `pointrank2cards[p]`: the cards of point `p`, sorted by suit. */
  function PointCards(h: set<Card>, p: int): seq<Card>
  {
    Slot(h, p, 0) + Slot(h, p, 1) + Slot(h, p, 2) + Slot(h, p, 3)
  }

  /** How many of the cards have point `p`. */
  function Count(h: set<Card>, p: int): nat
  {
    |PointCards(h, p)|
  }

  /** The cards of suit `s` with point at most `hi`, in ascending point order.
      The cards are part of the termination measure so that a call with a
      constant bound is not unfolded all the way down by the verifier. */
  function SuitCardsUpTo(h: set<Card>, s: int, hi: int): seq<Card>
    decreases hi, h
  {
    if hi < MinPoint then []
    else SuitCardsUpTo(h, s, hi - 1) + (if Card(hi, s) in h then [Card(hi, s)] else [])
  }

  /** `suitrank2cards[s]`: the cards of suit `s`, sorted. */
  function SuitCards(h: set<Card>, s: int): seq<Card>
  {
    SuitCardsUpTo(h, s, MaxPoint)
  }

  /** The points present among the cards, up to `hi`, ascending. */
  function PointsUpTo(h: set<Card>, hi: int): seq<int>
    decreases hi, h
  {
    if hi < MinPoint then []
    else PointsUpTo(h, hi - 1) + (if Count(h, hi) > 0 then [hi] else [])
  }

  /** `sorted_point`. */
  function SortedPoints(h: set<Card>): seq<int>
  {
    PointsUpTo(h, MaxPoint)
  }

  /** The points held exactly `k` times, up to `hi`, ascending. */
  function PointsWithCountUpTo(h: set<Card>, k: nat, hi: int): seq<int>
    decreases hi, h
  {
    if hi < MinPoint then []
    else PointsWithCountUpTo(h, k, hi - 1) + (if Count(h, hi) == k then [hi] else [])
  }

  /** `num2point[k]`. The source sorts only one of these lists (the one
      indexed by the count left over from the grouping loop); this model
      takes every list in ascending order, which is what that sort intends. */
  function PointsWithCount(h: set<Card>, k: nat): seq<int>
  {
    PointsWithCountUpTo(h, k, MaxPoint)
  }

  // ---------------------------------------------------------------------
  // Straight scans

  /** `cs[k..k+len]` is a run of consecutive points: each card's point is
      the first one's plus its distance from it. */
  ghost predicate Chain(cs: seq<Card>, k: int, len: int)
  {
    && 0 <= k
    && k + len <= |cs|
    && forall j :: k <= j < k + len ==> cs[j].point == cs[k].point + (j - k)
  }

  /** Five cards starting at index `k` with consecutive points. */
  ghost predicate Run5(cs: seq<Card>, k: int)
  {
    Chain(cs, k, 5)
  }

  /** The same-suit straight scan: from index `i` downwards, `run` counts the
      consecutive points starting at `i + 1`; the first index at which the
      count reaches five is returned. */
  function StraightScan(cs: seq<Card>, i: int, run: int): (r: Option<int>)
    requires -1 <= i && 1 <= run <= 4 && i + 1 + run <= |cs|
    requires Chain(cs, i + 1, run)
    ensures r.Some? ==> 0 <= r.value <= i && Run5(cs, r.value)
    decreases i + 1
  {
    if i < 0 then None
    else
      var run' := if cs[i].point == cs[i + 1].point - 1 then run + 1 else 1;
      if run' == 5 then Some(i) else StraightScan(cs, i - 1, run')
  }

  /** Visits suits `s`, `s+1`, ...; for the first suit holding five or more
      cards whose scan finds a run, returns those five cards. */
  function SameSuitStraight(h: set<Card>, s: int): (r: Option<seq<Card>>)
    ensures r.Some? ==> |r.value| == 5
    decreases NumSuits - s
  {
    if s >= NumSuits then None
    else
      var cs := SuitCards(h, s);
      if |cs| >= 5 then
        match StraightScan(cs, |cs| - 2, 1)
        case Some(i) => Some(cs[i..i + 5])
        case None => SameSuitStraight(h, s + 1)
      else SameSuitStraight(h, s + 1)
  }

  /** The first suit from `s` on holding five or more cards, with its top five. */
  function FlushCards(h: set<Card>, s: int): (r: Option<seq<Card>>)
    ensures r.Some? ==> |r.value| == 5
    decreases NumSuits - s
  {
    if s >= NumSuits then None
    else
      var cs := SuitCards(h, s);
      if |cs| >= 5 then Some(cs[|cs| - 5..]) else FlushCards(h, s + 1)
  }

  /** The different-suit straight scan exactly as the source writes it: its
      test compares a point with itself plus one, so it never holds, the run
      count never leaves one, and no plain straight is ever reported. */
  function DiffSuitScan(sp: seq<int>, idx: int, run: int): (r: Option<int>)
    requires idx < |sp|
    ensures r == None
    decreases idx + 1
  {
    if idx < 0 then None
    else
      var run' := if sp[idx] + 1 == sp[idx] then run + 1 else 1;
      if run' == 5 then Some(idx) else DiffSuitScan(sp, idx - 1, run')
  }

  // ---------------------------------------------------------------------
  // Collecting kickers

  /** Walks `sp` from its highest point down and, for each point outside
      `x`, appends the lowest-suit card of that point, stopping once `k`
      cards have been appended. */
  function OthersCards(h: set<Card>, sp: seq<int>, x: set<int>, k: nat): (r: seq<Card>)
    ensures |r| <= k
    decreases |sp|
  {
    if |sp| == 0 || k == 0 then []
    else
      var p := sp[|sp| - 1];
      if p !in x then Take(PointCards(h, p), 1) + OthersCards(h, sp[..|sp| - 1], x, k - 1)
      else OthersCards(h, sp[..|sp| - 1], x, k)
  }

  /** All cards, highest point first; within a point, in suit order. */
  function RankCardsDesc(h: set<Card>, sp: seq<int>): seq<Card>
    decreases |sp|
  {
    if |sp| == 0 then []
    else PointCards(h, sp[|sp| - 1]) + RankCardsDesc(h, sp[..|sp| - 1])
  }

  /** The first card of each point of `pts`, as the plain-straight branch collects them. */
  function FirstCards(h: set<Card>, pts: seq<int>): seq<Card>
    decreases |pts|
  {
    if |pts| == 0 then [] else Take(PointCards(h, pts[0]), 1) + FirstCards(h, pts[1..])
  }

  /** The five cards the plain-straight branch would return for a scan result. */
  function StraightCards(h: set<Card>, sp: seq<int>, scan: Option<int>): seq<Card>
  {
    match scan
    case Some(idx) => if idx < 0 then [] else FirstCards(h, Slice(sp, idx, idx + 5))
    case None => []
  }

  // ---------------------------------------------------------------------
  // The evaluator

  /** `__cards2pattern_cards__` on the set of the seven cards: the patterns
      are tried strongest first and the first that applies is returned. */
  function EvaluateSet(h: set<Card>): (e: Evaluation)
    ensures e.pattern != Straight
  {
    var sp := SortedPoints(h);
    var n4 := PointsWithCount(h, 4);
    var n3 := PointsWithCount(h, 3);
    var n2 := PointsWithCount(h, 2);
    var sf := SameSuitStraight(h, 0);
    var fl := FlushCards(h, 0);
    var straight := DiffSuitScan(sp, |sp| - 2, 1);
    if sf.Some? then
      Evaluation(StraightFlush, sf.value)
    else if |n4| > 0 then
      Evaluation(FourOfAKind, Take(PointCards(h, n4[0]), 4) + OthersCards(h, sp, {n4[0]}, 1))
    else if |n3| == 2 then
      // the higher three of a kind, then two cards of the lower one
      Evaluation(FullHouse, Take(PointCards(h, n3[1]), 3) + Take(PointCards(h, n3[0]), 2))
    else if |n3| >= 1 && |n2| >= 1 then
      // the three of a kind and the highest pair
      Evaluation(FullHouse, Take(PointCards(h, n3[0]), 3) + Take(PointCards(h, n2[|n2| - 1]), 2))
    else if fl.Some? then
      Evaluation(Flush, fl.value)
    else if straight.Some? then
      Evaluation(Straight, StraightCards(h, sp, straight))
    else if |n3| == 1 then
      Evaluation(ThreeOfAKind, Take(PointCards(h, n3[0]), 3) + OthersCards(h, sp, {n3[0]}, 2))
    else if |n2| >= 2 then
      var p21 := n2[|n2| - 1];
      var p22 := n2[|n2| - 2];
      Evaluation(TwoPair, PointCards(h, p21) + PointCards(h, p22) + OthersCards(h, sp, {p21, p22}, 1))
    else if |n2| == 1 then
      // the source's kicker counter is never incremented, so every other
      // point is appended: a limit of |sp| never cuts the walk short
      Evaluation(OnePair, Take(PointCards(h, n2[0]), 2) + OthersCards(h, sp, {n2[0]}, |sp|))
    else
      Evaluation(HighCard, Take(RankCardsDesc(h, sp), 5))
  }

  /** `__cards2pattern_cards__(hand_cards, remaining_cards)`. */
  function Evaluate(hand: seq<Card>, board: seq<Card>): (e: Evaluation)
    ensures e.pattern != Straight
  {
    EvaluateSet(SetOf(hand + board))
  }
}
