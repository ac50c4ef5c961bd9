/** Settling the pot (`compute_scores`): the fold-win, and at showdown the
    tie groups from the best hand down, each paid in side-pot layers. */
module Settlement {
  import opened Seqs

  /** A seat still in the hand at the end: its seat number, the rank of its
      best five cards and its total bet. */
  datatype Contender = Contender(seat: nat, rank: int, bet: int)

  // ---------------------------------------------------------------------
  // Python's stable sort

  /** The two sort keys the settlement uses: the hand rank and the bet. */
  datatype SortKey = ByRank | ByBet

  function KeyOf(c: Contender, k: SortKey): int
  {
    match k
    case ByRank => c.rank
    case ByBet => c.bet
  }

  predicate SortedBy(s: seq<Contender>, k: SortKey)
  {
    forall i, j :: 0 <= i < j < |s| ==> KeyOf(s[i], k) <= KeyOf(s[j], k)
  }

  /** The elements whose key is `v`, in their order in `s`. */
  function WithKey(s: seq<Contender>, k: SortKey, v: int): seq<Contender>
  {
    if |s| == 0 then []
    else WithKey(s[..|s| - 1], k, v) + (if KeyOf(s[|s| - 1], k) == v then [s[|s| - 1]] else [])
  }

  /** Places `x` after every element of the sorted `s` whose key does not exceed its own. */
  function Insert(s: seq<Contender>, x: Contender, k: SortKey): (r: seq<Contender>)
    requires SortedBy(s, k)
    ensures SortedBy(r, k) && multiset(r) == multiset(s) + multiset{x} && |r| == |s| + 1
  {
    if |s| == 0 || KeyOf(s[|s| - 1], k) <= KeyOf(x, k) then s + [x]
    else
      var init := s[..|s| - 1];
      var last := s[|s| - 1];
      var r := Insert(init, x, k);
      InsertBelow(s, x, k, r);
      assert s == init + [last];
      r + [last]
  }

  /** Everything `Insert` places before the last element of `s` keys at most as high. */
  lemma InsertBelow(s: seq<Contender>, x: Contender, k: SortKey, r: seq<Contender>)
    requires SortedBy(s, k) && |s| > 0 && KeyOf(x, k) < KeyOf(s[|s| - 1], k)
    requires SortedBy(r, k) && multiset(r) == multiset(s[..|s| - 1]) + multiset{x}
    ensures SortedBy(r + [s[|s| - 1]], k)
  {
    var last := s[|s| - 1];
    forall i | 0 <= i < |r|
      ensures KeyOf(r[i], k) <= KeyOf(last, k)
    {
      assert r[i] in multiset(r);
      if r[i] != x {
        assert r[i] in multiset(s[..|s| - 1]);
        var j :| 0 <= j < |s| - 1 && s[..|s| - 1][j] == r[i];
        assert s[j] == r[i];
      }
    }
  }

  /** `list.sort(key=...)`: sorted by the key, a permutation of the input. */
  function SortBy(s: seq<Contender>, k: SortKey): (r: seq<Contender>)
    ensures SortedBy(r, k) && multiset(r) == multiset(s) && |r| == |s|
  {
    if |s| == 0 then []
    else
      assert s == s[..|s| - 1] + [s[|s| - 1]];
      Insert(SortBy(s[..|s| - 1], k), s[|s| - 1], k)
  }

  lemma WithKeyAppend(s: seq<Contender>, x: Contender, k: SortKey, v: int)
    ensures WithKey(s + [x], k, v) == WithKey(s, k, v) + (if KeyOf(x, k) == v then [x] else [])
  {
    assert (s + [x])[..|s|] == s;
  }

  lemma {:induction false} InsertWithKey(s: seq<Contender>, x: Contender, k: SortKey, v: int)
    requires SortedBy(s, k)
    decreases |s|
    ensures WithKey(Insert(s, x, k), k, v) == WithKey(s, k, v) + (if KeyOf(x, k) == v then [x] else [])
  {
    if |s| == 0 || KeyOf(s[|s| - 1], k) <= KeyOf(x, k) {
      WithKeyAppend(s, x, k, v);
    } else {
      var init := s[..|s| - 1];
      var last := s[|s| - 1];
      assert s == init + [last];
      var r := Insert(init, x, k);
      assert Insert(s, x, k) == r + [last];
      InsertWithKey(init, x, k, v);
      AppendLarger(init, r, x, last, k, v);
    }
  }

  /** Appending an element whose key exceeds that of `x` commutes with having added `x`. */
  lemma AppendLarger(init: seq<Contender>, r: seq<Contender>, x: Contender, last: Contender, k: SortKey, v: int)
    requires KeyOf(x, k) < KeyOf(last, k)
    requires WithKey(r, k, v) == WithKey(init, k, v) + (if KeyOf(x, k) == v then [x] else [])
    ensures WithKey(r + [last], k, v) == WithKey(init + [last], k, v) + (if KeyOf(x, k) == v then [x] else [])
  {
    WithKeyAppend(r, last, k, v);
    WithKeyAppend(init, last, k, v);
  }

  /** The sort is stable: the elements with any one key keep their order. */
  lemma {:induction false} SortByStable(s: seq<Contender>, k: SortKey, v: int)
    ensures WithKey(SortBy(s, k), k, v) == WithKey(s, k, v)
  {
    if |s| > 0 {
      var init := s[..|s| - 1];
      SortByStable(init, k, v);
      InsertWithKey(SortBy(init, k), s[|s| - 1], k, v);
      assert s == init + [s[|s| - 1]];
      WithKeyAppend(init, s[|s| - 1], k, v);
    }
  }

  // ---------------------------------------------------------------------
  // Side-pot layers

  /** The seats and awards while the pot is paid out, and `pot_line`, the
      bet level up to which the pot has been paid. */
  datatype Pot = Pot(scores: seq<int>, potLine: int)

  /** No award yet, and the pot line at zero. */
  function EmptyPot(n: nat): (p: Pot)
    ensures |p.scores| == n && p.potLine == 0 && forall i :: 0 <= i < n ==> p.scores[i] == 0
  {
    Pot(seq(n, _ => 0), 0)
  }

  predicate SeatsBelow(g: seq<Contender>, n: nat)
  {
    forall p :: 0 <= p < |g| ==> g[p].seat < n
  }

  predicate SeatsIn(g: seq<Contender>, allowed: set<nat>)
  {
    forall p :: 0 <= p < |g| ==> g[p].seat in allowed
  }

  predicate DistinctSeats(g: seq<Contender>)
  {
    forall p, q :: 0 <= p < q < |g| ==> g[p].seat != g[q].seat
  }

  predicate NonNegative(s: seq<int>)
  {
    forall i :: 0 <= i < |s| ==> s[i] >= 0
  }

  /** What one seat's bet contributes to a layer: its part above the pot
      line, clamped at the bet `cap` of the member who opens the layer. */
  function LayerTake(bet: int, potLine: int, cap: int): (r: int)
  {
    Min(Max(0, bet - potLine), cap)
  }

  /** `sum1`: the layer's contributions from every seat, folded or not. */
  function Collect(bets: seq<int>, potLine: int, cap: int): (r: int)
    ensures cap >= 0 ==> r >= 0
    ensures (forall i :: 0 <= i < |bets| ==> bets[i] <= potLine) && cap >= 0 ==> r == 0
  {
    if |bets| == 0 then 0 else LayerTake(bets[0], potLine, cap) + Collect(bets[1..], potLine, cap)
  }

  /** Adds `share` to the award of every member of `g` from position `k` on. */
  function AddShare(scores: seq<int>, g: seq<Contender>, k: nat, share: int): (r: seq<int>)
    requires k <= |g| && SeatsBelow(g, |scores|)
    decreases |g| - k
    ensures |r| == |scores|
    ensures forall s :: 0 <= s < |scores| && (forall p :: k <= p < |g| ==> g[p].seat != s) ==> r[s] == scores[s]
    ensures share >= 0 ==> forall s :: 0 <= s < |scores| ==> r[s] >= scores[s]
  {
    if k == |g| then scores
    else
      var s := g[k].seat;
      AddShare(scores[s := scores[s] + share], g, k + 1, share)
  }

  /** `n` equal shares added up one at a time. */
  function Shares(n: nat, share: int): int
  {
    if n == 0 then 0 else share + Shares(n - 1, share)
  }

  /** `n` shares make `n` times the share. */
  lemma {:induction false} SharesProduct(n: nat, share: int)
    ensures Shares(n, share) == n * share
  {
    if n > 0 {
      SharesProduct(n - 1, share);
    }
  }

  /** Every member from `k` on gets the share once, so the awards grow by
      one share per member. */
  lemma {:induction false} AddShareSum(scores: seq<int>, g: seq<Contender>, k: nat, share: int)
    requires k <= |g| && SeatsBelow(g, |scores|)
    decreases |g| - k
    ensures Sum(AddShare(scores, g, k, share)) == Sum(scores) + Shares(|g| - k, share)
  {
    if k < |g| {
      var s := g[k].seat;
      var next := scores[s := scores[s] + share];
      SumUpdate(scores, s, share);
      AddShareSum(next, g, k + 1, share);
    }
  }

  /** One pass of the inner loop over a tie group sorted by bet: the layer
      opened by member `k` collects `sum1`, every member from `k` on gets
      `sum1 / num1`, the dealer seat gets the remainder, and the pot line
      rises to the opener's bet if that is higher. */
  function OneLayer(bets: seq<int>, dealer: nat, g: seq<Contender>, k: nat, pot: Pot): (r: Pot)
    requires k < |g| && SeatsBelow(g, |bets|) && dealer < |bets| && |pot.scores| == |bets|
    ensures |r.scores| == |bets|
  {
    var num1 := |g| - k;
    var cap := bets[g[k].seat];
    var sum1 := Collect(bets, pot.potLine, cap);
    Pot(SplitLayer(pot.scores, g, k, sum1 / num1, sum1 % num1, dealer), if pot.potLine <= cap then cap else pot.potLine)
  }

  /** Adds `share` to the award of every member of `g` from `k` on, and
      `rem` to the dealer seat's. */
  function SplitLayer(scores: seq<int>, g: seq<Contender>, k: nat, share: int, rem: int, dealer: nat): (r: seq<int>)
    requires k <= |g| && SeatsBelow(g, |scores|) && dealer < |scores|
    ensures |r| == |scores|
  {
    var shared := AddShare(scores, g, k, share);
    shared[dealer := shared[dealer] + rem]
  }

  /** A layer pays out exactly what it collects, and only to the members
      from `k` on and the dealer seat; the pot line never falls and ends at
      least at the opener's bet. */
  lemma OneLayerPays(bets: seq<int>, dealer: nat, g: seq<Contender>, k: nat, pot: Pot)
    requires k < |g| && SeatsBelow(g, |bets|) && dealer < |bets| && |pot.scores| == |bets|
    ensures var r := OneLayer(bets, dealer, g, k, pot);
            var cap := bets[g[k].seat];
            && Sum(r.scores) == Sum(pot.scores) + Collect(bets, pot.potLine, cap)
            && r.potLine == Max(pot.potLine, cap)
            && (forall s :: 0 <= s < |bets| && s != dealer && (forall p :: k <= p < |g| ==> g[p].seat != s) ==>
                  r.scores[s] == pot.scores[s])
  {
    OneLayerSum(bets, dealer, g, k, pot);
  }

  /** The shares and the remainder add up to the layer's collection. */
  lemma OneLayerSum(bets: seq<int>, dealer: nat, g: seq<Contender>, k: nat, pot: Pot)
    requires k < |g| && SeatsBelow(g, |bets|) && dealer < |bets| && |pot.scores| == |bets|
    ensures Sum(OneLayer(bets, dealer, g, k, pot).scores) == Sum(pot.scores) + Collect(bets, pot.potLine, bets[g[k].seat])
  {
    SplitWhole(pot.scores, g, k, Collect(bets, pot.potLine, bets[g[k].seat]), dealer);
  }

  /** Splitting an amount among the members from `k` on, the remainder to
      the dealer seat, adds exactly that amount to the awards. */
  lemma SplitWhole(scores: seq<int>, g: seq<Contender>, k: nat, sum1: int, dealer: nat)
    requires k < |g| && SeatsBelow(g, |scores|) && dealer < |scores|
    ensures Sum(SplitLayer(scores, g, k, sum1 / (|g| - k), sum1 % (|g| - k), dealer)) == Sum(scores) + sum1
  {
    SplitLayerSum(scores, g, k, sum1 / (|g| - k), sum1 % (|g| - k), dealer);
    SplitBack(sum1, |g| - k);
  }

  /** The whole shares and the remainder make up what was split. */
  lemma SplitBack(sum1: int, num1: nat)
    requires num1 > 0
    ensures Shares(num1, sum1 / num1) + sum1 % num1 == sum1
  {
    SharesProduct(num1, sum1 / num1);
    DivMod(sum1, num1);
  }

  /** A split adds every member's share and the remainder to the awards. */
  lemma SplitLayerSum(scores: seq<int>, g: seq<Contender>, k: nat, share: int, rem: int, dealer: nat)
    requires k <= |g| && SeatsBelow(g, |scores|) && dealer < |scores|
    ensures Sum(SplitLayer(scores, g, k, share, rem, dealer)) == Sum(scores) + Shares(|g| - k, share) + rem
  {
    AddShareSum(scores, g, k, share);
    SumUpdate(AddShare(scores, g, k, share), dealer, rem);
  }

  lemma DivOne(a: int)
    ensures a / 1 == a && a % 1 == 0
  {
  }

  lemma DivMod(a: int, d: int)
    requires d > 0
    ensures a == d * (a / d) + a % d
  {
  }

  /** With distinct seats, each member of the layer gets `sum1 / num1`, and
      the dealer seat `sum1 % num1` on top. */
  lemma OneLayerShare(bets: seq<int>, dealer: nat, g: seq<Contender>, k: nat, pot: Pot, p: nat)
    requires k <= p < |g| && SeatsBelow(g, |bets|) && DistinctSeats(g) && dealer < |bets| && |pot.scores| == |bets|
    ensures var r := OneLayer(bets, dealer, g, k, pot);
            var sum1 := Collect(bets, pot.potLine, bets[g[k].seat]);
            var s := g[p].seat;
            r.scores[s] == pot.scores[s] + sum1 / (|g| - k) + (if s == dealer then sum1 % (|g| - k) else 0)
  {
    var sum1 := Collect(bets, pot.potLine, bets[g[k].seat]);
    AddShareAt(pot.scores, g, k, sum1 / (|g| - k), p);
  }

  lemma {:induction false} AddShareAt(scores: seq<int>, g: seq<Contender>, k: nat, share: int, p: nat)
    requires k <= p < |g| && SeatsBelow(g, |scores|) && DistinctSeats(g)
    decreases |g| - k
    ensures AddShare(scores, g, k, share)[g[p].seat] == scores[g[p].seat] + share
  {
    var s := g[k].seat;
    var next := scores[s := scores[s] + share];
    assert AddShare(scores, g, k, share) == AddShare(next, g, k + 1, share);
    if p > k {
      AddShareAt(next, g, k + 1, share, p);
      assert g[p].seat != s;
    } else {
      assert forall q :: k + 1 <= q < |g| ==> g[q].seat != s;
    }
  }

  /** The layers of one tie group, members `k` onwards. */
  function PayLayers(bets: seq<int>, dealer: nat, g: seq<Contender>, k: nat, pot: Pot): (r: Pot)
    requires k <= |g| && SeatsBelow(g, |bets|) && dealer < |bets| && |pot.scores| == |bets|
    decreases |g| - k
    ensures |r.scores| == |bets|
  {
    if k == |g| then pot else PayLayers(bets, dealer, g, k + 1, OneLayer(bets, dealer, g, k, pot))
  }

  /** A tie group is sorted by bet, then paid layer by layer. */
  function PayGroup(bets: seq<int>, dealer: nat, tmp: seq<Contender>, pot: Pot): (r: Pot)
    requires SeatsBelow(tmp, |bets|) && dealer < |bets| && |pot.scores| == |bets|
    ensures |r.scores| == |bets|
  {
    var g := SortBy(tmp, ByBet);
    SortedSeatsBelow(tmp, g, |bets|);
    PayLayers(bets, dealer, g, 0, pot)
  }

  lemma SortedSeatsBelow(tmp: seq<Contender>, g: seq<Contender>, n: nat)
    requires SeatsBelow(tmp, n) && multiset(g) == multiset(tmp)
    ensures SeatsBelow(g, n)
  {
    forall p | 0 <= p < |g|
      ensures g[p].seat < n
    {
      assert g[p] in multiset(tmp);
    }
  }

  /** The showdown walk over the contenders sorted by rank, from the best
      down: `sorted[..i]` is still to visit and `tmp` is the current tie
      group; a contender whose rank differs from the last one visited closes
      the group, which is then paid. */
  function Showdown(bets: seq<int>, dealer: nat, sorted: seq<Contender>, i: nat, tmp: seq<Contender>, pot: Pot): (r: Pot)
    requires i <= |sorted| && SeatsBelow(sorted, |bets|) && SeatsBelow(tmp, |bets|)
    requires dealer < |bets| && |pot.scores| == |bets|
    decreases i
    ensures |r.scores| == |bets|
  {
    if i == 0 then
      if |tmp| > 0 then PayGroup(bets, dealer, tmp, pot) else pot
    else
      var c := sorted[i - 1];
      if |tmp| == 0 then Showdown(bets, dealer, sorted, i - 1, [c], pot)
      else if c.rank == tmp[|tmp| - 1].rank then Showdown(bets, dealer, sorted, i - 1, tmp + [c], pot)
      else Showdown(bets, dealer, sorted, i - 1, [c], PayGroup(bets, dealer, tmp, pot))
  }

  // ---------------------------------------------------------------------
  // Who is paid

  /** From `before` to `after` only members of `allowed` and the dealer seat
      were paid; with non-negative bets nobody's award shrank; and the pot
      line did not fall. */
  ghost predicate PaysOnly(bets: seq<int>, dealer: nat, allowed: set<nat>, before: Pot, after: Pot)
    requires |before.scores| == |bets| && |after.scores| == |bets|
  {
    && (forall s :: 0 <= s < |bets| && s != dealer && s !in allowed ==> after.scores[s] == before.scores[s])
    && (NonNegative(bets) ==> forall s :: 0 <= s < |bets| ==> after.scores[s] >= before.scores[s])
    && after.potLine >= before.potLine
  }

  lemma PaysOnlyTrans(bets: seq<int>, dealer: nat, allowed: set<nat>, a: Pot, b: Pot, c: Pot)
    requires |a.scores| == |bets| && |b.scores| == |bets| && |c.scores| == |bets|
    requires PaysOnly(bets, dealer, allowed, a, b) && PaysOnly(bets, dealer, allowed, b, c)
    ensures PaysOnly(bets, dealer, allowed, a, c)
  {
  }

  /** The layers of a tie group pay only its members and the dealer seat. */
  lemma {:induction false} PayLayersFacts(bets: seq<int>, dealer: nat, g: seq<Contender>, k: nat, pot: Pot, allowed: set<nat>)
    requires k <= |g| && SeatsBelow(g, |bets|) && dealer < |bets| && |pot.scores| == |bets| && SeatsIn(g, allowed)
    decreases |g| - k
    ensures PaysOnly(bets, dealer, allowed, pot, PayLayers(bets, dealer, g, k, pot))
  {
    if k < |g| {
      var next := OneLayer(bets, dealer, g, k, pot);
      OneLayerPaysOnly(bets, dealer, g, k, pot, allowed);
      PayLayersFacts(bets, dealer, g, k + 1, next, allowed);
      PaysOnlyTrans(bets, dealer, allowed, pot, next, PayLayers(bets, dealer, g, k + 1, next));
    }
  }

  /** A layer pays only the group's members and the dealer seat. */
  lemma OneLayerPaysOnly(bets: seq<int>, dealer: nat, g: seq<Contender>, k: nat, pot: Pot, allowed: set<nat>)
    requires k < |g| && SeatsBelow(g, |bets|) && dealer < |bets| && |pot.scores| == |bets| && SeatsIn(g, allowed)
    ensures PaysOnly(bets, dealer, allowed, pot, OneLayer(bets, dealer, g, k, pot))
  {
    OneLayerPays(bets, dealer, g, k, pot);
    if NonNegative(bets) {
      OneLayerGrows(bets, dealer, g, k, pot);
    }
  }

  lemma OneLayerGrows(bets: seq<int>, dealer: nat, g: seq<Contender>, k: nat, pot: Pot)
    requires k < |g| && SeatsBelow(g, |bets|) && dealer < |bets| && |pot.scores| == |bets| && NonNegative(bets)
    ensures forall s :: 0 <= s < |bets| ==> OneLayer(bets, dealer, g, k, pot).scores[s] >= pot.scores[s]
  {
    var num1 := |g| - k;
    var sum1 := Collect(bets, pot.potLine, bets[g[k].seat]);
    assert sum1 / num1 >= 0;
  }

  lemma PayGroupFacts(bets: seq<int>, dealer: nat, tmp: seq<Contender>, pot: Pot, allowed: set<nat>)
    requires SeatsBelow(tmp, |bets|) && dealer < |bets| && |pot.scores| == |bets| && SeatsIn(tmp, allowed)
    ensures PaysOnly(bets, dealer, allowed, pot, PayGroup(bets, dealer, tmp, pot))
  {
    var g := SortBy(tmp, ByBet);
    SortedSeatsBelow(tmp, g, |bets|);
    forall p | 0 <= p < |g|
      ensures g[p].seat in allowed
    {
      assert g[p] in multiset(tmp);
    }
    PayLayersFacts(bets, dealer, g, 0, pot, allowed);
  }

  /** The showdown pays only seats in `allowed`, which holds every seat still
      to be visited and every member of the open tie group, and the dealer seat. */
  lemma {:induction false} ShowdownFacts(bets: seq<int>, dealer: nat, sorted: seq<Contender>, i: nat, tmp: seq<Contender>, pot: Pot, allowed: set<nat>)
    requires i <= |sorted| && SeatsBelow(sorted, |bets|) && SeatsBelow(tmp, |bets|)
    requires dealer < |bets| && |pot.scores| == |bets|
    requires SeatsIn(sorted, allowed) && SeatsIn(tmp, allowed)
    decreases i, 1
    ensures PaysOnly(bets, dealer, allowed, pot, Showdown(bets, dealer, sorted, i, tmp, pot))
  {
    if i == 0 {
      if |tmp| > 0 {
        PayGroupFacts(bets, dealer, tmp, pot, allowed);
      }
    } else {
      var c := sorted[i - 1];
      var r := Showdown(bets, dealer, sorted, i, tmp, pot);
      if |tmp| == 0 {
        assert r == Showdown(bets, dealer, sorted, i - 1, [c], pot);
        ShowdownFacts(bets, dealer, sorted, i - 1, [c], pot, allowed);
      } else if c.rank == tmp[|tmp| - 1].rank {
        assert SeatsIn(tmp + [c], allowed);
        assert r == Showdown(bets, dealer, sorted, i - 1, tmp + [c], pot);
        ShowdownFacts(bets, dealer, sorted, i - 1, tmp + [c], pot, allowed);
      } else {
        ShowdownCloses(bets, dealer, sorted, i, tmp, pot, allowed);
      }
    }
  }

  /** The step of the showdown walk that closes a tie group and pays it. */
  lemma {:induction false} ShowdownCloses(bets: seq<int>, dealer: nat, sorted: seq<Contender>, i: nat, tmp: seq<Contender>, pot: Pot, allowed: set<nat>)
    requires 0 < i <= |sorted| && SeatsBelow(sorted, |bets|) && SeatsBelow(tmp, |bets|)
    requires dealer < |bets| && |pot.scores| == |bets|
    requires SeatsIn(sorted, allowed) && SeatsIn(tmp, allowed)
    requires |tmp| > 0 && sorted[i - 1].rank != tmp[|tmp| - 1].rank
    decreases i, 0
    ensures PaysOnly(bets, dealer, allowed, pot, Showdown(bets, dealer, sorted, i, tmp, pot))
  {
    var c := sorted[i - 1];
    var paid := PayGroup(bets, dealer, tmp, pot);
    var r := Showdown(bets, dealer, sorted, i - 1, [c], paid);
    assert Showdown(bets, dealer, sorted, i, tmp, pot) == r;
    PayGroupFacts(bets, dealer, tmp, pot, allowed);
    ShowdownFacts(bets, dealer, sorted, i - 1, [c], paid, allowed);
    PaysOnlyTrans(bets, dealer, allowed, pot, paid, r);
  }

  // ---------------------------------------------------------------------
  // compute_scores

  /** The seats among the first `m` that have not folded, in seat order,
      with their ranks and bets. */
  function Contenders(isFold: seq<bool>, ranks: seq<int>, bets: seq<int>, m: nat): (r: seq<Contender>)
    requires m <= |isFold| && |ranks| == |isFold| && |bets| == |isFold|
    ensures forall p :: 0 <= p < |r| ==>
              r[p].seat < m && !isFold[r[p].seat] && r[p] == Contender(r[p].seat, ranks[r[p].seat], bets[r[p].seat])
    ensures forall p, q :: 0 <= p < q < |r| ==> r[p].seat < r[q].seat
  {
    if m == 0 then []
    else
      var init := Contenders(isFold, ranks, bets, m - 1);
      if isFold[m - 1] then init
      else init + [Contender(m - 1, ranks[m - 1], bets[m - 1])]
  }

  /** Every seat that has not folded is a contender. */
  lemma {:induction false} ContendersComplete(isFold: seq<bool>, ranks: seq<int>, bets: seq<int>, m: nat, s: nat)
    requires m <= |isFold| && |ranks| == |isFold| && |bets| == |isFold|
    requires s < m && !isFold[s]
    ensures Contender(s, ranks[s], bets[s]) in Contenders(isFold, ranks, bets, m)
  {
    if s < m - 1 {
      ContendersComplete(isFold, ranks, bets, m - 1, s);
    }
  }

  /** The first seat from `i` on that has not folded, or -1. */
  function FirstUnfolded(isFold: seq<bool>, i: nat): (r: int)
    requires i <= |isFold|
    decreases |isFold| - i
    ensures r == -1 <==> forall j :: i <= j < |isFold| ==> isFold[j]
    ensures r != -1 ==> i <= r < |isFold| && !isFold[r] && forall j :: i <= j < r ==> isFold[j]
  {
    if i == |isFold| then -1
    else if !isFold[i] then i
    else FirstUnfolded(isFold, i + 1)
  }

  /** Everybody else folded: the first seat that has not folded takes every bet. */
  function FoldWin(bets: seq<int>, isFold: seq<bool>): (r: seq<int>)
    requires |isFold| == |bets|
    ensures |r| == |bets|
  {
    var w := FirstUnfolded(isFold, 0);
    seq(|bets|, s => if s == w then Sum(bets) else 0)
  }

  /** The chips each seat wins (`scores` before the bets are taken off):
      the fold-win when all seats but one have folded, the showdown otherwise.
      `ranks[s]` is the rank of seat `s`'s best five cards. */
  function Awards(bets: seq<int>, isFold: seq<bool>, numQuit: int, dealer: nat, ranks: seq<int>): (r: seq<int>)
    requires |isFold| == |bets| && |ranks| == |bets| && dealer < |bets|
    ensures |r| == |bets|
  {
    var n := |bets|;
    if n == numQuit + 1 then FoldWin(bets, isFold)
    else
      var sorted := SortBy(Contenders(isFold, ranks, bets, n), ByRank);
      SortedSeatsBelow(Contenders(isFold, ranks, bets, n), sorted, n);
      Showdown(bets, dealer, sorted, |sorted|, [], EmptyPot(n)).scores
  }

  /** When more than one seat has not folded, the awards are what the
      showdown over the contenders sorted by rank pays, starting from an
      empty pot. */
  lemma AwardsAtShowdown(bets: seq<int>, isFold: seq<bool>, numQuit: int, dealer: nat, ranks: seq<int>, sorted: seq<Contender>)
    requires |isFold| == |bets| && |ranks| == |bets| && dealer < |bets| && |bets| != numQuit + 1
    requires sorted == SortBy(Contenders(isFold, ranks, bets, |bets|), ByRank)
    ensures SeatsBelow(sorted, |bets|)
    ensures Awards(bets, isFold, numQuit, dealer, ranks)
              == Showdown(bets, dealer, sorted, |sorted|, [], EmptyPot(|bets|)).scores
  {
    SortedSeatsBelow(Contenders(isFold, ranks, bets, |bets|), sorted, |bets|);
  }

  /** The net result of each seat: its award less its bet. The seats' net
      results total the awards less the pot. */
  function NetScores(awards: seq<int>, bets: seq<int>): (r: seq<int>)
    requires |awards| == |bets|
    ensures |r| == |bets| && Sum(r) == Sum(awards) - Sum(bets)
  {
    var r := seq(|bets|, i requires 0 <= i < |bets| => awards[i] - bets[i]);
    SumDiff(awards, bets, r);
    r
  }

  /** When every seat but one has folded (and the fold counter is right),
      that seat wins every bet, nobody else wins anything, and the net
      results total zero. */
  lemma FoldWinAwards(bets: seq<int>, isFold: seq<bool>)
    requires |isFold| == |bets| && CountTrue(isFold) == |isFold| - 1
    ensures var r := FoldWin(bets, isFold);
            && (forall s :: 0 <= s < |bets| ==> r[s] == if isFold[s] then 0 else Sum(bets))
            && Sum(NetScores(r, bets)) == 0
  {
    var w := FirstUnfolded(isFold, 0);
    if w == -1 {
      CountTrueAll(isFold, true);
      assert false;
    }
    forall s | 0 <= s < |bets| && s != w
      ensures isFold[s]
    {
      if !isFold[s] {
        CountTrueTwoFalse(isFold, s, w);
      }
    }
    SumSingle(FoldWin(bets, isFold), w);
  }

  /** Only seats that have not folded, and the dealer seat for remainders,
      win anything; with non-negative bets nobody's award is negative. */
  lemma AwardsRecipients(bets: seq<int>, isFold: seq<bool>, numQuit: int, dealer: nat, ranks: seq<int>)
    requires |isFold| == |bets| && |ranks| == |bets| && dealer < |bets|
    ensures var r := Awards(bets, isFold, numQuit, dealer, ranks);
            && (forall s :: 0 <= s < |bets| && r[s] != 0 ==> !isFold[s] || s == dealer)
            && (NonNegative(bets) ==> NonNegative(r))
  {
    if |bets| != numQuit + 1 {
      var sorted := SortBy(Contenders(isFold, ranks, bets, |bets|), ByRank);
      AwardsAtShowdown(bets, isFold, numQuit, dealer, ranks, sorted);
      SortedContenders(isFold, ranks, bets, sorted);
      ShowdownRecipients(bets, isFold, dealer, sorted);
    } else {
      FoldWinRecipients(bets, isFold);
    }
  }

  /** The contenders, once sorted, are still seats that have not folded. */
  lemma SortedContenders(isFold: seq<bool>, ranks: seq<int>, bets: seq<int>, sorted: seq<Contender>)
    requires |ranks| == |isFold| && |bets| == |isFold|
    requires multiset(sorted) == multiset(Contenders(isFold, ranks, bets, |isFold|))
    ensures forall p :: 0 <= p < |sorted| ==> sorted[p].seat < |isFold| && !isFold[sorted[p].seat]
  {
    var cs := Contenders(isFold, ranks, bets, |isFold|);
    forall p | 0 <= p < |sorted|
      ensures sorted[p].seat < |isFold| && !isFold[sorted[p].seat]
    {
      assert sorted[p] in multiset(cs);
    }
  }

  /** A showdown over seats that have not folded pays only those seats and
      the dealer seat, and nobody less than nothing when the bets are
      non-negative. */
  lemma ShowdownRecipients(bets: seq<int>, isFold: seq<bool>, dealer: nat, sorted: seq<Contender>)
    requires |isFold| == |bets| && dealer < |bets|
    requires forall p :: 0 <= p < |sorted| ==> sorted[p].seat < |bets| && !isFold[sorted[p].seat]
    ensures var r := Showdown(bets, dealer, sorted, |sorted|, [], EmptyPot(|bets|)).scores;
            && (forall s :: 0 <= s < |bets| && r[s] != 0 ==> !isFold[s] || s == dealer)
            && (NonNegative(bets) ==> NonNegative(r))
  {
    var allowed := set s | 0 <= s < |bets| && !isFold[s];
    assert SeatsIn(sorted, allowed);
    ShowdownFacts(bets, dealer, sorted, |sorted|, [], EmptyPot(|bets|), allowed);
  }

  /** The fold-win pays only an unfolded seat, and pays it the (non-negative,
      when the bets are) sum of the bets. */
  lemma FoldWinRecipients(bets: seq<int>, isFold: seq<bool>)
    requires |isFold| == |bets|
    ensures var r := FoldWin(bets, isFold);
            && (forall s :: 0 <= s < |bets| && r[s] != 0 ==> !isFold[s])
            && (NonNegative(bets) ==> NonNegative(r))
  {
    var w := FirstUnfolded(isFold, 0);
    if NonNegative(bets) {
      SumNonNegative(bets);
    }
  }

  // ---------------------------------------------------------------------
  // A sole best hand that covers every bet

  /** Once the pot line reaches every bet, no further layer pays anything. */
  lemma OneLayerIdle(bets: seq<int>, dealer: nat, g: seq<Contender>, k: nat, pot: Pot)
    requires k < |g| && SeatsBelow(g, |bets|) && dealer < |bets| && |pot.scores| == |bets|
    requires NonNegative(bets) && forall i :: 0 <= i < |bets| ==> bets[i] <= pot.potLine
    ensures OneLayer(bets, dealer, g, k, pot) == pot
  {
    var num1 := |g| - k;
    var sum1 := Collect(bets, pot.potLine, bets[g[k].seat]);
    assert sum1 == 0;
    AddShareZero(pot.scores, g, k);
  }

  lemma {:induction false} AddShareZero(scores: seq<int>, g: seq<Contender>, k: nat)
    requires k <= |g| && SeatsBelow(g, |scores|)
    decreases |g| - k
    ensures AddShare(scores, g, k, 0) == scores
  {
    if k < |g| {
      var s := g[k].seat;
      assert scores[s := scores[s] + 0] == scores;
      AddShareZero(scores, g, k + 1);
    }
  }

  lemma {:induction false} PayLayersIdle(bets: seq<int>, dealer: nat, g: seq<Contender>, k: nat, pot: Pot)
    requires k <= |g| && SeatsBelow(g, |bets|) && dealer < |bets| && |pot.scores| == |bets|
    requires NonNegative(bets) && forall i :: 0 <= i < |bets| ==> bets[i] <= pot.potLine
    decreases |g| - k
    ensures PayLayers(bets, dealer, g, k, pot) == pot
  {
    if k < |g| {
      OneLayerIdle(bets, dealer, g, k, pot);
      PayLayersIdle(bets, dealer, g, k + 1, pot);
    }
  }

  lemma {:induction false} ShowdownIdle(bets: seq<int>, dealer: nat, sorted: seq<Contender>, i: nat, tmp: seq<Contender>, pot: Pot)
    requires i <= |sorted| && SeatsBelow(sorted, |bets|) && SeatsBelow(tmp, |bets|)
    requires dealer < |bets| && |pot.scores| == |bets|
    requires NonNegative(bets) && forall j :: 0 <= j < |bets| ==> bets[j] <= pot.potLine
    decreases i, 2
    ensures Showdown(bets, dealer, sorted, i, tmp, pot) == pot
  {
    if i == 0 {
      if |tmp| > 0 {
        PayGroupIdle(bets, dealer, tmp, pot);
      }
    } else {
      ShowdownIdleStep(bets, dealer, sorted, i, tmp, pot);
    }
  }

  /** One contender further into an idle showdown: it opens a group, joins
      the group gathered so far, or closes that group, which is paid nothing. */
  lemma {:induction false} ShowdownIdleStep(bets: seq<int>, dealer: nat, sorted: seq<Contender>, i: nat, tmp: seq<Contender>, pot: Pot)
    requires 0 < i <= |sorted| && SeatsBelow(sorted, |bets|) && SeatsBelow(tmp, |bets|)
    requires dealer < |bets| && |pot.scores| == |bets|
    requires NonNegative(bets) && forall j :: 0 <= j < |bets| ==> bets[j] <= pot.potLine
    decreases i, 1
    ensures Showdown(bets, dealer, sorted, i, tmp, pot) == pot
  {
    if |tmp| == 0 {
      ShowdownIdleOpen(bets, dealer, sorted, i, pot);
    } else if sorted[i - 1].rank == tmp[|tmp| - 1].rank {
      ShowdownIdleJoin(bets, dealer, sorted, i, tmp, pot);
    } else {
      ShowdownIdleClose(bets, dealer, sorted, i, tmp, pot);
    }
  }

  lemma {:induction false} ShowdownIdleOpen(bets: seq<int>, dealer: nat, sorted: seq<Contender>, i: nat, pot: Pot)
    requires 0 < i <= |sorted| && SeatsBelow(sorted, |bets|)
    requires dealer < |bets| && |pot.scores| == |bets|
    requires NonNegative(bets) && forall j :: 0 <= j < |bets| ==> bets[j] <= pot.potLine
    decreases i, 0
    ensures Showdown(bets, dealer, sorted, i, [], pot) == pot
  {
    ShowdownOpens(bets, dealer, sorted, i, pot);
    ShowdownIdle(bets, dealer, sorted, i - 1, [sorted[i - 1]], pot);
  }

  lemma {:induction false} ShowdownIdleJoin(bets: seq<int>, dealer: nat, sorted: seq<Contender>, i: nat, tmp: seq<Contender>, pot: Pot)
    requires 0 < i <= |sorted| && SeatsBelow(sorted, |bets|) && SeatsBelow(tmp, |bets|)
    requires dealer < |bets| && |pot.scores| == |bets|
    requires NonNegative(bets) && forall j :: 0 <= j < |bets| ==> bets[j] <= pot.potLine
    requires |tmp| > 0 && sorted[i - 1].rank == tmp[|tmp| - 1].rank
    decreases i, 0
    ensures Showdown(bets, dealer, sorted, i, tmp, pot) == pot
  {
    ShowdownJoins(bets, dealer, sorted, i, tmp, pot);
    ShowdownIdle(bets, dealer, sorted, i - 1, tmp + [sorted[i - 1]], pot);
  }

  lemma {:induction false} ShowdownIdleClose(bets: seq<int>, dealer: nat, sorted: seq<Contender>, i: nat, tmp: seq<Contender>, pot: Pot)
    requires 0 < i <= |sorted| && SeatsBelow(sorted, |bets|) && SeatsBelow(tmp, |bets|)
    requires dealer < |bets| && |pot.scores| == |bets|
    requires NonNegative(bets) && forall j :: 0 <= j < |bets| ==> bets[j] <= pot.potLine
    requires |tmp| > 0 && sorted[i - 1].rank != tmp[|tmp| - 1].rank
    decreases i, 0
    ensures Showdown(bets, dealer, sorted, i, tmp, pot) == pot
  {
    ShowdownNextGroup(bets, dealer, sorted, i, tmp, pot);
    PayGroupIdle(bets, dealer, tmp, pot);
    ShowdownIdle(bets, dealer, sorted, i - 1, [sorted[i - 1]], pot);
  }

  /** Once the pot line reaches every bet, a tie group is paid nothing. */
  lemma PayGroupIdle(bets: seq<int>, dealer: nat, tmp: seq<Contender>, pot: Pot)
    requires SeatsBelow(tmp, |bets|) && dealer < |bets| && |pot.scores| == |bets|
    requires NonNegative(bets) && forall j :: 0 <= j < |bets| ==> bets[j] <= pot.potLine
    ensures PayGroup(bets, dealer, tmp, pot) == pot
  {
    var g := SortBy(tmp, ByBet);
    SortedSeatsBelow(tmp, g, |bets|);
    PayLayersIdle(bets, dealer, g, 0, pot);
  }

  /** With the pot line at zero and every bet between zero and `cap`, a
      layer capped at `cap` collects every bet. */
  lemma {:induction false} CollectEverything(bets: seq<int>, cap: int)
    requires forall i :: 0 <= i < |bets| ==> 0 <= bets[i] <= cap
    ensures Collect(bets, 0, cap) == Sum(bets)
  {
    if |bets| > 0 {
      CollectEverything(bets[1..], cap);
    }
  }

  /** A layer opened by the only member of a group pays that member the
      whole of what it collects. */
  lemma LoneLayer(bets: seq<int>, dealer: nat, c: Contender, pot: Pot, sum1: int)
    requires c.seat < |bets| && dealer < |bets| && |pot.scores| == |bets|
    requires sum1 == Collect(bets, pot.potLine, bets[c.seat])
    ensures OneLayer(bets, dealer, [c], 0, pot) == Pot(pot.scores[c.seat := pot.scores[c.seat] + sum1], Max(pot.potLine, bets[c.seat]))
  {
    var bumped := pot.scores[c.seat := pot.scores[c.seat] + sum1];
    assert AddShare(bumped, [c], 1, sum1) == bumped;
    assert AddShare(pot.scores, [c], 0, sum1) == bumped;
    var num1 := |[c]| - 0;
    assert num1 == 1;
    assert sum1 / num1 == sum1 && sum1 % num1 == 0 by {
      DivOne(sum1);
    }
    assert bumped[dealer] + sum1 % num1 == bumped[dealer];
  }

  /** A tie group of one seat is paid in a single layer. */
  lemma LoneGroupOneLayer(bets: seq<int>, dealer: nat, c: Contender, pot: Pot)
    requires c.seat < |bets| && dealer < |bets| && |pot.scores| == |bets|
    ensures PayGroup(bets, dealer, [c], pot) == OneLayer(bets, dealer, [c], 0, pot)
  {
    assert SortBy([c], ByBet) == [c] by {
      assert [c][..0] == [];
    }
    var after := OneLayer(bets, dealer, [c], 0, pot);
    assert PayLayers(bets, dealer, [c], 0, pot) == PayLayers(bets, dealer, [c], 1, after);
  }

  /** A tie group of one seat whose bet covers every bet, paid first, takes
      the whole pot and raises the pot line to its bet. */
  lemma LoneGroupTakesAll(bets: seq<int>, dealer: nat, c: Contender)
    requires c.seat < |bets| && dealer < |bets| && c.bet == bets[c.seat]
    requires forall i :: 0 <= i < |bets| ==> 0 <= bets[i] <= c.bet
    ensures var p := PayGroup(bets, dealer, [c], EmptyPot(|bets|));
            && p.potLine == c.bet
            && (forall s :: 0 <= s < |bets| ==> p.scores[s] == if s == c.seat then Sum(bets) else 0)
  {
    var pot := EmptyPot(|bets|);
    LoneGroupOneLayer(bets, dealer, c, pot);
    var total := Sum(bets);
    assert Collect(bets, pot.potLine, bets[c.seat]) == total by {
      CollectEverything(bets, c.bet);
    }
    LoneLayer(bets, dealer, c, pot, total);
  }

  /** A tie group of one seat, paid first, raises the pot line to its bet. */
  lemma LoneGroupLine(bets: seq<int>, dealer: nat, c: Contender)
    requires c.seat < |bets| && dealer < |bets| && c.bet == bets[c.seat]
    requires forall i :: 0 <= i < |bets| ==> 0 <= bets[i] <= c.bet
    ensures PayGroup(bets, dealer, [c], EmptyPot(|bets|)).potLine == c.bet
  {
    LoneGroupTakesAll(bets, dealer, c);
  }

  /** A contender ranked the same as the group gathered so far joins it. */
  lemma ShowdownJoins(bets: seq<int>, dealer: nat, sorted: seq<Contender>, i: nat, tmp: seq<Contender>, pot: Pot)
    requires 0 < i <= |sorted| && SeatsBelow(sorted, |bets|) && SeatsBelow(tmp, |bets|)
    requires dealer < |bets| && |pot.scores| == |bets|
    requires |tmp| > 0 && sorted[i - 1].rank == tmp[|tmp| - 1].rank
    ensures SeatsBelow(tmp + [sorted[i - 1]], |bets|)
    ensures Showdown(bets, dealer, sorted, i, tmp, pot)
              == Showdown(bets, dealer, sorted, i - 1, tmp + [sorted[i - 1]], pot)
  {
  }

  /** With no group gathered yet, the next contender opens one; the showdown
      opens its first group with the best-ranked contender. */
  lemma ShowdownOpens(bets: seq<int>, dealer: nat, sorted: seq<Contender>, i: nat, pot: Pot)
    requires 0 < i <= |sorted| && SeatsBelow(sorted, |bets|)
    requires dealer < |bets| && |pot.scores| == |bets|
    ensures SeatsBelow([sorted[i - 1]], |bets|)
    ensures Showdown(bets, dealer, sorted, i, [], pot) == Showdown(bets, dealer, sorted, i - 1, [sorted[i - 1]], pot)
  {
  }

  /** A contender ranked differently from the group gathered so far closes
      it: the group is paid and the contender opens the next one. */
  lemma ShowdownNextGroup(bets: seq<int>, dealer: nat, sorted: seq<Contender>, i: nat, tmp: seq<Contender>, pot: Pot)
    requires 0 < i <= |sorted| && SeatsBelow(sorted, |bets|) && SeatsBelow(tmp, |bets|)
    requires dealer < |bets| && |pot.scores| == |bets|
    requires |tmp| > 0 && sorted[i - 1].rank != tmp[|tmp| - 1].rank
    ensures Showdown(bets, dealer, sorted, i, tmp, pot)
              == Showdown(bets, dealer, sorted, i - 1, [sorted[i - 1]], PayGroup(bets, dealer, tmp, pot))
  {
  }

  /** When the best rank of the sorted contenders belongs to one seat alone
      and that seat's bet covers every bet, the showdown is decided by its
      group: the groups paid after it find nothing left above the pot line. */
  lemma TopGroupAlone(bets: seq<int>, dealer: nat, sorted: seq<Contender>, cw: Contender)
    requires SeatsBelow(sorted, |bets|) && dealer < |bets|
    requires |sorted| > 0 && sorted[|sorted| - 1] == cw
    requires |sorted| > 1 ==> sorted[|sorted| - 2].rank < cw.rank
    requires cw.seat < |bets| && cw.bet == bets[cw.seat]
    requires forall i :: 0 <= i < |bets| ==> 0 <= bets[i] <= cw.bet
    ensures Showdown(bets, dealer, sorted, |sorted|, [], EmptyPot(|bets|))
              == PayGroup(bets, dealer, [cw], EmptyPot(|bets|))
  {
    var pot0 := EmptyPot(|bets|);
    var L := |sorted| - 1;
    ShowdownOpens(bets, dealer, sorted, |sorted|, pot0);
    assert [sorted[L]] == [cw];
    if L > 0 {
      assert L - 1 == |sorted| - 2;
      assert sorted[L - 1] == sorted[|sorted| - 2];
    }
    LoneGroupLine(bets, dealer, cw);
    ClosedGroupIdle(bets, dealer, sorted, L, [cw], pot0);
  }

  /** A group that is the last, or is closed by a lower rank, and whose
      payment lifts the pot line to every bet leaves nothing for the groups
      after it. */
  lemma ClosedGroupIdle(bets: seq<int>, dealer: nat, sorted: seq<Contender>, i: nat, tmp: seq<Contender>, pot: Pot)
    requires i <= |sorted| && SeatsBelow(sorted, |bets|) && SeatsBelow(tmp, |bets|)
    requires dealer < |bets| && |pot.scores| == |bets|
    requires |tmp| > 0 && (i > 0 ==> sorted[i - 1].rank != tmp[|tmp| - 1].rank)
    requires NonNegative(bets)
    requires forall j :: 0 <= j < |bets| ==> bets[j] <= PayGroup(bets, dealer, tmp, pot).potLine
    ensures Showdown(bets, dealer, sorted, i, tmp, pot) == PayGroup(bets, dealer, tmp, pot)
  {
    if i > 0 {
      ShowdownNextGroup(bets, dealer, sorted, i, tmp, pot);
      ShowdownIdle(bets, dealer, sorted, i - 1, [sorted[i - 1]], PayGroup(bets, dealer, tmp, pot));
    }
  }

  /** A seat that has not folded, holds strictly the best hand among those
      that have not folded, and has bet at least as much as every seat, wins
      every bet at showdown; nobody else, the dealer included, wins anything,
      and the net results total zero. */
  lemma SoleWinnerTakesPot(bets: seq<int>, isFold: seq<bool>, numQuit: int, dealer: nat, ranks: seq<int>, w: nat)
    requires |isFold| == |bets| && |ranks| == |bets| && dealer < |bets| && |bets| != numQuit + 1
    requires w < |bets| && !isFold[w]
    requires forall s :: 0 <= s < |bets| && s != w && !isFold[s] ==> ranks[s] < ranks[w]
    requires forall s :: 0 <= s < |bets| ==> 0 <= bets[s] <= bets[w]
    ensures var r := Awards(bets, isFold, numQuit, dealer, ranks);
            && (forall s :: 0 <= s < |bets| ==> r[s] == if s == w then Sum(bets) else 0)
            && Sum(NetScores(r, bets)) == 0
  {
    SoleWinnerAwards(bets, isFold, numQuit, dealer, ranks, w);
    LoneGroupTakesAll(bets, dealer, Contender(w, ranks[w], bets[w]));
    WinnerTakesAllNets(Awards(bets, isFold, numQuit, dealer, ranks), bets, w);
  }

  /** When one seat is awarded every bet and the others nothing, the net
      results total zero. */
  lemma WinnerTakesAllNets(r: seq<int>, bets: seq<int>, w: nat)
    requires |r| == |bets| && w < |bets|
    requires forall s :: 0 <= s < |bets| ==> r[s] == if s == w then Sum(bets) else 0
    ensures Sum(NetScores(r, bets)) == 0
  {
    SumSingle(r, w);
  }

  /** The showdown of a sole best hand is decided by its group alone. */
  lemma SoleWinnerAwards(bets: seq<int>, isFold: seq<bool>, numQuit: int, dealer: nat, ranks: seq<int>, w: nat)
    requires |isFold| == |bets| && |ranks| == |bets| && dealer < |bets| && |bets| != numQuit + 1
    requires w < |bets| && !isFold[w]
    requires forall s :: 0 <= s < |bets| && s != w && !isFold[s] ==> ranks[s] < ranks[w]
    requires forall s :: 0 <= s < |bets| ==> 0 <= bets[s] <= bets[w]
    ensures Awards(bets, isFold, numQuit, dealer, ranks)
              == PayGroup(bets, dealer, [Contender(w, ranks[w], bets[w])], EmptyPot(|bets|)).scores
  {
    var cw := Contender(w, ranks[w], bets[w]);
    var cs := Contenders(isFold, ranks, bets, |bets|);
    var sorted := SortBy(cs, ByRank);
    AwardsAtShowdown(bets, isFold, numQuit, dealer, ranks, sorted);
    SoleBestContender(bets, isFold, ranks, w, cs);
    TopOfSorted(cs, sorted, cw);
    TopGroupAlone(bets, dealer, sorted, cw);
  }

  /** A sequence sorted by rank that holds, without repetition, the elements
      of one in which `top` strictly outranks every other element, ends with
      `top`, and the element before it ranks strictly lower. */
  lemma TopOfSorted(cs: seq<Contender>, sorted: seq<Contender>, top: Contender)
    requires SortedBy(sorted, ByRank) && multiset(sorted) == multiset(cs) && Distinct(cs)
    requires top in cs && forall x :: x in cs && x != top ==> x.rank < top.rank
    ensures |sorted| > 0 && sorted[|sorted| - 1] == top
    ensures |sorted| > 1 ==> sorted[|sorted| - 2].rank < top.rank
  {
    assert top in multiset(sorted);
    var j :| 0 <= j < |sorted| && sorted[j] == top;
    var L := |sorted| - 1;
    var x := sorted[L];
    assert x in multiset(cs);
    assert KeyOf(sorted[j], ByRank) <= KeyOf(x, ByRank) || j == L;
    DistinctPermutation(sorted, cs);
    if L > 0 {
      var c := sorted[L - 1];
      assert c in multiset(cs);
    }
  }

  /** The seat with strictly the best hand among those that have not
      folded is the one contender that outranks every other. */
  lemma SoleBestContender(bets: seq<int>, isFold: seq<bool>, ranks: seq<int>, w: nat, cs: seq<Contender>)
    requires |isFold| == |bets| && |ranks| == |bets|
    requires w < |bets| && !isFold[w]
    requires forall s :: 0 <= s < |bets| && s != w && !isFold[s] ==> ranks[s] < ranks[w]
    requires cs == Contenders(isFold, ranks, bets, |bets|)
    ensures Distinct(cs)
    ensures Contender(w, ranks[w], bets[w]) in cs
    ensures forall x :: x in cs && x != Contender(w, ranks[w], bets[w]) ==> x.rank < ranks[w]
  {
    ContendersComplete(isFold, ranks, bets, |bets|, w);
    ContendersDistinct(isFold, ranks, bets, cs);
    forall x | x in cs && x != Contender(w, ranks[w], bets[w])
      ensures x.rank < ranks[w]
    {
      ContenderOf(isFold, ranks, bets, cs, x);
    }
  }

  /** A contender is a seat that has not folded, with that seat's rank and bet. */
  lemma ContenderOf(isFold: seq<bool>, ranks: seq<int>, bets: seq<int>, cs: seq<Contender>, x: Contender)
    requires |isFold| == |bets| && |ranks| == |bets|
    requires cs == Contenders(isFold, ranks, bets, |bets|) && x in cs
    ensures x.seat < |bets| && !isFold[x.seat] && x == Contender(x.seat, ranks[x.seat], bets[x.seat])
  {
  }

  /** No seat is a contender twice. */
  lemma ContendersDistinct(isFold: seq<bool>, ranks: seq<int>, bets: seq<int>, cs: seq<Contender>)
    requires |isFold| == |bets| && |ranks| == |bets|
    requires cs == Contenders(isFold, ranks, bets, |bets|)
    ensures Distinct(cs)
  {
  }
}
