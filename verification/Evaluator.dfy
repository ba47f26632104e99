// The hand evaluator: five-card classification, comparison, and the best five of any
// larger hand (ghosts/rdc-poker/src/evaluator.ts).
module Evaluator {
  import opened Seqs
  import opened PokerTypes

  datatype HandRanking =
    | HighCard | Pair | TwoPair | ThreeOfAKind | Straight
    | Flush | FullHouse | FourOfAKind | StraightFlush | RoyalFlush

  /** HAND_RANK_VALUES */
  function RankValue(r: HandRanking): int {
    match r
    case HighCard => 0
    case Pair => 1
    case TwoPair => 2
    case ThreeOfAKind => 3
    case Straight => 4
    case Flush => 5
    case FullHouse => 6
    case FourOfAKind => 7
    case StraightFlush => 8
    case RoyalFlush => 9
  }

  datatype HandEvaluation = HandEvaluation(
    ranking: HandRanking,
    highCards: seq<int>,
    bestFiveCards: seq<Card>)

  // ----- Sorting by rank -----

  ghost predicate Descending(vs: seq<int>) {
    forall i, j :: 0 <= i < j < |vs| ==> vs[i] >= vs[j]
  }

  function Values(cards: seq<Card>): (vs: seq<int>)
    ensures |vs| == |cards|
    ensures forall i :: 0 <= i < |cards| ==> vs[i] == cards[i].rank
  {
    seq(|cards|, i requires 0 <= i < |cards| => cards[i].rank)
  }

  /** Insertion after every card of at least the same rank. */
  function InsertByRank(cards: seq<Card>, c: Card): (r: seq<Card>)
    ensures |r| == |cards| + 1
  {
    if cards == [] then [c]
    else
      var k := |cards| - 1;
      if cards[k].rank >= c.rank then cards + [c]
      else InsertByRank(cards[..k], c) + [cards[k]]
  }

  /** Array.sort on a copy, highest rank first; equal ranks keep their order. */
  function SortByRankDesc(cards: seq<Card>): (r: seq<Card>)
    ensures |r| == |cards|
  {
    if cards == [] then []
    else InsertByRank(SortByRankDesc(cards[..|cards| - 1]), cards[|cards| - 1])
  }

  lemma {:induction false} InsertKeepsCards(cards: seq<Card>, c: Card)
    ensures multiset(InsertByRank(cards, c)) == multiset(cards) + multiset{c}
  {
    if cards != [] {
      InsertKeepsCards(cards[..|cards| - 1], c);
      MultisetSnoc(cards);
    }
  }

  lemma DescendingSnoc(cards: seq<Card>, c: Card)
    requires Descending(Values(cards)) && forall x :: x in cards ==> x.rank >= c.rank
    ensures Descending(Values(cards + [c]))
  {
    assert Values(cards + [c]) == Values(cards) + [c.rank];
    assert forall i :: 0 <= i < |cards| ==> cards[i] in cards;
  }

  lemma ShorterDescends(cards: seq<Card>, k: nat)
    requires Descending(Values(cards)) && k <= |cards|
    ensures Descending(Values(cards[..k]))
  {
    assert Values(cards[..k]) == Values(cards)[..k];
  }

  lemma NoneLower(cards: seq<Card>, k: nat)
    requires Descending(Values(cards)) && k < |cards|
    ensures forall x :: x in cards[..k] ==> x.rank >= cards[k].rank
  {
    forall x | x in cards[..k] ensures x.rank >= cards[k].rank {
      var j :| 0 <= j < k && cards[j] == x;
      assert Values(cards)[j] >= Values(cards)[k];
    }
  }

  lemma {:induction false} InsertDescends(cards: seq<Card>, c: Card)
    requires Descending(Values(cards))
    ensures Descending(Values(InsertByRank(cards, c)))
  {
    if cards != [] && cards[|cards| - 1].rank < c.rank {
      hide Values, Descending;
      var k := |cards| - 1;
      ShorterDescends(cards, k);
      var front := InsertByRank(cards[..k], c);
      InsertDescends(cards[..k], c);
      InsertKeepsCards(cards[..k], c);
      NoneLower(cards, k);
      forall x | x in front ensures x.rank >= cards[k].rank {
        assert x in multiset(front);
        assert x == c || x in cards[..k];
      }
      DescendingSnoc(front, cards[k]);
    }
  }

  lemma {:induction false} SortFacts(cards: seq<Card>)
    ensures Descending(Values(SortByRankDesc(cards)))
    ensures multiset(SortByRankDesc(cards)) == multiset(cards)
  {
    if cards != [] {
      var init := cards[..|cards| - 1];
      SortFacts(init);
      InsertDescends(SortByRankDesc(init), cards[|cards| - 1]);
      InsertKeepsCards(SortByRankDesc(init), cards[|cards| - 1]);
      MultisetSnoc(cards);
    }
  }

  lemma LastIsLeast(a: seq<int>, b: seq<int>)
    requires Descending(a) && multiset(a) == multiset(b) && a != [] && b != []
    ensures a[|a| - 1] <= b[|b| - 1]
  {
    assert b[|b| - 1] in multiset(a);
    var i :| 0 <= i < |a| && a[i] == b[|b| - 1];
  }

  /** Two descending sequences with the same elements are the same sequence. */
  lemma {:induction false} DescendingIsUnique(a: seq<int>, b: seq<int>)
    requires Descending(a) && Descending(b) && multiset(a) == multiset(b)
    ensures a == b
  {
    if a == [] {
      SameMultisetSameLength(a, b);
    } else {
      SameMultisetSameLength(a, b);
      var k := |a| - 1;
      LastIsLeast(a, b);
      LastIsLeast(b, a);
      MultisetSnoc(a);
      MultisetSnoc(b);
      MultisetCancel(multiset(a[..k]), multiset(b[..k]), multiset{a[k]});
      DescendingIsUnique(a[..k], b[..k]);
      assert a == a[..k] + [a[k]] && b == b[..k] + [b[k]];
    }
  }

  lemma ValuesRemoveAt(cards: seq<Card>, j: nat)
    requires j < |cards|
    ensures multiset(Values(cards)) == multiset(Values(cards[..j] + cards[j + 1..])) + multiset{cards[j].rank}
  {
    var vs := Values(cards);
    RemoveAt(vs, j);
    assert Values(cards[..j] + cards[j + 1..]) == vs[..j] + vs[j + 1..];
  }

  /** Taking the same card out of two hands with the same cards. */
  lemma TakeOutBoth(a: seq<Card>, b: seq<Card>) returns (j: nat)
    requires multiset(a) == multiset(b) && a != []
    ensures j < |b| && b[j] == a[0] && multiset(a[1..]) == multiset(b[..j] + b[j + 1..])
  {
    assert a[0] in multiset(b);
    j :| 0 <= j < |b| && b[j] == a[0];
    MultisetCons(a);
    RemoveAt(b, j);
    MultisetCancel(multiset(a[1..]), multiset(b[..j] + b[j + 1..]), multiset{a[0]});
  }

  lemma {:induction false} ValuesFollowCards(a: seq<Card>, b: seq<Card>)
    requires multiset(a) == multiset(b)
    ensures multiset(Values(a)) == multiset(Values(b))
    decreases |a|
  {
    hide Values;
    SameMultisetSameLength(a, b);
    if a == [] {
      assert b == [];
    } else {
      var j := TakeOutBoth(a, b);
      ValuesFollowCards(a[1..], b[..j] + b[j + 1..]);
      ValuesRemoveAt(b, j);
      ValuesRemoveAt(a, 0);
      assert a[..0] + a[1..] == a[1..];
    }
  }

  // ----- Equal ranks in a descending hand -----

  /** How many leading values equal the first. */
  function RunLength(vs: seq<int>): (n: nat)
    requires vs != []
    ensures 1 <= n <= |vs|
    ensures forall i :: 0 <= i < n ==> vs[i] == vs[0]
    ensures n < |vs| ==> vs[n] != vs[0]
  {
    if |vs| == 1 || vs[1] != vs[0] then 1 else 1 + RunLength(vs[1..])
  }

  /** The ranks held exactly k times, highest first. */
  function WithCount(vs: seq<int>, k: nat): seq<int> {
    if vs == [] then []
    else
      var n := RunLength(vs);
      (if n == k then [vs[0]] else []) + WithCount(vs[n..], k)
  }

  lemma RunFacts(vs: seq<int>)
    requires Descending(vs) && vs != []
    ensures var n := RunLength(vs);
            && (forall x :: multiset(vs)[x] == if x == vs[0] then n else multiset(vs[n..])[x])
            && (forall i :: n <= i < |vs| ==> vs[i] < vs[0])
            && Descending(vs[n..])
  {
    hide RunLength;
    var n := RunLength(vs);
    MultisetSplit(vs, n);
    Replicated(vs[..n], vs[0]);
    TailIsSmaller(vs, n);
    NotInTail(vs[n..], vs[0]);
  }

  lemma TailIsSmaller(vs: seq<int>, n: nat)
    requires Descending(vs) && 0 < n <= |vs| && (n < |vs| ==> vs[n] != vs[0])
    ensures forall i :: n <= i < |vs| ==> vs[i] < vs[0]
    ensures forall i :: 0 <= i < |vs[n..]| ==> vs[n..][i] < vs[0]
    ensures Descending(vs[n..])
  {
    if n < |vs| {
      assert vs[n] < vs[0];
    }
  }

  lemma NotInTail(tail: seq<int>, v: int)
    requires forall i :: 0 <= i < |tail| ==> tail[i] < v
    ensures multiset(tail)[v] == 0
  {
    assert v !in tail;
  }

  lemma {:induction false} Replicated(xs: seq<int>, x: int)
    requires forall i :: 0 <= i < |xs| ==> xs[i] == x
    ensures multiset(xs) == multiset{}[x := |xs|]
  {
    if xs != [] {
      var k := |xs| - 1;
      assert xs == xs[..k] + [xs[k]];
      Replicated(xs[..k], x);
    }
  }

  lemma {:induction false} WithCountMembers(vs: seq<int>, k: nat)
    requires Descending(vs) && k > 0
    ensures forall x :: x in WithCount(vs, k) <==> multiset(vs)[x] == k
  {
    hide RunLength;
    if vs != [] {
      var n := RunLength(vs);
      RunFacts(vs);
      WithCountMembers(vs[n..], k);
      assert multiset(vs[n..])[vs[0]] == 0;
    }
  }

  lemma {:induction false} WithCountDescends(vs: seq<int>, k: nat)
    requires Descending(vs) && k > 0
    ensures forall i, j :: 0 <= i < j < |WithCount(vs, k)| ==> WithCount(vs, k)[i] > WithCount(vs, k)[j]
  {
    hide RunLength;
    if vs != [] {
      var n := RunLength(vs);
      RunFacts(vs);
      WithCountDescends(vs[n..], k);
      WithCountMembers(vs[n..], k);
      var rest := WithCount(vs[n..], k);
      forall i | 0 <= i < |rest| ensures rest[i] < vs[0] {
        assert rest[i] in rest;
        assert rest[i] in multiset(vs[n..]);
        var j :| 0 <= j < |vs[n..]| && vs[n..][j] == rest[i];
      }
    }
  }

  /** WithCount lists, in strictly descending order, the ranks whose multiplicity is k. */
  lemma WithCountMeans(vs: seq<int>, k: nat)
    requires Descending(vs) && k > 0
    ensures forall x :: x in WithCount(vs, k) <==> multiset(vs)[x] == k
    ensures forall i, j :: 0 <= i < j < |WithCount(vs, k)| ==> WithCount(vs, k)[i] > WithCount(vs, k)[j]
  {
    hide WithCount;
    WithCountMembers(vs, k);
    WithCountDescends(vs, k);
  }

  /** The multiplicities add up to the number of cards. */
  lemma {:induction false} CountsAddUp(vs: seq<int>)
    requires |vs| <= 5
    ensures |WithCount(vs, 1)| + 2 * |WithCount(vs, 2)| + 3 * |WithCount(vs, 3)|
            + 4 * |WithCount(vs, 4)| + 5 * |WithCount(vs, 5)| == |vs|
  {
    if vs != [] {
      CountsAddUp(vs[RunLength(vs)..]);
    }
  }

  // ----- Classifying five cards -----

  /** The high card of a straight, 5 for A-2-3-4-5, and 0 if there is none. */
  function StraightHigh(vs: seq<int>): int
    requires |vs| == 5
  {
    if vs == [14, 5, 4, 3, 2] then 5
    else if vs[0] - vs[1] == 1 && vs[1] - vs[2] == 1 && vs[2] - vs[3] == 1 && vs[3] - vs[4] == 1
    then vs[0]
    else 0
  }

  /** The source's cascade, given the straight's high card and the ranks by multiplicity. */
  function Cascade(vs: seq<int>, isFlush: bool, high: int,
                   fours: seq<int>, threes: seq<int>, twos: seq<int>, ones: seq<int>): (HandRanking, seq<int>) {
    if isFlush && high == 14 then (RoyalFlush, [14])
    else if isFlush && high != 0 then (StraightFlush, [high])
    else if fours != [] then (FourOfAKind, fours + ones)
    else if threes != [] && twos != [] then (FullHouse, threes + twos)
    else if isFlush then (Flush, vs)
    else if high != 0 then (Straight, [high])
    else if threes != [] then (ThreeOfAKind, threes + ones)
    else if |twos| == 2 then (TwoPair, twos + ones)
    else if twos != [] then (Pair, twos + ones)
    else (HighCard, vs)
  }

  function Classify(vs: seq<int>, isFlush: bool): (HandRanking, seq<int>)
    requires |vs| == 5
  {
    Cascade(vs, isFlush, StraightHigh(vs),
            WithCount(vs, 4), WithCount(vs, 3), WithCount(vs, 2), WithCount(vs, 1))
  }

  predicate SameSuit(cards: seq<Card>) {
    forall i :: 0 <= i < |cards| ==> cards[i].suit == cards[0].suit
  }

  function EvaluateFive(cards: seq<Card>): HandEvaluation
    requires |cards| == 5
  {
    var sorted := SortByRankDesc(cards);
    var (ranking, highCards) := Classify(Values(sorted), SameSuit(sorted));
    HandEvaluation(ranking, highCards, sorted)
  }

  /** The five cards are kept, highest rank first. */
  lemma FiveCardsKept(cards: seq<Card>)
    requires |cards| == 5
    ensures multiset(EvaluateFive(cards).bestFiveCards) == multiset(cards)
    ensures Descending(Values(EvaluateFive(cards).bestFiveCards))
  {
    SortFacts(cards);
  }

  // ----- The classification, order-free -----

  ghost predicate AllOneSuit(cards: multiset<Card>) {
    forall c, d :: c in cards && d in cards ==> c.suit == d.suit
  }

  ghost predicate RunsTo(ranks: multiset<int>, h: int) {
    if h == 5 then ranks == multiset{14, 5, 4, 3, 2}
    else ranks == multiset{h, h - 1, h - 2, h - 3, h - 4}
  }

  /** What each category asks of a hand, in terms of its ranks and suits only. */
  ghost predicate Asks(r: HandRanking, ranks: multiset<int>, oneSuit: bool) {
    match r
    case HighCard => true
    case Pair => exists a :: ranks[a] == 2
    case TwoPair => exists a, b :: a != b && ranks[a] == 2 && ranks[b] == 2
    case ThreeOfAKind => exists a :: ranks[a] == 3
    case Straight => exists h :: RunsTo(ranks, h)
    case Flush => oneSuit
    case FullHouse => exists a, b :: ranks[a] == 3 && ranks[b] == 2
    case FourOfAKind => exists a :: ranks[a] == 4
    case StraightFlush => oneSuit && exists h :: RunsTo(ranks, h)
    case RoyalFlush => oneSuit && RunsTo(ranks, 14)
  }

  ghost predicate Shows(r: HandRanking, cards: seq<Card>) {
    Asks(r, multiset(Values(cards)), AllOneSuit(multiset(cards)))
  }

  lemma FiveRanks(a: int, b: int, c: int, d: int, e: int)
    ensures multiset([a, b, c, d, e]) == multiset{a, b, c, d, e}
  {
  }

  function Run(h: int): seq<int> {
    if h == 5 then [14, 5, 4, 3, 2] else [h, h - 1, h - 2, h - 3, h - 4]
  }

  lemma RunMultiset(ranks: multiset<int>, h: int)
    ensures RunsTo(ranks, h) <==> ranks == multiset(Run(h))
  {
    FiveRanks(14, 5, 4, 3, 2);
    FiveRanks(h, h - 1, h - 2, h - 3, h - 4);
  }

  lemma StraightIsRun(vs: seq<int>, h: int)
    requires |vs| == 5 && forall i :: 0 <= i < 5 ==> 2 <= vs[i] <= 14
    ensures vs == Run(h) <==> h != 0 && StraightHigh(vs) == h
  {
    if h != 0 && StraightHigh(vs) == h {
      assert vs == Run(h);
    }
    if vs == Run(h) {
      assert vs[0] == Run(h)[0] && vs[1] == Run(h)[1] && vs[4] == Run(h)[4];
    }
  }

  lemma StraightIsARun(vs: seq<int>, h: int)
    requires |vs| == 5 && Descending(vs) && forall i :: 0 <= i < 5 ==> 2 <= vs[i] <= 14
    ensures RunsTo(multiset(vs), h) <==> h != 0 && StraightHigh(vs) == h
  {
    var run := Run(h);
    RunMultiset(multiset(vs), h);
    StraightIsRun(vs, h);
    RunDescends(h);
    SameCards(vs, run);
  }

  lemma RunDescends(h: int)
    ensures Descending(Run(h))
  {
  }

  lemma SameCards(vs: seq<int>, run: seq<int>)
    requires Descending(vs) && Descending(run)
    ensures multiset(vs) == multiset(run) <==> vs == run
  {
    if multiset(vs) == multiset(run) {
      DescendingIsUnique(vs, run);
    }
  }

  lemma SuitsOfSorted(cards: seq<Card>)
    requires |cards| > 0
    ensures SameSuit(SortByRankDesc(cards)) <==> AllOneSuit(multiset(cards))
  {
    SortFacts(cards);
    SuitsOfAny(SortByRankDesc(cards));
  }

  lemma SuitsOfAny(cards: seq<Card>)
    requires |cards| > 0
    ensures SameSuit(cards) <==> AllOneSuit(multiset(cards))
  {
    assert forall i :: 0 <= i < |cards| ==> cards[i] in multiset(cards);
    if SameSuit(cards) {
      forall c, d | c in multiset(cards) && d in multiset(cards) ensures c.suit == d.suit {
        var i, j :| 0 <= i < |cards| && cards[i] == c && 0 <= j < |cards| && cards[j] == d;
      }
    }
  }

  /** The multiplicity lists against the order-free counts. */
  lemma CountsMeanShapes(vs: seq<int>)
    requires |vs| == 5 && Descending(vs)
    ensures forall k :: 1 <= k <= 4 ==> (WithCount(vs, k) != [] <==> exists a :: multiset(vs)[a] == k)
    ensures |WithCount(vs, 2)| >= 2 <==> exists a, b :: a != b && multiset(vs)[a] == 2 && multiset(vs)[b] == 2
  {
    forall k | 1 <= k <= 4
      ensures WithCount(vs, k) != [] <==> exists a :: multiset(vs)[a] == k
    {
      WithCountMeans(vs, k);
      if WithCount(vs, k) != [] {
        assert WithCount(vs, k)[0] in WithCount(vs, k);
      }
    }
    WithCountMeans(vs, 2);
    var w := WithCount(vs, 2);
    if |w| >= 2 {
      assert w[0] in w && w[1] in w && w[0] != w[1];
    }
    if a, b :| a != b && multiset(vs)[a] == 2 && multiset(vs)[b] == 2 {
      assert a in w && b in w;
    }
  }

  /** The cascade picks the highest category asked for, and the right number of high cards. */
  lemma CascadeIsHighest(vs: seq<int>, ranks: multiset<int>, isFlush: bool, high: int,
                         fours: seq<int>, threes: seq<int>, twos: seq<int>, ones: seq<int>)
    requires |vs| == 5
    requires forall h :: RunsTo(ranks, h) <==> h != 0 && high == h
    requires fours != [] <==> exists a :: ranks[a] == 4
    requires threes != [] <==> exists a :: ranks[a] == 3
    requires twos != [] <==> exists a :: ranks[a] == 2
    requires |twos| >= 2 <==> exists a, b :: a != b && ranks[a] == 2 && ranks[b] == 2
    requires |ones| + 2 * |twos| + 3 * |threes| + 4 * |fours| <= 5
    requires twos != [] || threes != [] || fours != [] ==>
               high == 0 && |ones| + 2 * |twos| + 3 * |threes| + 4 * |fours| == 5
    ensures var (r, cards) := Cascade(vs, isFlush, high, fours, threes, twos, ones);
            && Asks(r, ranks, isFlush)
            && (forall q :: Asks(q, ranks, isFlush) ==> RankValue(q) <= RankValue(r))
            && |cards| == HighCardCount(r)
  {
    hide RunsTo;
    assert high != 0 ==> RunsTo(ranks, high);
  }

  /** evaluateFiveCards names the highest category whose definition the cards meet, and lists
      as many high cards as that category compares. */
  lemma HighestCategory(cards: seq<Card>)
    requires |cards| == 5
    ensures Shows(EvaluateFive(cards).ranking, cards)
    ensures forall r :: Shows(r, cards) ==> RankValue(r) <= RankValue(EvaluateFive(cards).ranking)
    ensures WellFormed(EvaluateFive(cards))
  {
    hide WithCount, StraightHigh, SortByRankDesc, Cascade, Asks, RunsTo, AllOneSuit;
    var sorted := SortByRankDesc(cards);
    var vs := Values(sorted);
    SortFacts(cards);
    ValuesFollowCards(sorted, cards);
    SuitsOfSorted(cards);
    CountsMeanShapes(vs);
    CountsAddUp(vs);
    forall h ensures RunsTo(multiset(vs), h) <==> h != 0 && StraightHigh(vs) == h {
      StraightIsARun(vs, h);
    }
    if StraightHigh(vs) != 0 {
      StraightHasNoRepeats(vs);
    }
    if WithCount(vs, 2) != [] || WithCount(vs, 3) != [] || WithCount(vs, 4) != [] {
      FiveOfARankAlone(vs);
    }
    CascadeIsHighest(vs, multiset(vs), SameSuit(sorted), StraightHigh(vs),
                     WithCount(vs, 4), WithCount(vs, 3), WithCount(vs, 2), WithCount(vs, 1));
  }

  lemma FiveOfARankAlone(vs: seq<int>)
    requires |vs| == 5
    requires WithCount(vs, 2) != [] || WithCount(vs, 3) != [] || WithCount(vs, 4) != []
    ensures |WithCount(vs, 1)| + 2 * |WithCount(vs, 2)| + 3 * |WithCount(vs, 3)| + 4 * |WithCount(vs, 4)| == 5
  {
    CountsAddUp(vs);
  }

  lemma StraightHasNoRepeats(vs: seq<int>)
    requires |vs| == 5 && Descending(vs) && StraightHigh(vs) != 0
    ensures WithCount(vs, 2) == WithCount(vs, 3) == WithCount(vs, 4) == []
  {
    hide WithCount;
    assert forall i, j :: 0 <= i < j < 5 ==> vs[i] > vs[j];
    AtMostOnce(vs);
    NoneWithCount(vs, 2);
    NoneWithCount(vs, 3);
    NoneWithCount(vs, 4);
  }

  lemma {:induction false} AtMostOnce(vs: seq<int>)
    requires forall i, j :: 0 <= i < j < |vs| ==> vs[i] > vs[j]
    ensures forall a :: multiset(vs)[a] <= 1
  {
    if vs != [] {
      var k := |vs| - 1;
      AtMostOnce(vs[..k]);
      MultisetSnoc(vs);
      assert vs[k] !in vs[..k];
    }
  }

  lemma NoneWithCount(vs: seq<int>, k: nat)
    requires Descending(vs) && k > 1 && forall a :: multiset(vs)[a] <= 1
    ensures WithCount(vs, k) == []
  {
    hide WithCount;
    WithCountMeans(vs, k);
    if WithCount(vs, k) != [] {
      var x := SomeMember(WithCount(vs, k));
    }
  }

  // ----- What the high cards are -----

  /** The ranks held, each once: more copies first, and higher ranks first among equals. */
  ghost predicate ByCountThenRank(ranks: multiset<int>, hs: seq<int>) {
    && (forall v :: v in hs <==> ranks[v] > 0)
    && forall i, j :: 0 <= i < j < |hs| ==>
         ranks[hs[i]] > ranks[hs[j]] || (ranks[hs[i]] == ranks[hs[j]] && hs[i] > hs[j])
  }

  /** The ranks held exactly k times, highest first. */
  ghost predicate Lists(xs: seq<int>, ranks: multiset<int>, k: nat) {
    && (forall x :: x in xs <==> ranks[x] == k)
    && forall i, j :: 0 <= i < j < |xs| ==> xs[i] > xs[j]
  }

  lemma TwoLists(ranks: multiset<int>, more: seq<int>, fewer: seq<int>, a: nat, b: nat)
    requires a > b > 0 && Lists(more, ranks, a) && Lists(fewer, ranks, b)
    requires forall v :: ranks[v] > 0 ==> ranks[v] == a || ranks[v] == b
    ensures ByCountThenRank(ranks, more + fewer)
  {
    var hs := more + fewer;
    forall i, j | 0 <= i < j < |hs|
      ensures ranks[hs[i]] > ranks[hs[j]] || (ranks[hs[i]] == ranks[hs[j]] && hs[i] > hs[j])
    {
      assert i < |more| ==> more[i] in more;
      assert i >= |more| ==> fewer[i - |more|] in fewer;
      assert j < |more| ==> more[j] in more;
      assert j >= |more| ==> fewer[j - |more|] in fewer;
    }
  }

  lemma NoneListed(ranks: multiset<int>, xs: seq<int>, k: nat)
    requires Lists(xs, ranks, k) && xs == []
    ensures forall v :: ranks[v] != k
  {
  }

  /** With no rank held twice, the ranks themselves are the list. */
  lemma Singles(vs: seq<int>)
    requires Descending(vs) && forall v :: multiset(vs)[v] <= 1
    ensures ByCountThenRank(multiset(vs), vs)
  {
    var ranks := multiset(vs);
    assert forall v :: v in vs <==> v in ranks;
    forall i, j | 0 <= i < j < |vs| ensures vs[i] > vs[j] && ranks[vs[i]] == ranks[vs[j]] {
      assert vs[i] in ranks && vs[j] in ranks;
      if vs[i] == vs[j] {
        TwoCopies(vs, i, j);
      }
    }
  }

  /** What the listed ranks of a hand mean, category by category. */
  ghost predicate HighCardsFit(r: HandRanking, hs: seq<int>, ranks: multiset<int>) {
    match r
    case Straight => |hs| == 1 && RunsTo(ranks, hs[0])
    case StraightFlush => |hs| == 1 && RunsTo(ranks, hs[0])
    case RoyalFlush => hs == [14]
    case Flush => Descending(hs) && multiset(hs) == ranks
    case _ => ByCountThenRank(ranks, hs)
  }

  /** The list the cascade makes of a hand that is neither straight nor flush. */
  function Grouped(vs: seq<int>, fours: seq<int>, threes: seq<int>, twos: seq<int>, ones: seq<int>): seq<int> {
    if fours != [] then fours + ones
    else if threes != [] && twos != [] then threes + twos
    else if threes != [] then threes + ones
    else if twos != [] then twos + ones
    else vs
  }

  lemma GroupedFit(vs: seq<int>, fours: seq<int>, threes: seq<int>, twos: seq<int>, ones: seq<int>)
    requires |vs| == 5 && Descending(vs)
    requires forall v :: multiset(vs)[v] <= 4
    requires Lists(fours, multiset(vs), 4) && Lists(threes, multiset(vs), 3)
    requires Lists(twos, multiset(vs), 2) && Lists(ones, multiset(vs), 1)
    requires |ones| + 2 * |twos| + 3 * |threes| + 4 * |fours| <= 5
    ensures ByCountThenRank(multiset(vs), Grouped(vs, fours, threes, twos, ones))
  {
    hide Lists, ByCountThenRank, Descending;
    var ranks := multiset(vs);
    if fours != [] {
      NoneListed(ranks, threes, 3);
      NoneListed(ranks, twos, 2);
      TwoLists(ranks, fours, ones, 4, 1);
    } else if threes != [] && twos != [] {
      NoneListed(ranks, fours, 4);
      NoneListed(ranks, ones, 1);
      TwoLists(ranks, threes, twos, 3, 2);
    } else if threes != [] {
      NoneListed(ranks, fours, 4);
      NoneListed(ranks, twos, 2);
      TwoLists(ranks, threes, ones, 3, 1);
    } else if twos != [] {
      NoneListed(ranks, fours, 4);
      NoneListed(ranks, threes, 3);
      TwoLists(ranks, twos, ones, 2, 1);
    } else {
      NoneListed(ranks, fours, 4);
      NoneListed(ranks, threes, 3);
      NoneListed(ranks, twos, 2);
      Singles(vs);
    }
  }

  lemma CascadeHighCards(vs: seq<int>, isFlush: bool, high: int,
                         fours: seq<int>, threes: seq<int>, twos: seq<int>, ones: seq<int>)
    requires high != 0 ==> RunsTo(multiset(vs), high)
    requires Descending(vs) && ByCountThenRank(multiset(vs), Grouped(vs, fours, threes, twos, ones))
    ensures var (r, hs) := Cascade(vs, isFlush, high, fours, threes, twos, ones);
            HighCardsFit(r, hs, multiset(vs))
  {
    hide RunsTo, ByCountThenRank, Descending;
  }

  /** The high cards of five cards from one deck: the top of a straight, all the ranks of a
      flush, and otherwise each rank once, by how often it is held and then by height. */
  lemma HighCardsMean(cards: seq<Card>)
    requires |cards| == 5 && forall v :: multiset(Values(cards))[v] <= 4
    ensures HighCardsFit(EvaluateFive(cards).ranking, EvaluateFive(cards).highCards, multiset(Values(cards)))
  {
    hide WithCount, StraightHigh, SortByRankDesc, Cascade, HighCardsFit, RunsTo;
    var sorted := SortByRankDesc(cards);
    var vs := Values(sorted);
    SortFacts(cards);
    ValuesFollowCards(sorted, cards);
    CountsAddUp(vs);
    WithCountMeans(vs, 4);
    WithCountMeans(vs, 3);
    WithCountMeans(vs, 2);
    WithCountMeans(vs, 1);
    StraightIsARun(vs, StraightHigh(vs));
    GroupedFit(vs, WithCount(vs, 4), WithCount(vs, 3), WithCount(vs, 2), WithCount(vs, 1));
    CascadeHighCards(vs, SameSuit(sorted), StraightHigh(vs),
                     WithCount(vs, 4), WithCount(vs, 3), WithCount(vs, 2), WithCount(vs, 1));
  }

  /** The ranking and the high cards depend on which cards are held, not on their order. */
  lemma FiveIsOrderFree(a: seq<Card>, b: seq<Card>)
    requires |a| == |b| == 5 && multiset(a) == multiset(b)
    ensures EvaluateFive(a).ranking == EvaluateFive(b).ranking
    ensures EvaluateFive(a).highCards == EvaluateFive(b).highCards
  {
    hide Cascade, WithCount, StraightHigh, SortByRankDesc, AllOneSuit;
    var sa, sb := SortByRankDesc(a), SortByRankDesc(b);
    SortFacts(a);
    SortFacts(b);
    ValuesFollowCards(sa, sb);
    DescendingIsUnique(Values(sa), Values(sb));
    SuitsOfSorted(a);
    SuitsOfSorted(b);
  }

  // ----- Comparing hands -----

  function HighCardCount(r: HandRanking): nat {
    match r
    case RoyalFlush => 1
    case StraightFlush => 1
    case FourOfAKind => 2
    case FullHouse => 2
    case Flush => 5
    case Straight => 1
    case ThreeOfAKind => 3
    case TwoPair => 3
    case Pair => 4
    case HighCard => 5
  }

  /** Equal rank values imply equally many high cards: what makes comparison an order. */
  ghost predicate WellFormed(e: HandEvaluation) {
    |e.highCards| == HighCardCount(e.ranking)
  }

  /** The first difference of the high cards, from index i on. */
  function CompareHighCards(a: seq<int>, b: seq<int>, i: nat): int
    requires i <= Min(|a|, |b|)
    decreases Min(|a|, |b|) - i
  {
    if i == Min(|a|, |b|) then 0
    else if a[i] != b[i] then a[i] - b[i]
    else CompareHighCards(a, b, i + 1)
  }

  function Compare(a: HandEvaluation, b: HandEvaluation): int {
    if RankValue(a.ranking) != RankValue(b.ranking) then RankValue(a.ranking) - RankValue(b.ranking)
    else CompareHighCards(a.highCards, b.highCards, 0)
  }

  /** compareHands, with the source's loop over the high cards. */
  method CompareHands(a: HandEvaluation, b: HandEvaluation) returns (c: int)
    ensures c == Compare(a, b)
  {
    if RankValue(a.ranking) != RankValue(b.ranking) {
      return RankValue(a.ranking) - RankValue(b.ranking);
    }
    var i := 0;
    while i < Min(|a.highCards|, |b.highCards|)
      invariant 0 <= i <= Min(|a.highCards|, |b.highCards|)
      invariant Compare(a, b) == CompareHighCards(a.highCards, b.highCards, i)
    {
      if a.highCards[i] != b.highCards[i] {
        return a.highCards[i] - b.highCards[i];
      }
      i := i + 1;
    }
    return 0;
  }

  lemma {:induction false} HighCardsFlip(a: seq<int>, b: seq<int>, i: nat)
    requires i <= Min(|a|, |b|)
    ensures CompareHighCards(a, b, i) == -CompareHighCards(b, a, i)
    decreases Min(|a|, |b|) - i
  {
    if i < Min(|a|, |b|) && a[i] == b[i] {
      HighCardsFlip(a, b, i + 1);
    }
  }

  lemma {:induction false} HighCardsChain(a: seq<int>, b: seq<int>, c: seq<int>, i: nat)
    requires |a| == |b| == |c| && i <= |a|
    requires CompareHighCards(a, b, i) >= 0 && CompareHighCards(b, c, i) >= 0
    ensures CompareHighCards(a, c, i) >= 0
    ensures CompareHighCards(a, c, i) == 0 ==>
              CompareHighCards(a, b, i) == 0 && CompareHighCards(b, c, i) == 0
    decreases |a| - i
  {
    if i < |a| && a[i] == b[i] == c[i] {
      HighCardsChain(a, b, c, i + 1);
    }
  }

  lemma {:induction false} HighCardsTie(a: seq<int>, b: seq<int>, i: nat)
    requires |a| == |b| && i <= |a|
    ensures CompareHighCards(a, b, i) == 0 <==> a[i..] == b[i..]
    decreases |a| - i
  {
    if i < |a| {
      assert a[i..] == [a[i]] + a[i + 1..] && b[i..] == [b[i]] + b[i + 1..];
      HighCardsTie(a, b, i + 1);
      assert a[i..] == b[i..] ==> a[i..][0] == b[i..][0] && a[i..][1..] == b[i..][1..];
    }
  }

  /** Comparing in the other order flips the sign: the order is total. */
  lemma CompareFlips(a: HandEvaluation, b: HandEvaluation)
    ensures Compare(a, b) == -Compare(b, a)
  {
    HighCardsFlip(a.highCards, b.highCards, 0);
  }

  /** The order is transitive on evaluations, and strict steps stay strict. */
  lemma CompareChains(a: HandEvaluation, b: HandEvaluation, c: HandEvaluation)
    requires WellFormed(a) && WellFormed(b) && WellFormed(c)
    requires Compare(a, b) >= 0 && Compare(b, c) >= 0
    ensures Compare(a, c) >= 0
    ensures Compare(a, c) == 0 ==> Compare(a, b) == 0 && Compare(b, c) == 0
  {
    if RankValue(a.ranking) == RankValue(b.ranking) == RankValue(c.ranking) {
      HighCardsChain(a.highCards, b.highCards, c.highCards, 0);
    }
  }

  /** Ties are exactly the hands of one ranking with the same high cards. */
  lemma TiesAreEqual(a: HandEvaluation, b: HandEvaluation)
    requires WellFormed(a) && WellFormed(b)
    ensures Compare(a, b) == 0 <==> a.ranking == b.ranking && a.highCards == b.highCards
  {
    if a.ranking == b.ranking {
      HighCardsTie(a.highCards, b.highCards, 0);
    }
  }

  /** The categories in the order of poker, a straight above three of a kind and so on. */
  lemma RankOrder()
    ensures RankValue(HighCard) < RankValue(Pair) < RankValue(TwoPair) < RankValue(ThreeOfAKind)
    ensures RankValue(ThreeOfAKind) < RankValue(Straight) < RankValue(Flush) < RankValue(FullHouse)
    ensures RankValue(FullHouse) < RankValue(FourOfAKind) < RankValue(StraightFlush) < RankValue(RoyalFlush)
  {
  }

  lemma {:induction false} HigherCardsWin(a: seq<int>, b: seq<int>, i: nat)
    requires |a| == |b| && i <= |a| && a[..i] == b[..i]
    ensures CompareHighCards(a, b, i) > 0 <==> exists k :: i <= k < |a| && a[..k] == b[..k] && a[k] > b[k]
    decreases |a| - i
  {
    if i < |a| {
      assert forall k :: i < k < |a| && a[..k] == b[..k] ==> a[..k][i] == b[..k][i];
      if a[i] == b[i] {
        assert a[..i + 1] == a[..i] + [a[i]] && b[..i + 1] == b[..i] + [b[i]];
        HigherCardsWin(a, b, i + 1);
      }
    }
  }

  /** The higher category wins, and within one the higher card at the first place that differs. */
  lemma HigherHandWins(a: HandEvaluation, b: HandEvaluation)
    requires WellFormed(a) && WellFormed(b)
    ensures Compare(a, b) > 0
            <==> RankValue(a.ranking) > RankValue(b.ranking)
                 || (a.ranking == b.ranking
                     && exists k :: 0 <= k < |a.highCards| && a.highCards[..k] == b.highCards[..k]
                                    && a.highCards[k] > b.highCards[k])
  {
    hide CompareHighCards;
    if a.ranking == b.ranking {
      HigherCardsWin(a.highCards, b.highCards, 0);
    }
  }

  // ----- The best five of more than five cards -----

  function PrependAll(c: Card, combos: seq<seq<Card>>): (r: seq<seq<Card>>)
    ensures |r| == |combos| && forall i :: 0 <= i < |r| ==> r[i] == [c] + combos[i]
  {
    seq(|combos|, i requires 0 <= i < |combos| => [c] + combos[i])
  }

  function Combinations(cards: seq<Card>, k: nat): (r: seq<seq<Card>>)
    ensures forall i :: 0 <= i < |r| ==> |r[i]| == k
    decreases |cards|
  {
    if k == 0 then [[]]
    else if |cards| < k then []
    else PrependAll(cards[0], Combinations(cards[1..], k - 1)) + Combinations(cards[1..], k)
  }

  lemma FewCards(cards: seq<Card>, k: nat)
    requires 0 < k
    ensures |Combinations(cards, k)| == if |cards| < k then 0
            else |Combinations(cards[1..], k - 1)| + |Combinations(cards[1..], k)|
  {
  }

  lemma {:induction false} CombinationsAreSubsets(cards: seq<Card>, k: nat, i: nat)
    requires i < |Combinations(cards, k)|
    ensures multiset(Combinations(cards, k)[i]) <= multiset(cards)
    decreases |cards|
  {
    hide Combinations;
    NoCombination(cards);
    if k > 0 {
      FewCards(cards, k);
      var rest := cards[1..];
      MultisetCons(cards);
      var n := |Combinations(rest, k - 1)|;
      if i < n {
        CombinationsAreSubsets(rest, k - 1, i);
        WithFirst(cards, k, i);
      } else {
        CombinationsAreSubsets(rest, k, i - n);
        WithoutFirstAt(cards, k, i - n);
      }
    }
  }

  /** Every choice of k of the cards is listed, in some order. */
  lemma {:induction false} CombinationsAreComplete(cards: seq<Card>, k: nat, hand: seq<Card>) returns (i: nat)
    requires |hand| == k && multiset(hand) <= multiset(cards)
    ensures i < |Combinations(cards, k)| && multiset(Combinations(cards, k)[i]) == multiset(hand)
    decreases |cards|
  {
    hide Combinations;
    SubMultisetSize(hand, cards);
    NoCombination(cards);
    if k == 0 {
      i := 0;
    } else {
      var first, rest := cards[0], cards[1..];
      MultisetCons(cards);
      if first in hand {
        var others := WithoutFirst(hand, cards);
        i := CombinationsAreComplete(rest, k - 1, others);
        WithFirst(cards, k, i);
      } else {
        NotTheFirst(hand, first, multiset(rest));
        var n := |Combinations(rest, k - 1)|;
        var j := CombinationsAreComplete(rest, k, hand);
        i := n + j;
        WithoutFirstAt(cards, k, j);
      }
    }
  }

  lemma NoCombination(cards: seq<Card>)
    ensures Combinations(cards, 0) == [[]]
  {
  }

  lemma WithFirst(cards: seq<Card>, k: nat, i: nat)
    requires 0 < k <= |cards| && i < |Combinations(cards[1..], k - 1)|
    ensures i < |Combinations(cards, k)|
    ensures Combinations(cards, k)[i] == [cards[0]] + Combinations(cards[1..], k - 1)[i]
    ensures multiset(Combinations(cards, k)[i])
         == multiset(Combinations(cards[1..], k - 1)[i]) + multiset{cards[0]}
  {
  }

  lemma WithoutFirstAt(cards: seq<Card>, k: nat, i: nat)
    requires 0 < k <= |cards| && i < |Combinations(cards[1..], k)|
    ensures |Combinations(cards[1..], k - 1)| + i < |Combinations(cards, k)|
    ensures Combinations(cards, k)[|Combinations(cards[1..], k - 1)| + i] == Combinations(cards[1..], k)[i]
  {
  }

  lemma WithoutFirst(hand: seq<Card>, cards: seq<Card>) returns (others: seq<Card>)
    requires cards != [] && cards[0] in hand && multiset(hand) <= multiset(cards)
    ensures |others| == |hand| - 1
    ensures multiset(others) <= multiset(cards[1..])
    ensures multiset(hand) == multiset(others) + multiset{cards[0]}
  {
    var j :| 0 <= j < |hand| && hand[j] == cards[0];
    others := hand[..j] + hand[j + 1..];
    RemoveAt(hand, j);
    MultisetCons(cards);
    MultisetCancel(multiset(others), multiset(cards[1..]), multiset{cards[0]});
  }

  lemma NotTheFirst(hand: seq<Card>, first: Card, rest: multiset<Card>)
    requires first !in hand && multiset(hand) <= multiset{first} + rest
    ensures multiset(hand) <= rest
  {
    assert first !in multiset(hand);
  }

  /** The first of the best hands in the list, as the source's loop keeps it. */
  function BestOf(evals: seq<HandEvaluation>): HandEvaluation
    requires evals != []
  {
    var e := evals[|evals| - 1];
    if |evals| == 1 then e
    else
      var best := BestOf(evals[..|evals| - 1]);
      if Compare(e, best) > 0 then e else best
  }

  function EvaluateAll(combos: seq<seq<Card>>): (r: seq<HandEvaluation>)
    requires forall i :: 0 <= i < |combos| ==> |combos[i]| == 5
    ensures |r| == |combos| && forall i :: 0 <= i < |r| ==> r[i] == EvaluateFive(combos[i])
  {
    seq(|combos|, i requires 0 <= i < |combos| => EvaluateFive(combos[i]))
  }

  lemma SomeCombination(cards: seq<Card>, k: nat)
    requires k <= |cards|
    ensures Combinations(cards, k) != []
  {
    var i := CombinationsAreComplete(cards, k, cards[..k]) by {
      assert cards == cards[..k] + cards[k..];
    }
  }

  function BestHand(cards: seq<Card>): HandEvaluation
    requires |cards| >= 5
  {
    SomeCombination(cards, 5);
    BestOf(EvaluateAll(Combinations(cards, 5)))
  }

  /** Fewer than five cards: their sorted ranks, called a pair when the first two are equal. */
  function ShortHand(cards: seq<Card>): HandEvaluation {
    if |cards| < 2 then HandEvaluation(HighCard, [], [])
    else
      var sorted := SortByRankDesc(cards);
      var values := Values(sorted);
      HandEvaluation(if values[0] == values[1] then Pair else HighCard, values, sorted)
  }

  /** From two cards on, such a hand lists every rank in descending order, and is a pair exactly when
      the highest rank is held twice: a lower pair goes unseen. */
  lemma ShortHandMeans(cards: seq<Card>)
    requires |cards| >= 2
    ensures var e := ShortHand(cards);
            && Descending(e.highCards) && multiset(e.highCards) == multiset(Values(cards))
            && multiset(e.bestFiveCards) == multiset(cards) && e.highCards == Values(e.bestFiveCards)
            && (e.ranking == Pair <==>
                exists v :: multiset(Values(cards))[v] >= 2 && forall c :: c in cards ==> c.rank <= v)
  {
    hide SortByRankDesc;
    var sorted := SortByRankDesc(cards);
    SortFacts(cards);
    ValuesFollowCards(sorted, cards);
    TopTwo(Values(sorted));
    forall c | c in cards ensures c.rank <= sorted[0].rank {
      assert c in multiset(sorted);
      var i :| 0 <= i < |sorted| && sorted[i] == c;
      assert Values(sorted)[0] >= Values(sorted)[i];
    }
    assert sorted[0] in multiset(cards);
    if v :| multiset(Values(cards))[v] >= 2 && forall c :: c in cards ==> c.rank <= v {
      assert v in multiset(Values(cards)) && v in Values(cards);
    }
  }

  /** The first of a descending sequence is in it twice exactly when the second is the same. */
  lemma TopTwo(vs: seq<int>)
    requires Descending(vs) && |vs| >= 2
    ensures multiset(vs)[vs[0]] >= 2 <==> vs[0] == vs[1]
  {
    var tail := vs[2..];
    assert vs == [vs[0], vs[1]] + tail;
    if vs[0] != vs[1] {
      assert forall i :: 0 <= i < |tail| ==> tail[i] == vs[i + 2] && vs[i + 2] <= vs[1];
      assert vs[0] !in tail;
    }
  }

  /** A concrete unseen pair: an ace and two kings are called ace high. */
  lemma LowerPairIsUnseen()
    ensures var cards := [Card(Spades, 14), Card(Hearts, 13), Card(Clubs, 13)];
            ShortHand(cards).ranking == HighCard && multiset(Values(cards))[13] == 2
  {
    var cards := [Card(Spades, 14), Card(Hearts, 13), Card(Clubs, 13)];
    assert Values(cards) == [14, 13, 13];
    assert multiset([14, 13, 13]) == multiset{14, 13, 13};
    assert cards[0] in cards && cards[0].rank == 14;
    assert forall v: int :: multiset{14, 13, 13}[v] >= 2 ==> v == 13;
    ShortHandMeans(cards);
  }

  /** evaluateHand, with the source's loop over the combinations. */
  method EvaluateHand(holeCards: seq<Card>, communityCards: seq<Card>) returns (e: HandEvaluation)
    ensures |holeCards| + |communityCards| >= 5 ==> e == BestHand(holeCards + communityCards)
    ensures |holeCards| + |communityCards| < 5 ==> e == ShortHand(holeCards + communityCards)
  {
    hide BestOf, SortByRankDesc;
    var allCards := holeCards + communityCards;
    if |allCards| < 5 {
      if |allCards| >= 2 {
        var sorted := SortByRankDesc(allCards);
        var values := Values(sorted);
        if values[0] == values[1] {
          return HandEvaluation(Pair, values, sorted);
        }
        return HandEvaluation(HighCard, values, sorted);
      }
      return HandEvaluation(HighCard, [], []);
    }
    var fiveCardCombos := Combinations(allCards, 5);
    SomeCombination(allCards, 5);
    e := KeepBest(fiveCardCombos);
  }

  lemma BestOfStep(evals: seq<HandEvaluation>, i: nat)
    requires i < |evals|
    ensures BestOf(evals[..i + 1])
         == if i == 0 || Compare(evals[i], BestOf(evals[..i])) > 0 then evals[i] else BestOf(evals[..i])
  {
    assert evals[..i + 1][..i] == evals[..i];
  }

  method KeepBest(fiveCardCombos: seq<seq<Card>>) returns (e: HandEvaluation)
    requires fiveCardCombos != [] && forall i :: 0 <= i < |fiveCardCombos| ==> |fiveCardCombos[i]| == 5
    ensures e == BestOf(EvaluateAll(fiveCardCombos))
  {
    hide EvaluateFive, Compare;
    ghost var evals := EvaluateAll(fiveCardCombos);
    var bestHand: Option<HandEvaluation> := None;
    for i := 0 to |fiveCardCombos|
      invariant bestHand == if i == 0 then None else Some(BestOf(evals[..i]))
    {
      var evaluation := EvaluateFiveCards(fiveCardCombos[i]);
      BestOfStep(evals, i);
      if bestHand.None? {
        bestHand := Some(evaluation);
      } else {
        var c := CompareHands(evaluation, bestHand.value);
        if c > 0 {
          bestHand := Some(evaluation);
        }
      }
    }
    assert evals[..|evals|] == evals;
    e := bestHand.value;
  }

  /** Of equally good evaluations the first is kept. */
  lemma {:induction false} FirstBestIsKept(evals: seq<HandEvaluation>) returns (k: nat)
    requires evals != [] && forall i :: 0 <= i < |evals| ==> WellFormed(evals[i])
    ensures k < |evals| && evals[k] == BestOf(evals)
    ensures forall i :: 0 <= i < k ==> Compare(evals[k], evals[i]) > 0
  {
    hide Compare, WellFormed;
    var n := |evals| - 1;
    if n == 0 {
      k := 0;
    } else {
      BestOfIsBest(evals[..n]);
      k := FirstBestIsKept(evals[..n]);
      if Compare(evals[n], BestOf(evals[..n])) > 0 {
        k := n;
        forall i | 0 <= i < n ensures Compare(evals[n], evals[i]) > 0 {
          assert evals[..n][i] in evals[..n];
          CompareChains(evals[n], BestOf(evals[..n]), evals[i]);
        }
      }
    }
  }

  lemma {:induction false} BestOfIsBest(evals: seq<HandEvaluation>)
    requires evals != [] && forall i :: 0 <= i < |evals| ==> WellFormed(evals[i])
    ensures WellFormed(BestOf(evals))
    ensures BestOf(evals) in evals
    ensures forall e :: e in evals ==> Compare(BestOf(evals), e) >= 0
  {
    var n := |evals| - 1;
    var last := evals[n];
    CompareFlips(last, last);
    if n > 0 {
      var init := evals[..n];
      BestOfIsBest(init);
      CompareFlips(last, BestOf(init));
      forall e | e in evals ensures Compare(BestOf(evals), e) >= 0 {
        if e in init && Compare(last, BestOf(init)) > 0 {
          CompareChains(last, BestOf(init), e);
        }
      }
    }
  }

  /** evaluateHand is attained by five of the cards. */
  lemma BestHandIsAttained(cards: seq<Card>) returns (hand: seq<Card>)
    requires |cards| >= 5
    ensures |hand| == 5 && multiset(hand) <= multiset(cards)
    ensures BestHand(cards) == EvaluateFive(hand) && WellFormed(BestHand(cards))
  {
    var combos := Combinations(cards, 5);
    var evals := EvaluateAll(combos);
    SomeCombination(cards, 5);
    AllWellFormed(combos);
    BestOfIsBest(evals);
    var i :| 0 <= i < |evals| && evals[i] == BestOf(evals);
    CombinationsAreSubsets(cards, 5, i);
    hand := combos[i];
  }

  lemma AllWellFormed(combos: seq<seq<Card>>)
    requires forall i :: 0 <= i < |combos| ==> |combos[i]| == 5
    ensures forall i :: 0 <= i < |combos| ==> WellFormed(EvaluateAll(combos)[i])
  {
    forall i | 0 <= i < |combos| ensures WellFormed(EvaluateAll(combos)[i]) {
      HighestCategory(combos[i]);
    }
  }

  /** No five of the cards beat evaluateHand. */
  lemma NoFiveBeatIt(cards: seq<Card>, hand: seq<Card>)
    requires |cards| >= 5 && |hand| == 5 && multiset(hand) <= multiset(cards)
    ensures Compare(BestHand(cards), EvaluateFive(hand)) >= 0
  {
    var combos := Combinations(cards, 5);
    var evals := EvaluateAll(combos);
    AllWellFormed(combos);
    SomeCombination(cards, 5);
    BestOfIsBest(evals);
    var j := CombinationsAreComplete(cards, 5, hand);
    assert evals[j] in evals;
    FiveIsOrderFree(combos[j], hand);
  }

  /** More cards never make the hand worse. */
  lemma MoreCardsNeverHurt(fewer: seq<Card>, more: seq<Card>)
    requires |fewer| >= 5 && multiset(fewer) <= multiset(more)
    ensures |more| >= 5 && Compare(BestHand(more), BestHand(fewer)) >= 0
  {
    SubMultisetSize(fewer, more);
    var hand := BestHandIsAttained(fewer);
    NoFiveBeatIt(more, hand);
  }

  /** The best hand depends on which cards are held, not on where they lie. */
  lemma BestHandIsOrderFree(a: seq<Card>, b: seq<Card>)
    requires |a| >= 5 && multiset(a) == multiset(b)
    ensures |b| >= 5
    ensures BestHand(a).ranking == BestHand(b).ranking
    ensures BestHand(a).highCards == BestHand(b).highCards
  {
    MoreCardsNeverHurt(a, b);
    MoreCardsNeverHurt(b, a);
    CompareFlips(BestHand(a), BestHand(b));
    var ha := BestHandIsAttained(a);
    var hb := BestHandIsAttained(b);
    TiesAreEqual(BestHand(a), BestHand(b));
  }

  // ----- The source's group table -----

  datatype Group = Group(val: int, count: nat)

  predicate Before(a: Group, b: Group) {
    a.count > b.count || (a.count == b.count && a.val > b.val)
  }

  /** Object.entries lists integer keys in ascending order; ranks run from 2 to 14. */
  function Entries(groups: map<int, nat>, v: int): (r: seq<Group>)
    requires v <= 15
    ensures forall g :: g in r <==> v <= g.val <= 14 && g.val in groups && groups[g.val] == g.count
    ensures forall i, j :: 0 <= i < j < |r| ==> r[i].val < r[j].val
    decreases 15 - v
  {
    if v == 15 then []
    else
      var rest := Entries(groups, v + 1);
      assert forall i :: 0 <= i < |rest| ==> rest[i] in rest;
      if v in groups then [Group(v, groups[v])] + rest else rest
  }

  function InsertGroup(gs: seq<Group>, g: Group): (r: seq<Group>)
    ensures forall x :: x in r <==> x == g || x in gs
  {
    if gs == [] || Before(g, gs[0]) then [g] + gs
    else [gs[0]] + InsertGroup(gs[1..], g)
  }

  /** The source's sort by count, then by value, both descending. */
  function SortGroups(gs: seq<Group>): (r: seq<Group>)
    ensures forall x :: x in r <==> x in gs
  {
    if gs == [] then [] else InsertGroup(SortGroups(gs[1..]), gs[0])
  }

  ghost predicate Ordered(gs: seq<Group>) {
    forall i, j :: 0 <= i < j < |gs| ==> Before(gs[i], gs[j])
  }

  lemma {:induction false} InsertKeepsOrder(gs: seq<Group>, g: Group)
    requires Ordered(gs) && g !in gs
    ensures Ordered(InsertGroup(gs, g))
  {
    if gs != [] && !Before(g, gs[0]) {
      InsertKeepsOrder(gs[1..], g);
      var rest := InsertGroup(gs[1..], g);
      forall i | 0 <= i < |rest| ensures Before(gs[0], rest[i]) {
        assert rest[i] in rest;
        if rest[i] != g {
          var k :| 0 <= k < |gs[1..]| && gs[1..][k] == rest[i];
        }
      }
    } else if gs != [] {
      forall i | 0 <= i < |gs| ensures Before(g, gs[i]) {
      }
    }
  }

  lemma {:induction false} SortIsOrdered(gs: seq<Group>)
    requires forall i, j :: 0 <= i < j < |gs| ==> gs[i] != gs[j]
    ensures Ordered(SortGroups(gs))
  {
    if gs != [] {
      SortIsOrdered(gs[1..]);
      InsertKeepsOrder(SortGroups(gs[1..]), gs[0]);
    }
  }

  lemma {:induction false} OrderedIsUnique(a: seq<Group>, b: seq<Group>)
    requires Ordered(a) && Ordered(b)
    requires forall x :: x in a <==> x in b
    ensures a == b
  {
    if a == [] {
      assert forall i :: 0 <= i < |b| ==> b[i] in b;
    } else {
      assert a[0] in a;
      assert b != [];
      assert b[0] in b;
      assert a[0] == b[0];
      assert a == [a[0]] + a[1..] && b == [b[0]] + b[1..];
      assert a[0] !in a[1..] && b[0] !in b[1..];
      forall x ensures x in a[1..] <==> x in b[1..] {
        assert x in a <==> x == a[0] || x in a[1..];
        assert x in b <==> x == b[0] || x in b[1..];
      }
      OrderedIsUnique(a[1..], b[1..]);
    }
  }

  function Tagged(vals: seq<int>, k: nat): (r: seq<Group>)
    ensures |r| == |vals| && forall i :: 0 <= i < |r| ==> r[i] == Group(vals[i], k)
  {
    seq(|vals|, i requires 0 <= i < |vals| => Group(vals[i], k))
  }

  function RankedOf(w5: seq<int>, w4: seq<int>, w3: seq<int>, w2: seq<int>, w1: seq<int>): seq<Group> {
    Tagged(w5, 5) + Tagged(w4, 4) + Tagged(w3, 3) + Tagged(w2, 2) + Tagged(w1, 1)
  }

  /** The group table in the order the source sorts it. */
  function Ranked(vs: seq<int>): seq<Group> {
    RankedOf(WithCount(vs, 5), WithCount(vs, 4), WithCount(vs, 3), WithCount(vs, 2), WithCount(vs, 1))
  }

  lemma TaggedMembers(vs: seq<int>, k: nat)
    requires Descending(vs) && k > 0
    ensures forall g :: g in Tagged(WithCount(vs, k), k) <==> g.count == k && multiset(vs)[g.val] == k
    ensures Ordered(Tagged(WithCount(vs, k), k))
  {
    WithCountMeans(vs, k);
    var w := WithCount(vs, k);
    forall g ensures g in Tagged(w, k) <==> g.count == k && multiset(vs)[g.val] == k {
      if g.val in w && g.count == k {
        var i :| 0 <= i < |w| && w[i] == g.val;
        assert Tagged(w, k)[i] == g;
      }
      if g in Tagged(w, k) {
        var i :| 0 <= i < |w| && Tagged(w, k)[i] == g;
        assert w[i] in w;
      }
    }
  }

  lemma OrderedConcat(a: seq<Group>, b: seq<Group>)
    requires Ordered(a) && Ordered(b)
    requires forall g, h :: g in a && h in b ==> g.count > h.count
    ensures Ordered(a + b)
  {
    forall i, j | 0 <= i < j < |a + b| ensures Before((a + b)[i], (a + b)[j]) {
      if i < |a| <= j {
        assert a[i] in a && b[j - |a|] in b;
      }
    }
  }

  lemma RankedIsSorted(vs: seq<int>)
    requires Descending(vs) && |vs| == 5
    ensures Ordered(Ranked(vs))
    ensures forall g :: g in Ranked(vs) <==> g.count > 0 && multiset(vs)[g.val] == g.count
  {
    hide WithCount, Ordered;
    var t5, t4, t3, t2, t1 := Tagged(WithCount(vs, 5), 5), Tagged(WithCount(vs, 4), 4),
      Tagged(WithCount(vs, 3), 3), Tagged(WithCount(vs, 2), 2), Tagged(WithCount(vs, 1), 1);
    TaggedMembers(vs, 5);
    TaggedMembers(vs, 4);
    TaggedMembers(vs, 3);
    TaggedMembers(vs, 2);
    TaggedMembers(vs, 1);
    OrderedConcat(t5, t4);
    OrderedConcat(t5 + t4, t3);
    OrderedConcat(t5 + t4 + t3, t2);
    OrderedConcat(t5 + t4 + t3 + t2, t1);
    forall g: Group | g.count > 0 && multiset(vs)[g.val] == g.count ensures g.count <= 5 {
      MultiplicityBound(vs, g.val);
    }
  }

  lemma {:induction false} MultiplicityBound(vs: seq<int>, v: int)
    ensures multiset(vs)[v] <= |vs|
  {
    if vs != [] {
      var k := |vs| - 1;
      assert vs == vs[..k] + [vs[k]];
      MultiplicityBound(vs[..k], v);
    }
  }

  function ValuesWith(counts: seq<Group>, k: nat): seq<int> {
    if counts == [] then []
    else (if counts[0].count == k then [counts[0].val] else []) + ValuesWith(counts[1..], k)
  }

  lemma {:induction false} ValuesWithConcat(a: seq<Group>, b: seq<Group>, k: nat)
    ensures ValuesWith(a + b, k) == ValuesWith(a, k) + ValuesWith(b, k)
  {
    if a == [] {
      assert a + b == b;
    } else {
      assert (a + b)[1..] == a[1..] + b && (a + b)[0] == a[0];
      ValuesWithConcat(a[1..], b, k);
      var head := if a[0].count == k then [a[0].val] else [];
      assert (head + ValuesWith(a[1..], k)) + ValuesWith(b, k) == head + (ValuesWith(a[1..], k) + ValuesWith(b, k));
    }
  }

  lemma {:induction false} ValuesWithTagged(vals: seq<int>, j: nat, k: nat)
    ensures ValuesWith(Tagged(vals, j), k) == if j == k then vals else []
  {
    if vals != [] {
      assert Tagged(vals, j)[1..] == Tagged(vals[1..], j);
      ValuesWithTagged(vals[1..], j, k);
    }
  }

  lemma ValuesWithRanked(w5: seq<int>, w4: seq<int>, w3: seq<int>, w2: seq<int>, w1: seq<int>, k: nat)
    ensures k == 1 ==> ValuesWith(RankedOf(w5, w4, w3, w2, w1), k) == w1
    ensures k == 2 ==> ValuesWith(RankedOf(w5, w4, w3, w2, w1), k) == w2
  {
    ValuesWithTagged(w5, 5, k);
    ValuesWithTagged(w4, 4, k);
    ValuesWithTagged(w3, 3, k);
    ValuesWithTagged(w2, 2, k);
    ValuesWithTagged(w1, 1, k);
    ValuesWithConcat(Tagged(w5, 5), Tagged(w4, 4), k);
    ValuesWithConcat(Tagged(w5, 5) + Tagged(w4, 4), Tagged(w3, 3), k);
    ValuesWithConcat(Tagged(w5, 5) + Tagged(w4, 4) + Tagged(w3, 3), Tagged(w2, 2), k);
    ValuesWithConcat(Tagged(w5, 5) + Tagged(w4, 4) + Tagged(w3, 3) + Tagged(w2, 2), Tagged(w1, 1), k);
  }

  /** The loop that fills the group table, and its sorted entries. */
  method CountRanks(values: seq<int>) returns (counts: seq<Group>)
    requires |values| == 5 && Descending(values)
    requires forall i :: 0 <= i < 5 ==> 2 <= values[i] <= 14
    ensures counts == Ranked(values)
  {
    hide Ranked, Entries, SortGroups;
    var groups: map<int, nat> := map[];
    for i := 0 to |values|
      invariant forall v :: v in groups <==> v in values[..i]
      invariant forall v :: v in groups ==> groups[v] == multiset(values[..i])[v]
    {
      var v := values[i];
      MultisetSnoc(values[..i + 1]);
      assert values[..i + 1][..i] == values[..i];
      groups := groups[v := (if v in groups then groups[v] else 0) + 1];
    }
    assert values[..|values|] == values;
    var entries := Entries(groups, 2);
    counts := SortGroups(entries);
    SortedTable(values, groups);
  }

  lemma SortedTable(values: seq<int>, groups: map<int, nat>)
    requires |values| == 5 && Descending(values)
    requires forall i :: 0 <= i < 5 ==> 2 <= values[i] <= 14
    requires forall v :: v in groups <==> v in values
    requires forall v :: v in groups ==> groups[v] == multiset(values)[v]
    ensures SortGroups(Entries(groups, 2)) == Ranked(values)
  {
    hide Entries, SortGroups, Ranked, Ordered;
    var entries := Entries(groups, 2);
    SortIsOrdered(entries);
    RankedIsSorted(values);
    forall g ensures g in entries <==> g in Ranked(values) {
      assert g.val in multiset(values) <==> g.val in values;
    }
    OrderedIsUnique(SortGroups(entries), Ranked(values));
  }

  /** evaluateFiveCards: the flush and straight tests, then the source's cascade over the
      sorted group table. */
  method EvaluateFiveCards(cards: seq<Card>) returns (e: HandEvaluation)
    requires |cards| == 5
    ensures e == EvaluateFive(cards)
  {
    hide WithCount, SortByRankDesc, Cascade, RankedOf;
    var sorted := SortByRankDesc(cards);
    SortFacts(cards);
    var values := Values(sorted);
    var isFlush := SameSuit(sorted);
    var isStraight := false;
    var straightHighCard := values[0];
    if values[0] - values[1] == 1 && values[1] - values[2] == 1 &&
       values[2] - values[3] == 1 && values[3] - values[4] == 1 {
      isStraight := true;
      straightHighCard := values[0];
    }
    if values[0] == 14 && values[1] == 5 && values[2] == 4 && values[3] == 3 && values[4] == 2 {
      isStraight := true;
      straightHighCard := 5;
    }
    assert isStraight <==> StraightHigh(values) != 0;
    assert isStraight ==> straightHighCard == StraightHigh(values);
    var counts := CountRanks(values);
    CountsAddUp(values);
    var ranking, highCards := RunCascade(values, isFlush, isStraight, straightHighCard, counts,
                                         WithCount(values, 5), WithCount(values, 4), WithCount(values, 3),
                                         WithCount(values, 2), WithCount(values, 1));
    e := HandEvaluation(ranking, highCards, sorted);
  }

  /** The source's if-else cascade over the sorted group table. */
  method RunCascade(values: seq<int>, isFlush: bool, isStraight: bool, straightHighCard: int, counts: seq<Group>,
                    ghost w5: seq<int>, ghost w4: seq<int>, ghost w3: seq<int>, ghost w2: seq<int>, ghost w1: seq<int>)
    returns (ranking: HandRanking, highCards: seq<int>)
    requires counts == RankedOf(w5, w4, w3, w2, w1)
    requires |w1| + 2 * |w2| + 3 * |w3| + 4 * |w4| + 5 * |w5| == 5
    requires isStraight ==> straightHighCard != 0
    ensures (ranking, highCards)
         == Cascade(values, isFlush, if isStraight then straightHighCard else 0, w4, w3, w2, w1)
  {
    hide RankedOf, ValuesWith;
    TableHead(w5, w4, w3, w2, w1);
    ValuesWithRanked(w5, w4, w3, w2, w1, 1);
    ValuesWithRanked(w5, w4, w3, w2, w1, 2);
    if isFlush && isStraight && straightHighCard == 14 {
      ranking, highCards := RoyalFlush, [14];
    } else if isFlush && isStraight {
      ranking, highCards := StraightFlush, [straightHighCard];
    } else if counts[0].count == 4 {
      ranking, highCards := FourOfAKind, [counts[0].val, counts[1].val];
      assert highCards == w4 + w1;
    } else if counts[0].count == 3 && counts[1].count == 2 {
      ranking, highCards := FullHouse, [counts[0].val, counts[1].val];
      assert highCards == w3 + w2;
    } else if isFlush {
      ranking, highCards := Flush, values;
    } else if isStraight {
      ranking, highCards := Straight, [straightHighCard];
    } else if counts[0].count == 3 {
      var kickers := ValuesWith(counts, 1);
      ranking, highCards := ThreeOfAKind, [counts[0].val] + kickers;
    } else if counts[0].count == 2 && counts[1].count == 2 {
      var pairs := ValuesWith(counts, 2);
      var kicker := ValuesWith(counts, 1)[0];
      ranking, highCards := TwoPair, pairs + [kicker];
      assert w1 == [kicker];
    } else if counts[0].count == 2 {
      var kickers := ValuesWith(counts, 1);
      ranking, highCards := Pair, [counts[0].val] + kickers;
    } else {
      ranking, highCards := HighCard, values;
    }
  }

  /** The head of the sorted table, read off the multiplicity lists of five cards. */
  lemma TableHead(w5: seq<int>, w4: seq<int>, w3: seq<int>, w2: seq<int>, w1: seq<int>)
    requires |w1| + 2 * |w2| + 3 * |w3| + 4 * |w4| + 5 * |w5| == 5
    ensures var counts := RankedOf(w5, w4, w3, w2, w1);
            && |counts| >= 1
            && (counts[0].count < 5 ==> |counts| >= 2)
            && (counts[0].count == 4 <==> w4 != [])
            && (counts[0].count == 4 ==> [counts[0].val] == w4 && [counts[1].val] == w1)
            && (counts[0].count == 3 <==> w3 != [])
            && (counts[0].count == 3 ==> [counts[0].val] == w3)
            && (counts[0].count == 3 ==> (counts[1].count == 2 <==> w2 != []))
            && (counts[0].count == 3 && counts[1].count == 2 ==> [counts[1].val] == w2)
            && (counts[0].count == 2 <==> w2 != [] && w3 == [])
            && (counts[0].count == 2 ==> (counts[1].count == 2 <==> |w2| == 2))
            && (counts[0].count == 2 && counts[1].count != 2 ==> [counts[0].val] == w2)
            && (counts[0].count == 2 && counts[1].count == 2 ==> |w1| == 1)
  {
    hide Tagged;
    var t5, t4, t3, t2, t1 := Tagged(w5, 5), Tagged(w4, 4), Tagged(w3, 3), Tagged(w2, 2), Tagged(w1, 1);
    if |w5| == 1 {
      assert RankedOf(w5, w4, w3, w2, w1) == t5;
    } else if |w4| == 1 {
      assert RankedOf(w5, w4, w3, w2, w1) == t4 + t1;
    } else if |w3| == 1 {
      assert RankedOf(w5, w4, w3, w2, w1) == t3 + t2 + t1;
    } else {
      assert RankedOf(w5, w4, w3, w2, w1) == t2 + t1;
    }
  }
}
