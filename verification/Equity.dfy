// Monte Carlo equity in exact arithmetic: the reused working deck, the dealt samples, the split of
// ties (ghosts/rdc-poker-session/src/equity-oracle.ts:69-183).
module Equity {
  import opened Seqs
  import opened PokerTypes
  import opened Evaluator
  import Deck

  datatype Estimate = Estimate(equity: real, winRate: real, tieRate: real, samples: int)

  datatype EquityError = BadHole | BadBoard | BadOpponents | BadSamples | DuplicateCard | NotEnoughCards

  // ----- Judging one deal -----

  datatype Share = Share(win: nat, tie: nat, score: real)

  /** How many of the hands tie with mine. */
  function TieCount(others: seq<HandEvaluation>, me: HandEvaluation): nat {
    if others == [] then 0
    else
      TieCount(others[..|others| - 1], me) + if Compare(others[|others| - 1], me) == 0 then 1 else 0
  }

  /** A win counts one, a tie its share among the hands tied with mine, a loss nothing. */
  function Judge(me: HandEvaluation, others: seq<HandEvaluation>): Share
    requires others != []
  {
    var cmp := Compare(me, BestOf(others));
    if cmp > 0 then Share(1, 0, 1.0)
    else if cmp == 0 then Share(0, 1, 1.0 / (1 + TieCount(others, me)) as real)
    else Share(0, 0, 0.0)
  }

  ghost predicate AllRated(evals: seq<HandEvaluation>) {
    forall i :: 0 <= i < |evals| ==> WellFormed(evals[i])
  }

  lemma {:induction false} TieCountBounds(others: seq<HandEvaluation>, me: HandEvaluation)
    ensures TieCount(others, me) <= |others|
    ensures (exists i :: 0 <= i < |others| && Compare(others[i], me) == 0) ==> TieCount(others, me) >= 1
  {
    hide Compare;
    if others != [] {
      var k := |others| - 1;
      TieCountBounds(others[..k], me);
      if i :| 0 <= i < |others| && Compare(others[i], me) == 0 {
        assert i < k ==> others[..k][i] == others[i];
      }
    }
  }

  lemma Reciprocal(n: nat, m: nat)
    requires 1 <= n <= m
    ensures 1.0 / m as real <= 1.0 / n as real
  {
    Inverse(n as real, m as real);
  }

  lemma Inverse(a: real, b: real)
    requires 0.0 < a <= b
    ensures 1.0 / b <= 1.0 / a
  {
    var x, y := 1.0 / a, 1.0 / b;
    assert x * a == 1.0 && y * b == 1.0;
    assert y > 0.0;
    assert y * b - y * a == y * (b - a);
    assert y * (b - a) >= 0.0;
    Unscale(y, x, a);
  }

  lemma Unscale(a: real, b: real, n: real)
    requires n > 0.0
    ensures a * n <= b * n <==> a <= b
  {
    assert (b - a) * n == b * n - a * n;
    assert a < b ==> (b - a) * n > 0.0;
    assert b < a ==> (a - b) * n > 0.0;
  }

  /** A sample's score is at most its win plus half its tie, and at least its win plus its tie
      shared with every opponent. */
  lemma JudgeBounds(me: HandEvaluation, others: seq<HandEvaluation>)
    requires others != [] && AllRated(others)
    ensures var s := Judge(me, others);
            && s.win + s.tie <= 1
            && s.win as real + s.tie as real / (|others| + 1) as real <= s.score
            && s.score <= s.win as real + s.tie as real / 2.0
  {
    hide Compare, WellFormed, BestOf;
    var best := BestOf(others);
    if Compare(me, best) == 0 {
      BestOfIsBest(others);
      CompareFlips(me, best);
      TieCountBounds(others, me);
      Reciprocal(2, 1 + TieCount(others, me));
      Reciprocal(1 + TieCount(others, me), |others| + 1);
    }
  }

  // ----- The seats of one deal share one point -----

  /** Nobody holds a better hand. */
  predicate Top(evals: seq<HandEvaluation>, e: HandEvaluation) {
    forall i :: 0 <= i < |evals| ==> Compare(evals[i], e) <= 0
  }

  function TopCount(some: seq<HandEvaluation>, evals: seq<HandEvaluation>): nat {
    if some == [] then 0
    else TopCount(some[..|some| - 1], evals) + if Top(evals, some[|some| - 1]) then 1 else 0
  }

  function Others(evals: seq<HandEvaluation>, i: nat): (r: seq<HandEvaluation>)
    requires i < |evals|
    ensures |r| == |evals| - 1
  {
    evals[..i] + evals[i + 1..]
  }

  /** The scores of the first k seats, each judged against all the others. */
  function SeatScores(evals: seq<HandEvaluation>, k: nat): real
    requires |evals| >= 2 && k <= |evals|
  {
    if k == 0 then 0.0 else SeatScores(evals, k - 1) + Judge(evals[k - 1], Others(evals, k - 1)).score
  }

  lemma BestOthers(evals: seq<HandEvaluation>, i: nat)
    requires |evals| >= 2 && AllRated(evals) && i < |evals|
    ensures AllRated(Others(evals, i))
    ensures Top(evals, evals[i]) <==> Compare(evals[i], BestOf(Others(evals, i))) >= 0
  {
    hide Compare, WellFormed, BestOf;
    var e, others := evals[i], Others(evals, i);
    forall k | 0 <= k < |others| ensures others[k] == evals[if k < i then k else k + 1] {
    }
    BestOfIsBest(others);
    var best := BestOf(others);
    CompareFlips(e, best);
    CompareFlips(e, e);
    var b :| 0 <= b < |others| && others[b] == best;
    if Top(evals, e) {
      assert Compare(evals[if b < i then b else b + 1], e) <= 0;
    }
    if Compare(e, best) >= 0 {
      forall k | 0 <= k < |evals| ensures Compare(evals[k], e) <= 0 {
        if k != i {
          var o := others[if k < i then k else k - 1];
          assert o == evals[k];
          CompareFlips(o, best);
          CompareChains(e, best, o);
          CompareFlips(e, o);
        }
      }
    }
  }

  lemma {:induction false} TiesWithTop(evals: seq<HandEvaluation>, some: seq<HandEvaluation>, e: HandEvaluation)
    requires AllRated(evals) && e in evals && Top(evals, e)
    requires forall x :: x in some ==> x in evals
    ensures TopCount(some, evals) == TieCount(some, e)
  {
    hide Compare, WellFormed, Top;
    if some != [] {
      var x := some[|some| - 1];
      TiesWithTop(evals, some[..|some| - 1], e);
      TopsTie(evals, x, e);
    }
  }

  /** A hand is unbeaten exactly when it ties with an unbeaten one. */
  lemma TopsTie(evals: seq<HandEvaluation>, x: HandEvaluation, e: HandEvaluation)
    requires AllRated(evals) && x in evals && e in evals && Top(evals, e)
    ensures Top(evals, x) <==> Compare(x, e) == 0
  {
    hide Compare, WellFormed;
    var i :| 0 <= i < |evals| && evals[i] == e;
    var j :| 0 <= j < |evals| && evals[j] == x;
    assert Compare(evals[j], e) <= 0;
    CompareFlips(x, e);
    if Top(evals, x) {
      assert Compare(evals[i], x) <= 0;
    }
    if Compare(x, e) == 0 {
      forall k | 0 <= k < |evals| ensures Compare(evals[k], x) <= 0 {
        CompareFlips(evals[k], e);
        CompareFlips(evals[k], x);
        CompareChains(x, e, evals[k]);
      }
    }
  }

  lemma {:induction false} TieCountSplit(a: seq<HandEvaluation>, b: seq<HandEvaluation>, e: HandEvaluation)
    ensures TieCount(a + b, e) == TieCount(a, e) + TieCount(b, e)
  {
    hide Compare;
    if b == [] {
      assert a + b == a;
    } else {
      var k := |b| - 1;
      TieCountSplit(a, b[..k], e);
      assert (a + b)[..|a + b| - 1] == a + b[..k];
    }
  }

  lemma TieCountAround(a: seq<HandEvaluation>, e: HandEvaluation, b: seq<HandEvaluation>)
    ensures TieCount(a + [e] + b, e) == 1 + TieCount(a + b, e)
  {
    hide Compare, TieCount;
    TieCountSplit(a + [e], b, e);
    TieCountSplit(a, [e], e);
    TieCountSplit(a, b, e);
    TiesItself(e);
  }

  lemma TieCountOthers(evals: seq<HandEvaluation>, i: nat)
    requires i < |evals|
    ensures TieCount(evals, evals[i]) == 1 + TieCount(Others(evals, i), evals[i])
  {
    hide Compare, TieCount, Others;
    TieCountAround(evals[..i], evals[i], evals[i + 1..]);
    AroundIt(evals, i);
  }

  lemma AroundIt(evals: seq<HandEvaluation>, i: nat)
    requires i < |evals|
    ensures evals == evals[..i] + [evals[i]] + evals[i + 1..]
    ensures Others(evals, i) == evals[..i] + evals[i + 1..]
  {
  }

  lemma TiesItself(e: HandEvaluation)
    ensures TieCount([e], e) == 1
  {
    hide Compare;
    CompareFlips(e, e);
    assert [e][..0] == [];
  }

  /** A seat scores one part in the number of unbeaten hands, or nothing. */
  lemma SeatScore(evals: seq<HandEvaluation>, i: nat)
    requires |evals| >= 2 && AllRated(evals) && i < |evals|
    ensures TopCount(evals, evals) >= if Top(evals, evals[i]) then 1 else 0
    ensures Judge(evals[i], Others(evals, i)).score
         == if Top(evals, evals[i]) then 1.0 / TopCount(evals, evals) as real else 0.0
  {
    hide Compare, WellFormed, BestOf, Top, Others, TopCount, TieCount;
    var e, others := evals[i], Others(evals, i);
    BestOthers(evals, i);
    if Top(evals, e) {
      TiesWithTop(evals, evals, e);
      TieCountOthers(evals, i);
      if Compare(e, BestOf(others)) > 0 {
        NobodyTies(others, e);
      }
    }
  }

  lemma NobodyTies(others: seq<HandEvaluation>, e: HandEvaluation)
    requires others != [] && AllRated(others) && Compare(e, BestOf(others)) > 0 && WellFormed(e)
    ensures TieCount(others, e) == 0
  {
    hide Compare, WellFormed, BestOf;
    BestOfIsBest(others);
    forall k | 0 <= k < |others| ensures Compare(others[k], e) != 0 {
      CompareFlips(others[k], e);
      CompareFlips(others[k], BestOf(others));
      if Compare(others[k], e) == 0 {
        CompareChains(BestOf(others), others[k], e);
        CompareFlips(e, BestOf(others));
      }
    }
    CountsNone(others, e);
  }

  lemma {:induction false} CountsNone(others: seq<HandEvaluation>, e: HandEvaluation)
    requires forall k :: 0 <= k < |others| ==> Compare(others[k], e) != 0
    ensures TieCount(others, e) == 0
  {
    hide Compare;
    if others != [] {
      CountsNone(others[..|others| - 1], e);
    }
  }

  lemma {:induction false} ScoresSoFar(evals: seq<HandEvaluation>, k: nat)
    requires |evals| >= 2 && AllRated(evals) && k <= |evals| && TopCount(evals, evals) >= 1
    ensures SeatScores(evals, k) == TopCount(evals[..k], evals) as real * (1.0 / TopCount(evals, evals) as real)
  {
    hide Compare, WellFormed, Top, Judge, Others;
    if k > 0 {
      ScoresSoFar(evals, k - 1);
      SeatScore(evals, k - 1);
      assert evals[..k][..k - 1] == evals[..k - 1];
      var share := 1.0 / TopCount(evals, evals) as real;
      var n := TopCount(evals[..k - 1], evals);
      OneMore(n, share);
    }
  }

  lemma OneMore(n: nat, share: real)
    ensures (n + 1) as real * share == n as real * share + share
  {
  }

  lemma SomeTop(evals: seq<HandEvaluation>)
    requires evals != [] && AllRated(evals)
    ensures TopCount(evals, evals) >= 1
  {
    hide Compare, WellFormed, BestOf, TopCount;
    BestOfIsBest(evals);
    var best := BestOf(evals);
    assert Top(evals, best) by {
      forall i | 0 <= i < |evals| ensures Compare(evals[i], best) <= 0 {
        CompareFlips(best, evals[i]);
      }
    }
    TiesWithTop(evals, evals, best);
    CompareFlips(best, best);
    TieCountBounds(evals, best);
  }

  /** However many hands are judged, their scores add up to exactly one. */
  lemma ScoresSumToOne(evals: seq<HandEvaluation>)
    requires |evals| >= 2 && AllRated(evals)
    ensures SeatScores(evals, |evals|) == 1.0
  {
    hide Top, TopCount, SeatScores, WellFormed;
    SomeTop(evals);
    ScoresSoFar(evals, |evals|);
    assert evals[..|evals|] == evals;
  }

  // ----- The working deck -----

  predicate DrawsFit(js: seq<nat>, need: nat, n: nat) {
    |js| == need && forall i :: 0 <= i < need ==> i <= js[i] < n
  }

  /** The deck after the first swaps of one sample. */
  function Drawn(work: seq<Card>, js: seq<nat>): (r: seq<Card>)
    requires |js| <= |work| && DrawsFit(js, |js|, |work|)
    ensures |r| == |work|
    decreases |js|
  {
    if js == [] then work
    else
      var k := |js| - 1;
      Deck.Swap(Drawn(work, js[..k]), k, js[k])
  }

  /** The inner loop: a shuffle of the front of the array only. */
  method DrawSample(work: array<Card>, js: seq<nat>)
    requires |js| <= work.Length && DrawsFit(js, |js|, work.Length)
    modifies work
    ensures work[..] == Drawn(old(work[..]), js)
  {
    var i := 0;
    while i < |js|
      invariant 0 <= i <= |js|
      invariant work[..] == Drawn(old(work[..]), js[..i])
    {
      ghost var before := work[..];
      assert js[..i + 1][..i] == js[..i];
      var j := js[i];
      work[i], work[j] := work[j], work[i];
      assert work[..] == Deck.Swap(before, i, j);
      i := i + 1;
    }
    assert js[..|js|] == js;
  }

  lemma {:induction false} DrawnRearranges(work: seq<Card>, js: seq<nat>)
    requires |js| <= |work| && DrawsFit(js, |js|, |work|)
    ensures multiset(Drawn(work, js)) == multiset(work)
    decreases |js|
  {
    if js != [] {
      var k := |js| - 1;
      DrawnRearranges(work, js[..k]);
      Deck.SwapMultiset(Drawn(work, js[..k]), k, js[k]);
    }
  }

  lemma DrawSnoc(work: seq<Card>, js: seq<nat>, j: nat)
    requires |js| < |work| && DrawsFit(js, |js|, |work|) && |js| <= j < |work|
    ensures DrawsFit(js + [j], |js| + 1, |work|)
    ensures Drawn(work, js + [j]) == Deck.Swap(Drawn(work, js), |js|, j)
  {
    assert (js + [j])[..|js|] == js;
  }

  lemma DrawPrefix(js: seq<nat>, n: nat)
    requires js != [] && DrawsFit(js, |js|, n)
    ensures DrawsFit(js[..|js| - 1], |js| - 1, n)
  {
  }

  /** Where a card that has not been drawn yet sits. */
  lemma NotYetDrawn(work: seq<Card>, js: seq<nat>, target: seq<Card>, c: Card) returns (j: nat)
    requires Distinct(work) && |js| <= |work| && DrawsFit(js, |js|, |work|)
    requires target == Drawn(work, js)[..|js|] && c in work && c !in target
    ensures |js| <= j < |work| && Drawn(work, js)[j] == c
  {
    hide Drawn;
    DrawnRearranges(work, js);
    Rearranged(Drawn(work, js), work);
    forall i | 0 <= i < |js| ensures Drawn(work, js)[i] != c {
      assert target[i] in target;
    }
    j :| 0 <= j < |work| && Drawn(work, js)[j] == c;
  }

  /** Any cards at all may be dealt, in any order. */
  lemma {:induction false} EveryDealIsDrawn(work: seq<Card>, target: seq<Card>) returns (js: seq<nat>)
    requires Distinct(work) && Distinct(target) && |target| <= |work| && forall c :: c in target ==> c in work
    ensures DrawsFit(js, |target|, |work|) && Drawn(work, js)[..|target|] == target
  {
    hide Drawn;
    if target == [] {
      js := [];
    } else {
      var k := |target| - 1;
      assert target == target[..k] + [target[k]];
      var before := EveryDealIsDrawn(work, target[..k]);
      var j := NotYetDrawn(work, before, target[..k], target[k]);
      DrawSnoc(work, before, j);
      js := before + [j];
    }
  }

  lemma LastDraw(work: seq<Card>, js: seq<nat>)
    requires js != [] && |js| <= |work| && DrawsFit(js, |js|, |work|)
    ensures var n := |js| - 1;
            && DrawsFit(js[..n], n, |work|)
            && Drawn(work, js)[..n] == Drawn(work, js[..n])[..n]
            && Drawn(work, js)[n] == Drawn(work, js[..n])[js[n]]
  {
    DrawPrefix(js, |work|);
    var n := |js| - 1;
    var before := Drawn(work, js[..n]);
    assert Drawn(work, js) == Deck.Swap(before, n, js[n]);
    hide Drawn;
    FrontSwap(before, n, js[n]);
  }

  lemma FrontSwap(s: seq<Card>, i: nat, j: nat)
    requires i <= j < |s|
    ensures Deck.Swap(s, i, j)[..i] == s[..i] && Deck.Swap(s, i, j)[i] == s[j]
  {
  }

  /** And each deal comes about in one way only. */
  lemma {:induction false} DealsAreDrawnOnce(work: seq<Card>, js: seq<nat>, ks: seq<nat>)
    requires Distinct(work) && |js| == |ks| <= |work|
    requires DrawsFit(js, |js|, |work|) && DrawsFit(ks, |ks|, |work|)
    requires Drawn(work, js)[..|js|] == Drawn(work, ks)[..|ks|]
    ensures js == ks
  {
    hide Drawn;
    if js != [] {
      var n := |js| - 1;
      LastDraw(work, js);
      LastDraw(work, ks);
      SamePrefix(Drawn(work, js), Drawn(work, ks), n);
      DealsAreDrawnOnce(work, js[..n], ks[..n]);
      DrawnRearranges(work, js[..n]);
      Rearranged(Drawn(work, js[..n]), work);
      assert js == js[..n] + [js[n]] && ks == ks[..n] + [ks[n]];
    }
  }

  lemma SamePrefix(a: seq<Card>, b: seq<Card>, n: nat)
    requires n < |a| && n < |b| && a[..n + 1] == b[..n + 1]
    ensures a[..n] == b[..n] && a[n] == b[n]
  {
    assert a[..n] == a[..n + 1][..n] && b[..n] == b[..n + 1][..n];
    assert a[n] == a[..n + 1][n] && b[n] == b[..n + 1][n];
  }

  // ----- One sample -----

  function BoardOf(community: seq<Card>, work: seq<Card>, opponents: nat): (board: seq<Card>)
    requires |community| <= 5 && 2 * opponents + 5 - |community| <= |work|
    ensures |board| == 5
  {
    community + work[2 * opponents..2 * opponents + 5 - |community|]
  }

  /** The hands of the first n opponents, dealt two by two off the front. */
  function OpponentHands(work: seq<Card>, board: seq<Card>, n: nat): (r: seq<HandEvaluation>)
    requires 2 * n <= |work| && |board| == 5
    ensures |r| == n
  {
    if n == 0 then []
    else OpponentHands(work, board, n - 1) + [BestHand(work[2 * n - 2..2 * n] + board)]
  }

  function Sample(hole: seq<Card>, community: seq<Card>, work: seq<Card>, opponents: nat): Share
    requires |hole| == 2 && |community| <= 5 && opponents > 0
    requires 2 * opponents + 5 - |community| <= |work|
  {
    var board := BoardOf(community, work, opponents);
    Judge(BestHand(hole + board), OpponentHands(work, board, opponents))
  }

  lemma {:induction false} OpponentsRated(work: seq<Card>, board: seq<Card>, n: nat)
    requires 2 * n <= |work| && |board| == 5
    ensures AllRated(OpponentHands(work, board, n))
  {
    hide BestHand, WellFormed;
    if n > 0 {
      OpponentsRated(work, board, n - 1);
      var hand := BestHandIsAttained(work[2 * n - 2..2 * n] + board);
    }
  }

  /** Two cards to each opponent, off the front. */
  method DealHoles(work: array<Card>, opponents: nat) returns (opponentHoles: seq<seq<Card>>, cursor: nat)
    requires 2 * opponents <= work.Length
    ensures |opponentHoles| == opponents && cursor == 2 * opponents
    ensures forall o :: 0 <= o < opponents ==> opponentHoles[o] == work[..][2 * o..2 * o + 2]
  {
    opponentHoles, cursor := [], 0;
    while |opponentHoles| < opponents
      invariant |opponentHoles| <= opponents && cursor == 2 * |opponentHoles|
      invariant forall o :: 0 <= o < |opponentHoles| ==> opponentHoles[o] == work[..][2 * o..2 * o + 2]
    {
      assert work[..][cursor..cursor + 2] == [work[cursor], work[cursor + 1]];
      opponentHoles := opponentHoles + [[work[cursor], work[cursor + 1]]];
      cursor := cursor + 2;
    }
  }

  /** The rest of the board, off what follows. */
  method FillBoard(community: seq<Card>, work: array<Card>, opponents: nat) returns (filledBoard: seq<Card>)
    requires |community| <= 5 && 2 * opponents + 5 - |community| <= work.Length
    ensures filledBoard == BoardOf(community, work[..], opponents)
  {
    ghost var cards := work[..];
    filledBoard := community;
    var cursor := 2 * opponents;
    while |filledBoard| < 5
      invariant |filledBoard| <= 5 && cursor == 2 * opponents + |filledBoard| - |community|
      invariant 2 * opponents <= cursor && filledBoard == community + cards[2 * opponents..cursor]
    {
      assert cards[2 * opponents..cursor + 1] == cards[2 * opponents..cursor] + [cards[cursor]];
      filledBoard := filledBoard + [work[cursor]];
      cursor := cursor + 1;
    }
  }

  /** Everybody's best hand, and the comparison of mine with the best of theirs. */
  method JudgeSample(hole: seq<Card>, community: seq<Card>, work: array<Card>, opponents: nat) returns (s: Share)
    requires |hole| == 2 && |community| <= 5 && opponents > 0
    requires 2 * opponents + 5 - |community| <= work.Length
    ensures s == Sample(hole, community, work[..], opponents)
  {
    hide BestHand, Compare, BestOf, BoardOf;
    var opponentHoles, cursor := DealHoles(work, opponents);
    var filledBoard := FillBoard(community, work, opponents);
    var myEval := EvaluateHand(hole, filledBoard);
    var hands := [];
    for o := 0 to opponents
      invariant hands == OpponentHands(work[..], filledBoard, o)
    {
      var e := EvaluateHand(opponentHoles[o], filledBoard);
      hands := hands + [e];
    }
    s := JudgeHands(myEval, hands);
  }

  method JudgeHands(myEval: HandEvaluation, hands: seq<HandEvaluation>) returns (s: Share)
    requires hands != []
    ensures s == Judge(myEval, hands)
  {
    hide Compare, BestOf;
    var bestOpponentEval := BestAmong(hands);
    var cmp := CompareHands(myEval, bestOpponentEval);
    if cmp > 0 {
      s := Share(1, 0, 1.0);
    } else if cmp == 0 {
      var tied := CountTied(hands, myEval);
      s := Share(0, 1, 1.0 / (1 + tied) as real);
    } else {
      s := Share(0, 0, 0.0);
    }
  }

  method BestAmong(hands: seq<HandEvaluation>) returns (best: HandEvaluation)
    requires hands != []
    ensures best == BestOf(hands)
  {
    hide Compare;
    best := hands[0];
    assert hands[..1] == [hands[0]];
    for o := 1 to |hands|
      invariant best == BestOf(hands[..o])
    {
      BestOfStep(hands, o);
      var c := CompareHands(hands[o], best);
      if c > 0 {
        best := hands[o];
      }
    }
    assert hands[..|hands|] == hands;
  }

  method CountTied(hands: seq<HandEvaluation>, me: HandEvaluation) returns (tied: nat)
    ensures tied == TieCount(hands, me)
  {
    hide Compare;
    tied := 0;
    for o := 0 to |hands|
      invariant tied == TieCount(hands[..o], me)
    {
      assert hands[..o + 1][..o] == hands[..o];
      var c := CompareHands(hands[o], me);
      if c == 0 {
        tied := tied + 1;
      }
    }
    assert hands[..|hands|] == hands;
  }

  // ----- The whole estimate -----

  function Unseen(deck: seq<Card>, known: seq<Card>): (r: seq<Card>)
    ensures forall c :: c in r <==> c in deck && c !in known
  {
    if deck == [] then []
    else
      var rest, c := Unseen(deck[..|deck| - 1], known), deck[|deck| - 1];
      if c in known then rest else rest + [c]
  }

  lemma {:induction false} UnseenDistinct(deck: seq<Card>, known: seq<Card>)
    requires Distinct(deck)
    ensures Distinct(Unseen(deck, known))
  {
    if deck != [] {
      var init, c := deck[..|deck| - 1], deck[|deck| - 1];
      UnseenDistinct(init, known);
      assert c !in init;
    }
  }

  function NewDeck(): (deck: seq<Card>)
    ensures |deck| == 52 && forall k :: 0 <= k < 52 ==> deck[k] == Deck.CardAt(k)
  {
    seq(52, k requires 0 <= k < 52 => Deck.CardAt(k))
  }

  function Needed(community: seq<Card>, opponents: int): int {
    2 * opponents + 5 - |community|
  }

  function RemainingDeck(hole: seq<Card>, community: seq<Card>): seq<Card> {
    Unseen(NewDeck(), hole + community)
  }

  /** The first check a request fails. */
  ghost function Problem(hole: seq<Card>, community: seq<Card>, opponents: int, samples: int): Option<EquityError> {
    if |hole| != 2 then Some(BadHole)
    else if |community| !in {0, 3, 4, 5} then Some(BadBoard)
    else if opponents < 0 then Some(BadOpponents)
    else if samples <= 0 then Some(BadSamples)
    else if !Distinct(hole + community) then Some(DuplicateCard)
    else if Needed(community, opponents) > |RemainingDeck(hole, community)| then Some(NotEnoughCards)
    else None
  }

  /** The working deck before sample s. */
  function WorkAt(work: seq<Card>, draws: seq<seq<nat>>, need: nat, s: nat): (r: seq<Card>)
    requires need <= |work| && s <= |draws| && forall k :: 0 <= k < |draws| ==> DrawsFit(draws[k], need, |work|)
    ensures |r| == |work|
    decreases s
  {
    if s == 0 then work else Drawn(WorkAt(work, draws, need, s - 1), draws[s - 1])
  }

  /** The deck is reused from sample to sample and stays the same cards throughout. */
  lemma {:induction false} WorkIsRearranged(work: seq<Card>, draws: seq<seq<nat>>, need: nat, s: nat)
    requires need <= |work| && s <= |draws| && forall k :: 0 <= k < |draws| ==> DrawsFit(draws[k], need, |work|)
    ensures multiset(WorkAt(work, draws, need, s)) == multiset(work)
    decreases s
  {
    hide Drawn;
    if s > 0 {
      WorkIsRearranged(work, draws, need, s - 1);
      DrawnRearranges(WorkAt(work, draws, need, s - 1), draws[s - 1]);
    }
  }

  /** So in every sample all the cards dealt are different, and none of them has been seen. */
  lemma SamplesDealUnseenCards(hole: seq<Card>, community: seq<Card>, draws: seq<seq<nat>>, need: nat, s: nat)
    requires var work := RemainingDeck(hole, community);
             need <= |work| && s <= |draws| && forall k :: 0 <= k < |draws| ==> DrawsFit(draws[k], need, |work|)
    ensures var dealt := WorkAt(RemainingDeck(hole, community), draws, need, s);
            Distinct(dealt) && forall c :: c in dealt ==> c !in hole + community
  {
    hide WorkAt, Unseen, Drawn;
    var work := RemainingDeck(hole, community);
    NewDeckDistinct();
    UnseenDistinct(NewDeck(), hole + community);
    WorkIsRearranged(work, draws, need, s);
    var dealt := WorkAt(work, draws, need, s);
    Rearranged(dealt, work);
  }

  /** In every sample the hand, the board and the opponents' cards are all different, and the board
      begins with the cards already on it. */
  lemma SampleCardsDiffer(hole: seq<Card>, community: seq<Card>, draws: seq<seq<nat>>, opponents: nat, s: nat)
    requires |hole| == 2 && |community| <= 5 && Distinct(hole + community) && s <= |draws|
    requires Needed(community, opponents) <= |RemainingDeck(hole, community)|
    requires forall k :: 0 <= k < |draws| ==>
               DrawsFit(draws[k], Needed(community, opponents), |RemainingDeck(hole, community)|)
    ensures var work := WorkAt(RemainingDeck(hole, community), draws, Needed(community, opponents), s);
            && Distinct(hole + BoardOf(community, work, opponents) + work[..2 * opponents])
            && community <= BoardOf(community, work, opponents)
  {
    hide WorkAt, RemainingDeck, Distinct;
    var work := WorkAt(RemainingDeck(hole, community), draws, Needed(community, opponents), s);
    SamplesDealUnseenCards(hole, community, draws, Needed(community, opponents), s);
    var board := BoardOf(community, work, opponents);
    var dealt := board[|community|..];
    assert board == community + dealt;
    assert dealt == work[2 * opponents..2 * opponents + 5 - |community|];
    DistinctPieces(work, 2 * opponents, 2 * opponents + 5 - |community|);
    DistinctJoin(hole + community, dealt + work[..2 * opponents]);
    assert hole + board + work[..2 * opponents] == (hole + community) + (dealt + work[..2 * opponents]);
  }

  /** A piece of distinct cards and the ones before it. */
  lemma DistinctPieces(work: seq<Card>, lo: nat, hi: nat)
    requires lo <= hi <= |work| && Distinct(work)
    ensures Distinct(work[lo..hi] + work[..lo])
    ensures forall c :: c in work[lo..hi] + work[..lo] ==> c in work
  {
    var a, b := work[lo..hi], work[..lo];
    assert forall i :: 0 <= i < |a| ==> a[i] == work[lo + i];
    assert forall j :: 0 <= j < |b| ==> b[j] == work[j];
    assert forall c :: c in a ==> exists i :: lo <= i < hi && work[i] == c;
    assert forall c :: c in b ==> exists j :: 0 <= j < lo && work[j] == c;
    DistinctJoin(a, b);
  }

  /** What is left of the deck: all the cards not seen. */
  lemma RemainingSize(hole: seq<Card>, community: seq<Card>)
    requires Distinct(hole + community)
    ensures |RemainingDeck(hole, community)| == 52 - |hole| - |community|
  {
    hide Unseen;
    var known, rest := hole + community, RemainingDeck(hole, community);
    NewDeckDistinct();
    UnseenDistinct(NewDeck(), known);
    forall c: Card ensures c in NewDeck() {
      Deck.DeckIsComplete(NewDeck(), c);
    }
    DistinctSetSize(NewDeck());
    DistinctSetSize(known);
    DistinctSetSize(rest);
    var all, seen := set c | c in NewDeck(), set c | c in known;
    assert (set c | c in rest) == all - seen;
    assert seen <= all;
  }

  /** A request is answered when it has two hole cards, a board of none, three, four or five, no card
      twice, between 0 and 22 opponents, and asks for a sample at least. Otherwise the error names
      something that is wrong with it. */
  lemma RequestsAnswered(hole: seq<Card>, community: seq<Card>, opponents: int, samples: int)
    ensures Problem(hole, community, opponents, samples).None?
            <==> && |hole| == 2 && |community| in {0, 3, 4, 5} && Distinct(hole + community)
                 && 0 <= opponents <= 22 && 0 < samples
    ensures Problem(hole, community, opponents, samples).Some? ==>
              match Problem(hole, community, opponents, samples).value
              case BadHole => |hole| != 2
              case BadBoard => |community| !in {0, 3, 4, 5}
              case BadOpponents => opponents < 0
              case BadSamples => samples <= 0
              case DuplicateCard => !Distinct(hole + community)
              case NotEnoughCards => opponents > 22
  {
    hide Unseen, RemainingDeck, Distinct;
    if Distinct(hole + community) {
      RemainingSize(hole, community);
    }
  }

  lemma NewDeckDistinct()
    ensures Distinct(NewDeck())
  {
    Deck.DeckIsComplete(NewDeck(), Card(Hearts, 2));
  }

  /** The sum of the first n samples' wins, ties and scores. */
  function Tally(hole: seq<Card>, community: seq<Card>, draws: seq<seq<nat>>, opponents: nat, n: nat): Share
    requires |hole| == 2 && |community| <= 5 && opponents > 0 && n <= |draws|
    requires Needed(community, opponents) <= |RemainingDeck(hole, community)|
    requires forall k :: 0 <= k < |draws| ==>
               DrawsFit(draws[k], Needed(community, opponents), |RemainingDeck(hole, community)|)
    decreases n
  {
    if n == 0 then Share(0, 0, 0.0)
    else
      var t := Tally(hole, community, draws, opponents, n - 1);
      var work := WorkAt(RemainingDeck(hole, community), draws, Needed(community, opponents), n);
      var s := Sample(hole, community, work, opponents);
      Share(t.win + s.win, t.tie + s.tie, t.score + s.score)
  }

  lemma {:induction false} TallyBounds(hole: seq<Card>, community: seq<Card>, draws: seq<seq<nat>>, opponents: nat, n: nat)
    requires |hole| == 2 && |community| <= 5 && opponents > 0 && n <= |draws|
    requires Needed(community, opponents) <= |RemainingDeck(hole, community)|
    requires forall k :: 0 <= k < |draws| ==>
               DrawsFit(draws[k], Needed(community, opponents), |RemainingDeck(hole, community)|)
    ensures var t := Tally(hole, community, draws, opponents, n);
            && t.win + t.tie <= n
            && t.win as real + t.tie as real / (opponents + 1) as real <= t.score
            && t.score <= t.win as real + t.tie as real / 2.0
    decreases n
  {
    hide Judge, BestHand, WorkAt, RemainingDeck, OpponentHands;
    if n > 0 {
      TallyBounds(hole, community, draws, opponents, n - 1);
      var t := Tally(hole, community, draws, opponents, n - 1);
      var work := WorkAt(RemainingDeck(hole, community), draws, Needed(community, opponents), n);
      var board := BoardOf(community, work, opponents);
      var s := Sample(hole, community, work, opponents);
      OpponentsRated(work, board, opponents);
      JudgeBounds(BestHand(hole + board), OpponentHands(work, board, opponents));
      ShareOut(t.tie, s.tie, (opponents + 1) as real);
      ShareOut(t.tie, s.tie, 2.0);
    }
  }

  lemma ShareOut(a: nat, b: nat, n: real)
    requires n > 0.0
    ensures (a + b) as real / n == a as real / n + b as real / n
  {
  }

  // ----- One dealt sample shares one point -----

  /** The hands of one deal, mine first. */
  function DealtHands(hole: seq<Card>, community: seq<Card>, work: seq<Card>, opponents: nat): (r: seq<HandEvaluation>)
    requires |hole| == 2 && |community| <= 5
    requires 2 * opponents + 5 - |community| <= |work|
    ensures |r| == opponents + 1
  {
    var board := BoardOf(community, work, opponents);
    [BestHand(hole + board)] + OpponentHands(work, board, opponents)
  }

  lemma {:induction false} OpponentHandIs(work: seq<Card>, board: seq<Card>, n: nat, o: nat)
    requires o < n && 2 * n <= |work| && |board| == 5
    ensures OpponentHands(work, board, n)[o] == BestHand(work[2 * o..2 * o + 2] + board)
  {
    hide BestHand;
    if o < n - 1 {
      OpponentHandIs(work, board, n - 1, o);
    }
  }

  lemma MineIsFirst(hole: seq<Card>, community: seq<Card>, work: seq<Card>, opponents: nat)
    requires |hole| == 2 && |community| <= 5 && opponents > 0
    requires 2 * opponents + 5 - |community| <= |work|
    ensures var hands := DealtHands(hole, community, work, opponents);
            AllRated(hands) && Judge(hands[0], Others(hands, 0)) == Sample(hole, community, work, opponents)
  {
    hide BestHand, WellFormed, BoardOf, Judge, OpponentHands;
    var board := BoardOf(community, work, opponents);
    var theirs := OpponentHands(work, board, opponents);
    OpponentsRated(work, board, opponents);
    var five := BestHandIsAttained(hole + board);
    assert Others([BestHand(hole + board)] + theirs, 0) == theirs;
  }

  /** In every sample the estimator deals, what the sample credits to me and what the other seats
      would be credited on the same cards add up to exactly one. */
  lemma DealtScoresSumToOne(hole: seq<Card>, community: seq<Card>, draws: seq<seq<nat>>, opponents: nat, s: nat)
    requires |hole| == 2 && |community| <= 5 && opponents > 0 && s <= |draws|
    requires Needed(community, opponents) <= |RemainingDeck(hole, community)|
    requires forall k :: 0 <= k < |draws| ==>
               DrawsFit(draws[k], Needed(community, opponents), |RemainingDeck(hole, community)|)
    ensures var work := WorkAt(RemainingDeck(hole, community), draws, Needed(community, opponents), s);
            var board := BoardOf(community, work, opponents);
            var hands := DealtHands(hole, community, work, opponents);
            && Judge(hands[0], Others(hands, 0)) == Sample(hole, community, work, opponents)
            && (forall o :: 0 <= o < opponents ==> hands[o + 1] == BestHand(work[2 * o..2 * o + 2] + board))
            && SeatScores(hands, opponents + 1) == 1.0
  {
    hide BestHand, WellFormed, BoardOf, Judge, OpponentHands, WorkAt, RemainingDeck, SeatScores, Others, Sample;
    var work := WorkAt(RemainingDeck(hole, community), draws, Needed(community, opponents), s);
    var board := BoardOf(community, work, opponents);
    MineIsFirst(hole, community, work, opponents);
    forall o | 0 <= o < opponents
      ensures DealtHands(hole, community, work, opponents)[o + 1] == BestHand(work[2 * o..2 * o + 2] + board)
    {
      OpponentHandIs(work, board, opponents, o);
    }
    ScoresSumToOne(DealtHands(hole, community, work, opponents));
  }

  /** What an estimate says of its own rates. */
  ghost predicate Coherent(e: Estimate, opponents: nat) {
    && 0.0 <= e.winRate && 0.0 <= e.tieRate && e.winRate + e.tieRate <= 1.0
    && e.winRate + e.tieRate / (opponents + 1) as real <= e.equity
    && e.equity <= e.winRate + e.tieRate / 2.0
  }

  lemma Averages(t: Share, opponents: nat, samples: nat)
    requires samples > 0 && t.win + t.tie <= samples
    requires t.win as real + t.tie as real / (opponents + 1) as real <= t.score
    requires t.score <= t.win as real + t.tie as real / 2.0
    ensures Coherent(Estimate(t.score / samples as real, t.win as real / samples as real,
                              t.tie as real / samples as real, samples), opponents)
  {
    var n, w, d := samples as real, t.win as real, t.tie as real;
    RatesFit(t.win, t.tie, samples);
    WithinShare(w, d, t.score, (opponents + 1) as real, n);
    WithinShare(w, d, t.score, 2.0, n);
  }

  lemma RatesFit(win: nat, tie: nat, samples: nat)
    requires samples > 0 && win + tie <= samples
    ensures var n := samples as real;
            0.0 <= win as real / n && 0.0 <= tie as real / n && win as real / n + tie as real / n <= 1.0
  {
    var n := samples as real;
    Divide((win + tie) as real, n, n);
    Divide(0.0, win as real, n);
    Divide(0.0, tie as real, n);
    Spread(win as real, tie as real, 1.0, n);
  }

  /** Dividing both sides by the number of samples. */
  lemma WithinShare(w: real, d: real, score: real, k: real, n: real)
    requires n > 0.0 && k > 0.0
    ensures w + d / k <= score ==> w / n + (d / n) / k <= score / n
    ensures score <= w + d / k ==> score / n <= w / n + (d / n) / k
  {
    Spread(w, d, k, n);
    if w + d / k <= score {
      Divide(w + d / k, score, n);
    }
    if score <= w + d / k {
      Divide(score, w + d / k, n);
    }
  }

  lemma Divide(a: real, b: real, n: real)
    requires a <= b && n > 0.0
    ensures a / n <= b / n && n / n == 1.0 && 0.0 / n == 0.0
  {
    Unscale(a / n, b / n, n);
  }

  lemma Spread(a: real, b: real, k: real, n: real)
    requires n > 0.0 && k > 0.0
    ensures (a + b / k) / n == a / n + (b / n) / k
  {
    var x, y := a / n, b / n;
    assert a == x * n && b == y * n;
    assert y * n / k == (y / k) * n;
    assert (x + y / k) * n == a + b / k;
  }

  /** estimateEquity: the request's first fault, certainty without opponents, or the average
      over the samples, whose rates bound the equity. */
  method EstimateEquity(hole: seq<Card>, community: seq<Card>, opponents: int, samples: int, draws: seq<seq<nat>>)
    returns (r: Result<Estimate, EquityError>)
    requires Problem(hole, community, opponents, samples).None? ==>
               && |draws| == samples
               && forall k :: 0 <= k < |draws| ==>
                    DrawsFit(draws[k], Needed(community, opponents), |RemainingDeck(hole, community)|)
    ensures var p := Problem(hole, community, opponents, samples);
            if p.Some? then r == Err(p.value) else r.Ok?
    ensures r.Ok? && opponents == 0 ==> r.value == Estimate(1.0, 1.0, 0.0, 0)
    ensures r.Ok? && opponents > 0 ==>
              && Coherent(r.value, opponents)
              && r.value.samples == samples
              && r.value.equity == Tally(hole, community, draws, opponents, samples).score / samples as real
              && r.value.winRate == Tally(hole, community, draws, opponents, samples).win as real / samples as real
              && r.value.tieRate == Tally(hole, community, draws, opponents, samples).tie as real / samples as real
  {
    hide Sample, WorkAt, Coherent, Unseen, Drawn, Distinct;
    if |hole| != 2 {
      return Err(BadHole);
    }
    if |community| !in {0, 3, 4, 5} {
      return Err(BadBoard);
    }
    if opponents < 0 {
      return Err(BadOpponents);
    }
    if samples <= 0 {
      return Err(BadSamples);
    }
    var repeated := HasDuplicate(hole + community);
    if repeated {
      return Err(DuplicateCard);
    }
    var remaining := Unseen(NewDeck(), hole + community);
    if Needed(community, opponents) > |remaining| {
      return Err(NotEnoughCards);
    }
    if opponents == 0 {
      return Ok(Estimate(1.0, 1.0, 0.0, 0));
    }
    var t := RunSamples(hole, community, opponents, samples, draws);
    TallyBounds(hole, community, draws, opponents, samples);
    Averages(t, opponents, samples);
    r := Ok(Estimate(t.score / samples as real, t.win as real / samples as real, t.tie as real / samples as real, samples));
  }

  method HasDuplicate(cards: seq<Card>) returns (repeated: bool)
    ensures repeated <==> !Distinct(cards)
  {
    var seen: set<Card> := {};
    for k := 0 to |cards|
      invariant forall c :: c in seen <==> c in cards[..k]
      invariant Distinct(cards[..k])
    {
      if cards[k] in seen {
        var i :| 0 <= i < k && cards[i] == cards[k];
        return true;
      }
      seen := seen + {cards[k]};
      assert cards[..k + 1] == cards[..k] + [cards[k]];
    }
    assert cards[..|cards|] == cards;
    repeated := false;
  }

  /** The sampling loop, on one working array shuffled in place. */
  method RunSamples(hole: seq<Card>, community: seq<Card>, opponents: nat, samples: nat, draws: seq<seq<nat>>)
    returns (t: Share)
    requires |hole| == 2 && |community| <= 5 && opponents > 0 && |draws| == samples
    requires Needed(community, opponents) <= |RemainingDeck(hole, community)|
    requires forall k :: 0 <= k < |draws| ==>
               DrawsFit(draws[k], Needed(community, opponents), |RemainingDeck(hole, community)|)
    ensures t == Tally(hole, community, draws, opponents, samples)
  {
    hide Sample, Unseen, Drawn;
    var remaining := RemainingDeck(hole, community);
    var work := new Card[|remaining|](i requires 0 <= i < |remaining| => remaining[i]);
    assert work[..] == remaining;
    var wins: nat, ties: nat, scoreSum: real := 0, 0, 0.0;
    var s := 0;
    while s < samples
      invariant 0 <= s <= samples
      invariant work[..] == WorkAt(remaining, draws, Needed(community, opponents), s)
      invariant Share(wins, ties, scoreSum) == Tally(hole, community, draws, opponents, s)
    {
      DrawSample(work, draws[s]);
      var share := JudgeSample(hole, community, work, opponents);
      wins, ties, scoreSum := wins + share.win, ties + share.tie, scoreSum + share.score;
      s := s + 1;
    }
    t := Share(wins, ties, scoreSum);
  }
}
