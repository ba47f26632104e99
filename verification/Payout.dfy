// What every player takes out of a showdown, and what the showdown rounds away
// (ghosts/rdc-poker/src/gameEngine.ts:394-495, ghosts/rdc-poker/src/pot.ts:11-70).
module Payout {
  import opened Seqs
  import opened PokerTypes
  import opened Evaluator
  import opened Pot
  import opened Engine
  import opened Betting
  import opened Settlement

  function EntryOf(p: Player, board: seq<Card>): Entry
    requires |board| >= 5
  {
    Entry(p.id, BestHand(p.hole + board))
  }

  /** The showdown's entries, best hand first. */
  function Ranking(r: GameState): seq<Entry>
    requires |r.board| == 5
  {
    SortEntries(Evaluations(r.players, r.board))
  }

  /** Player i is still in and beats every other player still in. */
  ghost predicate StrictlyBest(r: GameState, i: nat)
    requires |r.board| == 5
  {
    && i < |r.players| && !r.players[i].folded
    && forall j :: 0 <= j < |r.players| && j != i && !r.players[j].folded ==>
         Compare(BestHand(r.players[i].hole + r.board), BestHand(r.players[j].hole + r.board)) > 0
  }

  /** Somebody still in beats player i. */
  ghost predicate Outranked(r: GameState, i: nat)
    requires |r.board| == 5
  {
    && i < |r.players|
    && exists j :: 0 <= j < |r.players| && !r.players[j].folded &&
         Compare(BestHand(r.players[j].hole + r.board), BestHand(r.players[i].hole + r.board)) > 0
  }

  // ----- The entries -----

  lemma {:induction false} EvaluationMembers(ps: seq<Player>, board: seq<Card>)
    requires |board| >= 5
    ensures forall e :: e in Evaluations(ps, board) <==> IsEntry(ps, board, e)
  {
    hide BestHand;
    if ps != [] {
      var init, p := ps[..|ps| - 1], ps[|ps| - 1];
      EvaluationMembers(init, board);
      forall e ensures e in Evaluations(ps, board) <==> IsEntry(ps, board, e) {
        if IsEntry(init, board, e) {
          var i :| 0 <= i < |init| && !init[i].folded && e == EntryOf(init[i], board);
          assert ps[i] == init[i];
        }
        if IsEntry(ps, board, e) {
          var i :| 0 <= i < |ps| && !ps[i].folded && e == EntryOf(ps[i], board);
          if i < |init| { assert init[i] == ps[i]; }
        }
      }
    }
  }

  ghost predicate IsEntry(ps: seq<Player>, board: seq<Card>, e: Entry)
    requires |board| >= 5
  {
    exists i :: 0 <= i < |ps| && !ps[i].folded && e == EntryOf(ps[i], board)
  }

  lemma {:induction false} EvaluationsOneEach(ps: seq<Player>, board: seq<Card>)
    requires |board| >= 5 && DistinctIds(ps)
    ensures OneEach(Evaluations(ps, board))
  {
    hide BestHand;
    if ps != [] {
      var init, p := ps[..|ps| - 1], ps[|ps| - 1];
      EvaluationsOneEach(init, board);
      EvaluationMembers(init, board);
      forall e | e in Evaluations(init, board) ensures e.id != p.id {
        var i :| 0 <= i < |init| && !init[i].folded && e == EntryOf(init[i], board);
        assert ps[i] == init[i];
      }
      OneEachSnoc(Evaluations(init, board), EntryOf(p, board));
    }
  }

  /** The ranking: one well-formed entry for each player still in, best first. */
  lemma RankingFacts(r: GameState)
    requires |r.board| == 5 && DistinctIds(r.players)
    ensures BestFirst(Ranking(r)) && Rated(Ranking(r)) && OneEach(Ranking(r))
    ensures forall e :: e in Ranking(r) <==> IsEntry(r.players, r.board, e)
  {
    hide BestHand, Compare, WellFormed, SortEntries, Evaluations, BestFirst, OneEach;
    var es := Evaluations(r.players, r.board);
    EvaluationMembers(r.players, r.board);
    EvaluationsOneEach(r.players, r.board);
    forall e | e in es ensures WellFormed(e.eval) {
      var i :| 0 <= i < |r.players| && !r.players[i].folded && e == EntryOf(r.players[i], r.board);
      var hand := BestHandIsAttained(r.players[i].hole + r.board);
    }
    SortEntriesFacts(es);
    OneEachReordered(es, SortEntries(es));
    assert forall e :: e in SortEntries(es) <==> e in multiset(SortEntries(es));
    assert forall e :: e in es <==> e in multiset(es);
  }

  lemma BestEntry(r: GameState, i: nat)
    requires |r.board| == 5 && DistinctIds(r.players) && StrictlyBest(r, i)
    ensures EntryOf(r.players[i], r.board) in Ranking(r)
    ensures BeatsAll(EntryOf(r.players[i], r.board), Ranking(r))
  {
    hide BestHand, Compare, Ranking, BestFirst, Rated, OneEach;
    RankingFacts(r);
    var e := EntryOf(r.players[i], r.board);
    forall x | x in Ranking(r) && x != e ensures Compare(e.eval, x.eval) > 0 {
      var j :| 0 <= j < |r.players| && !r.players[j].folded && x == EntryOf(r.players[j], r.board);
    }
  }

  /** The ranking holds at most one entry under a seat's id: that seat's own. */
  lemma OwnEntry(r: GameState, i: nat)
    requires |r.board| == 5 && DistinctIds(r.players) && i < |r.players|
    ensures forall e :: e in Ranking(r) && e.id == r.players[i].id ==>
              e == EntryOf(r.players[i], r.board) && !r.players[i].folded
  {
    hide BestHand, Ranking, BestFirst, Rated, OneEach;
    RankingFacts(r);
    forall e | e in Ranking(r) && e.id == r.players[i].id
      ensures e == EntryOf(r.players[i], r.board) && !r.players[i].folded
    {
      var k :| 0 <= k < |r.players| && !r.players[k].folded && e == EntryOf(r.players[k], r.board);
      assert k == i;
    }
  }

  lemma OutrankedIsBeaten(r: GameState, i: nat)
    requires |r.board| == 5 && DistinctIds(r.players) && Outranked(r, i)
    ensures Beaten(EntryOf(r.players[i], r.board), Ranking(r))
  {
    hide BestHand, Compare, Ranking, BestFirst, Rated, OneEach;
    RankingFacts(r);
    var j :| 0 <= j < |r.players| && !r.players[j].folded &&
             Compare(BestHand(r.players[j].hole + r.board), BestHand(r.players[i].hole + r.board)) > 0;
    assert IsEntry(r.players, r.board, EntryOf(r.players[j], r.board));
    assert EntryOf(r.players[j], r.board) in Ranking(r);
  }

  /** A player somebody beats wins no share of a pot everyone contends for. */
  lemma NotAmongWinners(r: GameState, i: nat)
    requires |r.board| == 5 && DistinctIds(r.players) && Outranked(r, i)
    ensures !Wins(Winners(Ranking(r)), r.players[i].id)
  {
    hide BestHand, Compare, Ranking, BestFirst, Rated, OneEach, Winners, Beaten;
    RankingFacts(r);
    WinnersAreUnbeaten(Ranking(r));
    OwnEntry(r, i);
    OutrankedIsBeaten(r, i);
  }

  // ----- The money on the table -----

  /** What settling needs of a state, whether or not the betting was matched. */
  ghost predicate Payable(r: GameState) {
    && |r.board| == 5
    && DistinctIds(r.players)
    && (forall p :: p in r.players ==> 0 <= p.stack && 0 <= p.contributed)
    && Count(r.players, Unfolded) >= 1
    && r.pot == Sum(r.players, Contribution)
    && r.sidePots == (if Count(r.players, LiveAllIn) > 0 then SidePots(r.players) else [])
  }

  lemma ReadyIsPayable(r: GameState)
    requires ShowdownReady(r)
    ensures Payable(r)
  {
    hide SidePots, Sum, Count;
  }

  /** With pots drawn up, what is left over is exactly what the folded players put in. */
  lemma LeftoverIsFoldedMoney(r: GameState)
    requires Payable(r) && r.sidePots != []
    ensures r.pot - Sum(r.sidePots, Amount) == Sum(r.players, FoldedContribution) >= 0
    ensures Amounts(r.sidePots)
  {
    hide SidePots, Ranking;
    PotsHoldTheLiveMoney(r.players);
    SplitContributions(r.players);
    SumNonNegative(r.players, FoldedContribution);
    SidePotsAreContested(r.players);
  }

  /** With nobody all-in, everyone still in has put in the same. */
  lemma {:induction false} EqualStakes(ps: seq<Player>, c: int)
    requires forall p :: p in ps && !p.folded ==> p.contributed == c
    ensures CappedLive(ps, c) == Sum(ps, LiveContribution)
  {
    if ps != [] {
      EqualStakes(ps[..|ps| - 1], c);
    }
  }

  lemma NobodyAllIn(r: GameState, i: nat)
    requires ShowdownReady(r) && r.sidePots == [] && i < |r.players| && !r.players[i].folded
    ensures CappedLive(r.players, r.players[i].contributed) == Sum(r.players, LiveContribution)
  {
    var me := r.players[i];
    CountBounds(r.players, LiveAllIn);
    forall p | p in r.players && !p.folded ensures p.contributed == me.contributed {
      var k :| 0 <= k < |r.players| && r.players[k] == p;
      assert !p.allIn && !me.allIn by {
        if Count(r.players, LiveAllIn) > 0 {
          SomeLiveAllIn(r.players);
        }
      }
    }
    EqualStakes(r.players, me.contributed);
  }

  lemma SomeLiveAllIn(ps: seq<Player>)
    requires Matched(ps) && Count(ps, LiveAllIn) > 0
    ensures SidePots(ps) != []
  {
    hide SidePots, Count, Active, Levels, LayerPots, TopPot, Sum;
    CountBounds(ps, LiveAllIn);
    var k :| 0 <= k < |ps| && LiveAllIn(ps[k]);
    assert ps[k] in ps && InPots(ps[k]);
    PotsNeedAnAllIn(ps);
  }

  // ----- The payout formula -----

  /** What a showdown hands player i. */
  function Prize(r: GameState, i: nat): int
    requires |r.board| == 5 && i < |r.players|
  {
    AfterShowdown(r).players[i].stack - r.players[i].stack
  }

  lemma PrizeIsPaid(r: GameState, i: nat)
    requires |r.board| == 5 && i < |r.players|
    ensures Prize(r, i) == PaidTo(AllPayments(r, Ranking(r)), r.players[i].id)
  {
    hide SortEntries, Evaluations, AllPayments, PaidTo, Dedupe;
  }

  /** A player with the strictly best hand takes, from each player still in, as much as he
      put in himself, and all the folded money: with or without side pots. */
  lemma BestHandTakes(r: GameState, i: nat)
    requires ShowdownReady(r) && StrictlyBest(r, i)
    ensures Prize(r, i) == CappedLive(r.players, r.players[i].contributed) + Sum(r.players, FoldedContribution)
  {
    hide Ranking, BestHand, Compare, SidePots, StrictlyBest, Winners, Split, SidePayments, PaidTo,
      Matched, Count, BestFirst, Rated, OneEach, BeatsAll, Reach, Sum, AfterShowdown, Prize;
    ReadyIsPayable(r);
    Seat(r, i);
    PrizeIsPaid(r, i);
    RankingFacts(r);
    BestEntry(r, i);
    var es, e := Ranking(r), EntryOf(r.players[i], r.board);
    BestWinsAlone(es, [], e);
    SplitContributions(r.players);
    if r.sidePots == [] {
      NobodyAllIn(r, i);
      PotCovers(r);
      SplitFacts(r.pot, [e], e.id);
    } else {
      LeftoverIsFoldedMoney(r);
      var leftover := r.pot - Sum(r.sidePots, Amount);
      SidePaymentsToBest(r.sidePots, es, e);
      ReachIsCapped(r.players, r.players[i]);
      SplitFacts(leftover, [e], e.id);
      PaidConcat(SidePayments(r.sidePots, es), if leftover > 0 then Split(leftover, [e]) else [], e.id);
      NothingPaid(e.id);
    }
  }

  lemma Seat(r: GameState, i: nat)
    requires |r.board| == 5 && (StrictlyBest(r, i) || Outranked(r, i))
    ensures i < |r.players| && r.players[i] in r.players
    ensures StrictlyBest(r, i) ==> !r.players[i].folded
    ensures OneEach([EntryOf(r.players[i], r.board)])
  {
    hide BestHand, Compare;
  }

  lemma PotCovers(r: GameState)
    requires Payable(r)
    ensures r.pot >= 0
  {
    SumNonNegative(r.players, Contribution);
  }

  /** A player somebody beats takes at most, from each player still in, as much as he put in
      himself, and nothing of the folded money. */
  lemma BeatenHandTakesAtMost(r: GameState, i: nat)
    requires ShowdownReady(r) && Outranked(r, i) && !r.players[i].folded
    ensures 0 <= Prize(r, i) <= CappedLive(r.players, r.players[i].contributed)
  {
    hide Ranking, BestHand, Compare, SidePots, Outranked, Winners, Split, SidePayments, PaidTo,
      Matched, Count, BestFirst, Rated, OneEach, Reach, Sum, AfterShowdown, Prize, Wins;
    ReadyIsPayable(r);
    Seat(r, i);
    PrizeIsPaid(r, i);
    RankingFacts(r);
    NotAmongWinners(r, i);
    var es, id := Ranking(r), r.players[i].id;
    WinnersAreUnbeaten(es);
    if r.sidePots == [] {
      PotCovers(r);
      SplitFacts(r.pot, Winners(es), id);
      CappedIsNonNegative(r.players, r.players[i].contributed);
    } else {
      LeftoverIsFoldedMoney(r);
      var leftover := r.pot - Sum(r.sidePots, Amount);
      SidePaymentsBounded(r.sidePots, es, id);
      ReachIsCapped(r.players, r.players[i]);
      SplitFacts(leftover, Winners(es), id);
      PaidConcat(SidePayments(r.sidePots, es), if leftover > 0 then Split(leftover, Winners(es)) else [], id);
      NothingPaid(id);
    }
  }

  lemma CappedIsNonNegative(ps: seq<Player>, cap: int)
    requires Matched(ps)
    ensures cap >= 0 ==> CappedLive(ps, cap) >= 0
    ensures forall p :: p in ps ==> p.contributed >= 0
  {
    if cap >= 0 {
      CappedIsNonNegativeFrom(ps, cap);
    }
  }

  lemma {:induction false} CappedIsNonNegativeFrom(ps: seq<Player>, cap: int)
    requires cap >= 0 && forall p :: p in ps ==> p.contributed >= 0
    ensures CappedLive(ps, cap) >= 0
  {
    if ps != [] {
      CappedIsNonNegativeFrom(ps[..|ps| - 1], cap);
    }
  }

  /** A player who folded takes nothing. */
  lemma FoldedTakesNothing(r: GameState, i: nat)
    requires ShowdownReady(r) && i < |r.players| && r.players[i].folded
    ensures Prize(r, i) == 0
  {
    hide Ranking, BestHand, Compare, SidePots, Winners, Split, SidePayments, PaidTo, Matched, Count,
      BestFirst, Rated, OneEach, Sum, AfterShowdown, Prize, IsEntry;
    PrizeIsPaid(r, i);
    RankingFacts(r);
    var es, id := Ranking(r), r.players[i].id;
    OwnEntry(r, i);
    PaidOnlyEntries(r, es, id);
  }

  lemma {:induction false} UnnamedIsUnpaid(payments: seq<WinResult>, es: seq<Entry>, id: string)
    requires PaidOnlyTo(payments, es) && forall e :: e in es ==> e.id != id
    ensures PaidTo(payments, id) == 0
  {
    if payments != [] {
      assert payments[|payments| - 1] in payments;
      UnnamedIsUnpaid(payments[..|payments| - 1], es, id);
    }
  }

  lemma SplitToEntries(amount: int, es: seq<Entry>)
    requires BestFirst(es) && Rated(es)
    ensures PaidOnlyTo(Split(amount, Winners(es)), es)
  {
    hide Compare, WellFormed, Winners, BestFirst, OneEach, Rated, Beaten;
    WinnersAreUnbeaten(es);
    var ws := Winners(es);
    if ws != [] {
      PaymentsToEntries(ws, amount / |ws|, es);
    }
  }

  lemma AllPaymentsToEntries(r: GameState, es: seq<Entry>)
    requires BestFirst(es) && Rated(es) && OneEach(es)
    ensures PaidOnlyTo(AllPayments(r, es), es)
  {
    hide Winners, SidePayments, Split, BestFirst, OneEach, Rated, Sum;
    SidePaymentsToEntries(r.sidePots, es);
    SplitToEntries(r.pot, es);
    SplitToEntries(r.pot - Sum(r.sidePots, Amount), es);
  }

  lemma PaidOnlyEntries(r: GameState, es: seq<Entry>, id: string)
    requires BestFirst(es) && Rated(es) && OneEach(es)
    requires forall e :: e in es ==> e.id != id
    ensures PaidTo(AllPayments(r, es), id) == 0
  {
    hide AllPayments, PaidTo;
    AllPaymentsToEntries(r, es);
    UnnamedIsUnpaid(AllPayments(r, es), es, id);
  }

  // ----- Hands without a showdown, and ties -----

  /** A hand won by a fold gives the whole pot to the one player left, and nobody anything
      else. */
  lemma FoldPaysTheLast(r: GameState)
    requires Count(r.players, Unfolded) == 1
    ensures var t := AfterFold(r);
            && |t.players| == |r.players|
            && (forall i :: 0 <= i < |r.players| ==>
                  t.players[i] == r.players[i].(stack := r.players[i].stack + if r.players[i].folded then 0 else r.pot))
            && (exists i :: 0 <= i < |r.players| && !r.players[i].folded && t.winners == [WinResult(r.players[i].id, r.pot)])
  {
    hide Count;
    var w := FirstUnfolded(r.players);
    forall i | 0 <= i < |r.players| && i != w ensures r.players[i].folded {
      if !r.players[i].folded {
        CountTwo(r.players, Unfolded, w, i);
      }
    }
    assert AfterFold(r).winners == [WinResult(r.players[w].id, r.pot)];
  }

  /** An unbeaten hand takes an equal share of every pot it may win, each rounded down, and an
      equal share of what is outside the side pots: of everything, if there are none. */
  lemma UnbeatenTakesItsShares(r: GameState, i: nat)
    requires Payable(r) && i < |r.players| && !r.players[i].folded && !Outranked(r, i)
    ensures var es, outside := Ranking(r), r.pot - Sum(r.sidePots, Amount);
            && outside >= 0 && |Winners(es)| > 0
            && (forall pot :: pot in r.sidePots && r.players[i].id in pot.eligible ==> PotWinners(pot, es) != [])
            && Prize(r, i) == SharesOf(r.sidePots, es, r.players[i].id) + outside / |Winners(es)|
  {
    hide Ranking, BestHand, Compare, SidePots, Winners, Split, SidePayments, PaidTo, Count, BestFirst, Rated,
      OneEach, Sum, Prize, SharesOf, PotWinners, Wins, Outranked;
    RankingFacts(r);
    WinnersAreUnbeaten(Ranking(r));
    EveryPotIsWon(r);
    PrizeIsPaid(r, i);
    PotCovers(r);
    var es, e := Ranking(r), EntryOf(r.players[i], r.board);
    assert IsEntry(r.players, r.board, e) && e in es;
    if Beaten(e, es) {
      BeatenIsOutranked(r, i);
    }
    EntryWins(Winners(es), e);
    if r.sidePots == [] {
      SplitFacts(r.pot, Winners(es), e.id);
      NoShares(es, e.id);
    } else {
      LeftoverIsFoldedMoney(r);
      var leftover := r.pot - Sum(r.sidePots, Amount);
      SidePaymentsToUnbeaten(r.sidePots, es, e);
      SplitFacts(leftover, Winners(es), e.id);
      PaidConcat(SidePayments(r.sidePots, es), if leftover > 0 then Split(leftover, Winners(es)) else [], e.id);
      NothingPaid(e.id);
    }
  }

  lemma EntryWins(ws: seq<Entry>, e: Entry)
    requires e in ws
    ensures Wins(ws, e.id)
  {
  }

  lemma NoShares(es: seq<Entry>, id: string)
    ensures SharesOf([], es, id) == 0 && Sum([], Amount) == 0
  {
  }

  lemma BeatenIsOutranked(r: GameState, i: nat)
    requires |r.board| == 5 && DistinctIds(r.players) && i < |r.players|
    requires Beaten(EntryOf(r.players[i], r.board), Ranking(r))
    ensures Outranked(r, i)
  {
    hide BestHand, Compare, Ranking, BestFirst, Rated, OneEach;
    RankingFacts(r);
    var x :| x in Ranking(r) && Compare(x.eval, EntryOf(r.players[i], r.board).eval) > 0;
    var j :| 0 <= j < |r.players| && !r.players[j].folded && x == EntryOf(r.players[j], r.board);
  }

  // ----- Conservation -----

  /** The chips a showdown rounds away: for each pot, its amount modulo its winner count. */
  function Dust(r: GameState): int
    requires |r.board| == 5
  {
    var es := Ranking(r);
    if r.sidePots == [] then Unpaid(r.pot, Winners(es))
    else
      var leftover := r.pot - Sum(r.sidePots, Amount);
      SideDust(r.sidePots, es) + Unpaid(leftover, Winners(es))
  }

  lemma PaidInAll(r: GameState)
    requires Payable(r)
    ensures Sum(AllPayments(r, Ranking(r)), WinAmount) == r.pot - Dust(r)
  {
    hide Ranking, Compare, SidePots, Winners, Split, SidePayments, Matched, Count, BestFirst, Rated,
      OneEach, Sum, SideDust;
    RankingFacts(r);
    var es := Ranking(r);
    WinnersAreUnbeaten(es);
    SomeoneWins(r);
    if r.sidePots == [] {
      PotCovers(r);
      SplitFacts(r.pot, Winners(es), "");
    } else {
      LeftoverIsFoldedMoney(r);
      var leftover := r.pot - Sum(r.sidePots, Amount);
      SidePaymentsTotal(r.sidePots, es);
      SplitFacts(leftover, Winners(es), "");
      SumConcat(SidePayments(r.sidePots, es), if leftover > 0 then Split(leftover, Winners(es)) else [], WinAmount);
      NothingPaid("");
    }
  }

  lemma SomeoneWins(r: GameState)
    requires Payable(r)
    ensures Winners(Ranking(r)) != [] && Unpaid(0, Winners(Ranking(r))) == 0
  {
    hide Ranking, BestHand, Compare, Winners, Matched, BestFirst, Rated, OneEach, SidePots;
    RankingFacts(r);
    WinnersAreUnbeaten(Ranking(r));
    CountBounds(r.players, Unfolded);
    var i :| 0 <= i < |r.players| && Unfolded(r.players[i]);
    assert IsEntry(r.players, r.board, EntryOf(r.players[i], r.board));
    assert EntryOf(r.players[i], r.board) in Ranking(r);
  }

  /** A showdown turns the whole pot into stacks, except for exactly the rounding. */
  lemma ShowdownConserves(r: GameState)
    requires Payable(r)
    ensures Chips(AfterShowdown(r)) == Chips(r) - Dust(r)
  {
    hide SortEntries, Evaluations, SidePots, Matched, Count, BestFirst, Rated, OneEach, Sum, AllPayments,
      Dust, PaidOnlyTo, IsEntry, PaidTo, Dedupe;
    PaidInAll(r);
    RankingFacts(r);
    var es := Ranking(r);
    AllPaymentsToEntries(r, es);
    PayeesAreSeated(r, AllPayments(r, es));
    CreditTotal(r.players, AllPayments(r, es));
  }

  lemma PayeesAreSeated(r: GameState, payments: seq<WinResult>)
    requires |r.board| == 5 && DistinctIds(r.players) && PaidOnlyTo(payments, Ranking(r))
    ensures forall w :: w in payments ==> exists i :: 0 <= i < |r.players| && r.players[i].id == w.playerId
  {
    hide Ranking, BestHand, BestFirst, Rated, OneEach;
    RankingFacts(r);
    forall w | w in payments ensures exists i :: 0 <= i < |r.players| && r.players[i].id == w.playerId {
      var e :| e in Ranking(r) && e.id == w.playerId;
      var i :| 0 <= i < |r.players| && !r.players[i].folded && e == EntryOf(r.players[i], r.board);
    }
  }

  /** Every side pot is won by somebody, so a pot rounds away less than one chip per winner. */
  lemma EveryPotIsWon(r: GameState)
    requires Payable(r)
    ensures forall pot :: pot in r.sidePots ==> PotWinners(pot, Ranking(r)) != []
    ensures Winners(Ranking(r)) != []
  {
    hide Ranking, BestHand, SidePots, PotWinners, BestFirst, Rated, OneEach, Count, Sum, Winners;
    RankingFacts(r);
    SomeoneWins(r);
    SidePotsAreContested(r.players);
    forall pot | pot in r.sidePots ensures PotWinners(pot, Ranking(r)) != [] {
      assert Contested(pot, r.players);
      var p :| p in r.players && !p.folded && p.id in pot.eligible;
      var i :| 0 <= i < |r.players| && r.players[i] == p;
      assert IsEntry(r.players, r.board, EntryOf(p, r.board));
      assert EntryOf(p, r.board) in Ranking(r);
      PotWinnersFacts(pot, Ranking(r));
    }
  }

  lemma UnpaidBounds(amount: int, ws: seq<Entry>)
    requires ws != []
    ensures 0 <= Unpaid(amount, ws) < |ws|
  {
  }

  /** The side pots together round away at most n chips each, with at most n winners each. */
  lemma {:induction false} SideDustBounds(pots: seq<SidePot>, es: seq<Entry>, n: nat)
    requires forall pot :: pot in pots ==> 1 <= |PotWinners(pot, es)| <= n
    ensures 0 <= SideDust(pots, es) <= n * |pots|
  {
    hide PotWinners, Unpaid;
    if pots != [] {
      var init, pot := pots[..|pots| - 1], pots[|pots| - 1];
      assert pot in pots;
      SideDustBounds(init, es, n);
      UnpaidBounds(pot.amount, PotWinners(pot, es));
      OneMore(n, |init|);
    }
  }

  /** Each pot, and what is outside the side pots, rounds away less than one chip per winner. */
  lemma EachPotsDust(r: GameState)
    requires Payable(r)
    ensures var es := Ranking(r);
            && (forall pot :: pot in r.sidePots ==>
                  0 <= Unpaid(pot.amount, PotWinners(pot, es)) < |PotWinners(pot, es)|)
            && 0 <= Unpaid(r.pot - Sum(r.sidePots, Amount), Winners(es)) < |Winners(es)|
    ensures 0 <= Dust(r) <= |Ranking(r)| * (|r.sidePots| + 1)
  {
    hide Ranking, SidePots, PotWinners, Winners, Unpaid, Count, Sum, SideDust, BestFirst, Rated, OneEach;
    var es := Ranking(r);
    EveryPotIsWon(r);
    forall pot | pot in r.sidePots
      ensures 0 <= Unpaid(pot.amount, PotWinners(pot, es)) < |PotWinners(pot, es)|
      ensures 1 <= |PotWinners(pot, es)| <= |es|
    {
      UnpaidBounds(pot.amount, PotWinners(pot, es));
      WinnersAreFew(pot, es);
    }
    UnpaidBounds(r.pot - Sum(r.sidePots, Amount), Winners(es));
    WinnersAreFew(SidePot(0, []), es);
    SideDustBounds(r.sidePots, es, |es|);
    NoShares(es, "");
    OneMore(|es|, |r.sidePots|);
  }

  /** The reported winners: once each, with everything they were paid, adding up to what was
      paid out. */
  lemma WinnersAreReported(r: GameState)
    requires Payable(r)
    ensures var ws := AfterShowdown(r).winners;
            && OnePerWinner(ws)
            && Sum(ws, WinAmount) == r.pot - Dust(r)
            && forall i, k :: 0 <= i < |ws| && 0 <= k < |r.players| && r.players[k].id == ws[i].playerId ==>
                 ws[i].amount == Prize(r, k)
  {
    hide SortEntries, Evaluations, SidePots, Matched, Count, Sum, AllPayments, Dust, PaidTo, Dedupe;
    var payments := AllPayments(r, Ranking(r));
    DedupeLists(payments);
    DedupeAmounts(payments);
    PaidInAll(r);
    var ws := AfterShowdown(r).winners;
    forall i, k | 0 <= i < |ws| && 0 <= k < |r.players| && r.players[k].id == ws[i].playerId
      ensures ws[i].amount == Prize(r, k)
    {
      PrizeIsPaid(r, k);
    }
  }
}
