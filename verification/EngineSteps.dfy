// The engine's transitions as the source writes them: copies updated step by step, and loops
// over pots and winners (ghosts/rdc-poker/src/gameEngine.ts:166-495). Each is proved equal to
// the transition function of module Engine that the theorems are about.
module EngineSteps {
  import opened Seqs
  import opened PokerTypes
  import opened Evaluator
  import opened Pot
  import opened Engine
  import opened Settlement
  import opened Payout

  // ----- Paying out -----

  lemma CreditedTwice(ps: seq<Player>, a: seq<WinResult>, b: seq<WinResult>)
    ensures Credited(Credited(ps, a), b) == Credited(ps, a + b)
  {
    hide PaidTo;
    forall i | 0 <= i < |ps| ensures Credited(Credited(ps, a), b)[i] == Credited(ps, a + b)[i] {
      PaidConcat(a, b, ps[i].id);
    }
  }

  lemma CreditNothing(ps: seq<Player>)
    ensures Credited(ps, []) == ps
  {
  }

  lemma CreditOne(ps: seq<Player>, i: nat, amount: int)
    requires DistinctIds(ps) && i < |ps|
    ensures Credited(ps, [WinResult(ps[i].id, amount)]) == ps[i := ps[i].(stack := ps[i].stack + amount)]
  {
    var w := WinResult(ps[i].id, amount);
    assert [w][..0] == [];
    var r := Credited(ps, [w]);
    forall k | 0 <= k < |ps| ensures r[k] == ps[i := ps[i].(stack := ps[i].stack + amount)][k] {
      assert PaidTo([w], ps[k].id) == if ps[k].id == w.playerId then amount else 0;
    }
  }

  lemma CreditKeepsIds(ps: seq<Player>, payments: seq<WinResult>)
    requires DistinctIds(ps)
    ensures DistinctIds(Credited(ps, payments))
  {
    hide PaidTo;
    var r := Credited(ps, payments);
    forall i, j | 0 <= i < j < |r| ensures r[i].id != r[j].id {
      assert ps[i].id != ps[j].id;
    }
  }

  ghost predicate SeatedIds(ps: seq<Player>, es: seq<Entry>) {
    forall k :: 0 <= k < |es| ==> IndexOf(ps, es[k].id) >= 0
  }

  lemma CreditKeepsSeats(ps: seq<Player>, payments: seq<WinResult>, es: seq<Entry>)
    requires SeatedIds(ps, es)
    ensures SeatedIds(Credited(ps, payments), es)
  {
    hide PaidTo, IndexOf;
    var r := Credited(ps, payments);
    forall k | 0 <= k < |es| ensures IndexOf(r, es[k].id) >= 0 {
      var i := IndexOf(ps, es[k].id);
      assert r[i] in r && r[i].id == es[k].id;
    }
  }

  /** The loop that hands each winner of one pot his share. */
  method PayWinners(players: seq<Player>, winners: seq<WinResult>, potWinners: seq<Entry>, amount: int)
    returns (paid: seq<Player>, listed: seq<WinResult>)
    requires DistinctIds(players) && SeatedIds(players, potWinners) && potWinners != []
    ensures paid == Credited(players, Split(amount, potWinners))
    ensures listed == winners + Split(amount, potWinners)
  {
    hide PaidTo, IndexOf;
    var shareAmount := amount / |potWinners|;
    paid, listed := players, winners;
    CreditNothing(players);
    for k := 0 to |potWinners|
      invariant paid == Credited(players, Payments(potWinners[..k], shareAmount))
      invariant listed == winners + Payments(potWinners[..k], shareAmount)
    {
      var w := potWinners[k];
      ghost var before := Payments(potWinners[..k], shareAmount);
      CreditKeepsIds(players, before);
      CreditKeepsSeats(players, before, potWinners);
      var i := IndexOf(paid, w.id);
      CreditOne(paid, i, shareAmount);
      CreditedTwice(players, before, [WinResult(w.id, shareAmount)]);
      assert potWinners[..k + 1][..k] == potWinners[..k];
      paid := paid[i := paid[i].(stack := paid[i].stack + shareAmount)];
      listed := listed + [WinResult(w.id, shareAmount)];
    }
    assert potWinners[..|potWinners|] == potWinners;
  }

  lemma EntriesAreSeated(ps: seq<Player>, board: seq<Card>, es: seq<Entry>)
    requires |board| >= 5 && DistinctIds(ps)
    requires forall e :: e in es ==> IsEntry(ps, board, e)
    ensures SeatedIds(ps, es)
  {
    hide BestHand, IndexOf;
    forall k | 0 <= k < |es| ensures IndexOf(ps, es[k].id) >= 0 {
      assert es[k] in es;
      var i :| 0 <= i < |ps| && !ps[i].folded && es[k] == EntryOf(ps[i], board);
      assert ps[i] in ps;
    }
  }

  /** The loop over the side pots. */
  method PaySidePots(players: seq<Player>, sidePots: seq<SidePot>, evaluations: seq<Entry>, ghost board: seq<Card>)
    returns (paid: seq<Player>, listed: seq<WinResult>)
    requires DistinctIds(players) && |board| >= 5
    requires BestFirst(evaluations) && Rated(evaluations) && OneEach(evaluations)
    requires forall e :: e in evaluations ==> IsEntry(players, board, e)
    ensures paid == Credited(players, SidePayments(sidePots, evaluations))
    ensures listed == SidePayments(sidePots, evaluations)
  {
    hide PaidTo, IsEntry, BestFirst, Rated, OneEach, Winners, EligibleEntries, Split;
    paid, listed := players, [];
    CreditNothing(players);
    for k := 0 to |sidePots|
      invariant paid == Credited(players, SidePayments(sidePots[..k], evaluations))
      invariant listed == SidePayments(sidePots[..k], evaluations)
    {
      var sidePot := sidePots[k];
      var eligible := EligibleEntries(evaluations, sidePot.eligible);
      ghost var before := SidePayments(sidePots[..k], evaluations);
      EligibleFacts(evaluations, sidePot.eligible);
      RatedSubset(evaluations, eligible);
      WinnersAreUnbeaten(eligible);
      CreditedTwice(players, before, Split(sidePot.amount, Winners(eligible)));
      assert sidePots[..k + 1][..k] == sidePots[..k];
      if |eligible| > 0 {
        var potWinners := Winners(eligible);
        EntriesAreSeated(players, board, potWinners);
        CreditKeepsIds(players, before);
        CreditKeepsSeats(players, before, potWinners);
        paid, listed := PayWinners(paid, listed, potWinners, sidePot.amount);
      } else {
        NobodyEligible(sidePot.amount, eligible);
        CreditNothing(paid);
      }
    }
    assert sidePots[..|sidePots|] == sidePots;
  }

  lemma RatedSubset(es: seq<Entry>, some: seq<Entry>)
    requires Rated(es) && forall e :: e in some ==> e in es
    ensures Rated(some)
  {
    hide WellFormed;
  }

  lemma NobodyEligible(amount: int, es: seq<Entry>)
    requires es == []
    ensures Winners(es) == [] && Split(amount, Winners(es)) == []
  {
  }

  /** The grouping loop over the payments, keyed by player. */
  method GroupWinners(payments: seq<WinResult>) returns (grouped: seq<WinResult>)
    ensures grouped == Dedupe(payments)
  {
    grouped := [];
    for k := 0 to |payments|
      invariant grouped == Dedupe(payments[..k])
    {
      var w := payments[k];
      var i := IndexOfWin(grouped, w.playerId);
      assert payments[..k + 1][..k] == payments[..k];
      if i >= 0 {
        grouped := grouped[i := WinResult(w.playerId, grouped[i].amount + w.amount)];
      } else {
        grouped := grouped + [w];
      }
    }
    assert payments[..|payments|] == payments;
  }

  /** resolveShowdown */
  method ResolveShowdown(state: GameState) returns (newState: GameState)
    requires EnoughCards(state) && DistinctIds(state.players) && Count(state.players, Unfolded) > 0
    ensures newState == AfterShowdown(FullBoard(state))
  {
    hide PaidTo, SortEntries, Evaluations, SidePayments, Split, Dedupe, Credited, BestFirst, Rated, OneEach,
      IsEntry, Winners, Sum;
    var dealt := DealRemainingBoard(state);
    var evaluations := SortEntries(Evaluations(dealt.players, dealt.board));
    RankingFacts(dealt);
    assert evaluations == Ranking(dealt);
    SomeoneIsRanked(dealt);
    WinnersAreUnbeaten(evaluations);
    var mainWinners := Winners(evaluations);
    EntriesAreSeated(dealt.players, dealt.board, mainWinners);
    var players := dealt.players;
    var payments: seq<WinResult> := [];
    if |dealt.sidePots| > 0 {
      players, payments := PaySidePots(players, dealt.sidePots, evaluations, dealt.board);
      ghost var side := payments;
      var remainingPot := dealt.pot - Sum(dealt.sidePots, Amount);
      if remainingPot > 0 {
        CreditKeepsIds(dealt.players, side);
        CreditKeepsSeats(dealt.players, side, mainWinners);
        players, payments := PayWinners(players, payments, mainWinners, remainingPot);
        CreditedTwice(dealt.players, side, Split(remainingPot, mainWinners));
      }
    } else {
      players, payments := PayWinners(players, payments, mainWinners, dealt.pot);
    }
    assert payments == AllPayments(dealt, evaluations);
    var winners := GroupWinners(payments);
    newState := dealt.(players := players, winners := winners, pot := 0, phase := HandComplete);
  }

  lemma SomeoneIsRanked(r: GameState)
    requires |r.board| == 5 && DistinctIds(r.players) && Count(r.players, Unfolded) > 0
    ensures Ranking(r) != []
  {
    hide BestHand, Ranking, BestFirst, Rated, OneEach;
    RankingFacts(r);
    CountBounds(r.players, Unfolded);
    var i :| 0 <= i < |r.players| && Unfolded(r.players[i]);
    assert IsEntry(r.players, r.board, EntryOf(r.players[i], r.board));
    assert EntryOf(r.players[i], r.board) in Ranking(r);
  }

  /** resolveHand */
  method ResolveHand(state: GameState) returns (newState: GameState)
    requires Count(state.players, Unfolded) > 0
    ensures newState == AfterFold(state)
  {
    hide Count;
    var i := FirstUnfolded(state.players);
    var winner := state.players[i];
    newState := state.(phase := HandComplete, winners := [WinResult(winner.id, state.pot)]);
    newState := newState.(players := newState.players[i := winner.(stack := winner.stack + state.pot)]);
    newState := newState.(pot := 0);
  }

  // ----- Streets and actions -----

  lemma ClearKeepsIds(ps: seq<Player>)
    requires DistinctIds(ps)
    ensures DistinctIds(ClearBets(ps))
  {
    forall i, j | 0 <= i < j < |ps| ensures ClearBets(ps)[i].id != ClearBets(ps)[j].id {
      assert ps[i].id != ps[j].id;
    }
  }

  /** advancePhase */
  method NextPhase(state: GameState) returns (newState: GameState)
    requires state.players != [] && BoardFits(state) && Count(state.players, Unfolded) > 0
    requires DistinctIds(state.players)
    ensures newState == AdvancePhase(state)
  {
    hide Count, SidePots, AfterShowdown, NextFrom;
    newState := state.(players := ClearBets(state.players), currentBet := 0, minRaise := state.blinds.big);
    UnfoldedUnchanged(state.players);
    ClearKeepsIds(state.players);
    if Count(newState.players, LiveAllIn) > 0 {
      var pots := CalculateSidePots(newState.players);
      newState := newState.(sidePots := pots);
    }
    assert newState == CloseRound(state);
    if Count(newState.players, CanAct) < 2 && Count(newState.players, Unfolded) >= 2 {
      newState := ResolveShowdown(newState);
      return;
    }
    match state.phase {
      case PreFlop =>
        newState := newState.(board := newState.deck[..3], deck := newState.deck[3..], phase := Flop);
        assert state.board + CloseRound(state).deck[..3] == newState.board;
      case Flop =>
        newState := newState.(board := newState.board + newState.deck[..1], deck := newState.deck[1..], phase := Turn);
      case Turn =>
        newState := newState.(board := newState.board + newState.deck[..1], deck := newState.deck[1..], phase := River);
      case River =>
        newState := ResolveShowdown(newState);
        return;
    }
    var firstToAct := FindNextActivePlayer(newState.players, newState.dealer);
    if firstToAct == -1 {
      newState := ResolveShowdown(newState);
      return;
    }
    newState := newState.(current := firstToAct);
  }

  /** The updates call and raise make to the actor's seat. */
  method PutIn(seat: Player, amount: int) returns (player: Player)
    ensures player == PayIn(seat, amount)
  {
    player := seat.(stack := seat.stack - amount);
    player := player.(bet := player.bet + amount);
    player := player.(contributed := player.contributed + amount);
    if player.stack == 0 {
      player := player.(allIn := true);
    }
  }

  /** The switch of applyAction: the actor's seat and the table's betting, field by field. */
  method TakeAction(state: GameState, action: PlayerAction) returns (newState: GameState)
    requires IndexOf(state.players, action.playerId) >= 0
    ensures newState == Act(state, action)
  {
    hide IndexOf;
    var i := IndexOf(state.players, action.playerId);
    newState := state.(history := state.history + [action]);
    var player := state.players[i];
    match action.action {
      case Fold =>
        player := player.(folded := true);
      case Check =>
      case Call =>
        var toCall := Min(newState.currentBet - player.bet, player.stack);
        player := PutIn(player, toCall);
        newState := newState.(pot := newState.pot + toCall);
      case Raise =>
        var totalToAdd := action.amount - player.bet;
        if !(totalToAdd <= 0 || action.amount < state.currentBet) {
          var actualAdd := Min(totalToAdd, player.stack);
          player := PutIn(player, actualAdd);
          newState := newState.(pot := newState.pot + actualAdd, currentBet := player.bet);
          newState := newState.(minRaise := player.bet - state.currentBet);
        }
      case AllIn =>
        var allInAmount := player.stack;
        player := player.(bet := player.bet + allInAmount, contributed := player.contributed + allInAmount);
        newState := newState.(pot := newState.pot + allInAmount);
        player := player.(stack := 0, allIn := true);
        if player.bet > newState.currentBet {
          newState := newState.(minRaise := player.bet - newState.currentBet);
          newState := newState.(currentBet := player.bet);
        }
    }
    assert state.players[i := state.players[i]] == state.players;
    newState := newState.(players := newState.players[i := player]);
  }

  lemma ActKeepsIds(s: GameState, a: PlayerAction)
    requires DistinctIds(s.players) && IndexOf(s.players, a.playerId) >= 0
    ensures DistinctIds(Act(s, a).players)
  {
    hide IndexOf;
    var i := IndexOf(s.players, a.playerId);
    var ps := Act(s, a).players;
    assert |ps| == |s.players| && forall k :: 0 <= k < |ps| ==> ps[k].id == s.players[k].id;
    forall j, k | 0 <= j < k < |ps| ensures ps[j].id != ps[k].id {
      assert s.players[j].id != s.players[k].id;
    }
  }

  lemma ActKeepsBoard(s: GameState, a: PlayerAction)
    requires IndexOf(s.players, a.playerId) >= 0
    ensures var t := Act(s, a);
            && t.board == s.board && t.deck == s.deck && t.phase == s.phase && |t.players| == |s.players|
  {
    hide IndexOf;
  }

  /** applyAction */
  method PlayAction(state: GameState, action: PlayerAction) returns (newState: GameState)
    requires Playing(state) && DistinctIds(state.players)
    ensures newState == ApplyAction(state, action)
  {
    hide IndexOf, Act, Count, RoundComplete, NextFrom, AdvancePhase, AfterFold, DistinctIds;
    var playerIndex := IndexOf(state.players, action.playerId);
    if playerIndex == -1 {
      return state;
    }
    newState := TakeAction(state, action);
    ActKeepsUnfolded(state, action);
    ActKeepsIds(state, action);
    ActKeepsBoard(state, action);
    if Count(newState.players, Unfolded) == 1 {
      newState := ResolveHand(newState);
      return;
    }
    var nextPlayer := FindNextActivePlayer(newState.players, playerIndex);
    if nextPlayer == -1 || RoundComplete(newState) {
      newState := NextPhase(newState);
      return;
    }
    newState := newState.(current := nextPlayer);
  }
}
