// Hand after hand at one table: who goes on, and the chips that do
// (ghosts/rdc-poker/src/gameEngine.ts:498-514).
module Match {
  import opened Seqs
  import opened PokerTypes
  import opened Engine
  import opened Betting
  import opened Payout
  import opened Hands
  import opened Conservation

  function Survivors(ps: seq<Player>): seq<Player> {
    if ps == [] then []
    else
      var rest := Survivors(ps[..|ps| - 1]);
      if ps[|ps| - 1].stack > 0 then rest + [ps[|ps| - 1]] else rest
  }

  function NextDealer(dealer: nat, n: nat): nat
    requires n > 0
  {
    (dealer + 1) % n
  }

  /** startNextHand, on a shuffled deck. */
  function NextHand(prev: GameState, deck: seq<Card>): GameState
    requires 2 * |Survivors(prev.players)| <= |deck|
  {
    var ps := Survivors(prev.players);
    if |ps| < 2 then prev.(phase := Waiting)
    else NewHand(ps, NextDealer(prev.dealer, |ps|), prev.blinds, deck)
  }

  method StartNextHand(prevState: GameState, shuffled: seq<Card>) returns (state: GameState)
    requires 2 * |Survivors(prevState.players)| <= |shuffled|
    ensures state == NextHand(prevState, shuffled)
  {
    hide NewHand, Survivors;
    var remainingPlayers := Survivors(prevState.players);
    if |remainingPlayers| < 2 {
      return prevState.(phase := Waiting);
    }
    var newDealerIndex := (prevState.dealer + 1) % |remainingPlayers|;
    state := CreateNewHand(remainingPlayers, newDealerIndex, prevState.blinds, shuffled);
  }

  lemma {:induction false} SurvivorMembers(ps: seq<Player>)
    ensures forall p :: p in Survivors(ps) <==> p in ps && p.stack > 0
  {
    if ps != [] {
      SurvivorMembers(ps[..|ps| - 1]);
      assert ps == ps[..|ps| - 1] + [ps[|ps| - 1]];
    }
  }

  lemma {:induction false} SurvivorChips(ps: seq<Player>)
    requires forall i :: 0 <= i < |ps| ==> 0 <= ps[i].stack
    ensures Sum(Survivors(ps), Stack) == Sum(ps, Stack)
  {
    if ps != [] {
      SurvivorChips(ps[..|ps| - 1]);
      SumSnoc(Survivors(ps[..|ps| - 1]), ps[|ps| - 1], Stack);
    }
  }

  lemma {:induction false} SurvivorIds(ps: seq<Player>)
    requires DistinctIds(ps)
    ensures DistinctIds(Survivors(ps))
  {
    if ps != [] {
      var init, p := ps[..|ps| - 1], ps[|ps| - 1];
      SurvivorIds(init);
      SurvivorMembers(init);
      forall q | q in Survivors(init) ensures q.id != p.id {
        var i :| 0 <= i < |init| && init[i] == q;
        assert ps[i] == q;
      }
    }
  }

  /** The players who go on are those with chips, each once, and they carry all the chips. */
  lemma SurvivorFacts(ps: seq<Player>)
    requires DistinctIds(ps) && forall i :: 0 <= i < |ps| ==> 0 <= ps[i].stack
    ensures DistinctIds(Survivors(ps))
    ensures forall p :: p in Survivors(ps) <==> p in ps && p.stack > 0
    ensures Sum(Survivors(ps), Stack) == Sum(ps, Stack)
  {
    SurvivorMembers(ps);
    SurvivorChips(ps);
    SurvivorIds(ps);
  }

  /** Starting the next hand moves nobody's chips: the new hand holds what the players ended
      the last one with. */
  lemma NextHandKeepsChips(prev: GameState, deck: seq<Card>)
    requires DistinctIds(prev.players) && forall i :: 0 <= i < |prev.players| ==> 0 <= prev.players[i].stack
    requires |Survivors(prev.players)| >= 2
    requires Deal(Survivors(prev.players), prev.blinds, deck)
    ensures Chips(NextHand(prev, deck)) == Sum(prev.players, Stack)
    ensures Loose(NextHand(prev, deck))
  {
    hide NewHand, Survivors, Sum, Loose, SameStart;
    var ps := Survivors(prev.players);
    var dealer := NextDealer(prev.dealer, |ps|);
    SurvivorFacts(prev.players);
    NewHandIsLoose(ps, dealer, prev.blinds, deck);
    NewTable(ps, dealer, prev.blinds, deck);
    StartingChips(ps, NewHand(ps, dealer, prev.blinds, deck).players);
  }

  /** The next hand is dealt to the survivors in their order with the same blinds, and the button
      counts one place on round the smaller table. */
  lemma ButtonMovesOn(prev: GameState, deck: seq<Card>)
    requires |Survivors(prev.players)| >= 2
    requires Deal(Survivors(prev.players), prev.blinds, deck)
    ensures var r, n := NextHand(prev, deck), |Survivors(prev.players)|;
            && r.phase == PreFlop && r.blinds == prev.blinds && |r.players| == n
            && r.dealer < n && (exists rounds: nat :: prev.dealer + 1 == rounds * n + r.dealer)
            && forall i :: 0 <= i < n ==> r.players[i].id == Survivors(prev.players)[i].id
  {
    hide NewHand, Survivors, DealOrder, SeatAfter;
    var ps, n := Survivors(prev.players), |Survivors(prev.players)|;
    var dealer := (prev.dealer + 1) % n;
    NewRest(ps, dealer, prev.blinds, deck);
    NewTable(ps, dealer, prev.blinds, deck);
    var rounds: nat := (prev.dealer + 1) / n;
    assert rounds * n == n * rounds;
    assert prev.dealer + 1 == rounds * n + dealer;
  }

  lemma {:induction false} EverybodySurvives(ps: seq<Player>)
    requires forall i :: 0 <= i < |ps| ==> ps[i].stack > 0
    ensures Survivors(ps) == ps
  {
    if ps != [] {
      EverybodySurvives(ps[..|ps| - 1]);
      assert ps == ps[..|ps| - 1] + [ps[|ps| - 1]];
    }
  }

  /** With nobody out, the button goes to the next seat. */
  lemma ButtonGoesRound(prev: GameState, deck: seq<Card>)
    requires prev.dealer < |prev.players| && forall i :: 0 <= i < |prev.players| ==> prev.players[i].stack > 0
    requires |prev.players| >= 2 && Deal(prev.players, prev.blinds, deck)
    ensures Survivors(prev.players) == prev.players
    ensures NextHand(prev, deck).dealer == if prev.dealer + 1 == |prev.players| then 0 else prev.dealer + 1
  {
    hide NewHand, Survivors, NextDealer, DistinctIds;
    EverybodySurvives(prev.players);
    OnePlaceOn(prev.dealer, |prev.players|);
    NewRest(prev.players, NextDealer(prev.dealer, |prev.players|), prev.blinds, deck);
  }

  lemma OnePlaceOn(dealer: nat, n: nat)
    requires dealer < n
    ensures NextDealer(dealer, n) == if dealer + 1 == n then 0 else dealer + 1
  {
  }

  // ----- Chains of hands -----

  datatype Play = Play(deck: seq<Card>, actions: seq<PlayerAction>)

  function Played(players: seq<Player>, dealer: nat, blinds: Blinds, play: Play): GameState
    requires Deal(players, blinds, play.deck)
    requires LegalRun(NewHand(players, dealer, blinds, play.deck), play.actions)
  {
    Run(NewHand(players, dealer, blinds, play.deck), play.actions)
  }

  ghost predicate Finishes(players: seq<Player>, dealer: nat, blinds: Blinds, play: Play) {
    && Deal(players, blinds, play.deck)
    && LegalRun(NewHand(players, dealer, blinds, play.deck), play.actions)
    && Played(players, dealer, blinds, play).phase == HandComplete
  }

  /** Hands played to their end, one after the other. */
  ghost predicate Chain(players: seq<Player>, dealer: nat, blinds: Blinds, plays: seq<Play>)
    decreases |plays|
  {
    plays == []
    || (Finishes(players, dealer, blinds, plays[0])
        && var after := Survivors(Played(players, dealer, blinds, plays[0]).players);
        |after| > 0 && Chain(after, NextDealer(dealer, |after|), blinds, plays[1..]))
  }

  /** The players left after a chain. */
  function LastPlayers(players: seq<Player>, dealer: nat, blinds: Blinds, plays: seq<Play>): seq<Player>
    requires Chain(players, dealer, blinds, plays)
    decreases |plays|
  {
    if plays == [] then players
    else
      var after := Survivors(Played(players, dealer, blinds, plays[0]).players);
      LastPlayers(after, NextDealer(dealer, |after|), blinds, plays[1..])
  }

  /** What the showdowns of a chain rounded away, hand by hand; a hand won by a fold rounds
      away nothing. */
  ghost predicate Rounded(players: seq<Player>, dealer: nat, blinds: Blinds, plays: seq<Play>, losses: seq<int>)
    requires Chain(players, dealer, blinds, plays)
    decreases |plays|
  {
    && |losses| == |plays|
    && (plays != [] ==>
          var t := Played(players, dealer, blinds, plays[0]);
          var after := Survivors(t.players);
          && (exists r, e :: e != Continues && Cost(t, r, e, losses[0]))
          && Rounded(after, NextDealer(dealer, |after|), blinds, plays[1..], losses[1..]))
  }

  /** A finished hand leaves its players with what they brought, less its rounding. */
  lemma FinishedHand(players: seq<Player>, dealer: nat, blinds: Blinds, play: Play) returns (loss: int)
    requires Finishes(players, dealer, blinds, play)
    ensures var t := Played(players, dealer, blinds, play);
            && (exists r, e :: e != Continues && Cost(t, r, e, loss))
            && Sum(Survivors(t.players), Stack) == Sum(players, Stack) - loss
            && DistinctIds(t.players)
  {
    hide NewHand, LegalRun, Run, Deal, Survivors, Sum, Count, AfterFold, AfterShowdown, Dust, Payable, Loose;
    var t := Played(players, dealer, blinds, play);
    var r, e := HandConservesChips(players, dealer, blinds, play.deck, play.actions);
    loss := Sum(players, Stack) - Sum(t.players, Stack);
    assert Cost(t, r, e, loss);
    StacksStayWhole(players, dealer, blinds, play.deck, play.actions);
    KeepsIds(players, t.players, blinds, play.deck);
    SurvivorFacts(t.players);
  }

  lemma KeepsIds(players: seq<Player>, ps: seq<Player>, blinds: Blinds, deck: seq<Card>)
    requires Deal(players, blinds, deck) && |ps| == |players|
    requires forall i :: 0 <= i < |ps| ==> ps[i].id == players[i].id
    ensures DistinctIds(ps)
  {
  }

  /** Over any chain of hands, each dealt to the survivors of the one before, the players left
      hold every chip the first ones brought, except what the showdowns rounded away. */
  lemma {:induction false} ChainConserves(players: seq<Player>, dealer: nat, blinds: Blinds, plays: seq<Play>)
    returns (losses: seq<int>)
    requires Chain(players, dealer, blinds, plays)
    ensures Rounded(players, dealer, blinds, plays, losses)
    ensures Sum(LastPlayers(players, dealer, blinds, plays), Stack) == Sum(players, Stack) - SumOf(losses)
    decreases |plays|
  {
    hide Deal, LegalRun, NewHand, Run, Played, Survivors, Sum, Cost, NextDealer;
    losses := [];
    if plays != [] {
      var loss := FinishedHand(players, dealer, blinds, plays[0]);
      var after := Survivors(Played(players, dealer, blinds, plays[0]).players);
      var rest := ChainConserves(after, NextDealer(dealer, |after|), blinds, plays[1..]);
      losses := [loss] + rest;
      assert losses[1..] == rest && losses[0] == loss;
      assert SumOf(losses) == loss + SumOf(rest);
    }
  }
}
