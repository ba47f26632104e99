// A hand the turn guard cuts off: two deep stacks raising each other by the minimum
// (ghosts/rdc-poker-session/src/table-runner.ts:178, 194).
module LongHands {
  import opened Seqs
  import opened PokerTypes
  import opened Engine
  import opened Betting
  import opened Hands
  import opened Conservation
  import opened TableRunner

  /** Who raises at a turn: the small blind, in seat 1, begins. */
  function Raiser(turn: nat): nat { if turn % 2 == 0 then 1 else 0 }

  /** Heads up at blinds of 1 and 2, after so many minimum raises: the last raise stands at 2
      more than the other seat's bet, and everybody has 1000 in all. */
  ghost predicate Raised(s: GameState, turns: nat) {
    && Structured(s) && s.phase == PreFlop && |s.players| == 2
    && s.current == Raiser(turns)
    && s.currentBet == 2 + 2 * turns && s.minRaise == 2
    && SeatRaised(s.players[Raiser(turns)], if turns == 0 then 1 else 2 * turns)
    && SeatRaised(s.players[1 - Raiser(turns)], 2 + 2 * turns)
    && s.pot == s.players[0].bet + s.players[1].bet
  }

  ghost predicate SeatRaised(p: Player, bet: int) {
    !p.folded && !p.allIn && p.bet == bet && p.stack == 1000 - bet
  }

  function MinimumRaiseOf(s: GameState): PlayerAction
    requires 0 <= s.current < |s.players|
  {
    PlayerAction(s.players[s.current].id, Raise, s.currentBet + s.minRaise)
  }

  lemma RaiseIsLegal(s: GameState, turns: nat)
    requires Raised(s, turns) && turns < 400
    ensures Legal(s, MinimumRaiseOf(s)) && IndexOf(s.players, MinimumRaiseOf(s).playerId) == s.current
    ensures Playing(s)
  {
    hide Count, Sum;
    IndexOfDistinct(s.players, s.current);
  }

  /** The seats and the bet right after the raise. */
  ghost predicate JustRaised(s: GameState, t: GameState, turns: nat) {
    && |t.players| == 2 && t.phase == PreFlop && t.minRaise == 2
    && SeatRaised(t.players[Raiser(turns)], 4 + 2 * turns)
    && SeatRaised(t.players[1 - Raiser(turns)], 2 + 2 * turns)
    && t.currentBet == 4 + 2 * turns
    && t.pot == t.players[0].bet + t.players[1].bet
  }

  lemma RaiseActs(s: GameState, turns: nat)
    requires Raised(s, turns) && turns < 400
    requires IndexOf(s.players, MinimumRaiseOf(s).playerId) == s.current
    ensures JustRaised(s, Act(s, MinimumRaiseOf(s)), turns)
  {
    hide Structured, IndexOf, Count;
  }

  /** The street stays open, and the turn goes to the other seat. */
  lemma OtherSeatNext(s: GameState, t: GameState, turns: nat)
    requires JustRaised(s, t, turns) && turns < 400
    ensures Count(t.players, Unfolded) == 2
    ensures !RoundComplete(t) && NextToAct(t.players, Raiser(turns)) == 1 - Raiser(turns)
  {
    hide Count;
    CountTwo(t.players, Unfolded, 0, 1);
    CountBounds(t.players, Unfolded);
    CountBounds(t.players, CanAct);
    var i := Raiser(turns);
    assert SeatAfter(i, 1, 2) == 1 - i;
    assert CanAct(t.players[1 - i]);
  }

  lemma RaiseGoesOn(s: GameState, turns: nat)
    requires Raised(s, turns) && turns < 400
    ensures Playing(s) && Legal(s, MinimumRaiseOf(s))
    ensures Raised(ApplyAction(s, MinimumRaiseOf(s)), turns + 1)
  {
    hide Act, Legal, Count, RoundComplete, NextFrom, IndexOf, Structured, AfterFold, AdvancePhase;
    var a := MinimumRaiseOf(s);
    RaiseIsLegal(s, turns);
    RaiseActs(s, turns);
    var t := Act(s, a);
    OtherSeatNext(s, t, turns);
    StructureKept(s, a);
    assert ApplyAction(s, a) == t.(current := 1 - Raiser(turns));
  }

  lemma {:induction false} RaiseOn(s: GameState, turns: nat) returns (actions: seq<PlayerAction>)
    requires Raised(s, 0) && turns <= 400
    ensures LegalRun(s, actions) && |actions| == turns && Raised(Run(s, actions), turns)
  {
    hide Legal, Raised, ApplyAction, Playing;
    actions := [];
    if turns == 0 {
      EmptyRun(s);
    } else {
      var before := RaiseOn(s, turns - 1);
      var t := Run(s, before);
      RaiserSits(t, turns - 1);
      RaiseGoesOn(t, turns - 1);
      RunSnoc(s, before, MinimumRaiseOf(t));
      actions := before + [MinimumRaiseOf(t)];
    }
  }

  lemma RaiserSits(t: GameState, turns: nat)
    requires Raised(t, turns)
    ensures 0 <= t.current < |t.players|
  {
  }

  function Deep(): seq<Player> {
    [Hands.Fresh("ann", 1000), Hands.Fresh("bob", 1000)]
  }

  lemma StartIsRaised(deck: seq<Card>)
    requires |deck| == 52
    ensures Raised(NewHand(Deep(), 0, Blinds(1, 2), deck), 0)
  {
    hide NewHand, DealOrder, NextFrom, Structured;
    StartStructured(Deep(), 0, Blinds(1, 2), deck);
    NewSeats(Deep(), 0, Blinds(1, 2), deck);
    NewRest(Deep(), 0, Blinds(1, 2), deck);
    DeepPosts(deck);
  }

  lemma DeepPosts(deck: seq<Card>)
    requires |deck| == 52
    ensures var s := NewHand(Deep(), 0, Blinds(1, 2), deck);
            s.pot == 3 && s.current == 1
  {
  }

  /** Two stacks of 1000 can spend all 200 turns before the flop: the runner gives the hand up
      with 802 chips in the pot. */
  lemma GuardCutsOff(deck: seq<Card>) returns (actions: seq<PlayerAction>)
    requires |deck| == 52
    ensures var s := NewHand(Deep(), 0, Blinds(1, 2), deck);
            && CanStart(Deep(), 0, Blinds(1, 2))
            && LegalRun(s, actions) && |actions| == SAFETY_TURNS
            && Stopped(Run(s, actions), |actions|)
            && Run(s, actions).phase == PreFlop && Run(s, actions).pot == 802
  {
    hide Raised, NewHand, LegalRun, Run;
    StartIsRaised(deck);
    actions := RaiseOn(NewHand(Deep(), 0, Blinds(1, 2), deck), 200);
    RaisedPot(Run(NewHand(Deep(), 0, Blinds(1, 2), deck), actions));
  }

  lemma RaisedPot(t: GameState)
    requires Raised(t, 200)
    ensures t.phase == PreFlop && t.pot == 802
  {
  }
}
