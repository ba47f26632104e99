// Calls that give chips back: from which deals one can be reached
// (ghosts/rdc-poker/src/gameEngine.ts:58-91, 190-202).
module ShortBlind {
  import opened Seqs
  import opened PokerTypes
  import opened Pot
  import opened Engine
  import opened Betting
  import opened Hands
  import opened Conservation
  import opened Payout
  import Termination

  /** A legal action that takes chips out of the pot. */
  ghost predicate GivesBack(t: GameState, a: PlayerAction) {
    && Playing(t) && 0 <= t.current < |t.players| && Legal(t, a)
    && IndexOf(t.players, a.playerId) >= 0
    && Act(t, a).pot < t.pot
  }

  /** The small blind posted more than the big blind could, and has chips left. */
  predicate ShortAgainst(players: seq<Player>, dealer: nat, blinds: Blinds)
    requires |players| >= 2
  {
    var sb := players[SeatAfter(dealer, 1, |players|)];
    var bb := players[SeatAfter(dealer, 2, |players|)];
    Min(blinds.small, sb.stack) > Min(blinds.big, bb.stack) && sb.stack > blinds.small
  }

  // ----- Nowhere else -----

  /** Whoever can act has put in no more than the bet. */
  ghost predicate Covered(s: GameState) {
    forall i :: 0 <= i < |s.players| && CanAct(s.players[i]) ==> s.players[i].bet <= s.currentBet
  }

  lemma ActKeepsCovered(s: GameState, a: PlayerAction)
    requires Loose(s) && Covered(s) && 0 <= s.current < |s.players| && Legal(s, a)
    ensures IndexOf(s.players, a.playerId) == s.current
    ensures Covered(Act(s, a)) && Act(s, a).pot >= s.pot
  {
    hide Loose, IndexOf, Act, Covered;
    PotDrops(s, a);
    ActorMayCall(s, a);
    SeatsStayCovered(s, a);
  }

  lemma ActorMayCall(s: GameState, a: PlayerAction)
    requires Loose(s) && Covered(s) && 0 <= s.current < |s.players| && Legal(s, a)
    requires IndexOf(s.players, a.playerId) == s.current
    ensures a.action == Call ==> s.players[s.current].bet <= s.currentBet
    ensures a.action == Raise ==> a.amount <= s.players[s.current].bet + s.players[s.current].stack
    ensures a.action == Raise ==> a.amount >= s.currentBet
  {
    hide Sum, Count, IndexOf, DistinctIds;
    assert LooseSeat(s.players[s.current]);
    LooseIds(s);
    IndexOfDistinct(s.players, s.current);
  }

  lemma SeatsStayCovered(s: GameState, a: PlayerAction)
    requires Covered(s) && 0 <= s.current < |s.players| && IndexOf(s.players, a.playerId) == s.current
    requires a.action == Call ==> s.players[s.current].bet <= s.currentBet
    requires a.action == Raise ==> a.amount <= s.players[s.current].bet + s.players[s.current].stack
    requires a.action == Raise ==> a.amount >= s.currentBet
    ensures Covered(Act(s, a))
  {
    hide IndexOf;
    forall i | 0 <= i < |s.players| && CanAct(s.players[i]) ensures s.players[i].bet <= s.currentBet {
    }
  }

  lemma StreetIsCovered(c: GameState, d: GameState)
    requires forall i :: 0 <= i < |c.players| ==> c.players[i].bet == 0
    requires d.players == c.players && d.currentBet == 0
    ensures Covered(d)
  {
  }

  /** What closing a street leaves: no bets at all, or a finished hand. */
  lemma AdvanceIsCovered(t: GameState)
    requires BoardFits(t) && t.players != [] && Count(t.players, Unfolded) >= 1
    ensures AdvancePhase(t).phase != HandComplete ==> Covered(AdvancePhase(t))
  {
    AdvanceCases(t);
    hide SidePots, AfterShowdown, Count, AdvancePhase, LastStreet, NextFrom, FullBoard, BoardFits;
    var c := CloseRound(t);
    if LastStreet(t) {
      ShowdownFinishes(FullBoard(c));
    } else {
      var d := StreetCases(t);
      StreetIsCovered(c, d);
      if NextToAct(d.players, d.dealer) == -1 {
        FullBoardHasFive(d);
        ShowdownFinishes(FullBoard(d));
      } else {
        StreetIsCovered(c, d.(current := NextToAct(d.players, d.dealer)));
      }
    }
  }

  lemma ActionKeepsCovered(s: GameState, a: PlayerAction)
    requires Loose(s) && Covered(s) && Playing(s) && 0 <= s.current < |s.players| && Legal(s, a)
    ensures var t := ApplyAction(s, a); t.phase == HandComplete || (Loose(t) && Covered(t))
  {
    hide Act, Legal, Loose, Covered, ApplyAction;
    ActKeepsCovered(s, a);
    StaysCovered(s, a);
  }

  /** Once an action leaves nobody above the bet, it stays so. */
  lemma StaysCovered(s: GameState, a: PlayerAction)
    requires Loose(s) && Playing(s) && 0 <= s.current < |s.players| && Legal(s, a)
    requires IndexOf(s.players, a.playerId) == s.current && Covered(Act(s, a))
    ensures var t := ApplyAction(s, a); t.phase == HandComplete || (Loose(t) && Covered(t))
  {
    hide Act, Legal, Loose, Covered, AdvancePhase, AfterShowdown, AfterFold, RoundComplete, NextFrom, Count, HasMover,
      Payable, SameSeats, Sum;
    var r, e := ActionKeepsLoose(s, a);
    Finished(r, e, ApplyAction(s, a));
    var t := Act(s, a);
    ActedTable(s, a);
    if Count(t.players, Unfolded) == 1 {
      FoldFinishes(t);
    } else {
      AdvanceIsCovered(t);
      TurnIsCovered(t, NextToAct(t.players, s.current));
    }
  }

  lemma TurnIsCovered(t: GameState, next: int)
    requires Covered(t)
    ensures Covered(t.(current := next))
  {
  }

  lemma {:induction false} RunNeverGivesBack(s: GameState, actions: seq<PlayerAction>, a: PlayerAction)
    requires Loose(s) && Covered(s) && LegalRun(s, actions)
    ensures !GivesBack(Run(s, actions), a)
    decreases |actions|
  {
    hide Loose, Covered, Legal, Playing, ApplyAction, Act, GivesBack;
    if actions == [] {
      CoveredKeepsPot(s, a);
    } else {
      var t := ApplyAction(s, actions[0]);
      ActionKeepsCovered(s, actions[0]);
      if t.phase == HandComplete {
        HandsEnd(t, actions[1..]);
        NothingAfterTheEnd(t, a);
      } else {
        RunNeverGivesBack(t, actions[1..], a);
      }
    }
  }

  lemma CoveredKeepsPot(s: GameState, a: PlayerAction)
    requires Loose(s) && Covered(s)
    ensures !GivesBack(s, a)
  {
    hide Loose, Covered, Legal, Playing, Act, IndexOf;
    if 0 <= s.current < |s.players| && Legal(s, a) {
      ActKeepsCovered(s, a);
    }
  }

  lemma NothingAfterTheEnd(t: GameState, a: PlayerAction)
    requires t.phase == HandComplete
    ensures !GivesBack(t, a)
  {
    hide Legal, Act, IndexOf;
  }

  lemma StartIsCovered(players: seq<Player>, dealer: nat, blinds: Blinds, deck: seq<Card>)
    requires Deal(players, blinds, deck) && !ShortAgainst(players, dealer, blinds)
    ensures Covered(NewHand(players, dealer, blinds, deck))
  {
    hide NewHand, SeatAfter, DealOrder, NextFrom;
    SeatsInRange(dealer, |players|);
    NewSeats(players, dealer, blinds, deck);
  }

  // ----- And always there -----

  /** On the way to the small blind's turn: his post is above the bet, and some other seat, in the
      hand, has nothing to call. */
  ghost predicate Waiting(s: GameState, sb: nat, other: nat) {
    && Loose(s) && Playing(s) && s.phase == PreFlop && HasMover(s)
    && sb < |s.players| && other < |s.players| && sb != other
    && CanAct(s.players[sb]) && s.players[sb].bet > s.currentBet
    && !s.players[other].folded && (CanAct(s.players[other]) ==> s.players[other].bet == s.currentBet)
  }

  lemma TwoUnfolded(ps: seq<Player>, i: nat, j: nat)
    requires i < |ps| && j < |ps| && i != j && !ps[i].folded && !ps[j].folded
    ensures Count(ps, Unfolded) >= 2
  {
    if i < j {
      CountTwo(ps, Unfolded, i, j);
    } else {
      CountTwo(ps, Unfolded, j, i);
    }
  }

  /** Somebody else who can act comes before the one who just did. */
  lemma NextIsAnother(ps: seq<Player>, from: nat, j: nat)
    requires from < |ps| && j < |ps| && j != from && CanAct(ps[j])
    ensures 0 <= NextToAct(ps, from) < |ps| && NextToAct(ps, from) != from && CanAct(ps[NextToAct(ps, from)])
  {
    hide SeatAfter, DealOrder, NextFrom, CanAct;
    var n := |ps|;
    SeatsInRange(from, n);
    DealOrderBounds(from, n);
    SeatReached(from, j, n);
    Termination.SelfSeat(from, n);
    var d := 1 + DealOrder(from, j, n);
    var m := Termination.NextBefore(ps, from, 1, d);
    NextCanAct(ps, from, 1);
    if SeatAfter(from, m, n) == from {
      SeatsInTurn(from, m - 1, n - 1, n);
    }
  }

  /** That seat checks, anyone else folds: the street stays open and the turn passes on. */
  lemma PassOn(s: GameState, sb: nat, other: nat) returns (a: PlayerAction)
    requires Waiting(s, sb, other) && s.current != sb
    ensures Legal(s, a)
    ensures var t := ApplyAction(s, a);
            && Waiting(t, sb, other)
            && t.players[sb] == s.players[sb] && t.currentBet == s.currentBet && t.minRaise == s.minRaise
            && (s.current == other ==> t.current != other && Count(t.players, Unfolded) == Count(s.players, Unfolded))
            && (s.current != other ==> Count(t.players, Unfolded) < Count(s.players, Unfolded))
  {
    hide Act, Legal, RoundComplete, NextFrom, Count, CanAct, ApplyAction, IndexOf, Waiting;
    WaitingMeans(s, sb, other);
    a := PlayerAction(s.players[s.current].id, if s.current == other then Check else Fold, 0);
    PassIsLegal(s, sb, other, a);
    PassActs(s, sb, other, a);
    PassKeepsLoose(s, sb, other, a);
    var t := Act(s, a);
    StaysOpen(t, sb, other);
    NextIsAnother(t.players, s.current, sb);
    StreetStaysOpen(s, a);
    WaitsOn(t, sb, other, NextToAct(t.players, s.current));
  }

  lemma WaitingMeans(s: GameState, sb: nat, other: nat)
    requires Waiting(s, sb, other)
    ensures sb < |s.players| && other < |s.players| && sb != other && 0 <= s.current < |s.players|
    ensures Playing(s) && BoardFits(s) && s.players[sb].bet > s.currentBet && CanAct(s.players[sb])
    ensures !s.players[other].folded && (CanAct(s.players[other]) ==> s.players[other].bet == s.currentBet)
  {
    hide Loose, Count;
  }

  lemma WaitsOn(t: GameState, sb: nat, other: nat, next: int)
    requires Loose(t) && BoardFits(t) && t.phase == PreFlop && Count(t.players, Unfolded) >= 2
    requires 0 <= next < |t.players| && CanAct(t.players[next])
    requires sb < |t.players| && other < |t.players| && sb != other
    requires CanAct(t.players[sb]) && t.players[sb].bet > t.currentBet
    requires !t.players[other].folded && (CanAct(t.players[other]) ==> t.players[other].bet == t.currentBet)
    ensures Waiting(t.(current := next), sb, other)
  {
    hide Count, LooseSeat, DistinctIds, Sum;
  }

  lemma StreetStaysOpen(s: GameState, a: PlayerAction)
    requires Playing(s) && IndexOf(s.players, a.playerId) == s.current && s.current >= 0
    requires var t := Act(s, a);
             Count(t.players, Unfolded) >= 2 && !RoundComplete(t) && NextToAct(t.players, s.current) != -1
    ensures ApplyAction(s, a) == Act(s, a).(current := NextToAct(Act(s, a).players, s.current))
  {
    hide Act, RoundComplete, NextFrom, Count, AfterFold, AdvancePhase;
  }

  lemma PassKeepsLoose(s: GameState, sb: nat, other: nat, a: PlayerAction)
    requires Waiting(s, sb, other) && Legal(s, a)
    ensures Loose(Act(s, a))
    ensures BoardFits(s) ==> BoardFits(Act(s, a))
  {
    hide Act, Legal, Count, CanAct, Sum, LooseSeat, DistinctIds;
    ActShifts(s, a);
    ShiftKeepsLoose(s, Act(s, a));
  }

  lemma PassIsLegal(s: GameState, sb: nat, other: nat, a: PlayerAction)
    requires Waiting(s, sb, other) && s.current != sb
    requires a == PlayerAction(s.players[s.current].id, if s.current == other then Check else Fold, 0)
    ensures Legal(s, a) && IndexOf(s.players, a.playerId) == s.current
  {
    hide Sum, Count, DistinctIds, Playing;
    LooseIds(s);
    IndexOfDistinct(s.players, s.current);
  }

  lemma LooseIds(s: GameState)
    requires Loose(s)
    ensures DistinctIds(s.players)
  {
  }

  lemma PassActs(s: GameState, sb: nat, other: nat, a: PlayerAction)
    requires Waiting(s, sb, other) && s.current != sb
    requires IndexOf(s.players, a.playerId) == s.current
    requires a.action == if s.current == other then Check else Fold
    ensures var t := Act(s, a);
            && |t.players| == |s.players| && t.currentBet == s.currentBet && t.phase == PreFlop
            && t.minRaise == s.minRaise
            && t.players[sb] == s.players[sb] && t.players[other] == s.players[other]
            && t.current == s.current && t.board == s.board && t.deck == s.deck
            && (s.current != other ==> Count(t.players, Unfolded) < Count(s.players, Unfolded))
            && (s.current == other ==> t.players == s.players)
  {
    hide Count, Loose, Playing, IndexOf;
    if s.current != other {
      var p := s.players[s.current];
      CountUpdate(s.players, s.current, p.(folded := true), Unfolded);
    }
  }

  lemma StaysOpen(t: GameState, sb: nat, other: nat)
    requires sb < |t.players| && other < |t.players| && sb != other
    requires CanAct(t.players[sb]) && t.players[sb].bet != t.currentBet && !t.players[other].folded
    ensures !RoundComplete(t) && Count(t.players, Unfolded) >= 2
  {
    hide Count;
    TwoUnfolded(t.players, sb, other);
    CountBounds(t.players, CanAct);
  }

  /** Passing on long enough brings the turn to the small blind. */
  lemma {:induction false} ReachSmallBlind(s: GameState, sb: nat, other: nat) returns (actions: seq<PlayerAction>)
    requires Waiting(s, sb, other)
    ensures LegalRun(s, actions) && Waiting(Run(s, actions), sb, other) && Run(s, actions).current == sb
    decreases Count(s.players, Unfolded), if s.current == other then 1 else 0
  {
    hide Legal, ApplyAction, Count;
    actions := [];
    if s.current != sb {
      var a := PassOn(s, sb, other);
      var rest := ReachSmallBlind(ApplyAction(s, a), sb, other);
      actions := [a] + rest;
      assert actions[1..] == rest;
    }
  }

  lemma StartIsWaiting(players: seq<Player>, dealer: nat, blinds: Blinds, deck: seq<Card>)
    requires Deal(players, blinds, deck) && ShortAgainst(players, dealer, blinds)
    ensures Waiting(NewHand(players, dealer, blinds, deck),
                    SeatAfter(dealer, 1, |players|), SeatAfter(dealer, 2, |players|))
  {
    hide NewHand, SeatAfter, DealOrder, NextFrom, Sum, Count, Loose;
    SeatsInRange(dealer, |players|);
    NewSeats(players, dealer, blinds, deck);
    NewTable(players, dealer, blinds, deck);
    NewRest(players, dealer, blinds, deck);
    NewHandIsLoose(players, dealer, blinds, deck);
    FirstActor(players, dealer, blinds, deck);
  }

  /** The small blind's call of a bet below his own post. */
  lemma CallGivesBack(s: GameState, sb: nat, other: nat)
    requires Waiting(s, sb, other) && s.current == sb
    ensures GivesBack(s, PlayerAction(s.players[sb].id, Call, s.currentBet - s.players[sb].bet))
  {
    hide Sum, Count, DistinctIds, Playing;
    LooseIds(s);
    IndexOfDistinct(s.players, sb);
  }

  /** Some call gives chips back in some run of a hand exactly when the small blind posted more
      than the big blind and has chips left. */
  lemma GivingBackIsReachable(players: seq<Player>, dealer: nat, blinds: Blinds, deck: seq<Card>)
    requires Deal(players, blinds, deck)
    ensures (exists actions, a :: LegalRun(NewHand(players, dealer, blinds, deck), actions)
                                  && GivesBack(Run(NewHand(players, dealer, blinds, deck), actions), a))
            <==> ShortAgainst(players, dealer, blinds)
  {
    hide NewHand, LegalRun, Run, GivesBack, ShortAgainst, SeatAfter, Waiting, Loose, Covered;
    var s := NewHand(players, dealer, blinds, deck);
    if ShortAgainst(players, dealer, blinds) {
      var sb, bb := SeatAfter(dealer, 1, |players|), SeatAfter(dealer, 2, |players|);
      StartIsWaiting(players, dealer, blinds, deck);
      var actions := ReachSmallBlind(s, sb, bb);
      var t := Run(s, actions);
      WaitingSeats(t, sb, bb);
      CallGivesBack(t, sb, bb);
    } else {
      NewHandIsLoose(players, dealer, blinds, deck);
      StartIsCovered(players, dealer, blinds, deck);
      forall actions, a | LegalRun(s, actions) ensures !GivesBack(Run(s, actions), a) {
        RunNeverGivesBack(s, actions, a);
      }
    }
  }

  lemma WaitingSeats(t: GameState, sb: nat, other: nat)
    requires Waiting(t, sb, other)
    ensures sb < |t.players| && other < |t.players|
  {
  }

  /** A concrete one: ann has posted 10 against bob's 5, calls, and takes 5 out of the pot. */
  lemma ShortBlindRefund(deck: seq<Card>)
    requires |deck| == 52
    ensures var s := NewHand([Hands.Fresh("bob", 5), Hands.Fresh("ann", 100)], 0, Blinds(10, 20), deck);
            var call := PlayerAction("ann", Call, -5);
            && s.current == 1 && Legal(s, call) && IndexOf(s.players, "ann") == 1
            && s.pot == 15 && Act(s, call).pot == 10
            && Act(s, call).players[1].stack == s.players[1].stack + 5
  {
    hide NewHand, DealOrder;
    var players := [Hands.Fresh("bob", 5), Hands.Fresh("ann", 100)];
    var s := NewHand(players, 0, Blinds(10, 20), deck);
    NewSeats(players, 0, Blinds(10, 20), deck);
    FirstActor(players, 0, Blinds(10, 20), deck);
    TwoPosts(players, deck);
  }

  lemma TwoPosts(players: seq<Player>, deck: seq<Card>)
    requires players == [Hands.Fresh("bob", 5), Hands.Fresh("ann", 100)] && |deck| == 52
    ensures NewHand(players, 0, Blinds(10, 20), deck).pot == 15
  {
  }
}
