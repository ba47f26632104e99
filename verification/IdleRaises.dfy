// Raises that change nothing, and hands that need never end: from which deals they come up
// (ghosts/rdc-poker/src/gameEngine.ts:58-91, 121-164, 204-217).
module IdleRaises {
  import opened Seqs
  import opened PokerTypes
  import opened Engine
  import opened Betting
  import opened Hands
  import opened Payout
  import opened Conservation
  import opened Termination
  import opened ShortBlind

  /** What the k-th player after the dealer brought. */
  function StackAt(players: seq<Player>, dealer: nat, k: nat): int
    requires players != []
  {
    players[SeatAfter(dealer, k, |players|)].stack
  }

  /** An all-in from one bet to another leaves room for a minimum raise within the post. */
  predicate Within(lower: int, upper: int, post: int) {
    lower < upper && 2 * upper - lower <= post
  }

  /** The k-th player's all-in leaves such room: over the big blind's post, or over the all-in of
      somebody before him. */
  predicate Squeezes(players: seq<Player>, dealer: nat, bet: int, post: int, k: nat)
    requires players != []
  {
    || Within(bet, StackAt(players, dealer, k), post)
    || exists j :: 3 <= j < k && bet < StackAt(players, dealer, j)
                   && Within(StackAt(players, dealer, j), StackAt(players, dealer, k), post)
  }

  /** The small blind posted more than the big blind, has chips left, and can be offered a minimum
      raise within his own post: at once, or after the all-in of somebody who acts before him. */
  predicate CanIdle(players: seq<Player>, dealer: nat, blinds: Blinds)
    requires |players| >= 2
  {
    var bet := Min(blinds.big, StackAt(players, dealer, 2));
    && ShortAgainst(players, dealer, blinds)
    && (|| bet + blinds.big <= blinds.small
        || exists k :: 3 <= k <= |players| && Squeezes(players, dealer, bet, blinds.small, k))
  }

  // ----- The first round, up to the small blind -----

  predicate Untouched(p: Player, stack: int) {
    !p.folded && !p.allIn && p.bet == 0 && p.stack == stack && 0 < stack
  }

  /** The turn of the k-th seat after the dealer in the first round: the small blind's post is
      above the bet, and nobody from this seat on has acted. */
  ghost predicate Coming(s: GameState, players: seq<Player>, dealer: nat, blinds: Blinds, k: nat) {
    var n := |players|;
    && n >= 2 && 3 <= k <= n + 1 && |s.players| == n
    && Loose(s) && Playing(s) && s.phase == PreFlop && s.blinds == blinds
    && s.current == SeatAfter(dealer, k, n)
    && Ahead(s, SeatAfter(dealer, 1, n), blinds.small) && 0 <= SeatAfter(dealer, 2, n) < n
    && !s.players[SeatAfter(dealer, 2, n)].folded
    && (forall i :: k <= i <= n ==> 0 <= SeatAfter(dealer, i, n) < n
                                    && Untouched(s.players[SeatAfter(dealer, i, n)], StackAt(players, dealer, i)))
    && (forall i :: 0 <= i < n && i != SeatAfter(dealer, 1, n) && CanAct(s.players[i]) ==>
          s.players[i].bet <= s.currentBet)
  }

  ghost predicate Ahead(s: GameState, sb: int, post: int) {
    && 0 <= sb < |s.players| && CanAct(s.players[sb])
    && s.players[sb].bet == post && s.currentBet < post
  }

  lemma OtherSeats(dealer: nat, n: nat, k: nat)
    requires n >= 2 && 3 <= k <= n
    ensures SeatAfter(dealer, k, n) != SeatAfter(dealer, 1, n)
    ensures SeatAfter(dealer, k, n) != SeatAfter(dealer, 2, n)
    ensures forall i :: k < i <= n ==> SeatAfter(dealer, i, n) != SeatAfter(dealer, k, n)
  {
    SeatsInTurn(dealer, 0, k - 1, n);
    SeatsInTurn(dealer, 1, k - 1, n);
    forall i | k < i <= n ensures SeatAfter(dealer, i, n) != SeatAfter(dealer, k, n) {
      SeatsInTurn(dealer, k - 1, i - 1, n);
    }
  }

  /** Whose turn it is can act, and the turn after the last seat is the small blind's. */
  lemma ComingActor(s: GameState, players: seq<Player>, dealer: nat, blinds: Blinds, k: nat)
    requires Coming(s, players, dealer, blinds, k)
    ensures HasMover(s) && 0 <= s.current < |s.players|
    ensures k == |players| + 1 ==> s.current == SeatAfter(dealer, 1, |players|)
    ensures k <= |players| ==> Untouched(s.players[s.current], StackAt(players, dealer, k))
  {
    hide SeatAfter, Loose, Playing;
    var n := |players|;
    SeatsInRange(dealer, n);
    SeatWrap(dealer, 1, n);
    assert k <= n ==> Untouched(s.players[SeatAfter(dealer, k, n)], StackAt(players, dealer, k));
  }

  /** What the k-th seat's action does to the bet: nothing, a full raise, or its all-in. */
  lemma ComingActs(s: GameState, players: seq<Player>, dealer: nat, blinds: Blinds, k: nat, a: PlayerAction)
    requires Coming(s, players, dealer, blinds, k) && k <= |players|
    requires 0 <= s.current < |s.players| && Legal(s, a)
    ensures !Idle(s, a) && IndexOf(s.players, a.playerId) == s.current && Stepped(s, a, Act(s, a))
    ensures var t, stack := Act(s, a), StackAt(players, dealer, k);
            || (t.currentBet == s.currentBet && t.minRaise == s.minRaise)
            || t.currentBet >= s.currentBet + s.minRaise
            || (t.currentBet == stack > s.currentBet && t.minRaise == stack - s.currentBet)
  {
    ComingActor(s, players, dealer, blinds, k);
    hide SeatAfter, Playing, Sum, Count, Act, IndexOf, Coming, DistinctIds, StackAt;
    ComingIsLoose(s, players, dealer, blinds, k);
    RaisesAbove(s, a);
    ActSteps(s, a);
  }

  lemma ComingIsLoose(s: GameState, players: seq<Player>, dealer: nat, blinds: Blinds, k: nat)
    requires Coming(s, players, dealer, blinds, k)
    ensures Loose(s) && Playing(s) && DistinctIds(s.players) && 0 < s.minRaise && 0 <= s.currentBet
    ensures |players| >= 2 && 3 <= k <= |players| + 1
  {
  }

  lemma RaisesAbove(s: GameState, a: PlayerAction)
    requires 0 <= s.current < |s.players| && DistinctIds(s.players) && Legal(s, a)
    ensures a.action == Raise ==> a.amount >= s.currentBet + s.minRaise
  {
    hide IndexOf;
    IndexOfDistinct(s.players, s.current);
  }

  /** While the bet stays below the small blind's post, the turn just passes on. */
  lemma ComingOn(s: GameState, players: seq<Player>, dealer: nat, blinds: Blinds, k: nat, a: PlayerAction)
    requires Coming(s, players, dealer, blinds, k) && k <= |players|
    requires 0 <= s.current < |s.players| && Legal(s, a)
    requires IndexOf(s.players, a.playerId) == s.current && Stepped(s, a, Act(s, a))
    requires Act(s, a).currentBet < blinds.small
    ensures ApplyAction(s, a) == Act(s, a).(current := SeatAfter(dealer, k + 1, |players|))
    ensures Coming(ApplyAction(s, a), players, dealer, blinds, k + 1)
  {
    hide Act, Legal, Loose, RoundComplete, NextFrom, Count, IndexOf, SeatAfter, CanAct, ApplyAction, BoardFits;
    var n, t := |players|, Act(s, a);
    SeatsInRange(dealer, n);
    ActedTable(s, a);
    LooseAfter(s, a);
    AheadStays(s, players, dealer, blinds, k, a, t);
    StaysOpen(t, SeatAfter(dealer, 1, n), SeatAfter(dealer, 2, n));
    AfterKth(s, players, dealer, blinds, k, t);
    StreetStaysOpen(s, a);
    ComesNext(s, players, dealer, blinds, k, a, t);
  }

  lemma AheadStays(s: GameState, players: seq<Player>, dealer: nat, blinds: Blinds, k: nat, a: PlayerAction, t: GameState)
    requires Coming(s, players, dealer, blinds, k) && k <= |players|
    requires 0 <= s.current < |s.players| && Stepped(s, a, t) && t.currentBet < blinds.small
    ensures var sb, bb := SeatAfter(dealer, 1, |players|), SeatAfter(dealer, 2, |players|);
            && 0 <= sb < |t.players| && 0 <= bb < |t.players| && sb != bb
            && CanAct(t.players[sb]) && t.players[sb].bet != t.currentBet && !t.players[bb].folded
  {
    hide SeatAfter, Loose, Playing, StackAt;
    OtherSeats(dealer, |players|, k);
    SeatsInTurn(dealer, 0, 1, |players|);
  }

  lemma LooseAfter(s: GameState, a: PlayerAction)
    requires Loose(s) && 0 <= s.current < |s.players| && Legal(s, a)
    ensures IndexOf(s.players, a.playerId) == s.current && Loose(Act(s, a))
  {
    hide Act, Legal, Loose, IndexOf, Shifted;
    ActShifts(s, a);
    ShiftKeepsLoose(s, Act(s, a));
  }

  /** The next seat can act, so it is the next to act. */
  lemma AfterKth(s: GameState, players: seq<Player>, dealer: nat, blinds: Blinds, k: nat, t: GameState)
    requires Coming(s, players, dealer, blinds, k) && k <= |players| && |t.players| == |s.players|
    requires 0 <= s.current < |s.players| && t.players == s.players[s.current := t.players[s.current]]
    ensures NextToAct(t.players, s.current) == SeatAfter(dealer, k + 1, |players|)
  {
    hide Loose, Playing, SeatAfter, NextFrom;
    var n := |players|;
    SeatsInRange(dealer, n);
    SeatShift(dealer, k, k + 1, n);
    SeatWrap(dealer, 1, n);
    OtherSeats(dealer, n, k);
    assert k + 1 <= n ==> Untouched(s.players[SeatAfter(dealer, k + 1, n)], StackAt(players, dealer, k + 1));
    assert CanAct(t.players[SeatAfter(dealer, k + 1, n)]);
    FirstSeatNext(t.players, s.current);
  }

  lemma FirstSeatNext(ps: seq<Player>, from: nat)
    requires ps != [] && CanAct(ps[SeatAfter(from, 1, |ps|)])
    ensures NextToAct(ps, from) == SeatAfter(from, 1, |ps|)
  {
  }

  lemma ComesNext(s: GameState, players: seq<Player>, dealer: nat, blinds: Blinds, k: nat, a: PlayerAction, t: GameState)
    requires Coming(s, players, dealer, blinds, k) && k <= |players|
    requires 0 <= s.current < |s.players| && Stepped(s, a, t) && t.currentBet < blinds.small
    requires Loose(t) && BoardFits(t) && Count(t.players, Unfolded) >= 2
    ensures Coming(t.(current := SeatAfter(dealer, k + 1, |players|)), players, dealer, blinds, k + 1)
  {
    hide SeatAfter, Count, Sum, DistinctIds, LooseSeat, BoardFits;
    var n := |players|;
    SeatsInRange(dealer, n);
    OtherSeats(dealer, n, k);
    SameBoard(t, SeatAfter(dealer, k + 1, n));
    forall i | k + 1 <= i <= n ensures Untouched(t.players[SeatAfter(dealer, i, n)], StackAt(players, dealer, i)) {
      assert Untouched(s.players[SeatAfter(dealer, i, n)], StackAt(players, dealer, i));
    }
  }

  // ----- Without room nobody ever raises idly -----

  /** The bet stands where somebody's stack or the big blind put it, and a minimum raise from there
      passes the small blind's post. */
  ghost predicate Steep(s: GameState, players: seq<Player>, dealer: nat, blinds: Blinds, k: nat)
    requires |players| >= 2
  {
    var bet := Min(blinds.big, StackAt(players, dealer, 2));
    && s.currentBet + s.minRaise > blinds.small
    && (s.currentBet == bet
        || exists j :: 3 <= j < k && s.currentBet == StackAt(players, dealer, j) && bet < StackAt(players, dealer, j))
  }

  lemma StaysSteep(s: GameState, players: seq<Player>, dealer: nat, blinds: Blinds, k: nat, t: GameState)
    requires |players| >= 2 && 3 <= k <= |players| && Steep(s, players, dealer, blinds, k)
    requires ShortAgainst(players, dealer, blinds) && !CanIdle(players, dealer, blinds)
    requires var stack := StackAt(players, dealer, k);
             || (t.currentBet == s.currentBet && t.minRaise == s.minRaise)
             || t.currentBet >= s.currentBet + s.minRaise
             || (t.currentBet == stack > s.currentBet && t.minRaise == stack - s.currentBet)
    requires t.currentBet < blinds.small
    ensures Steep(t, players, dealer, blinds, k + 1)
  {
    hide StackAt, ShortAgainst;
    var bet := Min(blinds.big, StackAt(players, dealer, 2));
    assert !Squeezes(players, dealer, bet, blinds.small, k);
  }

  /** One action in the first round, where a minimum raise passes the small blind's post. */
  lemma StepNeverIdles(s: GameState, players: seq<Player>, dealer: nat, blinds: Blinds, k: nat, a: PlayerAction)
    requires Coming(s, players, dealer, blinds, k) && Steep(s, players, dealer, blinds, k)
    requires ShortAgainst(players, dealer, blinds) && !CanIdle(players, dealer, blinds)
    requires 0 <= s.current < |s.players| && Legal(s, a)
    ensures !Idle(s, a)
    ensures var t := ApplyAction(s, a);
            || t.phase == HandComplete
            || (Loose(t) && Covered(t) && HasMover(t))
            || (Coming(t, players, dealer, blinds, k + 1) && Steep(t, players, dealer, blinds, k + 1))
  {
    hide Act, Legal, Loose, ApplyAction, Coming, Steep, Covered, CanIdle, ShortAgainst, Idle, Stepped, IndexOf, StackAt,
      HasMover;
    ComingIsLoose(s, players, dealer, blinds, k);
    LooseAfter(s, a);
    MovesOn(s, a);
    var t := Act(s, a);
    if k <= |players| {
      ComingActs(s, players, dealer, blinds, k, a);
      if t.currentBet < blinds.small {
        ComingOn(s, players, dealer, blinds, k, a);
        StaysSteep(s, players, dealer, blinds, k, t);
        SteepTurn(t, players, dealer, blinds, k + 1, SeatAfter(dealer, k + 1, |players|));
      } else {
        PassedThePost(s, players, dealer, blinds, k, a);
        StaysCovered(s, a);
      }
    } else {
      SmallBlindActs(s, players, dealer, blinds, k, a);
      StaysCovered(s, a);
    }
  }

  lemma MovesOn(s: GameState, a: PlayerAction)
    requires Loose(s) && Playing(s) && 0 <= s.current < |s.players| && Legal(s, a)
    ensures ApplyAction(s, a).phase == HandComplete || HasMover(ApplyAction(s, a))
  {
    hide Loose, Legal, ApplyAction, HasMover, Payable, AfterFold, AfterShowdown, SameSeats, Sum, Count;
    var r, e := ActionKeepsLoose(s, a);
    Finished(r, e, ApplyAction(s, a));
  }

  lemma SteepTurn(t: GameState, players: seq<Player>, dealer: nat, blinds: Blinds, k: nat, next: int)
    requires |players| >= 2 && Steep(t, players, dealer, blinds, k)
    ensures Steep(t.(current := next), players, dealer, blinds, k)
  {
  }

  lemma PassedThePost(s: GameState, players: seq<Player>, dealer: nat, blinds: Blinds, k: nat, a: PlayerAction)
    requires Coming(s, players, dealer, blinds, k) && k <= |players|
    requires 0 <= s.current < |s.players| && IndexOf(s.players, a.playerId) == s.current
    requires Stepped(s, a, Act(s, a)) && Act(s, a).currentBet >= blinds.small
    ensures Covered(Act(s, a))
  {
    hide Act, Loose, Playing, SeatAfter, StackAt, IndexOf;
  }

  /** The small blind's own turn: whatever he does, he is not above the bet afterwards. */
  lemma SmallBlindActs(s: GameState, players: seq<Player>, dealer: nat, blinds: Blinds, k: nat, a: PlayerAction)
    requires Coming(s, players, dealer, blinds, k) && k == |players| + 1 && Steep(s, players, dealer, blinds, k)
    requires 0 <= s.current < |s.players| && Legal(s, a)
    ensures !Idle(s, a) && IndexOf(s.players, a.playerId) == s.current && Covered(Act(s, a))
  {
    ComingActor(s, players, dealer, blinds, k);
    ComingIsLoose(s, players, dealer, blinds, k);
    hide Act, Legal, Loose, Playing, SeatAfter, StackAt, IndexOf, DistinctIds;
    RaisesAbove(s, a);
    ActSteps(s, a);
  }

  lemma {:induction false} CoveredNeverIdles(s: GameState, actions: seq<PlayerAction>)
    requires Loose(s) && Covered(s) && (actions == [] || HasMover(s)) && LegalRun(s, actions)
    ensures NoIdling(s, actions)
    decreases |actions|
  {
    hide Loose, Covered, Legal, Playing, ApplyAction, Act;
    if actions != [] {
      var t := ApplyAction(s, actions[0]);
      MovesOn(s, actions[0]);
      LooseIds(s);
      RaisesAbove(s, actions[0]);
      CoveredActor(s);
      ActionKeepsCovered(s, actions[0]);
      if t.phase == HandComplete {
        HandsEnd(t, actions[1..]);
      } else {
        CoveredNeverIdles(t, actions[1..]);
      }
    }
  }

  lemma CoveredActor(s: GameState)
    requires Loose(s) && Covered(s) && 0 <= s.current < |s.players|
    ensures 0 < s.minRaise
    ensures CanAct(s.players[s.current]) ==> s.players[s.current].bet <= s.currentBet
  {
  }

  lemma {:induction false} ComingNeverIdles(s: GameState, players: seq<Player>, dealer: nat, blinds: Blinds, k: nat,
                                            actions: seq<PlayerAction>)
    requires Coming(s, players, dealer, blinds, k) && Steep(s, players, dealer, blinds, k)
    requires ShortAgainst(players, dealer, blinds) && !CanIdle(players, dealer, blinds)
    requires LegalRun(s, actions)
    ensures NoIdling(s, actions)
    decreases |actions|
  {
    hide Loose, Covered, Legal, Playing, ApplyAction, Coming, Steep, CanIdle, ShortAgainst, Idle;
    if actions != [] {
      var t := ApplyAction(s, actions[0]);
      StepNeverIdles(s, players, dealer, blinds, k, actions[0]);
      if t.phase == HandComplete {
        HandsEnd(t, actions[1..]);
      } else if Loose(t) && Covered(t) && HasMover(t) {
        CoveredNeverIdles(t, actions[1..]);
      } else {
        ComingNeverIdles(t, players, dealer, blinds, k + 1, actions[1..]);
      }
    }
  }

  /** The start of a hand whose small blind posted more than the big blind and has chips left. */
  lemma StartComes(players: seq<Player>, dealer: nat, blinds: Blinds, deck: seq<Card>)
    requires Deal(players, blinds, deck) && ShortAgainst(players, dealer, blinds)
    ensures var s := NewHand(players, dealer, blinds, deck);
            && Coming(s, players, dealer, blinds, 3)
            && s.currentBet == Min(blinds.big, StackAt(players, dealer, 2)) && s.minRaise == blinds.big
  {
    hide NewHand, SeatAfter, DealOrder, NextFrom, Sum, Count, Loose, BoardFits, DistinctIds;
    var n, s := |players|, NewHand(players, dealer, blinds, deck);
    SeatsInRange(dealer, n);
    NewSeats(players, dealer, blinds, deck);
    NewTable(players, dealer, blinds, deck);
    NewRest(players, dealer, blinds, deck);
    NewHandIsLoose(players, dealer, blinds, deck);
    SeatShift(dealer, 2, 3, n);
    SeatWrap(dealer, 1, n);
    forall k | 3 <= k <= n ensures Untouched(s.players[SeatAfter(dealer, k, n)], StackAt(players, dealer, k)) {
      OtherSeats(dealer, n, k);
    }
    assert n == 2 ==> SeatAfter(dealer, 3, n) == SeatAfter(dealer, 1, n);
    assert n > 2 ==> Untouched(s.players[SeatAfter(dealer, 3, n)], StackAt(players, dealer, 3));
    FirstSeatNext(s.players, SeatAfter(dealer, 2, n));
  }

  /** Where there is no room for it, no run has an idle raise in it. */
  lemma NobodyIdles(players: seq<Player>, dealer: nat, blinds: Blinds, deck: seq<Card>, actions: seq<PlayerAction>)
    requires Deal(players, blinds, deck) && !CanIdle(players, dealer, blinds)
    requires LegalRun(NewHand(players, dealer, blinds, deck), actions)
    ensures NoIdling(NewHand(players, dealer, blinds, deck), actions)
  {
    hide NewHand, LegalRun, NoIdling, Coming, Loose, Covered, ShortAgainst;
    var s := NewHand(players, dealer, blinds, deck);
    if ShortAgainst(players, dealer, blinds) {
      StartComes(players, dealer, blinds, deck);
      ComingNeverIdles(s, players, dealer, blinds, 3, actions);
    } else {
      NewHandIsLoose(players, dealer, blinds, deck);
      StartIsCovered(players, dealer, blinds, deck);
      FirstActor(players, dealer, blinds, deck);
      if s.current == -1 {
        NobodyMoves(s, actions);
      }
      CoveredNeverIdles(s, actions);
    }
  }

  // ----- With room a hand need never end -----

  /** The small blind may raise to no more than he has bet. */
  ghost predicate Stalled(s: GameState, sb: nat, other: nat) {
    ShortBlind.Waiting(s, sb, other) && s.currentBet + s.minRaise <= s.players[sb].bet
  }

  /** The small blind raises idly; everybody else folds, or checks. */
  lemma StallsOn(s: GameState, sb: nat, other: nat) returns (a: PlayerAction)
    requires Stalled(s, sb, other)
    ensures Playing(s) && 0 <= s.current < |s.players| && Legal(s, a)
    ensures Stalled(ApplyAction(s, a), sb, other)
  {
    hide Act, Legal, RoundComplete, NextFrom, Count, ApplyAction, IndexOf, ShortBlind.Waiting, CanAct;
    WaitingMeans(s, sb, other);
    if s.current == sb {
      a := PlayerAction(s.players[sb].id, Raise, s.currentBet + s.minRaise);
      IdleIsLegal(s, sb, other, a);
      var t := Act(s, a);
      StaysOpen(t, sb, other);
      NextExists(t.players, sb);
      NextCanAct(t.players, sb, 1);
      StreetStaysOpen(s, a);
      WaitsOn(t, sb, other, NextToAct(t.players, sb));
    } else {
      a := PassOn(s, sb, other);
    }
  }

  lemma IdleIsLegal(s: GameState, sb: nat, other: nat, a: PlayerAction)
    requires Stalled(s, sb, other) && s.current == sb
    requires a == PlayerAction(s.players[sb].id, Raise, s.currentBet + s.minRaise)
    ensures Legal(s, a) && IndexOf(s.players, a.playerId) == s.current
    ensures var t := Act(s, a);
            && t == s.(history := s.history + [a]) && Loose(t) && BoardFits(t) && t.phase == PreFlop
            && Count(t.players, Unfolded) >= 2
  {
    hide Sum, Count, DistinctIds, IndexOf;
    LooseIds(s);
    IndexOfDistinct(s.players, sb);
  }

  /** So such a hand goes on for as long as one likes. */
  lemma {:induction false} StallsForEver(s: GameState, sb: nat, other: nat, m: nat) returns (actions: seq<PlayerAction>)
    requires Stalled(s, sb, other)
    ensures LegalRun(s, actions) && |actions| == m
    decreases m
  {
    hide Legal, ApplyAction, Stalled;
    actions := [];
    if m > 0 {
      var a := StallsOn(s, sb, other);
      var rest := StallsForEver(ApplyAction(s, a), sb, other, m - 1);
      actions := [a] + rest;
      assert actions[1..] == rest;
    }
  }

  lemma FoldsOn(s: GameState, players: seq<Player>, dealer: nat, blinds: Blinds, k: nat) returns (a: PlayerAction)
    requires Coming(s, players, dealer, blinds, k) && k <= |players|
    ensures 0 <= s.current < |s.players| && Legal(s, a)
    ensures var t := ApplyAction(s, a);
            Coming(t, players, dealer, blinds, k + 1) && t.currentBet == s.currentBet && t.minRaise == s.minRaise
  {
    ComingActor(s, players, dealer, blinds, k);
    ComingIsLoose(s, players, dealer, blinds, k);
    hide SeatAfter, Coming, StackAt, Loose, ApplyAction, Stepped;
    a := PlayerAction(s.players[s.current].id, Fold, 0);
    FoldIsLegal(s, a);
    ComingActs(s, players, dealer, blinds, k, a);
    ComingBelow(s, players, dealer, blinds, k);
    ComingOn(s, players, dealer, blinds, k, a);
  }

  lemma FoldIsLegal(s: GameState, a: PlayerAction)
    requires HasMover(s) && DistinctIds(s.players) && a == PlayerAction(s.players[s.current].id, Fold, 0)
    ensures Legal(s, a) && IndexOf(s.players, a.playerId) == s.current
    ensures Act(s, a).currentBet == s.currentBet && Act(s, a).minRaise == s.minRaise
  {
    IndexOfDistinct(s.players, s.current);
  }

  lemma ComingBelow(s: GameState, players: seq<Player>, dealer: nat, blinds: Blinds, k: nat)
    requires Coming(s, players, dealer, blinds, k)
    ensures s.currentBet < blinds.small
  {
  }

  /** The k-th player goes all-in over the bet, within the small blind's post. */
  lemma ShovesOn(s: GameState, players: seq<Player>, dealer: nat, blinds: Blinds, k: nat) returns (a: PlayerAction)
    requires Coming(s, players, dealer, blinds, k) && k <= |players|
    requires s.currentBet < StackAt(players, dealer, k) < blinds.small
    ensures 0 <= s.current < |s.players| && Legal(s, a)
    ensures var t, stack := ApplyAction(s, a), StackAt(players, dealer, k);
            && Coming(t, players, dealer, blinds, k + 1)
            && t.currentBet == stack && t.minRaise == stack - s.currentBet
            && |t.players| == |s.players| && t.players[s.current].allIn && !t.players[s.current].folded
  {
    ComingActor(s, players, dealer, blinds, k);
    ComingIsLoose(s, players, dealer, blinds, k);
    hide SeatAfter, Coming, Loose, ApplyAction, Stepped, Playing, StackAt;
    a := PlayerAction(s.players[s.current].id, AllIn, s.players[s.current].stack);
    ShoveIsLegal(s, a);
    ComingActs(s, players, dealer, blinds, k, a);
    ComingOn(s, players, dealer, blinds, k, a);
  }

  lemma ShoveIsLegal(s: GameState, a: PlayerAction)
    requires HasMover(s) && DistinctIds(s.players)
    requires a == PlayerAction(s.players[s.current].id, AllIn, s.players[s.current].stack)
    requires s.players[s.current].bet + s.players[s.current].stack > s.currentBet
    ensures Legal(s, a) && IndexOf(s.players, a.playerId) == s.current
    ensures var t, p := Act(s, a), s.players[s.current];
            && t.currentBet == p.bet + p.stack && t.minRaise == p.bet + p.stack - s.currentBet
            && |t.players| == |s.players| && t.players[s.current].allIn && !t.players[s.current].folded
            && t.players[s.current].stack == 0
            && t.players == s.players[s.current := t.players[s.current]]
  {
    IndexOfDistinct(s.players, s.current);
  }

  /** After that all-in the hand is stalled. */
  lemma SqueezeStalls(s: GameState, players: seq<Player>, dealer: nat, blinds: Blinds, k: nat, seat: nat)
    requires Coming(s, players, dealer, blinds, k)
    requires seat < |s.players| && s.players[seat].allIn && !s.players[seat].folded
    requires s.currentBet + s.minRaise <= blinds.small
    ensures 0 <= SeatAfter(dealer, 1, |players|) && Stalled(s, SeatAfter(dealer, 1, |players|), seat)
  {
    ComingActor(s, players, dealer, blinds, k);
    hide SeatAfter, Loose, Playing, StackAt;
  }

  /** Everybody before the k-th player folds, but the j-th if there is to be one goes all-in; then
      the k-th does, and the hand is stalled. */
  lemma {:induction false} SqueezeOn(s: GameState, players: seq<Player>, dealer: nat, blinds: Blinds, i: nat, j: nat,
                                     k: nat, lower: int, m: nat) returns (actions: seq<PlayerAction>)
    requires Coming(s, players, dealer, blinds, i) && i <= k <= |players| && j < k
    requires if i <= j then s.currentBet < StackAt(players, dealer, j) == lower else s.currentBet == lower
    requires Within(lower, StackAt(players, dealer, k), blinds.small)
    ensures LegalRun(s, actions) && |actions| >= m
    decreases k - i
  {
    hide Legal, ApplyAction, Coming, StackAt, SeatAfter, Playing, Loose;
    ComingIsLoose(s, players, dealer, blinds, i);
    var a: PlayerAction;
    var rest: seq<PlayerAction>;
    if i == k {
      a := ShovesOn(s, players, dealer, blinds, k);
      SqueezeStalls(ApplyAction(s, a), players, dealer, blinds, k + 1, s.current);
      rest := StallsForEver(ApplyAction(s, a), SeatAfter(dealer, 1, |players|), s.current, m);
    } else {
      if i == j {
        a := ShovesOn(s, players, dealer, blinds, i);
      } else {
        a := FoldsOn(s, players, dealer, blinds, i);
      }
      rest := SqueezeOn(ApplyAction(s, a), players, dealer, blinds, i + 1, j, k, lower, m);
    }
    actions := [a] + rest;
    assert actions[1..] == rest;
  }

  lemma RunsOn(players: seq<Player>, dealer: nat, blinds: Blinds, deck: seq<Card>, m: nat)
    returns (actions: seq<PlayerAction>)
    requires Deal(players, blinds, deck) && CanIdle(players, dealer, blinds)
    ensures LegalRun(NewHand(players, dealer, blinds, deck), actions) && |actions| >= m
  {
    hide NewHand, LegalRun, Coming, StackAt, ShortAgainst, ShortBlind.Waiting, SeatAfter;
    var s := NewHand(players, dealer, blinds, deck);
    var bet := Min(blinds.big, StackAt(players, dealer, 2));
    StartComes(players, dealer, blinds, deck);
    if bet + blinds.big <= blinds.small {
      StartIsWaiting(players, dealer, blinds, deck);
      StartStalls(players, dealer, blinds, deck);
      actions := StallsForEver(s, SeatAfter(dealer, 1, |players|), SeatAfter(dealer, 2, |players|), m);
    } else {
      var k :| 3 <= k <= |players| && Squeezes(players, dealer, bet, blinds.small, k);
      if Within(bet, StackAt(players, dealer, k), blinds.small) {
        actions := SqueezeOn(s, players, dealer, blinds, 3, 0, k, bet, m);
      } else {
        var j :| 3 <= j < k && bet < StackAt(players, dealer, j)
                 && Within(StackAt(players, dealer, j), StackAt(players, dealer, k), blinds.small);
        actions := SqueezeOn(s, players, dealer, blinds, 3, j, k, StackAt(players, dealer, j), m);
      }
    }
  }

  lemma StartStalls(players: seq<Player>, dealer: nat, blinds: Blinds, deck: seq<Card>)
    requires Deal(players, blinds, deck) && Coming(NewHand(players, dealer, blinds, deck), players, dealer, blinds, 3)
    ensures 0 <= SeatAfter(dealer, 1, |players|) < |NewHand(players, dealer, blinds, deck).players|
    ensures NewHand(players, dealer, blinds, deck).players[SeatAfter(dealer, 1, |players|)].bet == blinds.small
    ensures 0 <= SeatAfter(dealer, 2, |players|)
  {
    hide NewHand, SeatAfter, Loose, Playing, StackAt;
  }

  // ----- Exactly when hands end -----

  ghost predicate NeverLonger(s: GameState, bound: nat) {
    forall actions :: LegalRun(s, actions) ==> |actions| <= bound
  }

  /** The runs of a deal are bounded, and then by the limit, exactly when no small blind can be
      offered a minimum raise within his own post. */
  lemma HandsEndExactly(players: seq<Player>, dealer: nat, blinds: Blinds, deck: seq<Card>)
    requires Deal(players, blinds, deck)
    ensures (exists bound: nat :: NeverLonger(NewHand(players, dealer, blinds, deck), bound))
            <==> !CanIdle(players, dealer, blinds)
    ensures !CanIdle(players, dealer, blinds) ==>
              forall actions :: LegalRun(NewHand(players, dealer, blinds, deck), actions) ==>
                |actions| <= TurnLimit(players, dealer, blinds)
  {
    hide NewHand, LegalRun, CanIdle, TurnLimit;
    var s := NewHand(players, dealer, blinds, deck);
    if CanIdle(players, dealer, blinds) {
      forall bound: nat ensures !NeverLonger(s, bound) {
        var actions := RunsOn(players, dealer, blinds, deck, bound + 1);
      }
    } else {
      LimitIsPositive(players, dealer, blinds);
      forall actions | LegalRun(s, actions) ensures |actions| <= TurnLimit(players, dealer, blinds) {
        NobodyIdles(players, dealer, blinds, deck, actions);
        HandsAreFinite(players, dealer, blinds, deck, actions);
      }
      assert NeverLonger(s, TurnLimit(players, dealer, blinds));
    }
  }

  /** A concrete one at blinds of 10 and 20: cat posts 5 as the big blind, dan goes all-in for 7,
      and ann, who has posted 10, may raise to 9 as often as she likes. */
  lemma EndlessHand(deck: seq<Card>, m: nat)
    requires |deck| == 52
    ensures var players := [Hands.Fresh("dan", 7), Hands.Fresh("ann", 100), Hands.Fresh("cat", 5)];
            && Deal(players, Blinds(10, 20), deck) && CanIdle(players, 0, Blinds(10, 20))
            && exists actions :: LegalRun(NewHand(players, 0, Blinds(10, 20), deck), actions) && |actions| >= m
  {
    hide NewHand, LegalRun;
    var players := [Hands.Fresh("dan", 7), Hands.Fresh("ann", 100), Hands.Fresh("cat", 5)];
    assert Squeezes(players, 0, 5, 10, 3);
    var actions := RunsOn(players, 0, Blinds(10, 20), deck, m);
  }
}
