// Whole hands: how they start, what every run of legal actions keeps, how they end
// (ghosts/rdc-poker/src/gameEngine.ts:23-351).
module Hands {
  import opened Seqs
  import opened PokerTypes
  import opened Evaluator
  import opened Pot
  import opened Engine
  import opened Betting
  import opened Payout

  // ----- Starting -----

  /** What createNewHand is given: distinct players with chips, blinds, and enough cards. */
  ghost predicate Deal(players: seq<Player>, blinds: Blinds, deck: seq<Card>) {
    && |players| >= 2
    && 2 * |players| + 5 <= |deck|
    && DistinctIds(players)
    && (forall i :: 0 <= i < |players| ==> players[i].stack > 0)
    && 0 < blinds.small && 0 < blinds.big
  }

  /** The big blind posts at least the small blind's post, and somebody has chips left behind
      the blinds. */
  ghost predicate CanStart(players: seq<Player>, dealer: nat, blinds: Blinds)
    requires |players| >= 2
  {
    var sb := players[SeatAfter(dealer, 1, |players|)];
    var bb := players[SeatAfter(dealer, 2, |players|)];
    && Min(blinds.small, sb.stack) <= Min(blinds.big, bb.stack)
    && SomeoneLeft(players, dealer, blinds)
  }

  /** Somebody has chips left behind the blinds. */
  predicate SomeoneLeft(players: seq<Player>, dealer: nat, blinds: Blinds)
    requires |players| >= 2
  {
    var sb := players[SeatAfter(dealer, 1, |players|)];
    var bb := players[SeatAfter(dealer, 2, |players|)];
    |players| > 2 || sb.stack > blinds.small || bb.stack > blinds.big
  }

  /** The seats of a new hand. */
  lemma NewSeats(players: seq<Player>, dealer: nat, blinds: Blinds, deck: seq<Card>)
    requires Deal(players, blinds, deck)
    ensures var n, s := |players|, NewHand(players, dealer, blinds, deck);
            var sb, bb := SeatAfter(dealer, 1, n), SeatAfter(dealer, 2, n);
            && sb != bb && |s.players| == n
            && (forall i :: 0 <= i < n ==>
                  var k := DealOrder(dealer, i, n);
                  var p := Seated(players[i], deck[2 * k..2 * k + 2], i == bb);
                  s.players[i] == if i == sb then Post(p, blinds.small)
                                  else if i == bb then Post(p, blinds.big) else p)
            && s.currentBet == Min(blinds.big, players[bb].stack)
            && s.current == NextToAct(s.players, bb)
  {
    hide DealOrder;
    DealOrderBounds(dealer, |players|);
    SeatsInTurn(dealer, 0, 1, |players|);
  }

  /** The same, chip by chip: who is dealt what, who posts how much, and who has nothing left. */
  lemma WhoPosted(players: seq<Player>, dealer: nat, blinds: Blinds, deck: seq<Card>, i: nat)
    requires Deal(players, blinds, deck) && i < |players|
    ensures var n, s := |players|, NewHand(players, dealer, blinds, deck);
            var k := DealOrder(dealer, i, n);
            && |s.players| == n && 0 <= 2 * k && 2 * k + 2 <= |deck|
            && var p := s.players[i];
               && p.id == players[i].id && p.hole == [deck[2 * k], deck[2 * k + 1]] && !p.folded
               && p.bet == p.contributed == players[i].stack - p.stack
               && p.bet == (if i == (dealer + 1) % n then Min(blinds.small, players[i].stack)
                            else if i == (dealer + 2) % n then Min(blinds.big, players[i].stack) else 0)
               && (p.allIn <==> p.stack == 0) && (p.bigBlind <==> i == (dealer + 2) % n)
  {
    hide NewHand, DealOrder;
    DealOrderBounds(dealer, |players|);
    NewSeats(players, dealer, blinds, deck);
  }

  /** A third seat, besides the blinds. */
  lemma ThirdSeat(dealer: nat, n: nat)
    requires n > 2
    ensures SeatAfter(dealer, 3, n) != SeatAfter(dealer, 1, n)
    ensures SeatAfter(dealer, 3, n) != SeatAfter(dealer, 2, n)
  {
    SeatsInTurn(dealer, 0, 2, n);
    SeatsInTurn(dealer, 1, 2, n);
  }

  lemma TwoSeats(dealer: nat, i: nat)
    requires i < 2
    ensures i == SeatAfter(dealer, 1, 2) || i == SeatAfter(dealer, 2, 2)
  {
  }

  /** Someone can act after the blinds exactly when somebody has chips left behind them. */
  lemma WhoCanAct(players: seq<Player>, dealer: nat, blinds: Blinds, deck: seq<Card>)
    requires Deal(players, blinds, deck)
    ensures var n, s := |players|, NewHand(players, dealer, blinds, deck);
            SomeoneLeft(players, dealer, blinds)
            <==> exists i :: 0 <= i < |s.players| && CanAct(s.players[i])
  {
    hide NewHand, DealOrder, SeatAfter;
    NewSeats(players, dealer, blinds, deck);
    var n, s := |players|, NewHand(players, dealer, blinds, deck);
    var sb, bb := SeatAfter(dealer, 1, n), SeatAfter(dealer, 2, n);
    SeatsInRange(dealer, n);
    assert CanAct(s.players[sb]) <==> players[sb].stack > blinds.small;
    assert CanAct(s.players[bb]) <==> players[bb].stack > blinds.big;
    if n > 2 {
      ThirdSeat(dealer, n);
      assert CanAct(s.players[SeatAfter(dealer, 3, n)]);
    } else {
      forall i | 0 <= i < n && CanAct(s.players[i]) ensures i == sb || i == bb {
        TwoSeats(dealer, i);
      }
    }
  }

  lemma NextExists(ps: seq<Player>, from: nat)
    requires ps != []
    ensures NextToAct(ps, from) != -1 <==> exists i :: 0 <= i < |ps| && CanAct(ps[i])
  {
    NextCanAct(ps, from, 1);
    if NextToAct(ps, from) == -1 {
      NobodyNext(ps, from, 1);
    }
  }

  lemma NewTable(players: seq<Player>, dealer: nat, blinds: Blinds, deck: seq<Card>)
    requires Deal(players, blinds, deck)
    ensures var s := NewHand(players, dealer, blinds, deck);
            && DistinctIds(s.players)
            && s.pot == Sum(s.players, Contribution)
            && Count(s.players, Unfolded) == |players|
            && SameStart(players, s.players)
  {
    hide NewHand, DealOrder, SeatAfter;
    SeatsInRange(dealer, |players|);
    NewSeats(players, dealer, blinds, deck);
    var s := NewHand(players, dealer, blinds, deck);
    AllUnfolded(s.players);
    NewPot(players, dealer, blinds, deck);
  }

  /** The same people, with every chip in the stack or in the middle. */
  ghost predicate SameStart(players: seq<Player>, ps: seq<Player>) {
    && |ps| == |players|
    && forall i :: 0 <= i < |ps| ==>
         ps[i].id == players[i].id && ps[i].stack + ps[i].contributed == players[i].stack
  }

  lemma {:induction false} AllUnfolded(ps: seq<Player>)
    requires forall i :: 0 <= i < |ps| ==> !ps[i].folded
    ensures Count(ps, Unfolded) == |ps|
  {
    if ps != [] {
      AllUnfolded(ps[..|ps| - 1]);
    }
  }

  lemma {:induction false} NoContribution(ps: seq<Player>)
    requires forall i :: 0 <= i < |ps| ==> ps[i].contributed == 0
    ensures Sum(ps, Contribution) == 0
  {
    if ps != [] {
      NoContribution(ps[..|ps| - 1]);
    }
  }

  lemma NewPot(players: seq<Player>, dealer: nat, blinds: Blinds, deck: seq<Card>)
    requires Deal(players, blinds, deck)
    ensures NewHand(players, dealer, blinds, deck).pot
         == Sum(NewHand(players, dealer, blinds, deck).players, Contribution)
  {
    hide DealOrder, Sum;
    var n := |players|;
    DealOrderBounds(dealer, n);
    SeatsInTurn(dealer, 0, 1, n);
    var sb, bb := SeatAfter(dealer, 1, n), SeatAfter(dealer, 2, n);
    var dealt := DealtPlayers(players, dealer, deck);
    NoContribution(dealt);
    var ps1 := dealt[sb := Post(dealt[sb], blinds.small)];
    SumUpdate(dealt, sb, Post(dealt[sb], blinds.small), Contribution);
    SumUpdate(ps1, bb, Post(ps1[bb], blinds.big), Contribution);
  }

  /** createNewHand starts a hand in which betting is sound exactly when the big blind is not
      posted short of the small blind and somebody is left to act. */
  lemma StartsSoundly(players: seq<Player>, dealer: nat, blinds: Blinds, deck: seq<Card>)
    requires Deal(players, blinds, deck)
    ensures Inv(NewHand(players, dealer, blinds, deck)) <==> CanStart(players, dealer, blinds)
  {
    hide DealOrder, SeatAfter, Sum, Count, NewHand, NextFrom, DistinctIds;
    var n, s := |players|, NewHand(players, dealer, blinds, deck);
    var sb, bb := SeatAfter(dealer, 1, n), SeatAfter(dealer, 2, n);
    SeatsInRange(dealer, n);
    NewSeats(players, dealer, blinds, deck);
    NewTable(players, dealer, blinds, deck);
    WhoCanAct(players, dealer, blinds, deck);
    NextExists(s.players, bb);
    NextCanAct(s.players, bb, 1);
    NewRest(players, dealer, blinds, deck);
    NoLiveAllIn(s);
    if CanStart(players, dealer, blinds) {
      assert SeatsOk(s.players, s.currentBet, 0);
      assert Level(s) == 0;
    }
    if Inv(s) {
      assert SeatOk(s.players[sb], s.currentBet, Level(s));
    }
  }

  /** Two concrete tables the engine starts unsoundly: a big blind posted short, so that the
      small blind has put in more than the bet; and two players the blinds put all-in, so
      that nobody is left to act. */
  lemma UnsoundStarts(deck: seq<Card>)
    requires |deck| == 52
    ensures var players := [Fresh("ann", 1), Fresh("bob", 100), Fresh("cat", 5)];
            !Inv(NewHand(players, 0, Blinds(10, 20), deck))
            && NewHand(players, 0, Blinds(10, 20), deck).currentBet == 5
    ensures !Inv(NewHand([Fresh("ann", 10), Fresh("bob", 10)], 0, Blinds(10, 20), deck))
            && NewHand([Fresh("ann", 10), Fresh("bob", 10)], 0, Blinds(10, 20), deck).current == -1
  {
    hide Inv, NewHand, DealOrder, NextFrom;
    var three := [Fresh("ann", 1), Fresh("bob", 100), Fresh("cat", 5)];
    NewSeats(three, 0, Blinds(10, 20), deck);
    StartsSoundly(three, 0, Blinds(10, 20), deck);
    var two := [Fresh("ann", 10), Fresh("bob", 10)];
    NewSeats(two, 0, Blinds(10, 20), deck);
    StartsSoundly(two, 0, Blinds(10, 20), deck);
    BothAllIn(two, deck);
  }

  function Fresh(id: string, stack: int): Player {
    Player(id, stack, [], 0, 0, false, false, false)
  }

  lemma BothAllIn(two: seq<Player>, deck: seq<Card>)
    requires two == [Fresh("ann", 10), Fresh("bob", 10)] && |deck| == 52
    ensures NewHand(two, 0, Blinds(10, 20), deck).current == -1
  {
    hide NewHand, DealOrder;
    NewSeats(two, 0, Blinds(10, 20), deck);
    NextCanAct(NewHand(two, 0, Blinds(10, 20), deck).players, 0, 1);
  }

  lemma NewRest(players: seq<Player>, dealer: nat, blinds: Blinds, deck: seq<Card>)
    requires Deal(players, blinds, deck)
    ensures var s := NewHand(players, dealer, blinds, deck);
            && BoardFits(s) && s.phase == PreFlop && s.sidePots == [] && s.minRaise == blinds.big
            && s.blinds == blinds && s.board + s.deck == deck[2 * |players|..] && s.history == []
            && s.dealer == dealer
  {
  }

  lemma NoLiveAllIn(s: GameState)
    requires s.sidePots == []
    ensures s.sidePots != [] ==> Count(s.players, LiveAllIn) > 0
  {
  }

  // ----- Runs -----

  /** A run of actions each legal for the player to act. */
  predicate LegalRun(s: GameState, actions: seq<PlayerAction>)
    decreases |actions|
  {
    actions == []
    || (Playing(s) && 0 <= s.current < |s.players| && Legal(s, actions[0])
        && LegalRun(ApplyAction(s, actions[0]), actions[1..]))
  }

  function Run(s: GameState, actions: seq<PlayerAction>): GameState
    requires LegalRun(s, actions)
    decreases |actions|
  {
    if actions == [] then s else Run(ApplyAction(s, actions[0]), actions[1..])
  }

  lemma HandsEnd(s: GameState, actions: seq<PlayerAction>)
    requires s.phase == HandComplete && LegalRun(s, actions)
    ensures actions == [] && Run(s, actions) == s
  {
  }

  /** Every run of legal actions keeps the invariant until the hand ends, by a fold or at a
      showdown. r is the last state before the pot is paid out. */
  lemma {:induction false} RunOutcome(s: GameState, actions: seq<PlayerAction>) returns (r: GameState, e: Ending)
    requires Inv(s) && LegalRun(s, actions)
    ensures SameSeats(s.players, r.players) && r.board + r.deck == s.board + s.deck
    ensures r.pot == Sum(r.players, Contribution)
    ensures e == Continues ==> Run(s, actions) == r && Inv(r)
    ensures e == ByFold ==> Count(r.players, Unfolded) == 1 && Run(s, actions) == AfterFold(r)
    ensures e == ByShowdown ==> ShowdownReady(r) && Run(s, actions) == AfterShowdown(r)
    decreases |actions|
  {
    hide Inv, Legal, Playing, SameSeats, ApplyAction, AfterShowdown, AfterFold, ShowdownReady, Sum, Count;
    if actions == [] {
      r, e := s, Continues;
      Itself(s);
    } else {
      r, e := ActionOutcome(s, actions[0]);
      var t := ApplyAction(s, actions[0]);
      if e == Continues {
        var r0 := r;
        r, e := RunOutcome(t, actions[1..]);
        SameSeatsChain(s.players, r0.players, r.players);
      } else {
        Completed(r, e, t);
        HandsEnd(t, actions[1..]);
      }
    }
  }

  lemma Itself(s: GameState)
    requires Inv(s)
    ensures SameSeats(s.players, s.players) && s.pot == Sum(s.players, Contribution)
  {
  }

  lemma Completed(r: GameState, e: Ending, t: GameState)
    requires e == ByFold ==> Count(r.players, Unfolded) == 1 && t == AfterFold(r)
    requires e == ByShowdown ==> ShowdownReady(r) && t == AfterShowdown(r)
    ensures e != Continues ==> t.phase == HandComplete
  {
    hide SortEntries, Evaluations, AllPayments, Credited, Dedupe;
  }

  lemma StartChain(players: seq<Player>, ps: seq<Player>, qs: seq<Player>)
    requires SameStart(players, ps) && SameSeats(ps, qs)
    ensures SameStart(players, qs)
  {
  }

  /** How a whole hand ends: r is the last state before the pot is paid out. */
  lemma HandOutcome(players: seq<Player>, dealer: nat, blinds: Blinds, deck: seq<Card>,
                    actions: seq<PlayerAction>) returns (r: GameState, e: Ending)
    requires Deal(players, blinds, deck) && CanStart(players, dealer, blinds)
    requires LegalRun(NewHand(players, dealer, blinds, deck), actions)
    ensures var t := Run(NewHand(players, dealer, blinds, deck), actions);
            && (e == Continues ==> t == r && Inv(t))
            && (e == ByFold ==> Count(r.players, Unfolded) == 1 && t == AfterFold(r))
            && (e == ByShowdown ==> ShowdownReady(r) && t == AfterShowdown(r))
    ensures SameStart(players, r.players)
  {
    hide NewHand, Inv, CanStart, LegalRun, Run, SameStart, SameSeats, ShowdownReady, Sum, Count;
    var s := NewHand(players, dealer, blinds, deck);
    StartsSoundly(players, dealer, blinds, deck);
    NewTable(players, dealer, blinds, deck);
    r, e := RunOutcome(s, actions);
    StartChain(players, s.players, r.players);
  }

  // ----- Results of a whole hand -----

  lemma {:induction false} CappedFollows(ps: seq<Player>, qs: seq<Player>, cap: int)
    requires |ps| == |qs|
    requires forall i :: 0 <= i < |ps| ==> qs[i].contributed == ps[i].contributed && qs[i].folded == ps[i].folded
    ensures CappedLive(ps, cap) == CappedLive(qs, cap)
    ensures Sum(ps, FoldedContribution) == Sum(qs, FoldedContribution)
  {
    if ps != [] {
      CappedFollows(ps[..|ps| - 1], qs[..|qs| - 1], cap);
    }
  }

  /** Everything about the final state but the stacks is as it was before payment. */
  lemma OnlyStacksChange(r: GameState)
    requires |r.board| == 5
    ensures var t := AfterShowdown(r);
            && |t.players| == |r.players| && t.board == r.board
            && (forall i :: 0 <= i < |r.players| ==> t.players[i] == r.players[i].(stack := t.players[i].stack))
            && (forall i: nat :: StrictlyBest(t, i) <==> StrictlyBest(r, i))
            && (forall i: nat :: Outranked(t, i) <==> Outranked(r, i))
  {
    hide SortEntries, Evaluations, AllPayments, Dedupe, PaidTo, BestHand, Compare;
  }

  /** The result of a hand that went to showdown, read off its final state: the strictly best
      hand wins from every player still in as much as it put in, and all the folded money. */
  lemma WinnerOfAHand(players: seq<Player>, dealer: nat, blinds: Blinds, deck: seq<Card>,
                      actions: seq<PlayerAction>, i: nat)
    requires Deal(players, blinds, deck) && CanStart(players, dealer, blinds)
    requires LegalRun(NewHand(players, dealer, blinds, deck), actions)
    requires var t := Run(NewHand(players, dealer, blinds, deck), actions);
             t.phase == HandComplete && Count(t.players, Unfolded) >= 2 && |t.board| == 5
             && StrictlyBest(t, i)
    ensures var t := Run(NewHand(players, dealer, blinds, deck), actions);
            && |t.players| == |players|
            && t.players[i].stack == players[i].stack - t.players[i].contributed
                 + CappedLive(t.players, t.players[i].contributed) + Sum(t.players, FoldedContribution)
  {
    hide NewHand, CanStart, LegalRun, Run, ShowdownReady, Chips, Dust, StrictlyBest, Outranked,
      AfterShowdown, Sum, CappedLive, Prize;
    var r, e := HandOutcome(players, dealer, blinds, deck, actions);
    var t := Run(NewHand(players, dealer, blinds, deck), actions);
    ShowdownIfTwo(r, e, t);
    ReadyBoard(r);
    InRange(t, i);
    OnlyStacksChange(r);
    BestHandTakes(r, i);
    CappedFollows(r.players, t.players, r.players[i].contributed);
    PrizeIs(r, i);
  }

  /** And a player somebody beats gets back at most as much as he put in from every player
      still in, and never less than nothing. */
  lemma LoserOfAHand(players: seq<Player>, dealer: nat, blinds: Blinds, deck: seq<Card>,
                     actions: seq<PlayerAction>, i: nat)
    requires Deal(players, blinds, deck) && CanStart(players, dealer, blinds)
    requires LegalRun(NewHand(players, dealer, blinds, deck), actions)
    requires var t := Run(NewHand(players, dealer, blinds, deck), actions);
             t.phase == HandComplete && Count(t.players, Unfolded) >= 2 && |t.board| == 5
             && Outranked(t, i) && !t.players[i].folded
    ensures var t := Run(NewHand(players, dealer, blinds, deck), actions);
            && |t.players| == |players|
            && 0 <= t.players[i].stack - (players[i].stack - t.players[i].contributed)
                 <= CappedLive(t.players, t.players[i].contributed)
  {
    hide NewHand, CanStart, LegalRun, Run, ShowdownReady, Chips, Dust, StrictlyBest, Outranked,
      AfterShowdown, Sum, CappedLive, Prize;
    var r, e := HandOutcome(players, dealer, blinds, deck, actions);
    var t := Run(NewHand(players, dealer, blinds, deck), actions);
    ShowdownIfTwo(r, e, t);
    ReadyBoard(r);
    InRange(t, i);
    OnlyStacksChange(r);
    BeatenHandTakesAtMost(r, i);
    CappedFollows(r.players, t.players, r.players[i].contributed);
    PrizeIs(r, i);
  }

  lemma ReadyBoard(r: GameState)
    requires ShowdownReady(r)
    ensures |r.board| == 5
  {
  }

  lemma InRange(t: GameState, i: nat)
    requires |t.board| == 5 && (StrictlyBest(t, i) || Outranked(t, i))
    ensures i < |t.players|
  {
    hide BestHand, Compare;
  }

  lemma PrizeIs(r: GameState, i: nat)
    requires |r.board| == 5 && i < |r.players|
    ensures |AfterShowdown(r).players| == |r.players|
    ensures AfterShowdown(r).players[i].stack == r.players[i].stack + Prize(r, i)
  {
    hide SortEntries, Evaluations, AllPayments, Dedupe, PaidTo;
  }

  /** A finished hand with two players left in ended at a showdown. */
  lemma ShowdownIfTwo(r: GameState, e: Ending, t: GameState)
    requires t.phase == HandComplete && Count(t.players, Unfolded) >= 2
    requires e == Continues ==> Inv(t)
    requires e == ByFold ==> Count(r.players, Unfolded) == 1 && t == AfterFold(r)
    ensures e == ByShowdown
  {
    hide Count;
    if e == ByFold {
      var w := FirstUnfolded(r.players);
      CountUpdate(r.players, w, t.players[w], Unfolded);
    }
  }
}
