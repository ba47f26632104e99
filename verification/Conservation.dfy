// Chips and cards over a whole hand, from every deal: also one whose big blind is posted short,
// where the bets need not match (ghosts/rdc-poker/src/gameEngine.ts:23-393).
module Conservation {
  import opened Seqs
  import opened PokerTypes
  import opened Pot
  import opened Engine
  import opened Betting
  import opened Settlement
  import opened Payout
  import opened Hands

  ghost predicate LooseSeat(p: Player) {
    0 <= p.stack && 0 <= p.bet <= p.contributed
  }

  /** What holds of an unfinished hand whether or not its betting is sound. */
  ghost predicate Loose(s: GameState) {
    && DistinctIds(s.players)
    && (forall i :: 0 <= i < |s.players| ==> LooseSeat(s.players[i]))
    && 0 <= s.currentBet && 0 < s.minRaise && 0 < s.blinds.big
    && s.pot == Sum(s.players, Contribution)
    && (s.sidePots != [] ==> Count(s.players, LiveAllIn) > 0)
    && s.phase != HandComplete
  }

  /** One seat's move: its chips pass between stack and middle, in either direction. */
  ghost predicate Shifted(p: Player, q: Player, paid: int) {
    && q.id == p.id && q.hole == p.hole
    && q.contributed == p.contributed + paid && q.stack == p.stack - paid
    && LooseSeat(q)
    && !p.folded && !p.allIn
  }

  ghost predicate ShiftedTable(s: GameState, t: GameState)
    requires 0 <= s.current < |s.players|
  {
    && |t.players| == |s.players|
    && t.players == s.players[s.current := t.players[s.current]]
    && Shifted(s.players[s.current], t.players[s.current], t.pot - s.pot)
    && 0 <= t.currentBet && 0 < t.minRaise
    && t.phase == s.phase && t.board == s.board && t.deck == s.deck && t.sidePots == s.sidePots
    && t.blinds == s.blinds && t.dealer == s.dealer
  }

  lemma ShiftLoosely(p: Player, amount: int)
    requires LooseSeat(p) && !p.folded && !p.allIn && -p.bet <= amount <= p.stack
    ensures Shifted(p, PayIn(p, amount), amount)
  {
  }

  /** A legal action by any seat: a call of a bet below what the seat already put in gives
      the difference back. */
  lemma ActShifts(s: GameState, a: PlayerAction)
    requires Loose(s) && 0 <= s.current < |s.players| && Legal(s, a)
    ensures IndexOf(s.players, a.playerId) == s.current
    ensures ShiftedTable(s, Act(s, a))
  {
    hide Sum, Count, IndexOf, DistinctIds, PayIn;
    IndexOfDistinct(s.players, s.current);
    var p := s.players[s.current];
    assert LooseSeat(p);
    match a.action {
      case Fold =>
      case Check =>
        assert s.players == s.players[s.current := p];
      case Call =>
        ShiftLoosely(p, Min(s.currentBet - p.bet, p.stack));
      case Raise =>
        if a.amount - p.bet <= 0 {
          assert s.players == s.players[s.current := p];
        } else {
          ShiftLoosely(p, a.amount - p.bet);
          PaidInBet(p, a.amount - p.bet);
        }
      case AllIn =>
        ShiftLoosely(p, p.stack);
        PaidInBet(p, p.stack);
    }
  }

  /** An action takes chips out of the pot exactly when it calls a bet the seat is already
      above. */
  lemma PotDrops(s: GameState, a: PlayerAction)
    requires Loose(s) && 0 <= s.current < |s.players| && Legal(s, a)
    ensures IndexOf(s.players, a.playerId) == s.current
    ensures Act(s, a).pot < s.pot <==> a.action == Call && s.currentBet < s.players[s.current].bet
  {
    hide Sum, Count, IndexOf, DistinctIds;
    IndexOfDistinct(s.players, s.current);
    assert LooseSeat(s.players[s.current]);
  }

  lemma PaidInBet(p: Player, amount: int)
    ensures PayIn(p, amount).bet == p.bet + amount
  {
  }

  lemma ShiftKeepsLoose(s: GameState, t: GameState)
    requires Loose(s) && 0 <= s.current < |s.players| && ShiftedTable(s, t)
    ensures Loose(t) && SameSeats(s.players, t.players)
    ensures Count(t.players, Unfolded) >= Count(s.players, Unfolded) - 1
  {
    hide Sum, Count;
    var q := t.players[s.current];
    SumUpdate(s.players, s.current, q, Contribution);
    CountUpdate(s.players, s.current, q, LiveAllIn);
    CountUpdate(s.players, s.current, q, Unfolded);
    forall i, j | 0 <= i < j < |t.players| ensures t.players[i].id != t.players[j].id {
      assert s.players[i].id != s.players[j].id;
    }
  }

  lemma ActedTable(s: GameState, a: PlayerAction)
    requires Loose(s) && Playing(s) && 0 <= s.current < |s.players| && Legal(s, a)
    ensures IndexOf(s.players, a.playerId) == s.current
    ensures var t := Act(s, a);
            t.players != [] && BoardFits(t) && Count(t.players, Unfolded) >= 1 && t.phase == s.phase
  {
    hide Loose, Legal, Act, Count, Sum, LooseSeat, DistinctIds;
    ActShifts(s, a);
    ActKeepsUnfolded(s, a);
  }

  lemma FoldFinishes(t: GameState)
    requires Count(t.players, Unfolded) > 0
    ensures AfterFold(t).phase == HandComplete
  {
  }

  lemma FullBoardHasFive(d: GameState)
    requires EnoughCards(d)
    ensures |FullBoard(d).board| == 5
  {
  }

  lemma ShowdownFinishes(r: GameState)
    requires |r.board| == 5
    ensures AfterShowdown(r).phase == HandComplete
  {
  }

  /** Closing a street keeps the chips where they are. */
  lemma CloseKeepsLoose(t: GameState)
    requires Loose(t)
    ensures Loose(CloseRound(t)) && SameSeats(t.players, CloseRound(t).players)
    ensures CloseRound(t).sidePots
         == if Count(CloseRound(t).players, LiveAllIn) > 0 then SidePots(CloseRound(t).players) else []
    ensures Count(CloseRound(t).players, Unfolded) == Count(t.players, Unfolded)
  {
    hide SidePots, Sum, Count;
    var r := CloseRound(t);
    CountPointwise(r.players, t.players, LiveAllIn, LiveAllIn);
    CountPointwise(r.players, t.players, Unfolded, Unfolded);
    SumPointwise(r.players, t.players, Contribution, Contribution);
    forall i | 0 <= i < |r.players| ensures LooseSeat(r.players[i]) {
      assert LooseSeat(t.players[i]);
    }
    forall i, j | 0 <= i < j < |r.players| ensures r.players[i].id != r.players[j].id {
      assert t.players[i].id != t.players[j].id;
    }
  }

  /** A closed round on a full board can be paid out. */
  lemma LooseIsPayable(c: GameState, r: GameState)
    requires Loose(c) && |r.board| == 5 && Count(c.players, Unfolded) >= 1
    requires c.sidePots == if Count(c.players, LiveAllIn) > 0 then SidePots(c.players) else []
    requires r.players == c.players && r.pot == c.pot && r.sidePots == c.sidePots
    ensures Payable(r)
  {
    hide SidePots, Sum, Count;
    forall p | p in r.players ensures 0 <= p.stack && 0 <= p.contributed {
      var i :| 0 <= i < |r.players| && r.players[i] == p;
      assert LooseSeat(r.players[i]);
    }
  }

  /** Whether closing the street ends the hand. */
  predicate LastStreet(t: GameState) {
    (Count(t.players, CanAct) < 2 && Count(t.players, Unfolded) >= 2) || t.phase == River
  }

  lemma AdvanceCases(t: GameState)
    requires BoardFits(t) && t.players != [] && Count(t.players, Unfolded) >= 1
    ensures var c := CloseRound(t);
            && EnoughCards(c) && c.board + c.deck == t.board + t.deck
            && FullBoard(c).board + FullBoard(c).deck == c.board + c.deck
            && |FullBoard(c).board| == 5
            && (LastStreet(t) ==> AdvancePhase(t) == AfterShowdown(FullBoard(c)))
  {
    hide SidePots, AfterShowdown, Count, NextFrom, StartStreet;
    UnfoldedUnchanged(t.players);
  }

  lemma StreetCases(t: GameState) returns (d: GameState)
    requires BoardFits(t) && t.players != [] && Count(t.players, Unfolded) >= 1 && !LastStreet(t)
    ensures var c := CloseRound(t);
            && EnoughCards(d) && BoardFits(d) && d.board + d.deck == t.board + t.deck
            && d == c.(board := d.board, deck := d.deck, phase := d.phase)
            && d.players != [] && Count(d.players, Unfolded) >= 1 && d.phase != HandComplete
            && AdvancePhase(t) == StartStreet(d)
  {
    hide SidePots, AfterShowdown, Count, NextFrom, StartStreet;
    UnfoldedUnchanged(t.players);
    var c := CloseRound(t);
    d := DealBoard(c, if t.phase == PreFlop then 3 else 1).(
           phase := if t.phase == PreFlop then Flop else if t.phase == Flop then Turn else River);
  }

  /** The player to act can. */
  predicate HasMover(s: GameState) {
    0 <= s.current < |s.players| && CanAct(s.players[s.current])
  }

  lemma StartLoosely(c: GameState, d: GameState) returns (r: GameState, e: Ending)
    requires Loose(c) && Count(c.players, Unfolded) >= 1 && c.players != []
    requires c.sidePots == if Count(c.players, LiveAllIn) > 0 then SidePots(c.players) else []
    requires d == c.(board := d.board, deck := d.deck, phase := d.phase) && EnoughCards(d)
    requires d.phase != HandComplete
    ensures r.players == c.players && r.pot == c.pot && r.board + r.deck == d.board + d.deck
    ensures e == Continues || e == ByShowdown
    ensures e == Continues ==> StartStreet(d) == r && Loose(r) && HasMover(r)
    ensures e == ByShowdown ==> Payable(r) && StartStreet(d) == AfterShowdown(r)
  {
    hide SidePots, AfterShowdown, Sum, Count, DistinctIds, NextFrom, LooseSeat, Payable;
    var first := NextToAct(d.players, d.dealer);
    NextCanAct(d.players, d.dealer, 1);
    if first == -1 {
      r, e := FullBoard(d), ByShowdown;
      LooseIsPayable(c, r);
    } else {
      r, e := d.(current := first), Continues;
    }
  }

  /** A street closes into the next street or into a showdown. */
  lemma AdvanceLoosely(t: GameState) returns (r: GameState, e: Ending)
    requires Loose(t) && BoardFits(t) && t.players != [] && Count(t.players, Unfolded) >= 1
    ensures SameSeats(t.players, r.players) && r.board + r.deck == t.board + t.deck
    ensures r.pot == Sum(r.players, Contribution)
    ensures e == Continues || e == ByShowdown
    ensures e == Continues ==> AdvancePhase(t) == r && Loose(r) && HasMover(r)
    ensures e == ByShowdown ==> Payable(r) && AdvancePhase(t) == AfterShowdown(r)
  {
    CloseKeepsLoose(t);
    AdvanceCases(t);
    hide SidePots, AfterShowdown, Sum, Count, DistinctIds, LooseSeat, Payable, SameSeats, AdvancePhase,
      StartStreet, LastStreet, CloseRound, BoardFits;
    var c := CloseRound(t);
    LoosePot(c);
    if LastStreet(t) {
      r, e := FullBoard(c), ByShowdown;
      LooseIsPayable(c, r);
    } else {
      var d := StreetCases(t);
      r, e := StartLoosely(c, d);
    }
  }

  lemma LoosePot(c: GameState)
    requires Loose(c)
    ensures c.pot == Sum(c.players, Contribution)
  {
  }

  lemma ActionKeepsLoose(s: GameState, a: PlayerAction) returns (r: GameState, e: Ending)
    requires Loose(s) && Playing(s) && 0 <= s.current < |s.players| && Legal(s, a)
    ensures SameSeats(s.players, r.players) && r.board + r.deck == s.board + s.deck
    ensures r.pot == Sum(r.players, Contribution)
    ensures e == Continues ==> ApplyAction(s, a) == r && Loose(r) && HasMover(r)
    ensures e == ByFold ==> Count(r.players, Unfolded) == 1 && ApplyAction(s, a) == AfterFold(r) && Loose(r)
    ensures e == ByShowdown ==> Payable(r) && ApplyAction(s, a) == AfterShowdown(r)
  {
    hide Act, Legal, Available, AdvancePhase, AfterShowdown, AfterFold, RoundComplete, NextFrom, Sum, Count,
      SameSeats, LooseSeat, DistinctIds, Payable, Shifted;
    ActShifts(s, a);
    var t := Act(s, a);
    ShiftKeepsLoose(s, t);
    if Count(t.players, Unfolded) == 1 {
      r, e := t, ByFold;
    } else {
      var next := NextToAct(t.players, s.current);
      NextCanAct(t.players, s.current, 1);
      if next == -1 || RoundComplete(t) {
        r, e := AdvanceLoosely(t);
        SameSeatsChain(s.players, t.players, r.players);
      } else {
        r, e := t.(current := next), Continues;
      }
    }
  }

  lemma {:induction false} RunKeepsLoose(s: GameState, actions: seq<PlayerAction>) returns (r: GameState, e: Ending)
    requires Loose(s) && LegalRun(s, actions)
    ensures SameSeats(s.players, r.players) && r.board + r.deck == s.board + s.deck
    ensures r.pot == Sum(r.players, Contribution)
    ensures e == Continues ==> Run(s, actions) == r && Loose(r) && (actions == [] || HasMover(r))
    ensures e == ByFold ==> Count(r.players, Unfolded) == 1 && Run(s, actions) == AfterFold(r) && Loose(r)
    ensures e == ByShowdown ==> Payable(r) && Run(s, actions) == AfterShowdown(r)
    decreases |actions|
  {
    hide Loose, Legal, Playing, SameSeats, ApplyAction, AfterShowdown, AfterFold, Payable, Sum, Count;
    if actions == [] {
      r, e := s, Continues;
      LooseItself(s);
    } else {
      r, e := ActionKeepsLoose(s, actions[0]);
      var t := ApplyAction(s, actions[0]);
      if e == Continues {
        var r0 := r;
        r, e := RunKeepsLoose(t, actions[1..]);
        SameSeatsChain(s.players, r0.players, r.players);
      } else {
        Finished(r, e, t);
        HandsEnd(t, actions[1..]);
      }
    }
  }

  lemma LooseItself(s: GameState)
    requires Loose(s)
    ensures SameSeats(s.players, s.players) && s.pot == Sum(s.players, Contribution)
  {
  }

  lemma Finished(r: GameState, e: Ending, t: GameState)
    requires e == ByFold ==> Count(r.players, Unfolded) == 1 && t == AfterFold(r)
    requires e == ByShowdown ==> Payable(r) && t == AfterShowdown(r)
    ensures e != Continues ==> t.phase == HandComplete && t.pot == 0
  {
    hide SortEntries, Evaluations, AllPayments, Credited, Dedupe, SidePots, Sum, Count;
  }

  lemma NewHandIsLoose(players: seq<Player>, dealer: nat, blinds: Blinds, deck: seq<Card>)
    requires Deal(players, blinds, deck)
    ensures Loose(NewHand(players, dealer, blinds, deck))
    ensures SameStart(players, NewHand(players, dealer, blinds, deck).players)
  {
    hide DealOrder, SeatAfter, Sum, Count, NewHand, NextFrom, DistinctIds;
    SeatsInRange(dealer, |players|);
    NewSeats(players, dealer, blinds, deck);
    NewTable(players, dealer, blinds, deck);
    NewRest(players, dealer, blinds, deck);
  }

  // ----- Nobody is left waiting -----

  /** The first actor can act if anybody can, and is -1 if nobody can. */
  lemma FirstActor(players: seq<Player>, dealer: nat, blinds: Blinds, deck: seq<Card>)
    requires Deal(players, blinds, deck)
    ensures var s := NewHand(players, dealer, blinds, deck);
            if SomeoneLeft(players, dealer, blinds) then HasMover(s) else s.current == -1
  {
    hide NewHand, SeatAfter, NextFrom;
    var s := NewHand(players, dealer, blinds, deck);
    var bb := SeatAfter(dealer, 2, |players|);
    SeatsInRange(dealer, |players|);
    NewSeats(players, dealer, blinds, deck);
    WhoCanAct(players, dealer, blinds, deck);
    NextExists(s.players, bb);
    NextCanAct(s.players, bb, 1);
  }

  /** An unfinished run of a hand has a player to act who can, unless nobody could to begin
      with and nothing has happened. */
  lemma RunHasMover(players: seq<Player>, dealer: nat, blinds: Blinds, deck: seq<Card>, actions: seq<PlayerAction>)
    requires Deal(players, blinds, deck)
    requires LegalRun(NewHand(players, dealer, blinds, deck), actions)
    ensures var t := Run(NewHand(players, dealer, blinds, deck), actions);
            || t.phase == HandComplete
            || (HasMover(t) && DistinctIds(t.players))
            || (actions == [] && t.current == -1 && !SomeoneLeft(players, dealer, blinds))
  {
    hide NewHand, LegalRun, Run, Payable, AfterShowdown, AfterFold, Sum, Count, HasMover, SameSeats,
      SomeoneLeft, LooseSeat, DistinctIds;
    var s := NewHand(players, dealer, blinds, deck);
    NewHandIsLoose(players, dealer, blinds, deck);
    FirstActor(players, dealer, blinds, deck);
    var r, e := RunKeepsLoose(s, actions);
    Finished(r, e, Run(s, actions));
    if actions == [] {
      EmptyRun(s);
    }
  }

  lemma EmptyRun(s: GameState)
    ensures LegalRun(s, []) && Run(s, []) == s
  {
  }

  // ----- Chips -----

  lemma {:induction false} StartingChips(players: seq<Player>, ps: seq<Player>)
    requires SameStart(players, ps)
    ensures Sum(ps, Stack) + Sum(ps, Contribution) == Sum(players, Stack)
  {
    if ps != [] {
      StartingChips(players[..|players| - 1], ps[..|ps| - 1]);
    }
  }

  lemma FoldConserves(r: GameState)
    requires Count(r.players, Unfolded) > 0
    ensures Chips(AfterFold(r)) == Chips(r)
  {
    var w := FirstUnfolded(r.players);
    var p := r.players[w];
    SumUpdate(r.players, w, p.(stack := p.stack + r.pot), Stack);
  }

  /** From every deal and after every run of legal actions, the stacks and the pot hold what
      the players brought, except that a showdown loses exactly its rounding. */
  lemma HandConservesChips(players: seq<Player>, dealer: nat, blinds: Blinds, deck: seq<Card>,
                           actions: seq<PlayerAction>) returns (r: GameState, e: Ending)
    requires Deal(players, blinds, deck)
    requires LegalRun(NewHand(players, dealer, blinds, deck), actions)
    ensures var t := Run(NewHand(players, dealer, blinds, deck), actions);
            && (e == Continues ==> t == r && Loose(t) && Chips(t) == Sum(players, Stack))
            && (e == ByFold ==> Count(r.players, Unfolded) == 1 && t == AfterFold(r) && Loose(r))
            && (e == ByFold ==> Chips(t) == Sum(players, Stack))
            && (e == ByShowdown ==> Payable(r) && t == AfterShowdown(r))
            && (e == ByShowdown ==> Chips(t) == Sum(players, Stack) - Dust(r))
            && (e != Continues ==> t.phase == HandComplete && t.pot == 0)
            && (e == Continues ==> t.phase != HandComplete && (actions == [] || HasMover(t)))
    ensures SameStart(players, r.players)
  {
    hide NewHand, Loose, LegalRun, Run, SameStart, SameSeats, Dust, Payable, AfterShowdown, AfterFold, Sum, Count;
    var s := NewHand(players, dealer, blinds, deck);
    NewHandIsLoose(players, dealer, blinds, deck);
    r, e := RunKeepsLoose(s, actions);
    StartChain(players, s.players, r.players);
    StartingChips(players, r.players);
    if e == ByFold {
      FoldConserves(r);
    } else if e == ByShowdown {
      PayableBoard(r);
      ShowdownConserves(r);
    }
    Finished(r, e, Run(s, actions));
    Unfinished(r);
  }

  lemma Unfinished(r: GameState)
    ensures Loose(r) ==> r.phase != HandComplete
  {
  }

  /** How a hand ended, with r the last state before the pot was paid out, and what that cost. */
  ghost predicate Cost(t: GameState, r: GameState, e: Ending, loss: int) {
    match e
    case ByFold => Count(r.players, Unfolded) == 1 && t == AfterFold(r) && loss == 0
    case ByShowdown => Payable(r) && t == AfterShowdown(r) && loss == Dust(r)
    case Continues => t == r && Loose(t) && loss == t.pot
  }

  lemma PayableBoard(r: GameState)
    requires Payable(r)
    ensures |r.board| == 5
  {
  }

  /** Nobody is ever in debt. */
  lemma StacksStayWhole(players: seq<Player>, dealer: nat, blinds: Blinds, deck: seq<Card>,
                        actions: seq<PlayerAction>)
    requires Deal(players, blinds, deck)
    requires LegalRun(NewHand(players, dealer, blinds, deck), actions)
    ensures var t := Run(NewHand(players, dealer, blinds, deck), actions);
            && |t.players| == |players|
            && forall i :: 0 <= i < |players| ==> t.players[i].id == players[i].id && 0 <= t.players[i].stack
  {
    hide NewHand, LegalRun, Run, Dust, Payable, AfterShowdown, AfterFold, Sum, Count;
    var r, e := HandConservesChips(players, dealer, blinds, deck, actions);
    if e == ByShowdown {
      ShowdownPaysNobodyLess(r);
    } else if e == ByFold {
      FoldPaysNobodyLess(r);
    } else {
      assert forall i :: 0 <= i < |players| ==> LooseSeat(r.players[i]);
    }
  }

  lemma FoldPaysNobodyLess(r: GameState)
    requires Loose(r) && Count(r.players, Unfolded) == 1
    ensures |AfterFold(r).players| == |r.players|
    ensures forall i :: 0 <= i < |r.players| ==>
              AfterFold(r).players[i].id == r.players[i].id && 0 <= AfterFold(r).players[i].stack
  {
    hide Count;
    forall i | 0 <= i < |r.players| ensures 0 <= Contribution(r.players[i]) && 0 <= r.players[i].stack {
      assert LooseSeat(r.players[i]);
    }
    SumNonNegative(r.players, Contribution);
  }

  lemma ShowdownPaysNobodyLess(r: GameState)
    requires Payable(r)
    ensures |AfterShowdown(r).players| == |r.players|
    ensures forall i :: 0 <= i < |r.players| ==>
              AfterShowdown(r).players[i].id == r.players[i].id && 0 <= AfterShowdown(r).players[i].stack
  {
    hide SortEntries, Evaluations, AllPayments, Dedupe, PaidTo, Count, Sum, SidePots;
    forall i | 0 <= i < |r.players| ensures 0 <= AfterShowdown(r).players[i].stack {
      assert r.players[i] in r.players;
      PrizeIsPaid(r, i);
      PaymentsAreNonNegative(r, r.players[i].id);
    }
  }

  lemma PaymentsAreNonNegative(r: GameState, id: string)
    requires Payable(r)
    ensures 0 <= PaidTo(AllPayments(r, Ranking(r)), id)
  {
    hide Ranking, SidePots, Winners, Split, SidePayments, PaidTo, Payable;
    PayableBoard(r);
    var es := Ranking(r);
    if r.sidePots == [] {
      SinglePaymentsAreNonNegative(r, id);
    } else {
      PotPaymentsAreNonNegative(r, id);
      var leftover := r.pot - Sum(r.sidePots, Amount);
      PaidConcat(SidePayments(r.sidePots, es), if leftover > 0 then Split(leftover, Winners(es)) else [], id);
      NothingPaid(id);
    }
  }

  lemma SinglePaymentsAreNonNegative(r: GameState, id: string)
    requires Payable(r) && r.sidePots == []
    ensures 0 <= PaidTo(Split(r.pot, Winners(Ranking(r))), id)
  {
    hide Ranking, SidePots, Winners, Split, PaidTo, Count, BestFirst, Rated, OneEach, Sum;
    RankingFacts(r);
    WinnersAreUnbeaten(Ranking(r));
    PotCovers(r);
    SplitFacts(r.pot, Winners(Ranking(r)), id);
  }

  lemma PotPaymentsAreNonNegative(r: GameState, id: string)
    requires Payable(r) && r.sidePots != []
    ensures 0 <= PaidTo(SidePayments(r.sidePots, Ranking(r)), id)
    ensures var leftover := r.pot - Sum(r.sidePots, Amount);
            leftover > 0 ==> 0 <= PaidTo(Split(leftover, Winners(Ranking(r))), id)
  {
    hide Ranking, SidePots, Winners, Split, SidePayments, PaidTo, Count, BestFirst, Rated, OneEach, Reach, Sum;
    RankingFacts(r);
    WinnersAreUnbeaten(Ranking(r));
    LeftoverIsFoldedMoney(r);
    SidePaymentsBounded(r.sidePots, Ranking(r), id);
    SplitFacts(r.pot - Sum(r.sidePots, Amount), Winners(Ranking(r)), id);
  }

  // ----- Cards -----

  /** Where the cards come from: the k-th player served holds the k-th pair of the deck, and
      the board is what follows the last pair, in order. No card is ever dealt twice. */
  lemma CardsComeOffTheTop(players: seq<Player>, dealer: nat, blinds: Blinds, deck: seq<Card>,
                           actions: seq<PlayerAction>)
    requires Deal(players, blinds, deck)
    requires LegalRun(NewHand(players, dealer, blinds, deck), actions)
    ensures var n, t := |players|, Run(NewHand(players, dealer, blinds, deck), actions);
            && |t.players| == n
            && (forall k :: 0 <= k < n ==>
                  t.players[SeatAfter(dealer, 1 + k, n)].hole == deck[2 * k..2 * k + 2])
            && t.board + t.deck == deck[2 * n..]
  {
    hide LegalRun, Run, Payable, Loose, Sum, Count, DealOrder, NewHand, SeatAfter, AfterShowdown,
      AfterFold, NextFrom, Post, BoardFits;
    var n, s := |players|, NewHand(players, dealer, blinds, deck);
    NewHandIsLoose(players, dealer, blinds, deck);
    NewSeats(players, dealer, blinds, deck);
    NewRest(players, dealer, blinds, deck);
    var r, e := RunKeepsLoose(s, actions);
    var t := Run(s, actions);
    if e == ByShowdown {
      PayableBoard(r);
      ShowdownKeepsCards(r);
    } else if e == ByFold {
      FoldKeepsCards(r);
    }
    SeatsInRange(dealer, n);
    NewHoles(players, dealer, blinds, deck);
    forall k | 0 <= k < n
      ensures t.players[SeatAfter(dealer, 1 + k, n)].hole == deck[2 * k..2 * k + 2]
    {
      DealOrderInverts(dealer, k, n);
    }
  }

  lemma NewHoles(players: seq<Player>, dealer: nat, blinds: Blinds, deck: seq<Card>)
    requires Deal(players, blinds, deck)
    ensures var n, s := |players|, NewHand(players, dealer, blinds, deck);
            && |s.players| == n
            && forall i :: 0 <= i < n ==>
                 var k := DealOrder(dealer, i, n);
                 0 <= k < n && s.players[i].hole == deck[2 * k..2 * k + 2]
  {
    hide DealOrder, NewHand, SeatAfter;
    DealOrderBounds(dealer, |players|);
    NewSeats(players, dealer, blinds, deck);
  }

  lemma FoldKeepsCards(r: GameState)
    requires Count(r.players, Unfolded) > 0
    ensures var t := AfterFold(r);
            && t.board == r.board && t.deck == r.deck && |t.players| == |r.players|
            && forall i :: 0 <= i < |r.players| ==> t.players[i].hole == r.players[i].hole
  {
    hide FirstUnfolded;
  }

  lemma ShowdownKeepsCards(r: GameState)
    requires |r.board| == 5
    ensures var t := AfterShowdown(r);
            && t.board == r.board && t.deck == r.deck && |t.players| == |r.players|
            && forall i :: 0 <= i < |r.players| ==> t.players[i].hole == r.players[i].hole
  {
    hide SortEntries, Evaluations, AllPayments, Dedupe, PaidTo;
  }
}
