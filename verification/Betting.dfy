// The betting invariant the engine and the side pots rely on, kept by every legal action
// (ghosts/rdc-poker/src/gameEngine.ts:166-351).
module Betting {
  import opened Seqs
  import opened PokerTypes
  import opened Pot
  import opened Engine

  /** One seat in a street whose bet stands at bet, when level is what every player still able
      to act put in on the finished streets. */
  ghost predicate SeatOk(p: Player, bet: int, level: int) {
    && 0 <= p.stack
    && (p.allIn <==> p.stack == 0)
    && 0 <= p.bet <= bet
    && 0 <= p.contributed - p.bet <= level
    && (p.bet > 0 || CanAct(p) ==> p.contributed - p.bet == level)
    && (p.allIn ==> p.contributed > 0)
  }

  ghost predicate SeatsOk(ps: seq<Player>, bet: int, level: int) {
    forall i :: 0 <= i < |ps| ==> SeatOk(ps[i], bet, level)
  }

  /** What every player able to act contributed on the streets before this one. */
  function Level(s: GameState): int
    requires 0 <= s.current < |s.players|
  {
    s.players[s.current].contributed - s.players[s.current].bet
  }

  /** The table part of the invariant, for a given level. */
  ghost predicate TableOk(s: GameState, level: int) {
    && DistinctIds(s.players)
    && SeatsOk(s.players, s.currentBet, level)
    && 0 <= level && 0 < level + s.currentBet
    && 0 < s.minRaise && 0 < s.blinds.big
    && s.pot == Sum(s.players, Contribution)
    && (s.sidePots != [] ==> Count(s.players, LiveAllIn) > 0)
  }

  ghost predicate EveryoneActed(s: GameState) {
    forall i :: 0 <= i < |s.players| && CanAct(s.players[i]) ==> Acted(s, s.players[i].id)
  }

  /** The invariant of an unfinished hand. */
  ghost predicate Inv(s: GameState) {
    && Playing(s)
    && 0 <= s.current < |s.players|
    && CanAct(s.players[s.current])
    && TableOk(s, Level(s))
    && (s.phase != PreFlop ==> EveryoneActed(s))
  }

  /** What parseAction lets through for the player to act. */
  predicate Legal(s: GameState, a: PlayerAction)
    requires 0 <= s.current < |s.players|
  {
    var av := Available(s, s.players[s.current].id);
    && a.playerId == s.players[s.current].id
    && match a.action
       case Fold => av.canFold && a.amount == 0
       case Check => av.canCheck && a.amount == 0
       case Call => (av.canCall || av.canAllIn) && a.amount == av.callAmount
       case Raise => av.canRaise && av.minRaise <= a.amount <= av.maxRaise
       case AllIn => av.canAllIn && a.amount == av.allInAmount
  }

  lemma IndexOfDistinct(ps: seq<Player>, i: nat)
    requires DistinctIds(ps) && i < |ps|
    ensures IndexOf(ps, ps[i].id) == i
  {
    assert ps[i] in ps;
    var k := IndexOf(ps, ps[i].id);
    assert k >= 0;
  }

  /** Whoever is to act always has an action, so no unfinished hand is stuck. */
  lemma SomeActionIsLegal(s: GameState)
    requires Inv(s)
    ensures Legal(s, PlayerAction(s.players[s.current].id, Fold, 0))
    ensures Legal(s, PlayerAction(s.players[s.current].id, AllIn, s.players[s.current].stack))
  {
    IndexOfDistinct(s.players, s.current);
  }

  // ----- What an action does to the table -----

  /** The same people with the same cards and the same chips, counting those in the middle. */
  ghost predicate SameSeats(ps: seq<Player>, qs: seq<Player>) {
    && |ps| == |qs|
    && forall i :: 0 <= i < |ps| ==>
         && qs[i].id == ps[i].id
         && qs[i].hole == ps[i].hole
         && qs[i].stack + qs[i].contributed == ps[i].stack + ps[i].contributed
  }

  /** One seat's move within a street: chips only go to the middle, and the table's bet only
      rises to the mover's. */
  ghost predicate Moved(s: GameState, a: PlayerAction, t: GameState)
    requires 0 <= s.current < |s.players|
  {
    && |t.players| == |s.players|
    && SeatMoved(s.players[s.current], t.players[s.current], t.pot - s.pot)
    && SeatOk(t.players[s.current], t.currentBet, Level(s))
    && t.players == s.players[s.current := t.players[s.current]]
    && t.currentBet >= s.currentBet && t.minRaise > 0
    && t.history == s.history + [a]
    && t.phase == s.phase && t.board == s.board && t.deck == s.deck && t.sidePots == s.sidePots
    && t.current == s.current && t.dealer == s.dealer && t.blinds == s.blinds
  }

  ghost predicate SeatMoved(p: Player, q: Player, paid: int) {
    && q.id == p.id && q.hole == p.hole && q.bigBlind == p.bigBlind
    && q.contributed == p.contributed + paid && q.bet == p.bet + paid && q.stack == p.stack - paid
    && paid >= 0
    && (p.allIn ==> q.allIn)
  }

  /** Paying in at most the whole stack keeps a seat in order under any bet that covers it. */
  lemma PayInOk(p: Player, amount: int, bet: int, newBet: int, level: int)
    requires SeatOk(p, bet, level) && CanAct(p)
    requires 0 <= amount <= p.stack && bet <= newBet && p.bet + amount <= newBet
    ensures SeatOk(PayIn(p, amount), newBet, level)
    ensures SeatMoved(p, PayIn(p, amount), amount)
  {
  }

  /** A player able to act is below the bet with chips in hand; folding or checking pays nothing. */
  lemma StayOk(p: Player, bet: int, level: int)
    requires SeatOk(p, bet, level) && CanAct(p)
    ensures 0 <= p.bet <= bet && 0 < p.stack
    ensures SeatMoved(p, p, 0)
    ensures SeatOk(p.(folded := true), bet, level) && SeatMoved(p, p.(folded := true), 0)
  {
  }

  lemma LegalSeat(s: GameState, a: PlayerAction)
    requires Inv(s) && Legal(s, a)
    ensures IndexOf(s.players, a.playerId) == s.current
    ensures Moved(s, a, Act(s, a))
  {
    hide Sum, Count, Playing, EveryoneActed, IndexOf, DistinctIds, PayIn, SeatOk, SeatMoved;
    IndexOfDistinct(s.players, s.current);
    var p := s.players[s.current];
    var level := Level(s);
    assert SeatOk(p, s.currentBet, level);
    StayOk(p, s.currentBet, level);
    match a.action {
      case Fold =>
      case Check =>
        assert s.players == s.players[s.current := p];
      case Call =>
        PayInOk(p, Min(s.currentBet - p.bet, p.stack), s.currentBet, s.currentBet, level);
      case Raise =>
        PayInOk(p, a.amount - p.bet, s.currentBet, a.amount, level);
      case AllIn =>
        PayInOk(p, p.stack, s.currentBet, Max(s.currentBet, p.bet + p.stack), level);
    }
  }

  lemma MovedKeepsCounts(s: GameState, a: PlayerAction, t: GameState)
    requires 0 <= s.current < |s.players| && Moved(s, a, t)
    requires CanAct(s.players[s.current])
    ensures Sum(t.players, Contribution) - t.pot == Sum(s.players, Contribution) - s.pot
    ensures Count(t.players, LiveAllIn) >= Count(s.players, LiveAllIn)
    ensures Count(t.players, Unfolded) >= Count(s.players, Unfolded) - 1
  {
    SumUpdate(s.players, s.current, t.players[s.current], Contribution);
    CountUpdate(s.players, s.current, t.players[s.current], Unfolded);
    CountUpdate(s.players, s.current, t.players[s.current], LiveAllIn);
  }

  lemma MovedKeepsSeats(s: GameState, a: PlayerAction, t: GameState)
    requires Inv(s) && Moved(s, a, t)
    ensures SeatsOk(t.players, t.currentBet, Level(s)) && DistinctIds(t.players)
    ensures SameSeats(s.players, t.players)
  {
    hide Sum, Count, Playing, EveryoneActed;
    forall i | 0 <= i < |t.players| ensures SeatOk(t.players[i], t.currentBet, Level(s)) {
      assert SeatOk(s.players[i], s.currentBet, Level(s));
    }
    forall i, j | 0 <= i < j < |t.players| ensures t.players[i].id != t.players[j].id {
      assert s.players[i].id != s.players[j].id;
    }
  }

  lemma MovedKeepsActors(s: GameState, a: PlayerAction, t: GameState)
    requires 0 <= s.current < |s.players| && Moved(s, a, t)
    requires a.playerId == s.players[s.current].id
    ensures Acted(t, a.playerId)
    ensures forall id :: Acted(s, id) ==> Acted(t, id)
    ensures forall id :: Acted(t, id) ==> Acted(s, id) || id == a.playerId
    ensures EveryoneActed(s) ==> EveryoneActed(t)
  {
    assert t.history[|s.history|].playerId == a.playerId;
    forall id | Acted(s, id) ensures Acted(t, id) {
      var k :| 0 <= k < |s.history| && s.history[k].playerId == id;
      assert t.history[k] == s.history[k];
    }
    if EveryoneActed(s) {
      forall i | 0 <= i < |t.players| && CanAct(t.players[i]) ensures Acted(t, t.players[i].id) {
        if i != s.current {
          assert CanAct(s.players[i]);
        }
      }
    }
  }

  /** A legal action keeps the table part of the invariant and everyone's chips. */
  lemma ActKeepsTable(s: GameState, a: PlayerAction)
    requires Inv(s) && Legal(s, a)
    ensures IndexOf(s.players, a.playerId) == s.current
    ensures TableOk(Act(s, a), Level(s))
    ensures SameSeats(s.players, Act(s, a).players)
    ensures BoardFits(Act(s, a)) && Moved(s, a, Act(s, a))
    ensures Count(Act(s, a).players, Unfolded) >= 1
    ensures s.phase != PreFlop ==> EveryoneActed(Act(s, a))
    ensures Acted(Act(s, a), a.playerId)
  {
    LegalSeat(s, a);
    hide Act, Legal, Available, IndexOf, Count, Sum, SeatsOk, SeatOk, DistinctIds, EveryoneActed, Acted, SameSeats;
    var t := Act(s, a);
    MovedKeepsCounts(s, a, t);
    MovedKeepsSeats(s, a, t);
    assert a.playerId == s.players[s.current].id by {
      MovedBy(s, a);
    }
    MovedKeepsActors(s, a, t);
  }

  lemma MovedBy(s: GameState, a: PlayerAction)
    requires 0 <= s.current < |s.players| && Legal(s, a)
    ensures a.playerId == s.players[s.current].id
  {
  }

  // ----- What an action achieves -----

  /** Whoever does not fold has met the table's bet afterwards, or has nothing left; and the
      rest of the table is as it was. */
  lemma ActorMeetsBet(s: GameState, a: PlayerAction)
    requires Inv(s) && Legal(s, a)
    ensures var t := Act(s, a);
            && |t.players| == |s.players|
            && (a.action == Fold ==> t.players[s.current] == s.players[s.current].(folded := true))
            && (a.action != Fold ==> var q := t.players[s.current];
                                     !q.folded && (q.bet == t.currentBet || q.allIn))
            && (forall i :: 0 <= i < |s.players| && i != s.current ==> t.players[i] == s.players[i])
  {
    hide Sum, Count, Playing, EveryoneActed, IndexOf, DistinctIds, SeatsOk;
    IndexOfDistinct(s.players, s.current);
    ActorSeat(s);
  }

  lemma ActorSeat(s: GameState)
    requires Inv(s)
    ensures SeatOk(s.players[s.current], s.currentBet, Level(s))
  {
  }

  /** The bet to meet never falls. A raise lifts it by at least the minimum and sets the next
      minimum to its own size; only an all-in can make the minimum smaller. */
  lemma MinimumRaise(s: GameState, a: PlayerAction)
    requires Inv(s) && Legal(s, a)
    ensures var t := Act(s, a);
            && t.currentBet >= s.currentBet
            && (a.action == Raise ==> t.currentBet == a.amount && t.minRaise == a.amount - s.currentBet >= s.minRaise)
            && (t.minRaise < s.minRaise ==> a.action == AllIn)
            && (t.currentBet > s.currentBet ==> t.minRaise == t.currentBet - s.currentBet)
            && (t.currentBet == s.currentBet ==> t.minRaise == s.minRaise)
  {
    hide Sum, Count, Playing, EveryoneActed, IndexOf, DistinctIds, SeatsOk;
    IndexOfDistinct(s.players, s.current);
    ActorSeat(s);
  }

  /** A big blind who can act and has not keeps the street open, whatever the bet: the special
      case for it never decides. */
  lemma BigBlindGetsItsOption(t: GameState, level: int)
    requires TableOk(t, level) && Count(t.players, Unfolded) >= 2
    requires var b := BigBlindIndex(t.players);
             b >= 0 && !t.players[b].folded && !t.players[b].allIn && !Acted(t, t.players[b].id)
    ensures !RoundComplete(t)
  {
    hide Sum, DistinctIds, Count;
    var b := BigBlindIndex(t.players);
    assert SeatOk(t.players[b], t.currentBet, level);
    CountBounds(t.players, CanAct);
  }

  // ----- The menu, told by what its actions do -----

  /** What the actor pays, and what stays in his stack. */
  ghost predicate Pays(s: GameState, t: GameState, amount: int)
    requires 0 <= s.current < |s.players|
  {
    && |t.players| == |s.players|
    && var p, q := s.players[s.current], t.players[s.current];
       && q.bet == p.bet + amount && q.stack == p.stack - amount && q.contributed == p.contributed + amount
       && t.pot == s.pot + amount
  }

  /** Every legal action, chip by chip: a fold and a check pay nothing; a call pays up to the bet, as
      far as the stack goes; a raise brings the bet to its amount; an all-in pays the whole stack; and
      whoever is left without chips is all-in. */
  lemma ActionEffects(s: GameState, a: PlayerAction)
    requires Inv(s) && Legal(s, a)
    ensures IndexOf(s.players, a.playerId) == s.current
    ensures var t, p := Act(s, a), s.players[s.current];
            && (a.action in {Fold, Check} ==> Pays(s, t, 0) && t.currentBet == s.currentBet)
            && (a.action == Call ==> Pays(s, t, Min(s.currentBet - p.bet, p.stack)) && t.currentBet == s.currentBet)
            && (a.action == Raise ==> Pays(s, t, a.amount - p.bet) && t.currentBet == a.amount)
            && (a.action == AllIn ==> Pays(s, t, p.stack) && t.currentBet == Max(s.currentBet, p.bet + p.stack))
            && |t.players| == |s.players|
            && (t.players[s.current].folded <==> a.action == Fold)
            && (t.players[s.current].allIn <==> t.players[s.current].stack == 0)
  {
    hide Sum, Count, Playing, EveryoneActed, IndexOf, DistinctIds, SeatsOk;
    IndexOfDistinct(s.players, s.current);
    ActorSeat(s);
  }

  /** The call on offer, whether or not it takes the last chips. */
  function MenuCall(s: GameState): PlayerAction
    requires 0 <= s.current < |s.players|
  {
    var id := s.players[s.current].id;
    PlayerAction(id, Call, Available(s, id).callAmount)
  }

  function MenuRaise(s: GameState, amount: int): PlayerAction
    requires 0 <= s.current < |s.players|
  {
    PlayerAction(s.players[s.current].id, Raise, amount)
  }

  function MenuAllIn(s: GameState): PlayerAction
    requires 0 <= s.current < |s.players|
  {
    var id := s.players[s.current].id;
    PlayerAction(id, AllIn, Available(s, id).allInAmount)
  }

  /** What the actor is offered: a check when calling would cost nothing; a call when it costs
      something and leaves chips; an all-in always; a raise when going all-in would lift the bet by the
      minimum at least, and then from that minimum to the all-in itself. */
  lemma MenuMeans(s: GameState)
    requires Inv(s)
    ensures var p, av := s.players[s.current], Available(s, s.players[s.current].id);
            && Legal(s, MenuCall(s)) && Legal(s, MenuAllIn(s)) && IndexOf(s.players, p.id) == s.current
            && var call, shove := Act(s, MenuCall(s)), Act(s, MenuAllIn(s));
               && Pays(s, call, av.callAmount) && Pays(s, shove, av.allInAmount)
               && shove.players[s.current].stack == 0
               && av.canFold && av.canAllIn
               && (av.canCheck <==> call.pot == s.pot)
               && (av.canCall <==> call.pot > s.pot && !call.players[s.current].allIn)
               && (av.canRaise <==> shove.currentBet >= s.currentBet + s.minRaise)
  {
    hide Sum, Count, Playing, EveryoneActed, DistinctIds, SeatsOk;
    IndexOfDistinct(s.players, s.current);
    ActorSeat(s);
  }

  /** The limits of a raise: the least lifts the bet by exactly the minimum, and the most takes the
      whole stack. */
  lemma RaiseLimits(s: GameState)
    requires Inv(s) && Available(s, s.players[s.current].id).canRaise
    ensures var av := Available(s, s.players[s.current].id);
            && Legal(s, MenuRaise(s, av.minRaise)) && Legal(s, MenuRaise(s, av.maxRaise))
            && Act(s, MenuRaise(s, av.minRaise)).currentBet == s.currentBet + s.minRaise
            && Act(s, MenuRaise(s, av.maxRaise)) == Act(s, MenuAllIn(s)).(history := s.history + [MenuRaise(s, av.maxRaise)])
  {
    hide Sum, Count, Playing, EveryoneActed, DistinctIds, SeatsOk;
    IndexOfDistinct(s.players, s.current);
    ActorSeat(s);
  }

  /** Nobody else is offered anything: neither a stranger nor a player who folded or is all-in. */
  lemma NothingOffered(s: GameState, id: string)
    requires DistinctIds(s.players)
    requires forall i :: 0 <= i < |s.players| && s.players[i].id == id ==> s.players[i].folded || s.players[i].allIn
    ensures var av := Available(s, id);
            !av.canFold && !av.canCheck && !av.canCall && !av.canRaise && !av.canAllIn
  {
    var i := IndexOf(s.players, id);
  }

  // ----- Closing a street -----

  /** Betting on the street is over: every player able to act has met the bet. */
  ghost predicate BetsMet(s: GameState) {
    forall i :: 0 <= i < |s.players| && CanAct(s.players[i]) ==> s.players[i].bet == s.currentBet
  }

  /** Why a street closes: nobody can act, or everyone who can has acted and met the bet. */
  lemma StreetCloses(t: GameState, from: nat)
    requires t.players != [] && Count(t.players, Unfolded) >= 2
    requires NextToAct(t.players, from) == -1 || RoundComplete(t)
    ensures BetsMet(t) && EveryoneActed(t)
  {
    CountBounds(t.players, CanAct);
    if NextToAct(t.players, from) == -1 {
      NobodyNext(t.players, from, 1);
    }
  }

  /** A street closes exactly when every player able to act has met the bet and acted in the
      hand: on whichever street. */
  lemma StreetClosesExactly(t: GameState, from: nat, level: int)
    requires TableOk(t, level) && Count(t.players, Unfolded) >= 2 && t.players != []
    ensures NextToAct(t.players, from) == -1 || RoundComplete(t) <==> BetsMet(t) && EveryoneActed(t)
  {
    hide Sum, DistinctIds, NextFrom, Count, SeatsOk, BigBlindHasOption;
    if NextToAct(t.players, from) == -1 || RoundComplete(t) {
      StreetCloses(t, from);
    }
    if BetsMet(t) && EveryoneActed(t) {
      BlindHasActed(t, level);
    }
  }

  lemma BlindHasActed(t: GameState, level: int)
    requires TableOk(t, level) && EveryoneActed(t)
    ensures !BigBlindHasOption(t)
  {
    hide Sum, DistinctIds, Count;
    var b := BigBlindIndex(t.players);
    if b >= 0 {
      assert SeatOk(t.players[b], t.currentBet, level);
    }
  }

  /** Going once round the table finds every player. */
  lemma {:induction false} NobodyNext(ps: seq<Player>, from: nat, k: nat)
    requires ps != [] && 1 <= k <= |ps| + 1 && NextFrom(ps, from, k) == -1
    ensures forall j :: k <= j <= |ps| ==> !CanAct(ps[SeatAfter(from, j, |ps|)])
    ensures k == 1 ==> forall i :: 0 <= i < |ps| ==> !CanAct(ps[i])
    decreases |ps| - k
  {
    if k <= |ps| {
      NobodyNext(ps, from, k + 1);
    }
    if k == 1 {
      forall i | 0 <= i < |ps| ensures !CanAct(ps[i]) {
        SeatReached(from, i, |ps|);
        assert DealOrder(from, i, |ps|) < |ps|;
        assert i == SeatAfter(from, 1 + DealOrder(from, i, |ps|), |ps|);
      }
    }
  }

  lemma {:induction false} NextCanAct(ps: seq<Player>, from: nat, k: nat)
    requires ps != [] && 1 <= k <= |ps| + 1
    ensures var i := NextFrom(ps, from, k);
            i != -1 ==> 0 <= i < |ps| && CanAct(ps[i])
    decreases |ps| - k
  {
    if k <= |ps| {
      NextCanAct(ps, from, k + 1);
    }
  }

  /** Closing a street folds its bets into the level. */
  lemma CloseKeepsTable(t: GameState, level: int)
    requires TableOk(t, level) && BetsMet(t)
    ensures TableOk(CloseRound(t), level + t.currentBet)
    ensures SameSeats(t.players, CloseRound(t).players)
    ensures Matched(CloseRound(t).players)
    ensures Count(CloseRound(t).players, LiveAllIn) > 0 ==> CloseRound(t).sidePots == SidePots(CloseRound(t).players)
    ensures Count(CloseRound(t).players, LiveAllIn) == 0 ==> CloseRound(t).sidePots == []
  {
    hide SidePots;
    var r := CloseRound(t);
    CountPointwise(r.players, t.players, LiveAllIn, LiveAllIn);
    SumPointwise(r.players, t.players, Contribution, Contribution);
    forall i | 0 <= i < |r.players| ensures SeatOk(r.players[i], 0, level + t.currentBet) {
      assert SeatOk(t.players[i], t.currentBet, level);
    }
  }

  /** The state a showdown is settled from. */
  ghost predicate ShowdownReady(r: GameState) {
    && |r.board| == 5
    && r.players != []
    && DistinctIds(r.players)
    && Matched(r.players)
    && Count(r.players, Unfolded) >= 2
    && r.pot == Sum(r.players, Contribution)
    && r.sidePots == (if Count(r.players, LiveAllIn) > 0 then SidePots(r.players) else [])
    && (forall i :: 0 <= i < |r.players| ==> 0 <= r.players[i].stack)
  }

  /** Closing the last street, or a street nobody can bet on, settles the hand. */
  lemma CloseToShowdown(t: GameState, level: int)
    requires BoardFits(t) && TableOk(t, level) && BetsMet(t)
    requires Count(t.players, Unfolded) >= 2
    requires Count(t.players, CanAct) < 2 || t.phase == River
    ensures ShowdownReady(FullBoard(CloseRound(t)))
    ensures AdvancePhase(t) == AfterShowdown(FullBoard(CloseRound(t)))
    ensures FullBoard(CloseRound(t)).board + FullBoard(CloseRound(t)).deck == t.board + t.deck
  {
    hide AdvancePhase, SidePots, AfterShowdown, ShowdownReady, Sum, Count, SeatsOk, BetsMet, FullBoard, TableOk;
    CountBounds(t.players, Unfolded);
    CloseKeepsTable(t, level);
    UnfoldedUnchanged(t.players);
    ClosesWithBoard(t);
    ReadyForShowdown(FullBoard(CloseRound(t)), CloseRound(t), level + t.currentBet);
  }

  /** With nobody to bet on, or no street to come, the board is completed and the hands shown. */
  lemma ClosesWithBoard(t: GameState)
    requires BoardFits(t) && t.players != [] && Count(t.players, Unfolded) >= 2
    requires Count(t.players, CanAct) < 2 || t.phase == River
    ensures EnoughCards(CloseRound(t)) && AdvancePhase(t) == AfterShowdown(FullBoard(CloseRound(t)))
    ensures var r := FullBoard(CloseRound(t));
            && r == CloseRound(t).(board := r.board, deck := r.deck)
            && |r.board| == 5 && r.board + r.deck == t.board + t.deck
  {
    hide SidePots, AfterShowdown, Sum, Count, AdvancePhase;
    ClosesDown(t);
    var c := CloseRound(t);
    var k := 5 - |c.board|;
    assert c.deck[..k] + c.deck[k..] == c.deck;
  }

  lemma ClosesDown(t: GameState)
    requires BoardFits(t) && t.players != [] && Count(t.players, Unfolded) >= 2
    requires Count(t.players, CanAct) < 2 || t.phase == River
    ensures EnoughCards(CloseRound(t)) && AdvancePhase(t) == AfterShowdown(FullBoard(CloseRound(t)))
  {
    hide SidePots, AfterShowdown, Sum, Count, StartStreet, FullBoard, DealBoard, ClearBets;
    UnfoldedUnchanged(t.players);
  }

  lemma ReadyForShowdown(r: GameState, c: GameState, level: int)
    requires TableOk(c, level) && Matched(c.players) && c.players != [] && Count(c.players, Unfolded) >= 2
    requires Count(c.players, LiveAllIn) > 0 ==> c.sidePots == SidePots(c.players)
    requires Count(c.players, LiveAllIn) == 0 ==> c.sidePots == []
    requires r == c.(board := r.board, deck := r.deck) && |r.board| == 5
    ensures ShowdownReady(r)
  {
    hide SidePots, Sum, Count, SeatsOk, Matched, DistinctIds;
    SeatsHaveChips(c.players, c.currentBet, level);
  }

  lemma SeatsHaveChips(ps: seq<Player>, bet: int, level: int)
    requires SeatsOk(ps, bet, level)
    ensures forall i :: 0 <= i < |ps| ==> 0 <= ps[i].stack
  {
    forall i | 0 <= i < |ps| ensures 0 <= ps[i].stack {
      assert SeatOk(ps[i], bet, level);
    }
  }

  /** The next street: its board dealt, and the first player able to act after the dealer. */
  function NextStreet(t: GameState): GameState
    requires t.players != [] && BoardFits(t) && t.phase != River
  {
    var c := CloseRound(t);
    var d := DealBoard(c, if t.phase == PreFlop then 3 else 1).(
               phase := if t.phase == PreFlop then Flop else if t.phase == Flop then Turn else River);
    d.(current := NextToAct(d.players, d.dealer))
  }

  /** The next street is opened by the first player after the dealer who can act. */
  lemma FirstAfterDealer(t: GameState) returns (k: nat)
    requires t.players != [] && BoardFits(t) && t.phase != River
    requires exists i :: 0 <= i < |t.players| && CanAct(t.players[i])
    ensures 1 <= k <= |t.players| && NextStreet(t).current == SeatAfter(t.dealer, k, |t.players|) >= 0
    ensures CanAct(t.players[SeatAfter(t.dealer, k, |t.players|)])
    ensures forall j :: 1 <= j < k ==>
              0 <= SeatAfter(t.dealer, j, |t.players|) && !CanAct(t.players[SeatAfter(t.dealer, j, |t.players|)])
  {
    hide SidePots, Count, NextFrom, SeatAfter;
    var ps := ClearBets(t.players);
    var i :| 0 <= i < |t.players| && CanAct(t.players[i]);
    assert CanAct(ps[i]);
    SeatsInRange(t.dealer, |ps|);
    if NextToAct(ps, t.dealer) == -1 {
      NobodyNext(ps, t.dealer, 1);
    }
    NextCanAct(ps, t.dealer, 1);
    k := NextIsFirst(ps, t.dealer, 1);
    assert forall j :: 0 <= j < |ps| ==> (CanAct(ps[j]) <==> CanAct(t.players[j]));
  }

  lemma SeatsInRange(from: nat, n: nat)
    requires n > 0
    ensures forall k: nat :: 0 <= SeatAfter(from, k, n) < n
  {
  }

  /** The turn passes to the first seat that can act, skipping only seats that cannot. */
  lemma {:induction false} NextIsFirst(ps: seq<Player>, from: nat, k: nat) returns (m: nat)
    requires ps != [] && 1 <= k <= |ps| + 1 && NextFrom(ps, from, k) != -1
    ensures k <= m <= |ps| && NextFrom(ps, from, k) == SeatAfter(from, m, |ps|)
    ensures forall i :: k <= i < m ==> !CanAct(ps[SeatAfter(from, i, |ps|)])
    decreases |ps| + 1 - k
  {
    hide SeatAfter, CanAct;
    SeatsInRange(from, |ps|);
    if CanAct(ps[SeatAfter(from, k, |ps|)]) {
      m := k;
    } else {
      m := NextIsFirst(ps, from, k + 1);
    }
  }

  /** Closing any other street opens the next one with the invariant. */
  lemma CloseToStreet(t: GameState, level: int)
    requires BoardFits(t) && TableOk(t, level) && BetsMet(t) && EveryoneActed(t)
    requires Count(t.players, Unfolded) >= 2
    requires Count(t.players, CanAct) >= 2 && t.phase != River && t.players != []
    ensures AdvancePhase(t) == NextStreet(t) && Inv(NextStreet(t))
    ensures NextStreet(t).board + NextStreet(t).deck == t.board + t.deck
  {
    hide SidePots, AfterShowdown, Matched, Sum, Count, DistinctIds, NextFrom;
    CloseKeepsTable(t, level);
    UnfoldedUnchanged(t.players);
    var r := NextStreet(t);
    if r.current == -1 {
      NobodyNext(r.players, r.dealer, 1);
      CountBounds(r.players, CanAct);
    }
    NextCanAct(r.players, r.dealer, 1);
    assert SeatOk(r.players[r.current], 0, level + t.currentBet);
    StreetKeepsActors(t, r);
  }

  lemma StreetKeepsActors(t: GameState, r: GameState)
    requires EveryoneActed(t) && r.history == t.history && r.players == ClearBets(t.players)
    ensures EveryoneActed(r)
  {
    forall i | 0 <= i < |r.players| && CanAct(r.players[i]) ensures Acted(r, r.players[i].id) {
      assert CanAct(t.players[i]) && Acted(t, t.players[i].id);
      var k :| 0 <= k < |t.history| && t.history[k].playerId == t.players[i].id;
      assert r.history[k].playerId == r.players[i].id;
    }
  }

  /** After the flop everybody left has acted at some time in the hand, so one check closes a
      street on which nothing has been bet, however many players could still act. */
  lemma OneCheckCloses(s: GameState, a: PlayerAction)
    requires Inv(s) && s.phase != PreFlop && s.currentBet == 0
    requires Legal(s, a) && a.action == Check
    ensures ApplyAction(s, a) == AdvancePhase(Act(s, a))
    ensures Act(s, a).players == s.players
  {
    hide Sum, DistinctIds, NextFrom, Count, RoundComplete, AdvancePhase, SeatOk;
    ActKeepsTable(s, a);
    var t := Act(s, a);
    assert t.players == s.players && t.currentBet == 0;
    NothingBet(t, Level(s));
    StreetClosesExactly(t, s.current, Level(s));
  }

  lemma NothingBet(t: GameState, level: int)
    requires TableOk(t, level) && t.currentBet == 0
    ensures BetsMet(t)
  {
    hide Sum, DistinctIds, Count;
    forall i | 0 <= i < |t.players| ensures t.players[i].bet == 0 {
      assert SeatOk(t.players[i], t.currentBet, level);
    }
  }

  /** And there is always such a check: every street that opens, with two players or more able
      to act, may close on the first one's. */
  lemma EveryStreetMayCloseAtOnce(t: GameState, level: int)
    requires BoardFits(t) && TableOk(t, level) && BetsMet(t) && EveryoneActed(t)
    requires Count(t.players, Unfolded) >= 2
    requires Count(t.players, CanAct) >= 2 && t.phase != River && t.players != []
    ensures var r := NextStreet(t);
            AdvancePhase(t) == r && Inv(r) && Count(r.players, CanAct) >= 2 && CheckCloses(r)
  {
    hide Inv, CheckCloses, Sum, DistinctIds, NextFrom, Count, RoundComplete, TableOk, EveryoneActed, BetsMet, ApplyAction, SidePots;
    CloseToStreet(t, level);
    UnfoldedUnchanged(t.players);
    FirstCheckCloses(NextStreet(t));
  }

  lemma FirstCheckCloses(r: GameState)
    requires Inv(r) && r.phase != PreFlop && r.currentBet == 0
    ensures CheckCloses(r)
  {
    hide Sum, NextFrom, Count, RoundComplete, EveryoneActed, BetsMet, ApplyAction, SidePots, Act, AdvancePhase, SeatOk;
    var a := PlayerAction(r.players[r.current].id, Check, 0);
    CheckIsLegal(r);
    IndexOfDistinct(r.players, r.current);
    OneCheckCloses(r, a);
  }

  /** The player to act may check, and the street ends. */
  ghost predicate CheckCloses(s: GameState)
    requires Inv(s)
  {
    var a := PlayerAction(s.players[s.current].id, Check, 0);
    && Legal(s, a) && IndexOf(s.players, a.playerId) >= 0
    && Act(s, a).players == s.players
    && ApplyAction(s, a) == AdvancePhase(Act(s, a))
  }

  lemma CheckIsLegal(r: GameState)
    requires Inv(r) && r.currentBet == 0
    ensures Legal(r, PlayerAction(r.players[r.current].id, Check, 0))
  {
    hide Sum, Count, NextFrom;
    IndexOfDistinct(r.players, r.current);
    assert SeatOk(r.players[r.current], 0, Level(r));
  }

  /** Streets still to be closed before a showdown. */
  function Streets(s: GameState): nat {
    match s.phase
    case PreFlop => 4
    case Flop => 3
    case Turn => 2
    case River => 1
    case _ => 0
  }

  // ----- One action, and any run of them -----

  datatype Ending = Continues | ByFold | ByShowdown

  /** Every legal action either keeps the invariant, or ends the hand: because one player is
      left, or at a showdown between matched players. r is the state just before payment. */
  lemma ActionOutcome(s: GameState, a: PlayerAction) returns (r: GameState, e: Ending)
    requires Inv(s) && Legal(s, a)
    ensures SameSeats(s.players, r.players) && r.board + r.deck == s.board + s.deck
    ensures r.pot == Sum(r.players, Contribution)
    ensures e == Continues ==> ApplyAction(s, a) == r && Inv(r) && r.history == s.history + [a]
    ensures e == Continues ==> r.phase == s.phase || Streets(r) == Streets(s) - 1
    ensures e == Continues && r.phase == s.phase ==> Stays(s, a, r)
    ensures e == ByFold ==> Count(r.players, Unfolded) == 1 && ApplyAction(s, a) == AfterFold(r)
    ensures e == ByShowdown ==> ShowdownReady(r) && ApplyAction(s, a) == AfterShowdown(r)
  {
    hide Act, Legal, Available, CloseRound, AdvancePhase, AfterShowdown, RoundComplete, NextFrom,
      TableOk, SameSeats, EveryoneActed, BetsMet, ShowdownReady, Moved, NextStreet, FullBoard;
    ActKeepsTable(s, a);
    var t := Act(s, a);
    MovedFacts(s, a, t);
    if Count(t.players, Unfolded) == 1 {
      r, e := t, ByFold;
    } else {
      var next := NextToAct(t.players, s.current);
      if next == -1 || RoundComplete(t) {
        StreetCloses(t, s.current);
        CloseFacts(t, Level(s));
        SameSeatsChain(s.players, t.players, CloseRound(t).players);
        if Count(t.players, CanAct) < 2 || t.phase == River {
          CloseToShowdown(t, Level(s));
          r, e := FullBoard(CloseRound(t)), ByShowdown;
        } else {
          CloseToStreet(t, Level(s));
          r, e := NextStreet(t), Continues;
        }
      } else {
        StreetGoesOn(s, a, t, next);
        r, e := t.(current := next), Continues;
      }
    }
  }

  lemma MovedFacts(s: GameState, a: PlayerAction, t: GameState)
    requires 0 <= s.current < |s.players| && Moved(s, a, t) && TableOk(t, Level(s))
    ensures t.players != [] && t.phase == s.phase && t.board == s.board && t.deck == s.deck
    ensures t.history == s.history + [a] && t.current == s.current
    ensures t.pot == Sum(t.players, Contribution)
  {
  }

  lemma SameSeatsChain(ps: seq<Player>, qs: seq<Player>, rs: seq<Player>)
    requires SameSeats(ps, qs) && SameSeats(qs, rs)
    ensures SameSeats(ps, rs)
  {
  }

  lemma CloseFacts(t: GameState, level: int)
    requires TableOk(t, level) && BetsMet(t) && t.players != [] && BoardFits(t)
    ensures SameSeats(t.players, CloseRound(t).players)
    ensures EnoughCards(CloseRound(t)) && FullBoard(CloseRound(t)).players == CloseRound(t).players
    ensures CloseRound(t).pot == Sum(CloseRound(t).players, Contribution) == FullBoard(CloseRound(t)).pot
    ensures t.phase != River ==> NextStreet(t).players == CloseRound(t).players
    ensures t.phase != River ==> NextStreet(t).pot == CloseRound(t).pot && NextStreet(t).history == t.history
    ensures t.phase != River ==> Streets(NextStreet(t)) == Streets(t) - 1 && NextStreet(t).phase != t.phase
  {
    hide SidePots, Matched, DistinctIds, NextFrom, Count;
    CloseKeepsTable(t, level);
  }

  /** When the street goes on, the next player can act and the level stands. */
  lemma StreetGoesOn(s: GameState, a: PlayerAction, t: GameState, next: int)
    requires Inv(s) && Moved(s, a, t) && TableOk(t, Level(s)) && BoardFits(t)
    requires Count(t.players, Unfolded) >= 2
    requires s.phase != PreFlop ==> EveryoneActed(t)
    requires next == NextToAct(t.players, s.current) && next != -1
    ensures Inv(t.(current := next))
  {
    hide Sum, Count, DistinctIds, NextFrom;
    NextCanAct(t.players, s.current, 1);
    assert SeatOk(t.players[next], t.currentBet, Level(s));
    var r := t.(current := next);
    assert EveryoneActed(t) ==> EveryoneActed(r) by {
      if EveryoneActed(t) {
        forall i | 0 <= i < |r.players| && CanAct(r.players[i]) ensures Acted(r, r.players[i].id) {
          var k :| 0 <= k < |t.history| && t.history[k].playerId == t.players[i].id;
          assert r.history[k] == t.history[k];
        }
      }
    }
  }

  /** The street goes on: someone who can act still has to. */
  ghost predicate Stays(s: GameState, a: PlayerAction, r: GameState)
    requires 0 <= s.current < |s.players| && s.players != []
    requires IndexOf(s.players, a.playerId) >= 0
  {
    var t := Act(s, a);
    && !RoundComplete(t)
    && r == t.(current := NextToAct(t.players, s.current))
  }
}
