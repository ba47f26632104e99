// How long a hand can be made to last: a run that uses the whole limit, and so exactly when the
// turn guard can cut a hand off (ghosts/rdc-poker-session/src/table-runner.ts:179, 194).
module LongestHands {
  import opened Seqs
  import opened PokerTypes
  import opened Pot
  import opened Engine
  import opened Betting
  import opened Hands
  import opened Conservation
  import opened Termination
  import opened ShortBlind
  import opened IdleRaises
  import opened TableRunner

  /** Everybody is able to act, the bet is below every stack, and the minimum raise is a big blind. */
  ghost predicate Full(s: GameState, low: int) {
    && Bounded(s, low, low) && Height(s) < low && s.minRaise == s.blinds.big
    && (forall i :: 0 <= i < |s.players| ==> CanAct(s.players[i]))
  }

  lemma FullFacts(s: GameState, low: int)
    requires Full(s, low)
    ensures |s.players| >= 2 && Loose(s) && Playing(s) && HasMover(s) && DistinctIds(s.players)
    ensures 0 < s.minRaise && 0 < s.blinds.big && Streets(s) > 0
    ensures TableInOrder(s, Level(s)) && Height(s) < low && low <= Total(s.players[s.current])
    ensures forall i :: 0 <= i < |s.players| ==> CanAct(s.players[i])
  {
    hide Count, Sum;
    TwoAtLeast(s);
    StreetsToGo(s);
  }

  // ----- Passing the turn on -----

  /** A pending player keeps the street open. */
  lemma PendingKeepsOpen(t: GameState, j: nat)
    requires j < |t.players| && Pending(t, t.players[j]) && Count(t.players, Unfolded) >= 2
    ensures !RoundComplete(t)
  {
    hide Count, Acted;
    CountBounds(t.players, CanAct);
  }

  lemma TurnPasses(s: GameState, a: PlayerAction, j: nat)
    requires Loose(s) && Playing(s) && 0 <= s.current < |s.players| && Legal(s, a)
    requires IndexOf(s.players, a.playerId) == s.current
    requires var t := Act(s, a);
             && Count(t.players, Unfolded) >= 2 && |t.players| == |s.players|
             && j < |t.players| && Pending(t, t.players[j])
             && 0 <= SeatAfter(s.current, 1, |s.players|) < |s.players|
             && CanAct(t.players[SeatAfter(s.current, 1, |s.players|)])
    ensures ApplyAction(s, a) == Act(s, a).(current := SeatAfter(s.current, 1, |s.players|))
  {
    hide Act, Legal, Loose, Count, RoundComplete, NextFrom, IndexOf, CanAct, SeatAfter, Pending;
    PendingKeepsOpen(Act(s, a), j);
    FirstSeatNext(Act(s, a).players, s.current);
    StreetStaysOpen(s, a);
  }

  lemma EverybodyIn(ps: seq<Player>)
    requires |ps| >= 2 && forall i :: 0 <= i < |ps| ==> CanAct(ps[i])
    ensures Count(ps, Unfolded) >= 2 && Count(ps, CanAct) >= 2
  {
    hide Count;
    CountTwo(ps, Unfolded, 0, 1);
    CountTwo(ps, CanAct, 0, 1);
  }

  lemma NotMyself(c: nat, d: nat, n: nat)
    requires c < n && 1 <= d < n
    ensures SeatAfter(c, d, n) != c
  {
    SelfSeat(c, n);
    SeatsInTurn(c, d - 1, n - 1, n);
  }

  /** The turn passes on from a full table, when the action leaves somebody pending. */
  lemma FullPasses(s: GameState, a: PlayerAction, low: int, d: nat)
    requires Full(s, low) && Legal(s, a) && Stepped(s, a, Act(s, a))
    requires IndexOf(s.players, a.playerId) == s.current
    requires var t := Act(s, a);
             && CanAct(t.players[s.current])
             && 1 <= d < |s.players| && 0 <= SeatAfter(s.current, d, |s.players|) < |s.players|
             && Pending(t, t.players[SeatAfter(s.current, d, |s.players|)])
    ensures 0 <= SeatAfter(s.current, 1, |s.players|) < |s.players|
    ensures ApplyAction(s, a) == Act(s, a).(current := SeatAfter(s.current, 1, |s.players|))
    ensures forall i :: 0 <= i < |s.players| ==> CanAct(Act(s, a).players[i])
  {
    FullFacts(s, low);
    AbleAfter(s, a, Act(s, a), low);
    hide Act, Legal, Loose, Playing, IndexOf, CanAct, SeatAfter, Pending, Full, TableInOrder, ApplyAction, HasMover,
      DistinctIds, Height;
    SeatsInRange(s.current, |s.players|);
    SameTable(s, a, Act(s, a));
    EverybodyIn(Act(s, a).players);
    TurnPasses(s, a, SeatAfter(s.current, d, |s.players|));
  }

  lemma SameTable(s: GameState, a: PlayerAction, t: GameState)
    requires 0 <= s.current < |s.players| && Stepped(s, a, t)
    ensures |t.players| == |s.players| && t.phase == s.phase && t.blinds == s.blinds
  {
  }

  /** The turns that could still come have gone down. */
  ghost predicate Shorter(s: GameState, u: GameState, low: int) {
    && 0 <= s.current < |s.players| && s.blinds.big > 0 && Streets(s) > 0
    && 0 <= u.current < |u.players| && u.blinds.big > 0 && Streets(u) > 0
    && Turns(u, low, low) < Turns(s, low, low)
  }

  /** From a full table back to one. */
  lemma FullAgain(s: GameState, a: PlayerAction, low: int, d: nat)
    requires Full(s, low) && Legal(s, a) && !Idle(s, a) && Stepped(s, a, Act(s, a))
    requires IndexOf(s.players, a.playerId) == s.current && a.playerId == s.players[s.current].id
    requires var t := Act(s, a);
             && CanAct(t.players[s.current]) && t.minRaise == s.minRaise && Level(s) + t.currentBet < low
             && 1 <= d < |s.players| && 0 <= SeatAfter(s.current, d, |s.players|) < |s.players|
             && Pending(t, t.players[SeatAfter(s.current, d, |s.players|)])
    ensures var u := ApplyAction(s, a);
            && u.phase == s.phase != HandComplete && Full(u, low) && u.blinds == s.blinds
            && |u.players| == |s.players| && Height(u) == Level(s) + Act(s, a).currentBet && Left(u) >= d
            && Shorter(s, u, low)
  {
    FullFacts(s, low);
    FullIsBounded(s, low);
    hide Act, Legal, Loose, Playing, IndexOf, CanAct, SeatAfter, Pending, Full, Idle, Bounded, TableInOrder, DistinctIds,
      Turns, ApplyAction, Stepped, HasMover, Left, Height, Level;
    SameTable(s, a, Act(s, a));
    FullPasses(s, a, low, d);
    PlayingGoesOn(s);
    ActionLowersTurns(s, a, low, low);
    FullTurn(s, a, Act(s, a), low, d);
  }

  /** What the turn passing on leaves. */
  lemma FullTurn(s: GameState, a: PlayerAction, t: GameState, low: int, d: nat)
    requires Full(s, low) && Stepped(s, a, t) && a.playerId == s.players[s.current].id
    requires t.minRaise == s.minRaise && Level(s) + t.currentBet < low
    requires 0 <= SeatAfter(s.current, 1, |s.players|) < |s.players|
    requires forall i :: 0 <= i < |s.players| ==> CanAct(t.players[i])
    requires Bounded(t.(current := SeatAfter(s.current, 1, |s.players|)), low, low)
    requires 1 <= d < |s.players| && 0 <= SeatAfter(s.current, d, |s.players|) < |s.players|
    requires Pending(t, t.players[SeatAfter(s.current, d, |s.players|)])
    ensures var u := t.(current := SeatAfter(s.current, 1, |s.players|));
            && Full(u, low) && Height(u) == Level(s) + t.currentBet && Left(u) >= d
  {
    FullFacts(s, low);
    FullRaise(s, low);
    SameTable(s, a, t);
    StepKeepsOrder(s, a, t, Level(s));
    hide Loose, Playing, CanAct, SeatAfter, Pending, Full, Bounded, TableInOrder, DistinctIds, Stepped, Acted, Span;
    var n, u := |s.players|, t.(current := SeatAfter(s.current, 1, |s.players|));
    SameButTurn(t, u);
    AbleMoves(u);
    NewLevel(u, Level(s));
    IsFull(u, low);
    SeatShift(s.current, 1, d, n);
    SpanFinds(u, u.current, n, d - 1);
  }

  lemma AbleAfter(s: GameState, a: PlayerAction, t: GameState, low: int)
    requires Full(s, low) && Stepped(s, a, t) && CanAct(t.players[s.current])
    ensures forall i :: 0 <= i < |t.players| ==> CanAct(t.players[i])
  {
    hide Bounded, CanAct;
  }

  lemma FullIsBounded(s: GameState, low: int)
    requires Full(s, low)
    ensures Bounded(s, low, low)
  {
  }

  lemma AbleMoves(u: GameState)
    requires 0 <= u.current < |u.players| && forall i :: 0 <= i < |u.players| ==> CanAct(u.players[i])
    ensures HasMover(u)
  {
  }

  lemma IsFull(u: GameState, low: int)
    requires Bounded(u, low, low) && Height(u) < low && u.minRaise == u.blinds.big
    requires forall i :: 0 <= i < |u.players| ==> CanAct(u.players[i])
    ensures Full(u, low)
  {
  }

  // ----- Matching the bet -----

  function Matching(s: GameState): PlayerAction
    requires 0 <= s.current < |s.players|
  {
    var p := s.players[s.current];
    if p.bet == s.currentBet then PlayerAction(p.id, Check, 0)
    else PlayerAction(p.id, Call, Min(s.currentBet - p.bet, p.stack))
  }

  lemma MatchActs(s: GameState, low: int)
    requires Full(s, low)
    ensures var a := Matching(s);
            && Legal(s, a) && !Idle(s, a) && IndexOf(s.players, a.playerId) == s.current
            && a.playerId == s.players[s.current].id
            && var t := Act(s, a);
               && Stepped(s, a, t) && t.currentBet == s.currentBet && t.minRaise == s.minRaise
               && CanAct(t.players[s.current])
  {
    FullFacts(s, low);
    hide Loose, Playing, Full, Bounded, TableInOrder, IndexOf, DistinctIds, Acted;
    SeatOrder(s, Level(s), s.current);
    IndexOfDistinct(s.players, s.current);
    MatchIsLegal(s);
    ActSteps(s, Matching(s));
  }

  lemma MatchIsLegal(s: GameState)
    requires HasMover(s) && DistinctIds(s.players)
    ensures var a := Matching(s);
            && Legal(s, a) && !Idle(s, a) && IndexOf(s.players, a.playerId) == s.current
            && Act(s, a).currentBet == s.currentBet && Act(s, a).minRaise == s.minRaise
            && |Act(s, a).players| == |s.players|
            && Act(s, a).players[s.current].stack == s.players[s.current].stack
               - Min(s.currentBet - s.players[s.current].bet, s.players[s.current].stack)
            && Act(s, a).players[s.current].folded == s.players[s.current].folded
            && (Act(s, a).players[s.current].stack > 0 ==> !Act(s, a).players[s.current].allIn)
  {
    IndexOfDistinct(s.players, s.current);
  }

  /** The last pending seat is another one. */
  lemma LastIsPending(s: GameState)
    requires 0 <= s.current < |s.players| && Left(s) >= 2
    ensures Left(s) - 1 < |s.players|
    ensures var j := SeatAfter(s.current, Left(s) - 1, |s.players|);
            0 <= j < |s.players| && j != s.current && Pending(s, s.players[j])
  {
    hide Pending, SeatAfter, Span;
    SpanEnds(s, s.current, |s.players|);
    SeatsInRange(s.current, |s.players|);
    NotMyself(s.current, Left(s) - 1, |s.players|);
  }

  /** With somebody else pending, matching the bet leaves one turn less. */
  lemma MatchOn(s: GameState, low: int)
    requires Full(s, low) && Left(s) >= 2
    ensures Legal(s, Matching(s))
    ensures var u := ApplyAction(s, Matching(s));
            Full(u, low) && u.phase == s.phase != HandComplete && u.blinds == s.blinds && |u.players| == |s.players|
            && Height(u) == Height(s) && Left(u) >= Left(s) - 1 && Shorter(s, u, low)
  {
    FullFacts(s, low);
    hide Act, Legal, Loose, Playing, Full, TableInOrder, IndexOf, DistinctIds, Matching, SeatAfter, ApplyAction, Idle,
      Left, Pending, CanAct, HasMover, Shorter, Stepped;
    MatchActs(s, low);
    LastIsPending(s);
    SameTable(s, Matching(s), Act(s, Matching(s)));
    OthersStayPending(s, Matching(s), Act(s, Matching(s)), SeatAfter(s.current, Left(s) - 1, |s.players|));
    FullAgain(s, Matching(s), low, Left(s) - 1);
  }

  lemma OthersStayPending(s: GameState, a: PlayerAction, t: GameState, j: nat)
    requires DistinctIds(s.players) && 0 <= s.current < |s.players| && a.playerId == s.players[s.current].id
    requires Stepped(s, a, t) && t.currentBet == s.currentBet
    requires j < |s.players| && j != s.current && Pending(s, s.players[j])
    ensures Pending(t, t.players[j])
  {
    hide Acted, DistinctIds;
    ActorsAfter(s, a, t);
    OthersId(s.players, s.current, j);
  }

  /** With nobody else pending, matching the bet leaves nobody pending. */
  lemma MatchSettles(s: GameState, low: int)
    requires Full(s, low) && Left(s) <= 1
    ensures var a := Matching(s);
            && Legal(s, a) && !Idle(s, a) && IndexOf(s.players, a.playerId) == s.current
            && var t := Act(s, a);
               && Stepped(s, a, t) && t.currentBet == s.currentBet
               && (forall i :: 0 <= i < |t.players| ==> CanAct(t.players[i]) && !Pending(t, t.players[i]))
               && TableInOrder(t, Level(s))
  {
    FullFacts(s, low);
    FullIsBounded(s, low);
    hide Act, Legal, Loose, Playing, Full, Bounded, TableInOrder, IndexOf, DistinctIds, Matching, Idle, Left, Pending,
      CanAct, Stepped, HasMover, Height, Level;
    MatchActs(s, low);
    var a := Matching(s);
    var t := Act(s, a);
    SameTable(s, a, t);
    AbleAfter(s, a, t, low);
    StepKeepsOrder(s, a, t, Level(s));
    NobodyNewPending(s, a, t, low, low);
    forall i | 0 <= i < |t.players| ensures !Pending(t, t.players[i]) {
      if i != s.current {
        AloneLeft(s, i);
      }
    }
  }

  /** So the street closes, and unless it was the river the next one opens as full. */
  lemma MatchCloses(s: GameState, low: int)
    requires Full(s, low) && Left(s) <= 1 && Streets(s) > 1
    ensures Legal(s, Matching(s))
    ensures var u := ApplyAction(s, Matching(s));
            Full(u, low) && Streets(u) == Streets(s) - 1 && u.blinds == s.blinds && |u.players| == |s.players|
            && Height(u) == Height(s) && Shorter(s, u, low)
  {
    FullFacts(s, low);
    hide Act, Legal, Loose, Playing, Full, TableInOrder, IndexOf, DistinctIds, Matching, Idle, Left, Pending,
      CanAct, Stepped, HasMover, Height, ApplyAction, Turns, Opened, Level;
    MatchSettles(s, low);
    SameTable(s, Matching(s), Act(s, Matching(s)));
    MovesOn(s, Matching(s));
    StreetEnds(s, Matching(s));
    StreetFull(s, Matching(s), Act(s, Matching(s)), ApplyAction(s, Matching(s)), low);
  }

  /** The next street is as full, and as high. */
  lemma StreetFull(s: GameState, a: PlayerAction, t: GameState, u: GameState, low: int)
    requires Full(s, low) && Legal(s, a) && !Idle(s, a) && Playing(s) && u == ApplyAction(s, a)
    requires u.phase != HandComplete && HasMover(u) && Opened(t, u) && TableInOrder(t, Level(s))
    requires t.currentBet == s.currentBet && t.blinds == s.blinds && t.phase == s.phase && |t.players| == |s.players|
    requires forall i :: 0 <= i < |t.players| ==> CanAct(t.players[i]) && !Pending(t, t.players[i])
    ensures Full(u, low) && Streets(u) == Streets(s) - 1 && u.blinds == s.blinds && |u.players| == |s.players|
    ensures Height(u) == Height(s) && Shorter(s, u, low)
  {
    FullFacts(s, low);
    FullIsBounded(s, low);
    hide Legal, Loose, Playing, Full, Bounded, TableInOrder, DistinctIds, Idle, Left, Pending, CanAct, ApplyAction, Turns,
      EveryoneActed, BetsMet, RoundComplete, Level, HasMover;
    ActionLowersTurns(s, a, low, low);
    BoundedFacts(u, low);
    NobodyPendingCloses(t);
    OpenedInOrder(t, u, Level(s));
    OpenedFull(t, u, low);
    OpenedSize(t, u);
  }

  lemma OpenedSize(t: GameState, u: GameState)
    requires Opened(t, u)
    ensures |u.players| == |t.players| && Streets(u) == Streets(t) - 1 && u.blinds == t.blinds
  {
  }

  lemma BoundedFacts(u: GameState, low: int)
    requires Bounded(u, low, low)
    ensures 0 <= u.current < |u.players| && u.blinds.big > 0
  {
  }

  /** A settled table on which everybody can act goes on to the next street. */
  lemma StreetEnds(s: GameState, a: PlayerAction)
    requires Loose(s) && Playing(s) && |s.players| >= 2 && 0 <= s.current < |s.players| && Legal(s, a)
    requires IndexOf(s.players, a.playerId) == s.current && Streets(s) > 1
    requires var t := Act(s, a);
             && |t.players| == |s.players| && t.phase == s.phase
             && forall i :: 0 <= i < |t.players| ==> CanAct(t.players[i]) && !Pending(t, t.players[i])
    ensures ApplyAction(s, a).phase != HandComplete && Opened(Act(s, a), ApplyAction(s, a))
  {
    hide Act, Legal, Loose, IndexOf, Pending, CanAct, RoundComplete, AdvancePhase, AfterFold, Count, NextFrom, Opened,
      BoardFits;
    var t := Act(s, a);
    ActedTable(s, a);
    EverybodyIn(t.players);
    NobodyPendingCloses(t);
    OpensNext(t);
    NextOpens(t);
  }

  lemma AloneLeft(s: GameState, i: nat)
    requires 0 <= s.current < |s.players| && i < |s.players| && i != s.current && Left(s) <= 1
    ensures !Pending(s, s.players[i])
  {
    hide Pending, SeatAfter, Span;
    var d := SeatOffset(s.current, i, |s.players|);
    if Pending(s, s.players[i]) {
      SpanFinds(s, s.current, |s.players|, d);
    }
  }

  lemma NobodyPendingCloses(t: GameState)
    requires forall i :: 0 <= i < |t.players| ==> CanAct(t.players[i]) && !Pending(t, t.players[i])
    ensures RoundComplete(t) && BetsMet(t) && EveryoneActed(t)
  {
    hide Count, Acted;
    var b := BigBlindIndex(t.players);
    assert b >= 0 ==> !Pending(t, t.players[b]);
    assert forall i :: 0 <= i < |t.players| ==> !Pending(t, t.players[i]);
  }

  /** Before the river, a table where everybody can act goes on to the next street. */
  lemma OpensNext(t: GameState)
    requires BoardFits(t) && |t.players| >= 2 && Count(t.players, Unfolded) >= 1 && Streets(t) > 1
    requires forall i :: 0 <= i < |t.players| ==> CanAct(t.players[i])
    ensures AdvancePhase(t).phase != HandComplete
  {
    hide SidePots, Count, NextFrom, AfterShowdown;
    UnfoldedUnchanged(t.players);
    EverybodyIn(t.players);
    var qs := ClearBets(t.players);
    NextCanAct(qs, t.dealer, 1);
    assert CanAct(qs[0]);
    NextExists(qs, t.dealer);
  }

  lemma OpenedFull(t: GameState, u: GameState, low: int)
    requires Opened(t, u) && Bounded(u, low, low) && Height(u) < low
    requires forall i :: 0 <= i < |t.players| ==> CanAct(t.players[i])
    ensures Full(u, low)
  {
    hide Bounded;
  }

  // ----- Raising -----

  function BlindRaise(s: GameState): PlayerAction
    requires 0 <= s.current < |s.players|
  {
    PlayerAction(s.players[s.current].id, Raise, s.currentBet + s.blinds.big)
  }

  lemma RaiseActs(s: GameState, low: int)
    requires Full(s, low) && s.phase != PreFlop && Height(s) + s.blinds.big < low
    ensures var a := BlindRaise(s);
            && Legal(s, a) && !Idle(s, a) && IndexOf(s.players, a.playerId) == s.current
            && var t := Act(s, a);
               && Stepped(s, a, t) && t.currentBet == s.currentBet + s.blinds.big && t.minRaise == s.minRaise
               && CanAct(t.players[s.current])
  {
    FullFacts(s, low);
    FullRaise(s, low);
    hide Loose, Playing, Full, Bounded, TableInOrder, IndexOf, DistinctIds, Acted;
    SeatOrder(s, Level(s), s.current);
    IndexOfDistinct(s.players, s.current);
    ActSteps(s, BlindRaise(s));
  }

  lemma FullRaise(s: GameState, low: int)
    requires Full(s, low)
    ensures s.minRaise == s.blinds.big
  {
  }

  /** Raising by a big blind puts everybody else to the turn again. */
  lemma RaiseOn(s: GameState, low: int)
    requires Full(s, low) && s.phase != PreFlop && Height(s) + s.blinds.big < low
    ensures Legal(s, BlindRaise(s))
    ensures var u := ApplyAction(s, BlindRaise(s));
            Full(u, low) && u.phase == s.phase != HandComplete && u.blinds == s.blinds && |u.players| == |s.players|
            && Height(u) == Height(s) + s.blinds.big && Left(u) >= |s.players| - 1 && Shorter(s, u, low)
  {
    FullFacts(s, low);
    hide Act, Legal, Loose, Playing, Full, Bounded, TableInOrder, IndexOf, DistinctIds, Acted, SeatAfter,
      ApplyAction, Idle, Span, Pending, CanAct, BlindRaise;
    RaiseActs(s, low);
    var n, t := |s.players|, Act(s, BlindRaise(s));
    SeatsInRange(s.current, n);
    NotMyself(s.current, n - 1, n);
    RaisedOver(s, BlindRaise(s), t, SeatAfter(s.current, n - 1, n));
    FullAgain(s, BlindRaise(s), low, n - 1);
  }

  lemma RaisedOver(s: GameState, a: PlayerAction, t: GameState, j: nat)
    requires 0 <= s.current < |s.players| && Stepped(s, a, t) && t.currentBet > s.currentBet
    requires TableInOrder(s, Level(s)) && s.phase != PreFlop
    requires j < |s.players| && j != s.current && CanAct(s.players[j])
    ensures Pending(t, t.players[j]) && t.players[j].bet < t.currentBet && t.players[j] == s.players[j]
  {
    hide Acted;
    SeatOrder(s, Level(s), j);
  }

  // ----- The last raise, and the calls of it -----

  /** The next k seats have all to call. */
  ghost predicate MustCall(s: GameState, k: nat) {
    && Loose(s) && Playing(s) && 0 <= s.current < |s.players| && 1 <= k <= |s.players|
    && (forall d: nat :: d < k ==> Owes(s, SeatAfter(s.current, d, |s.players|)))
  }

  ghost predicate Owes(s: GameState, i: int) {
    0 <= i < |s.players| && CanAct(s.players[i]) && s.players[i].bet < s.currentBet
  }

  lemma CallerMoves(s: GameState, k: nat)
    requires MustCall(s, k)
    ensures HasMover(s) && DistinctIds(s.players) && Loose(s) && Playing(s)
    ensures s.players[s.current].bet < s.currentBet
  {
    hide SeatAfter, Playing;
    SelfSeat(s.current, |s.players|);
    assert Owes(s, SeatAfter(s.current, 0, |s.players|));
  }

  /** One call, perhaps of the last chips, and the turn passes to the next seat. */
  lemma CallOn(s: GameState, k: nat)
    requires MustCall(s, k) && k >= 2
    ensures 0 <= s.current < |s.players| && Playing(s) && Legal(s, Matching(s))
    ensures MustCall(ApplyAction(s, Matching(s)), k - 1)
  {
    CallerMoves(s, k);
    hide Act, Legal, Loose, Playing, IndexOf, SeatAfter, CanAct, ApplyAction, Matching, DistinctIds, HasMover, Owes,
      Pending;
    var a, n := Matching(s), |s.players|;
    MatchIsLegal(s);
    CallKeepsSeats(s, a);
    StillIn(s, a);
    OthersOwe(s, Act(s, a), k);
    var u := Act(s, a).(current := SeatAfter(s.current, 1, n));
    assert Owes(u, SeatAfter(u.current, 0, n));
    SeatsInRange(s.current, n);
    SelfSeat(u.current, n);
    OwesIsPending(u, u.current);
    SameButTurn(Act(s, a), u);
    TurnPasses(s, a, u.current);
  }

  lemma StillIn(s: GameState, a: PlayerAction)
    requires Loose(s) && Playing(s) && 0 <= s.current < |s.players| && Legal(s, a)
    requires IndexOf(s.players, a.playerId) == s.current
    requires Count(Act(s, a).players, Unfolded) == Count(s.players, Unfolded)
    ensures Count(Act(s, a).players, Unfolded) >= 2
    ensures forall next :: Loose(Act(s, a).(current := next)) && Playing(Act(s, a).(current := next))
  {
    hide Act, Legal, Loose, Count, IndexOf, BoardFits;
    ActedTable(s, a);
    LooseAfter(s, a);
    var t := Act(s, a);
    forall next ensures Loose(t.(current := next)) && Playing(t.(current := next)) {
      LooseTurn(t, next);
      SameBoard(t, next);
    }
  }

  /** The seats behind the caller still owe their call. */
  lemma OthersOwe(s: GameState, t: GameState, k: nat)
    requires MustCall(s, k) && |t.players| == |s.players| && t.currentBet == s.currentBet
    requires t.players == s.players[s.current := t.players[s.current]]
    ensures 0 <= SeatAfter(s.current, 1, |s.players|) < |s.players|
    ensures var u := t.(current := SeatAfter(s.current, 1, |s.players|));
            forall d: nat :: d < k - 1 ==> Owes(u, SeatAfter(u.current, d, |u.players|))
  {
    hide Loose, Playing, SeatAfter, CanAct;
    var n := |s.players|;
    SeatsInRange(s.current, n);
    forall d: nat | d < k - 1 ensures Owes(t, SeatAfter(SeatAfter(s.current, 1, n), d, n)) {
      SeatShift(s.current, 1, d + 1, n);
      NotMyself(s.current, d + 1, n);
      assert Owes(s, SeatAfter(s.current, d + 1, n));
    }
  }

  lemma LooseTurn(t: GameState, next: int)
    requires Loose(t)
    ensures Loose(t.(current := next))
  {
    hide Sum, Count, DistinctIds;
  }

  lemma OwesIsPending(t: GameState, i: nat)
    requires Owes(t, i)
    ensures Pending(t, t.players[i]) && CanAct(t.players[i])
  {
  }

  lemma CallKeepsSeats(s: GameState, a: PlayerAction)
    requires 0 <= s.current < |s.players| && IndexOf(s.players, a.playerId) == s.current && a == Matching(s)
    ensures var t := Act(s, a);
            && |t.players| == |s.players| && t.currentBet == s.currentBet
            && t.phase == s.phase
            && t.players == s.players[s.current := t.players[s.current]]
            && Count(t.players, Unfolded) == Count(s.players, Unfolded)
  {
    hide IndexOf, Count;
    var t := Act(s, a);
    assert s.players == s.players[s.current := s.players[s.current]];
    CountUpdate(s.players, s.current, t.players[s.current], Unfolded);
  }

  lemma {:induction false} CallsDown(s: GameState, k: nat) returns (actions: seq<PlayerAction>)
    requires MustCall(s, k)
    ensures LegalRun(s, actions) && |actions| == k
    decreases k
  {
    CallerMoves(s, k);
    hide Act, Legal, ApplyAction, MustCall, Loose, Playing, Matching, IndexOf;
    MatchIsLegal(s);
    var a := Matching(s);
    if k == 1 {
      actions := [a];
      assert actions[1..] == [];
    } else {
      CallOn(s, k);
      var rest := CallsDown(ApplyAction(s, a), k - 1);
      RunCons(s, a, rest);
      actions := [a] + rest;
    }
  }

  /** When only an all-in can raise, everybody else still has a call of it to make. */
  lemma ShovesDown(s: GameState, low: int) returns (actions: seq<PlayerAction>)
    requires Full(s, low) && s.phase != PreFlop
    ensures LegalRun(s, actions) && |actions| == |s.players|
  {
    FullFacts(s, low);
    hide Act, Legal, Loose, Playing, IndexOf, SeatAfter, CanAct, ApplyAction, TableInOrder, DistinctIds, Stepped, Idle,
      Full, Owes, Pending, LegalRun;
    var n, p := |s.players|, s.players[s.current];
    var a := PlayerAction(p.id, AllIn, p.stack);
    SeatOrder(s, Level(s), s.current);
    ShoveIsLegal(s, a);
    NotARaise(s, a);
    ActSteps(s, a);
    SameTable(s, a, Act(s, a));
    InAfterShove(s, Act(s, a));
    StillIn(s, a);
    ShoveIsOwed(s, a, Act(s, a));
    var u := Act(s, a).(current := SeatAfter(s.current, 1, n));
    assert Owes(u, SeatAfter(u.current, 0, n));
    SelfSeat(u.current, n);
    OwesIsPending(u, u.current);
    SameButTurn(Act(s, a), u);
    TurnPasses(s, a, u.current);
    var rest := CallsDown(u, n - 1);
    RunCons(s, a, rest);
    actions := [a] + rest;
  }

  lemma ShoveIsOwed(s: GameState, a: PlayerAction, t: GameState)
    requires 0 <= s.current < |s.players| && Stepped(s, a, t) && t.currentBet > s.currentBet
    requires TableInOrder(s, Level(s)) && s.phase != PreFlop
    requires forall i :: 0 <= i < |s.players| ==> CanAct(s.players[i])
    ensures 0 <= SeatAfter(s.current, 1, |s.players|) < |s.players|
    ensures var u := t.(current := SeatAfter(s.current, 1, |s.players|));
            forall d: nat :: d < |s.players| - 1 ==> Owes(u, SeatAfter(u.current, d, |s.players|))
  {
    hide SeatAfter, CanAct, Stepped, TableInOrder, Pending;
    var n := |s.players|;
    SameTable(s, a, t);
    SeatsInRange(s.current, n);
    forall d: nat | d < n - 1 ensures Owes(t, SeatAfter(SeatAfter(s.current, 1, n), d, n)) {
      SeatShift(s.current, 1, d + 1, n);
      NotMyself(s.current, d + 1, n);
      RaisedOver(s, a, t, SeatAfter(s.current, d + 1, n));
    }
  }

  lemma NotARaise(s: GameState, a: PlayerAction)
    requires 0 <= s.current < |s.players| && a.action == AllIn
    ensures !Idle(s, a)
  {
  }

  lemma InAfterShove(s: GameState, t: GameState)
    requires 0 <= s.current < |s.players| == |t.players|
    requires t.players == s.players[s.current := t.players[s.current]] && !t.players[s.current].folded
    requires CanAct(s.players[s.current])
    ensures Count(t.players, Unfolded) == Count(s.players, Unfolded)
  {
    hide Count;
    CountUpdate(s.players, s.current, t.players[s.current], Unfolded);
  }

  // ----- The longest run -----

  lemma OneStepLess(h: int, low: int, big: int)
    requires big > 0 && h < low
    ensures h + big < low ==> Raises(h + big, low, low, big) + 1 >= Raises(h, low, low, big)
    ensures low <= h + big ==> Raises(h, low, low, big) <= 1
  {
    var a := low - h + big - 1;
    assert a == big * (a / big) + a % big;
    if h + big < low {
      var b := low - (h + big) + big - 1;
      assert big * (a / big - 1) == big * (a / big) - big;
      QuotientAtLeast(b, a / big - 1, big);
    } else {
      AtMostOne(a, big);
    }
  }

  lemma AtMostOne(a: int, big: int)
    requires big > 0 && a < 2 * big
    ensures a / big <= 1
  {
    var q := a / big;
    assert a == big * q + a % big;
    assert q >= 2 ==> big * q >= big * 2;
  }

  lemma MatchTurns(s: GameState, u: GameState, low: int)
    requires 0 <= s.current < |s.players| && s.blinds.big > 0 && Streets(s) > 0
    requires 0 <= u.current < |u.players| && u.blinds == s.blinds && Streets(u) > 0
    requires |u.players| == |s.players| && Height(u) == Height(s)
    requires if Left(s) >= 2 then Streets(u) == Streets(s) && Left(u) >= Left(s) - 1 else Streets(u) == Streets(s) - 1
    ensures Turns(u, low, low) >= Turns(s, low, low) - 1
  {
    hide Raises, Left, Height;
  }

  lemma RaiseTurns(s: GameState, u: GameState, low: int)
    requires 0 <= s.current < |s.players| && s.blinds.big > 0 && Streets(s) > 0
    requires 0 <= u.current < |u.players| && u.blinds == s.blinds && Streets(u) == Streets(s)
    requires |u.players| == |s.players| && Height(u) == Height(s) + s.blinds.big < low
    requires Left(s) <= 1 && Left(u) >= |s.players| - 1
    ensures Turns(u, low, low) >= Turns(s, low, low) - 1
  {
    hide Raises, Left, Height;
    var n, big := |s.players|, s.blinds.big;
    OneStepLess(Height(s), low, big);
    RoundForRaise(n - 1, Raises(Height(u), low, low, big), Raises(Height(s), low, low, big));
  }

  lemma LastTurns(s: GameState, low: int)
    requires 0 <= s.current < |s.players| && s.blinds.big > 0 && Streets(s) == 1
    requires Left(s) <= 1 && Height(s) < low <= Height(s) + s.blinds.big
    ensures Turns(s, low, low) <= |s.players|
  {
    hide Raises, Left, Height;
    OneStepLess(Height(s), low, s.blinds.big);
    NotMore(|s.players| - 1, Raises(Height(s), low, low, s.blinds.big), 1);
  }

  /** An action that takes up one turn and no more. */
  ghost predicate TakesOne(s: GameState, a: PlayerAction, low: int) {
    && Playing(s) && 0 <= s.current < |s.players| && Legal(s, a) && Full(ApplyAction(s, a), low)
    && Shorter(s, ApplyAction(s, a), low)
    && Turns(ApplyAction(s, a), low, low) >= Turns(s, low, low) - 1
  }

  lemma MatchTakesOne(s: GameState, low: int)
    requires Full(s, low) && (Left(s) >= 2 || Streets(s) > 1)
    ensures 0 <= s.current < |s.players| && TakesOne(s, Matching(s), low)
  {
    FullFacts(s, low);
    hide Legal, ApplyAction, Full, Loose, Playing, Turns, Left, Height, Matching, TableInOrder, DistinctIds, CanAct,
      HasMover, Act;
    if Left(s) >= 2 {
      MatchOn(s, low);
    } else {
      MatchCloses(s, low);
    }
    MatchTurns(s, ApplyAction(s, Matching(s)), low);
  }

  lemma RaiseTakesOne(s: GameState, low: int)
    requires Full(s, low) && Left(s) <= 1 && Streets(s) == 1 && Height(s) + s.blinds.big < low
    ensures 0 <= s.current < |s.players| && TakesOne(s, BlindRaise(s), low)
  {
    FullFacts(s, low);
    LastStreetPhase(s);
    hide Legal, ApplyAction, Full, Loose, Playing, Turns, Left, Height, BlindRaise, TableInOrder, DistinctIds, CanAct,
      HasMover, Act;
    RaiseOn(s, low);
    RaiseTurns(s, ApplyAction(s, BlindRaise(s)), low);
  }

  /** While there is a bet to match, a street to come or a big blind to raise, some action takes up
      one turn and no more. */
  lemma LastsOn(s: GameState, low: int) returns (a: PlayerAction)
    requires Full(s, low) && (Left(s) >= 2 || Streets(s) > 1 || Height(s) + s.blinds.big < low)
    ensures TakesOne(s, a, low)
  {
    FullFacts(s, low);
    hide TakesOne, Full, Loose, Playing, Left, Height, TableInOrder, DistinctIds, CanAct;
    if Left(s) >= 2 || Streets(s) > 1 {
      a := Matching(s);
      MatchTakesOne(s, low);
    } else {
      a := BlindRaise(s);
      RaiseTakesOne(s, low);
    }
  }

  /** From a full table some run of legal actions uses up every turn there could be. */
  lemma {:induction false} Lasts(s: GameState, low: int) returns (actions: seq<PlayerAction>)
    requires Full(s, low)
    ensures 0 < s.blinds.big && Streets(s) > 0 && 0 <= s.current < |s.players|
    ensures LegalRun(s, actions) && |actions| >= Turns(s, low, low)
    decreases if 0 < s.blinds.big && Streets(s) > 0 && 0 <= s.current < |s.players| then Turns(s, low, low) else 0
  {
    FullFacts(s, low);
    hide Legal, ApplyAction, Full, Loose, Playing, Turns, Left, Height, TableInOrder, DistinctIds, CanAct, LegalRun,
      HasMover;
    SomeTurns(s, low, low);
    if Left(s) >= 2 || Streets(s) > 1 || Height(s) + s.blinds.big < low {
      var a := LastsOn(s, low);
      var rest := Lasts(ApplyAction(s, a), low);
      RunCons(s, a, rest);
      actions := [a] + rest;
    } else {
      LastTurns(s, low);
      actions := ShovesDown(s, low);
    }
  }

  lemma RunCons(s: GameState, a: PlayerAction, rest: seq<PlayerAction>)
    requires Playing(s) && 0 <= s.current < |s.players| && Legal(s, a) && LegalRun(ApplyAction(s, a), rest)
    ensures LegalRun(s, [a] + rest)
  {
    hide Legal, ApplyAction, Playing;
    assert ([a] + rest)[1..] == rest;
  }

  lemma LastStreetPhase(s: GameState)
    requires Streets(s) == 1
    ensures s.phase != PreFlop
  {
  }

  lemma RoundForRaise(n: nat, x: nat, y: nat)
    requires x + 1 >= y
    ensures n + n * x >= n * y
  {
    assert n * (x + 1) == n * x + n;
    NotMore(n, y, x + 1);
  }

  // ----- From the deal -----

  /** All but at most one player brought the same, and that one more. */
  predicate EvenStacks(players: seq<Player>)
    requires |players| >= 2
  {
    Lowest(players) == Second(players)
  }

  /** Even stacks larger than the big blind all stay able to act behind the blinds. */
  lemma EvenStart(players: seq<Player>, dealer: nat, blinds: Blinds, deck: seq<Card>)
    requires Deal(players, blinds, deck) && blinds.small <= blinds.big && blinds.big < Lowest(players)
    ensures var n, s := |players|, NewHand(players, dealer, blinds, deck);
            && |s.players| == n && s.currentBet == blinds.big && s.history == []
            && (forall i :: 0 <= i < n ==> CanAct(s.players[i]) && s.players[i].contributed == s.players[i].bet)
            && SomeoneLeft(players, dealer, blinds)
            && 0 <= SeatAfter(dealer, 2, n) && s.current == NextToAct(s.players, SeatAfter(dealer, 2, n))
  {
    hide NewHand, DealOrder, SeatAfter, NextFrom, Lowest;
    SeatsInRange(dealer, |players|);
    StackRange(players);
    NewSeats(players, dealer, blinds, deck);
    NewRest(players, dealer, blinds, deck);
  }

  /** The big blind is the last of all to act. */
  lemma BlindIsLast(s: GameState, dealer: nat)
    requires |s.players| >= 2 && s.history == []
    requires forall i :: 0 <= i < |s.players| ==> CanAct(s.players[i])
    requires 0 <= SeatAfter(dealer, 2, |s.players|)
    requires s.current == NextToAct(s.players, SeatAfter(dealer, 2, |s.players|))
    ensures 0 <= s.current < |s.players| && Left(s) == |s.players|
  {
    hide SeatAfter, NextFrom, CanAct;
    var n := |s.players|;
    SeatsInRange(dealer, n);
    SeatsInRange(SeatAfter(dealer, 2, n), n);
    SeatShift(dealer, 2, 3, n);
    FirstSeatNext(s.players, SeatAfter(dealer, 2, n));
    SeatShift(dealer, 3, n + 2, n);
    SeatWrap(dealer, 2, n);
    SpanFinds(s, s.current, n, n - 1);
    SpanEnds(s, s.current, n);
  }

  /** The start of a hand between even stacks, all larger than the big blind. */
  lemma StartIsFull(players: seq<Player>, dealer: nat, blinds: Blinds, deck: seq<Card>)
    requires Deal(players, blinds, deck) && blinds.small <= blinds.big && EvenStacks(players)
    requires blinds.big < Lowest(players)
    ensures var s := NewHand(players, dealer, blinds, deck);
            Full(s, Lowest(players)) && Turns(s, Lowest(players), Lowest(players)) >= TurnLimit(players, dealer, blinds)
  {
    hide NewHand, SeatAfter, NextFrom, Raises, Lowest, Second, Bounded, Left, CanAct, DistinctIds;
    var s := NewHand(players, dealer, blinds, deck);
    SeatsInRange(dealer, |players|);
    StackRange(players);
    EvenStart(players, dealer, blinds, deck);
    NewRest(players, dealer, blinds, deck);
    StartIsBounded(players, dealer, blinds, deck);
    BlindIsLast(s, dealer);
    assert Height(s) == s.currentBet;
  }

  lemma {:induction false} PrefixGoesOn(s: GameState, actions: seq<PlayerAction>, m: nat)
    requires LegalRun(s, actions) && m < |actions|
    ensures LegalRun(s, actions[..m]) && Run(s, actions[..m]).phase != HandComplete
    decreases m
  {
    hide Legal, ApplyAction;
    if m > 0 {
      assert actions[..m][0] == actions[0] && actions[..m][1..] == actions[1..][..m - 1];
      PrefixGoesOn(ApplyAction(s, actions[0]), actions[1..], m - 1);
    } else {
      EmptyRun(s);
      assert actions[..0] == [];
    }
  }

  /** With one deck, even stacks and blinds in order, some run of legal actions is cut off by the
      guard exactly when the limit is above it, or an idle raise is possible. */
  lemma GuardCutsExactly(players: seq<Player>, dealer: nat, blinds: Blinds, deck: seq<Card>)
    requires Deal(players, blinds, deck) && |deck| == 52
    requires blinds.small <= blinds.big && EvenStacks(players)
    ensures (exists actions :: CutOff(NewHand(players, dealer, blinds, deck), actions))
            <==> TurnLimit(players, dealer, blinds) > SAFETY_TURNS || CanIdle(players, dealer, blinds)
  {
    hide NewHand, LegalRun, Run, CanIdle, TurnLimit, EvenStacks, Full, Turns;
    var s := NewHand(players, dealer, blinds, deck);
    if CanIdle(players, dealer, blinds) {
      var long := RunsOn(players, dealer, blinds, deck, SAFETY_TURNS + 1);
      PrefixGoesOn(s, long, SAFETY_TURNS);
      assert CutOff(s, long[..SAFETY_TURNS]);
    } else if TurnLimit(players, dealer, blinds) > SAFETY_TURNS {
      RoomToRaise(players, dealer, blinds);
      StartIsFull(players, dealer, blinds, deck);
      var long := Lasts(s, Lowest(players));
      PrefixGoesOn(s, long, SAFETY_TURNS);
      assert CutOff(s, long[..SAFETY_TURNS]);
    } else {
      forall actions ensures !CutOff(s, actions) {
        if CutOff(s, actions) {
          GuardSpares(players, dealer, blinds, deck, actions);
        }
      }
    }
  }

  /** A run that has spent the guard's turns without ending the hand. */
  ghost predicate CutOff(s: GameState, actions: seq<PlayerAction>) {
    LegalRun(s, actions) && |actions| == SAFETY_TURNS && Run(s, actions).phase != HandComplete
  }

  /** At most 23 players and no raises stay within the guard. */
  lemma RoomToRaise(players: seq<Player>, dealer: nat, blinds: Blinds)
    requires 2 <= |players| <= 23 && blinds.big > 0 && EvenStacks(players)
    requires TurnLimit(players, dealer, blinds) > SAFETY_TURNS
    ensures blinds.big < Lowest(players)
  {
    hide Lowest, Second;
    var bb := players[SeatAfter(dealer, 2, |players|)];
    StackRange(players);
    var bet := Min(blinds.big, bb.stack);
    if Lowest(players) <= bet {
      NoneAbove(bet, Lowest(players), Lowest(players), blinds.big);
    }
  }
}
