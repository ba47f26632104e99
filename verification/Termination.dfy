// How long a hand can be: a bound on the length of any run of legal actions that can be read off
// the stacks and the blinds (ghosts/rdc-poker/src/gameEngine.ts:100-110, 166-351).
module Termination {
  import opened Seqs
  import opened PokerTypes
  import opened Pot
  import opened Engine
  import opened Betting
  import opened Payout
  import opened Hands
  import opened Conservation

  /** A player who still has to act before the street can close. */
  predicate Pending(s: GameState, p: Player) {
    CanAct(p) && (p.bet != s.currentBet || !Acted(s, p.id))
  }

  /** How many of the next k seats, from this one on, it takes to pass the last pending player. */
  function Span(s: GameState, from: nat, k: nat): nat
    requires s.players != [] && k <= |s.players|
  {
    if k == 0 then 0
    else if Pending(s, s.players[SeatAfter(from, k - 1, |s.players|)]) then k
    else Span(s, from, k - 1)
  }

  /** The seats the turn has still to pass before the street can close. */
  function Left(s: GameState): nat
    requires s.players != [] && s.current >= 0
  {
    Span(s, s.current, |s.players|)
  }

  /** What every player able to act has put in, or has still to match. */
  function Height(s: GameState): int
    requires 0 <= s.current < |s.players|
  {
    Level(s) + s.currentBet
  }

  /** How many times the bet can still be raised from this height, when every stack is at least
      low, at most one is above cap, and a raise short of all-in is at least the big blind: whole
      big blinds up to low, and single chips from there to cap. */
  function Raises(height: int, low: int, cap: int, big: int): nat
    requires big > 0 && low <= cap
  {
    if height < low then (low - height + big - 1) / big + cap - low else Max(cap - height, 0)
  }

  /** A bound on the actions still to come: the turns left on this street, a round of them for each
      raise, and one action for each later street. */
  function Turns(s: GameState, low: int, cap: int): int
    requires 0 <= s.current < |s.players| && s.blinds.big > 0 && low <= cap && Streets(s) > 0
  {
    Max(Left(s), 1) + (|s.players| - 1) * Raises(Height(s), low, cap, s.blinds.big) + Streets(s) - 1
  }

  // ----- Seats ahead -----

  lemma {:induction false} SpanFinds(s: GameState, from: nat, k: nat, d: nat)
    requires s.players != [] && d < k <= |s.players|
    requires Pending(s, s.players[SeatAfter(from, d, |s.players|)])
    ensures d < Span(s, from, k)
  {
    hide Pending;
    if d < k - 1 {
      SpanFinds(s, from, k - 1, d);
    }
  }

  lemma {:induction false} SpanEnds(s: GameState, from: nat, k: nat)
    requires s.players != [] && k <= |s.players|
    ensures var x := Span(s, from, k);
            x <= k && (x > 0 ==> Pending(s, s.players[SeatAfter(from, x - 1, |s.players|)]))
  {
    hide Pending;
    if k > 0 {
      SpanEnds(s, from, k - 1);
    }
  }

  /** Looking from a seat k places on shifts the distance by k. */
  lemma SeatShift(from: nat, m: nat, k: nat, n: nat)
    requires n > 0 && m <= k
    ensures SeatAfter(SeatAfter(from, m, n), k - m, n) == SeatAfter(from, k, n)
  {
    var q := (from + m) / n;
    var r := (from + m) % n;
    var q' := (from + k) / n;
    var r' := (from + k) % n;
    assert from + m == n * q + r && from + k == n * q' + r';
    assert r + (k - m) == n * (q' - q) + r' by {
      assert n * q' - n * q == n * (q' - q);
    }
    Reduce(r + (k - m), q' - q, r', n);
  }

  /** Going round the table comes back to the same seat. */
  lemma SeatWrap(from: nat, k: nat, n: nat)
    requires n > 0
    ensures SeatAfter(from, n + k, n) == SeatAfter(from, k, n)
  {
    var q, r := (from + k) / n, (from + k) % n;
    assert from + k == n * q + r;
    assert from + n + k == n * (q + 1) + r;
    Reduce(from + n + k, q + 1, r, n);
  }

  lemma {:induction false} NextBefore(ps: seq<Player>, from: nat, k: nat, d: nat) returns (m: nat)
    requires ps != [] && 1 <= k <= d < |ps| && CanAct(ps[SeatAfter(from, d, |ps|)])
    ensures k <= m <= d && NextFrom(ps, from, k) == SeatAfter(from, m, |ps|)
    decreases |ps| - k
  {
    hide SeatAfter;
    SeatsInRange(from, |ps|);
    if CanAct(ps[SeatAfter(from, k, |ps|)]) {
      m := k;
    } else {
      m := NextBefore(ps, from, k + 1, d);
    }
  }

  lemma SelfSeat(from: nat, n: nat)
    requires from < n
    ensures SeatAfter(from, 0, n) == from == SeatAfter(from, n, n)
  {
    Reduce(from, 0, from, n);
    Reduce(from + n, 1, from, n);
  }

  /** A seat other than the current one is at most n - 1 places on. */
  lemma SeatOffset(from: nat, j: nat, n: nat) returns (d: nat)
    requires from < n && j < n && j != from
    ensures 0 < d < n && SeatAfter(from, d, n) == j
  {
    hide SeatAfter, DealOrder;
    DealOrderBounds(from, n);
    SeatReached(from, j, n);
    SelfSeat(from, n);
    d := 1 + DealOrder(from, j, n);
  }

  lemma PendingCanAct(s: GameState, p: Player)
    requires Pending(s, p)
    ensures CanAct(p)
  {
  }

  /** With the turn passed on from seat c, which is not pending itself, the last pending seat is
      between the new actor and c. */
  lemma LastPending(u: GameState, c: nat) returns (m: nat)
    requires c < |u.players| && !Pending(u, u.players[c])
    requires u.current == NextToAct(u.players, c) && u.current != -1
    ensures 0 <= u.current < |u.players|
    ensures 1 <= m && m + Left(u) <= |u.players|
    ensures Left(u) > 0 ==> Pending(u, u.players[SeatAfter(c, m + Left(u) - 1, |u.players|)])
  {
    hide Pending, SeatAfter, CanAct, NextFrom;
    var n := |u.players|;
    SeatsInRange(c, n);
    m := NextIsFirst(u.players, c, 1);
    SpanEnds(u, u.current, n);
    var x := Left(u);
    if x > 0 {
      SeatShift(c, m, m + x - 1, n);
      var seat := SeatAfter(c, m + x - 1, n);
      assert Pending(u, u.players[seat]);
      PendingCanAct(u, u.players[seat]);
      SelfSeat(c, n);
      if m + x - 1 >= n {
        SeatWrap(c, m + x - 1 - n, n);
      }
    }
  }

  /** Passing the turn on shortens the street, if nobody but the actor has become pending. */
  lemma PassingShortens(s: GameState, u: GameState, j: nat)
    requires 0 <= s.current < |s.players| && |u.players| == |s.players|
    requires u.current == NextToAct(u.players, s.current) && u.current != -1
    requires !Pending(u, u.players[s.current])
    requires forall i :: 0 <= i < |u.players| && Pending(u, u.players[i]) ==> Pending(s, s.players[i])
    requires j < |u.players| && Pending(u, u.players[j])
    ensures 0 <= u.current < |u.players| && 1 <= Left(u) < Left(s)
  {
    hide Pending, SeatAfter, CanAct, NextFrom, Span;
    var n := |u.players|;
    SeatsInRange(s.current, n);
    var m := LastPending(u, s.current);
    PendingIsLeft(u, j);
    SpanFinds(s, s.current, n, m + Left(u) - 1);
  }

  lemma PendingIsLeft(u: GameState, j: nat)
    requires 0 <= u.current < |u.players| && j < |u.players| && Pending(u, u.players[j])
    ensures Left(u) > 0
  {
    hide Pending, SeatAfter;
    var n := |u.players|;
    SelfSeat(u.current, n);
    if j == u.current {
      SpanFinds(u, u.current, n, 0);
    } else {
      var d := SeatOffset(u.current, j, n);
      SpanFinds(u, u.current, n, d);
    }
  }

  // ----- One action -----

  /** A raise to no more than the seat has already bet: legal for a seat above the table's bet, and
      it changes nothing. */
  predicate Idle(s: GameState, a: PlayerAction)
    requires 0 <= s.current < |s.players|
  {
    a.action == Raise && a.amount <= s.players[s.current].bet
  }

  /** What a legal action does to the actor and the bet, unless it is idle. */
  ghost predicate Stepped(s: GameState, a: PlayerAction, t: GameState)
    requires 0 <= s.current < |s.players|
  {
    && |t.players| == |s.players|
    && t.players == s.players[s.current := t.players[s.current]]
    && SeatStepped(s.players[s.current], t.players[s.current], t.currentBet)
    && t.currentBet >= s.currentBet
    && (t.currentBet == s.currentBet ==> t.minRaise == s.minRaise)
    && (t.currentBet > s.currentBet ==>
          && t.players[s.current].bet == t.currentBet && t.minRaise == t.currentBet - s.currentBet
          && (t.players[s.current].stack == 0 || t.minRaise >= s.minRaise))
    && t.history == s.history + [a]
    && t.phase == s.phase && t.current == s.current && t.blinds == s.blinds && t.dealer == s.dealer
  }

  ghost predicate SeatStepped(p: Player, q: Player, bet: int) {
    && q.id == p.id && q.stack + q.contributed == p.stack + p.contributed
    && q.contributed - q.bet == p.contributed - p.bet
    && 0 <= q.stack && (q.allIn || 0 < q.stack)
    && (CanAct(q) ==> q.bet == bet)
  }

  lemma PaysIn(p: Player, amount: int)
    requires CanAct(p) && amount <= p.stack
    ensures var q := PayIn(p, amount);
            && q.id == p.id && q.stack + q.contributed == p.stack + p.contributed
            && q.contributed - q.bet == p.contributed - p.bet && q.bet == p.bet + amount
            && (q.allIn <==> q.stack == 0) && 0 <= q.stack == p.stack - amount
  {
  }

  lemma ActSteps(s: GameState, a: PlayerAction)
    requires DistinctIds(s.players) && HasMover(s) && Legal(s, a) && !Idle(s, a) && 0 < s.minRaise
    ensures IndexOf(s.players, a.playerId) == s.current && a.playerId == s.players[s.current].id
    ensures Stepped(s, a, Act(s, a))
  {
    hide IndexOf, DistinctIds, PayIn;
    IndexOfDistinct(s.players, s.current);
    var p := s.players[s.current];
    match a.action {
      case Fold =>
      case Check =>
        assert s.players == s.players[s.current := p];
      case Call =>
        PaysIn(p, Min(s.currentBet - p.bet, p.stack));
      case Raise =>
        PaysIn(p, a.amount - p.bet);
      case AllIn =>
        PaysIn(p, p.stack);
    }
  }

  // ----- Tables in order -----

  /** A seat with chips unless it is all-in, whose owner, if able to act, has put level into the
      finished streets and is above the table's bet only before his first action. */
  ghost predicate SeatInOrder(s: GameState, p: Player, level: int) {
    && (p.allIn || 0 < p.stack)
    && (CanAct(p) ==> p.contributed - p.bet == level)
    && (CanAct(p) ==> p.bet <= s.currentBet || (s.phase == PreFlop && !Acted(s, p.id)))
  }

  ghost predicate TableInOrder(s: GameState, level: int) {
    forall i :: 0 <= i < |s.players| ==> SeatInOrder(s, s.players[i], level)
  }

  /** What holds from every deal on, short big blinds included, as long as nobody raises idly. */
  ghost predicate Orderly(s: GameState) {
    && Loose(s) && Playing(s) && HasMover(s)
    && TableInOrder(s, Level(s))
    && (s.phase != PreFlop ==> EveryoneActed(s))
  }

  function Total(p: Player): int { p.stack + p.contributed }

  /** Everybody brought at least low, and at most one player more than cap. */
  ghost predicate Sized(ps: seq<Player>, low: int, cap: int) {
    && low <= cap
    && (forall i :: 0 <= i < |ps| ==> low <= Total(ps[i]))
    && (forall i, j :: 0 <= i < j < |ps| ==> Total(ps[i]) <= cap || Total(ps[j]) <= cap)
  }

  /** Until somebody can be all-in, a raise is at least the big blind. */
  ghost predicate FullRaises(s: GameState, low: int)
    requires 0 <= s.current < |s.players|
  {
    Height(s) < low ==> s.minRaise >= s.blinds.big
  }

  ghost predicate Bounded(s: GameState, low: int, cap: int) {
    Orderly(s) && Sized(s.players, low, cap) && FullRaises(s, low)
  }

  lemma ActorsAfter(s: GameState, a: PlayerAction, t: GameState)
    requires t.history == s.history + [a]
    ensures forall id :: Acted(t, id) <==> Acted(s, id) || id == a.playerId
  {
    forall id | Acted(s, id) || id == a.playerId ensures Acted(t, id) {
      if Acted(s, id) {
        var k :| 0 <= k < |s.history| && s.history[k].playerId == id;
        assert t.history[k] == s.history[k];
      } else {
        assert t.history[|s.history|] == a;
      }
    }
  }

  lemma OthersId(ps: seq<Player>, c: nat, i: nat)
    requires DistinctIds(ps) && c < |ps| && i < |ps| && i != c
    ensures ps[i].id != ps[c].id
  {
  }

  lemma StepKeepsOrder(s: GameState, a: PlayerAction, t: GameState, level: int)
    requires DistinctIds(s.players) && HasMover(s) && a.playerId == s.players[s.current].id
    requires TableInOrder(s, level) && Stepped(s, a, t)
    ensures TableInOrder(t, level)
    ensures !Pending(t, t.players[s.current])
    ensures s.phase != PreFlop && EveryoneActed(s) ==> EveryoneActed(t)
  {
    hide Acted, DistinctIds;
    ActorsAfter(s, a, t);
    forall i | 0 <= i < |t.players| ensures SeatInOrder(t, t.players[i], level) {
      assert SeatInOrder(s, s.players[i], level);
      if i != s.current {
        OthersId(s.players, s.current, i);
      }
    }
    if s.phase != PreFlop && EveryoneActed(s) {
      forall i | 0 <= i < |t.players| && CanAct(t.players[i]) ensures Acted(t, t.players[i].id) {
        assert CanAct(s.players[i]);
      }
    }
  }

  /** Without a raise, or with one above everybody else's reach, nobody new is pending. */
  lemma NobodyNewPending(s: GameState, a: PlayerAction, t: GameState, low: int, cap: int)
    requires Bounded(s, low, cap) && a.playerId == s.players[s.current].id && Stepped(s, a, t)
    requires t.currentBet == s.currentBet || cap <= Height(s)
    ensures forall i :: 0 <= i < |t.players| && i != s.current && Pending(t, t.players[i]) ==>
              Pending(s, s.players[i])
  {
    hide Acted, DistinctIds, Playing, Sum, Count, EveryoneActed;
    ActorsAfter(s, a, t);
    assert SeatInOrder(s, s.players[s.current], Level(s));
    forall i | 0 <= i < |t.players| && i != s.current && Pending(t, t.players[i]) ensures Pending(s, s.players[i]) {
      assert SeatInOrder(s, s.players[i], Level(s));
      if t.currentBet > s.currentBet {
        OutOfReach(s, t, i, low, cap);
      }
    }
  }

  /** Above the cap only one player is left to raise. */
  lemma OutOfReach(s: GameState, t: GameState, i: nat, low: int, cap: int)
    requires 0 <= s.current < |s.players| && i < |s.players| && i != s.current
    requires Sized(s.players, low, cap) && cap <= Height(s)
    requires |t.players| == |s.players| && SeatStepped(s.players[s.current], t.players[s.current], t.currentBet)
    requires t.players[s.current].bet == t.currentBet > s.currentBet
    requires CanAct(s.players[i]) && s.players[i].contributed - s.players[i].bet == Level(s)
    ensures s.players[i].bet != s.currentBet
  {
    assert Total(s.players[s.current]) > cap;
    assert Total(s.players[i]) <= cap;
  }

  /** While a street stays open, somebody is pending. */
  lemma SomeonePending(t: GameState, level: int) returns (j: nat)
    requires TableInOrder(t, level) && t.players != [] && !RoundComplete(t)
    ensures j < |t.players| && Pending(t, t.players[j])
  {
    hide Count, Acted, TableInOrder;
    if j0 :| 0 <= j0 < |t.players| && CanAct(t.players[j0]) && t.players[j0].bet != t.currentBet {
      j := j0;
    } else if t.phase == PreFlop && BigBlindHasOption(t) {
      j := BigBlindIndex(t.players);
      SeatOrder(t, level, j);
    } else {
      j :| 0 <= j < |t.players| && CanAct(t.players[j]) && !Acted(t, t.players[j].id);
    }
  }

  lemma SeatOrder(t: GameState, level: int, i: nat)
    requires TableInOrder(t, level) && i < |t.players|
    ensures SeatInOrder(t, t.players[i], level)
  {
  }

  // ----- Raises use up room -----

  lemma QuotientAtLeast(a: int, k: int, big: int)
    requires big > 0 && big * k <= a
    ensures k <= a / big
  {
    var q := a / big;
    assert a == big * q + a % big;
    assert q < k ==> big * (q + 1) <= big * k;
  }

  /** A step of a big blind lowers the whole steps left by one at least. */
  lemma WholeSteps(a: int, b: int, big: int)
    requires big > 0 && b <= a - big
    ensures (b + big - 1) / big <= (a + big - 1) / big - 1
  {
    var x := (b + big - 1) / big;
    assert b + big - 1 == big * x + (b + big - 1) % big;
    assert big * (x + 1) == big * x + big;
    QuotientAtLeast(a + big - 1, x + 1, big);
  }

  /** A raise below the cap uses up one. */
  lemma RaiseCounts(h: int, h': int, low: int, cap: int, big: int)
    requires big > 0 && low <= cap && h < h' && h < cap
    requires h < low ==> low <= h' || h + big <= h'
    ensures Raises(h', low, cap, big) < Raises(h, low, cap, big)
  {
    if h < low {
      QuotientAtLeast(low - h + big - 1, 1, big);
      if h' < low {
        WholeSteps(low - h, low - h', big);
      }
    }
  }

  // ----- The bound goes down -----

  /** One action that leaves the street open. */
  lemma StayingDrops(s: GameState, a: PlayerAction, t: GameState, low: int, cap: int)
    requires Bounded(s, low, cap) && a.playerId == s.players[s.current].id && Stepped(s, a, t)
    requires !RoundComplete(t) && NextToAct(t.players, s.current) != -1
    requires Streets(s) > 0
    ensures var u := t.(current := NextToAct(t.players, s.current));
            && HasMover(u) && TableInOrder(u, Level(u)) && FullRaises(u, low)
            && (s.phase != PreFlop ==> EveryoneActed(u))
            && Streets(u) == Streets(s) && u.blinds == s.blinds
            && Turns(u, low, cap) < Turns(s, low, cap)
  {
    hide Pending, Acted, Sized, Loose, Playing, RoundComplete, NextFrom, Span, Raises, EveryoneActed;
    var u := t.(current := NextToAct(t.players, s.current));
    NextCanAct(t.players, s.current, 1);
    IdsOf(s);
    CapIsAbove(s.players, low, cap);
    StepKeepsOrder(s, a, t, Level(s));
    SameButTurn(t, u);
    NewLevel(u, Level(s));
    StepRaises(s, a, t, low, cap);
    TwoAtLeast(s);
    if t.currentBet > s.currentBet && Height(s) < cap {
      var m := LastPending(u, s.current);
      ScaleDown(|s.players| - 1, Raises(Height(u), low, cap, s.blinds.big), Raises(Height(s), low, cap, s.blinds.big));
    } else {
      NobodyNewPending(s, a, t, low, cap);
      var j := SomeonePending(t, Level(s));
      PassingShortens(s, u, j);
      NotMore(|s.players| - 1, Raises(Height(u), low, cap, s.blinds.big), Raises(Height(s), low, cap, s.blinds.big));
    }
  }

  lemma IdsOf(s: GameState)
    requires Loose(s)
    ensures DistinctIds(s.players) && 0 < s.minRaise && 0 < s.blinds.big
  {
  }

  lemma CapIsAbove(ps: seq<Player>, low: int, cap: int)
    requires Sized(ps, low, cap)
    ensures low <= cap
  {
  }

  lemma TwoAtLeast(s: GameState)
    requires Playing(s)
    ensures |s.players| >= 2
  {
    CountBounds(s.players, Unfolded);
  }

  lemma SameButTurn(t: GameState, u: GameState)
    requires u == t.(current := u.current)
    ensures forall id :: Acted(u, id) <==> Acted(t, id)
    ensures forall p :: Pending(u, p) <==> Pending(t, p)
    ensures forall level :: TableInOrder(t, level) ==> TableInOrder(u, level)
    ensures EveryoneActed(t) ==> EveryoneActed(u)
  {
    forall level | TableInOrder(t, level) ensures TableInOrder(u, level) {
      forall i | 0 <= i < |u.players| ensures SeatInOrder(u, u.players[i], level) {
        assert SeatInOrder(t, t.players[i], level);
      }
    }
  }

  lemma NewLevel(u: GameState, level: int)
    requires TableInOrder(u, level) && HasMover(u)
    ensures Level(u) == level
  {
    SeatOrder(u, level, u.current);
  }

  /** The height after an action: as before, or raised, by at least the big blind if nobody can be
      all-in there. */
  lemma StepRaises(s: GameState, a: PlayerAction, t: GameState, low: int, cap: int)
    requires Bounded(s, low, cap) && Stepped(s, a, t)
    ensures var h, h' := Height(s), Level(s) + t.currentBet;
            && h <= h' && Raises(h', low, cap, s.blinds.big) <= Raises(h, low, cap, s.blinds.big)
            && (h < h' && h < cap ==> Raises(h', low, cap, s.blinds.big) < Raises(h, low, cap, s.blinds.big))
            && (h' < low ==> t.minRaise >= s.blinds.big)
  {
    hide Raises, Playing, TableInOrder, Acted, DistinctIds, EveryoneActed, Sum, Count;
    var h, h' := Height(s), Level(s) + t.currentBet;
    if h < h' {
      var q := t.players[s.current];
      assert h' == q.contributed && q.stack + q.contributed == Total(s.players[s.current]);
      if h < cap {
        RaiseCounts(h, h', low, cap, s.blinds.big);
      } else {
        NoneAbove(h, low, cap, s.blinds.big);
        NoneAbove(h', low, cap, s.blinds.big);
      }
    }
  }

  lemma NoneAbove(h: int, low: int, cap: int, big: int)
    requires big > 0 && low <= cap <= h
    ensures Raises(h, low, cap, big) == 0
  {
  }

  lemma ScaleDown(n: nat, x: nat, y: nat)
    requires x < y
    ensures n + n * x <= n * y
  {
    assert n * y == n * x + n + n * (y - x - 1);
    assert n * (y - x - 1) >= 0;
  }

  lemma NotMore(n: nat, x: nat, y: nat)
    requires x <= y
    ensures n * x <= n * y
  {
  }

  /** What the street after this one looks like, if there is one. */
  ghost predicate Opened(t: GameState, r: GameState) {
    && r.players == ClearBets(t.players) && r.currentBet == 0 && r.minRaise == t.blinds.big
    && r.blinds == t.blinds && r.history == t.history
    && r.phase != PreFlop && Streets(r) == Streets(t) - 1
  }

  lemma NextOpens(t: GameState)
    requires BoardFits(t) && t.players != [] && Count(t.players, Unfolded) >= 1
    ensures var r := AdvancePhase(t);
            r.phase == HandComplete || (Opened(t, r) && BoardFits(r) && Count(r.players, Unfolded) == Count(t.players, Unfolded))
  {
    hide SidePots, Count, NextFrom, AfterShowdown, FullBoard;
    UnfoldedUnchanged(t.players);
    var c := CloseRound(t);
    FullBoardHasFive(c);
    ShowdownFinishes(FullBoard(c));
    if t.phase != River {
      var d := DealBoard(c, if t.phase == PreFlop then 3 else 1).(
                 phase := if t.phase == PreFlop then Flop else if t.phase == Flop then Turn else River);
      FullBoardHasFive(d);
      ShowdownFinishes(FullBoard(d));
    }
  }

  /** The next street starts in order, at the height the last one reached, with nobody pending. */
  lemma OpenedInOrder(t: GameState, r: GameState, level: int)
    requires TableInOrder(t, level) && BetsMet(t) && EveryoneActed(t)
    requires Opened(t, r) && HasMover(r)
    ensures TableInOrder(r, Level(r)) && EveryoneActed(r)
    ensures Height(r) == level + t.currentBet && Left(r) == 0
  {
    hide Acted, TableInOrder;
    StreetKeepsActors(t, r);
    ActorsStay(t, r);
    forall i | 0 <= i < |r.players| && CanAct(r.players[i])
      ensures r.players[i].contributed == level + t.currentBet && r.players[i].bet == 0
    {
      assert CanAct(t.players[i]);
      SeatOrder(t, level, i);
    }
    forall i | 0 <= i < |r.players| ensures SeatInOrder(r, r.players[i], level + t.currentBet) {
      SeatOrder(t, level, i);
    }
    InOrder(r, level + t.currentBet);
    forall i | 0 <= i < |r.players| ensures !Pending(r, r.players[i]) {
      assert CanAct(r.players[i]) ==> Acted(r, r.players[i].id);
    }
    NobodyLeft(r);
  }

  lemma InOrder(r: GameState, level: int)
    requires forall i :: 0 <= i < |r.players| ==> SeatInOrder(r, r.players[i], level)
    ensures TableInOrder(r, level)
  {
  }

  lemma ActorsStay(t: GameState, r: GameState)
    requires r.history == t.history
    ensures forall id :: Acted(r, id) <==> Acted(t, id)
  {
  }

  lemma NobodyLeft(r: GameState)
    requires 0 <= r.current < |r.players| && forall i :: 0 <= i < |r.players| ==> !Pending(r, r.players[i])
    ensures Left(r) == 0
  {
    hide Pending, SeatAfter;
    SeatsInRange(r.current, |r.players|);
    SpanEnds(r, r.current, |r.players|);
  }

  /** One action that closes the street, with another to come. */
  lemma ClosingDrops(s: GameState, a: PlayerAction, t: GameState, r: GameState, low: int, cap: int)
    requires Bounded(s, low, cap) && a.playerId == s.players[s.current].id && Stepped(s, a, t)
    requires Streets(s) > 0
    requires Count(t.players, Unfolded) >= 2
    requires NextToAct(t.players, s.current) == -1 || RoundComplete(t)
    requires Opened(t, r) && HasMover(r) && Streets(r) > 0
    ensures TableInOrder(r, Level(r)) && EveryoneActed(r) && FullRaises(r, low) && r.blinds == s.blinds
    ensures Turns(r, low, cap) < Turns(s, low, cap)
  {
    hide Pending, Acted, Sized, Loose, Playing, RoundComplete, NextFrom, Span, Raises, EveryoneActed, BetsMet, Count;
    IdsOf(s);
    CapIsAbove(s.players, low, cap);
    StepKeepsOrder(s, a, t, Level(s));
    StreetCloses(t, s.current);
    OpenedInOrder(t, r, Level(s));
    StepRaises(s, a, t, low, cap);
    NotMore(|s.players| - 1, Raises(Height(r), low, cap, s.blinds.big), Raises(Height(s), low, cap, s.blinds.big));
  }

  lemma SizedAfter(ps: seq<Player>, qs: seq<Player>, low: int, cap: int)
    requires Sized(ps, low, cap) && SameSeats(ps, qs)
    ensures Sized(qs, low, cap)
  {
    forall i | 0 <= i < |qs| ensures Total(qs[i]) == Total(ps[i]) {
    }
  }

  lemma StreetsToGo(s: GameState)
    requires BoardFits(s)
    ensures Streets(s) > 0
  {
  }

  /** Every legal action that is not idle, and does not end the hand, lowers the bound. */
  lemma ActionLowersTurns(s: GameState, a: PlayerAction, low: int, cap: int)
    requires Bounded(s, low, cap) && Legal(s, a) && !Idle(s, a)
    ensures var r := ApplyAction(s, a);
            r.phase != HandComplete ==>
              Bounded(r, low, cap) && Streets(s) > 0 && Streets(r) > 0
              && r.blinds == s.blinds && Turns(r, low, cap) < Turns(s, low, cap)
  {
    hide Legal, Act, Loose, AdvancePhase, AfterShowdown, AfterFold, RoundComplete, NextFrom, Count, SameSeats,
      Payable, Turns, TableInOrder, Sized, EveryoneActed, FullRaises, Stepped, Opened, BoardFits, Idle;
    IdsOf(s);
    ActSteps(s, a);
    ActedTable(s, a);
    var t := Act(s, a);
    var r, e := ActionKeepsLoose(s, a);
    Finished(r, e, ApplyAction(s, a));
    FoldFinishes(t);
    if ApplyAction(s, a).phase != HandComplete {
      SizedAfter(s.players, r.players, low, cap);
      SteppedTable(s, a, t);
      StreetsToGo(s);
      if NextToAct(t.players, s.current) == -1 || RoundComplete(t) {
        NextOpens(t);
        StreetsToGo(r);
        ClosingDrops(s, a, t, r, low, cap);
      } else {
        StayingDrops(s, a, t, low, cap);
        SameBoard(t, NextToAct(t.players, s.current));
      }
    }
  }

  lemma SteppedTable(s: GameState, a: PlayerAction, t: GameState)
    requires 0 <= s.current < |s.players| && Stepped(s, a, t)
    ensures t.phase == s.phase && t.players != [] && t.blinds == s.blinds
  {
  }

  lemma SameBoard(t: GameState, next: int)
    ensures BoardFits(t) ==> BoardFits(t.(current := next))
  {
  }

  // ----- Runs -----

  /** Nobody raises idly. */
  predicate NoIdling(s: GameState, actions: seq<PlayerAction>)
    requires LegalRun(s, actions)
    decreases |actions|
  {
    actions == [] || (!Idle(s, actions[0]) && NoIdling(ApplyAction(s, actions[0]), actions[1..]))
  }

  lemma {:induction false} RunWithinTurns(s: GameState, actions: seq<PlayerAction>, low: int, cap: int)
    requires Bounded(s, low, cap) && LegalRun(s, actions) && NoIdling(s, actions)
    ensures Streets(s) > 0 && 0 < Turns(s, low, cap) && |actions| <= Turns(s, low, cap)
    decreases |actions|
  {
    hide Legal, Loose, ApplyAction, Turns, TableInOrder, Sized, EveryoneActed, FullRaises, BoardFits, Count, Idle;
    StreetsToGo(s);
    IdsOf(s);
    CapIsAbove(s.players, low, cap);
    SomeTurns(s, low, cap);
    if actions != [] {
      var t := ApplyAction(s, actions[0]);
      ActionLowersTurns(s, actions[0], low, cap);
      if t.phase == HandComplete {
        HandsEnd(t, actions[1..]);
      } else {
        RunWithinTurns(t, actions[1..], low, cap);
      }
    }
  }

  lemma SomeTurns(s: GameState, low: int, cap: int)
    requires 0 <= s.current < |s.players| && s.blinds.big > 0 && low <= cap && Streets(s) > 0
    ensures Turns(s, low, cap) > 0
  {
    hide Raises, Left;
    assert (|s.players| - 1) * Raises(Height(s), low, cap, s.blinds.big) >= 0;
  }

  // ----- From the deal -----

  /** The smallest stack. */
  function Lowest(ps: seq<Player>): int
    requires ps != []
  {
    if |ps| == 1 then ps[0].stack else Min(Lowest(ps[..|ps| - 1]), ps[|ps| - 1].stack)
  }

  function Highest(ps: seq<Player>): int
    requires ps != []
  {
    if |ps| == 1 then ps[0].stack else Max(Highest(ps[..|ps| - 1]), ps[|ps| - 1].stack)
  }

  /** The largest stack but one. */
  function Second(ps: seq<Player>): int
    requires |ps| >= 2
  {
    var init, last := ps[..|ps| - 1], ps[|ps| - 1].stack;
    if |ps| == 2 then Min(ps[0].stack, last) else Max(Second(init), Min(Highest(init), last))
  }

  lemma {:induction false} StackRange(ps: seq<Player>)
    requires ps != []
    ensures forall i :: 0 <= i < |ps| ==> Lowest(ps) <= ps[i].stack <= Highest(ps)
    ensures exists i :: 0 <= i < |ps| && Lowest(ps) == ps[i].stack
    ensures exists i :: 0 <= i < |ps| && Highest(ps) == ps[i].stack
  {
    if |ps| > 1 {
      var k := |ps| - 1;
      StackRange(ps[..k]);
      var i :| 0 <= i < k && Lowest(ps[..k]) == ps[..k][i].stack;
      var j :| 0 <= j < k && Highest(ps[..k]) == ps[..k][j].stack;
      assert ps[i].stack == Lowest(ps[..k]) && ps[j].stack == Highest(ps[..k]);
      assert forall h :: 0 <= h < k ==> ps[h] == ps[..k][h];
    }
  }

  lemma {:induction false} OneAboveSecond(ps: seq<Player>)
    requires |ps| >= 2
    ensures Lowest(ps) <= Second(ps)
    ensures forall i, j :: 0 <= i < j < |ps| ==> ps[i].stack <= Second(ps) || ps[j].stack <= Second(ps)
  {
    var k := |ps| - 1;
    if k > 1 {
      OneAboveSecond(ps[..k]);
      StackRange(ps[..k]);
      forall i, j | 0 <= i < j < |ps| ensures ps[i].stack <= Second(ps) || ps[j].stack <= Second(ps) {
        assert ps[..k][i] == ps[i];
        assert j < k ==> ps[..k][j] == ps[j];
      }
    } else {
      assert ps[..1] == [ps[0]];
    }
  }

  /** No hand is longer than this, counted from the stacks and the blinds: everybody once, one
      action for each later street, and for each raise a round of the others. */
  function TurnLimit(players: seq<Player>, dealer: nat, blinds: Blinds): int
    requires |players| >= 2 && blinds.big > 0
  {
    OneAboveSecond(players);
    var bb := players[SeatAfter(dealer, 2, |players|)];
    |players| + 3
    + (|players| - 1) * Raises(Min(blinds.big, bb.stack), Lowest(players), Second(players), blinds.big)
  }

  lemma StartInOrder(players: seq<Player>, dealer: nat, blinds: Blinds, deck: seq<Card>)
    requires Deal(players, blinds, deck)
    ensures TableInOrder(NewHand(players, dealer, blinds, deck), 0)
  {
    hide NewHand, DealOrder, SeatAfter, NextFrom;
    SeatsInRange(dealer, |players|);
    NewSeats(players, dealer, blinds, deck);
    NewRest(players, dealer, blinds, deck);
  }

  /** A table on which nothing has been put into a finished street. */
  lemma AtLevelZero(s: GameState, players: seq<Player>)
    requires Loose(s) && Playing(s) && HasMover(s) && s.phase == PreFlop && TableInOrder(s, 0)
    requires |players| >= 2 && SameStart(players, s.players) && s.minRaise == s.blinds.big
    ensures Bounded(s, Lowest(players), Second(players)) && Height(s) == s.currentBet
  {
    hide Loose, Playing, TableInOrder, Lowest, Second;
    NewLevel(s, 0);
    StartSized(players, s.players);
  }

  lemma StartIsBounded(players: seq<Player>, dealer: nat, blinds: Blinds, deck: seq<Card>)
    requires Deal(players, blinds, deck) && SomeoneLeft(players, dealer, blinds)
    ensures var s := NewHand(players, dealer, blinds, deck);
            && Bounded(s, Lowest(players), Second(players)) && Streets(s) > 0
            && Turns(s, Lowest(players), Second(players)) <= TurnLimit(players, dealer, blinds)
  {
    hide NewHand, DealOrder, SeatAfter, NextFrom, Loose, Raises, Lowest, Second, Bounded, SomeoneLeft, TableInOrder,
      Count, DistinctIds, SameStart, Span;
    var s := NewHand(players, dealer, blinds, deck);
    SeatsInRange(dealer, |players|);
    NewSeats(players, dealer, blinds, deck);
    NewRest(players, dealer, blinds, deck);
    NewTable(players, dealer, blinds, deck);
    NewHandIsLoose(players, dealer, blinds, deck);
    FirstActor(players, dealer, blinds, deck);
    StartInOrder(players, dealer, blinds, deck);
    AtLevelZero(s, players);
    SpanEnds(s, s.current, |players|);
    OneAboveSecond(players);
  }

  lemma StartSized(players: seq<Player>, ps: seq<Player>)
    requires |players| >= 2 && SameStart(players, ps)
    ensures Sized(ps, Lowest(players), Second(players))
  {
    OneAboveSecond(players);
    StackRange(players);
    forall i | 0 <= i < |ps| ensures Total(ps[i]) == players[i].stack {
    }
  }

  /** From every deal, a run of legal actions without an idle raise keeps within the limit. */
  lemma HandsAreFinite(players: seq<Player>, dealer: nat, blinds: Blinds, deck: seq<Card>, actions: seq<PlayerAction>)
    requires Deal(players, blinds, deck)
    requires LegalRun(NewHand(players, dealer, blinds, deck), actions)
    requires NoIdling(NewHand(players, dealer, blinds, deck), actions)
    ensures |actions| <= TurnLimit(players, dealer, blinds)
  {
    hide NewHand, LegalRun, NoIdling, Bounded, Turns, Raises, Lowest, Second, SeatAfter;
    var s := NewHand(players, dealer, blinds, deck);
    OneAboveSecond(players);
    if SomeoneLeft(players, dealer, blinds) {
      StartIsBounded(players, dealer, blinds, deck);
      RunWithinTurns(s, actions, Lowest(players), Second(players));
    } else {
      FirstActor(players, dealer, blinds, deck);
      NobodyMoves(s, actions);
      LimitIsPositive(players, dealer, blinds);
    }
  }

  lemma NobodyMoves(s: GameState, actions: seq<PlayerAction>)
    requires s.current == -1 && LegalRun(s, actions)
    ensures actions == []
  {
  }

  lemma LimitIsPositive(players: seq<Player>, dealer: nat, blinds: Blinds)
    requires |players| >= 2 && blinds.big > 0
    ensures TurnLimit(players, dealer, blinds) > 0
  {
    hide Raises, Lowest, Second, SeatAfter;
    SeatsInRange(dealer, |players|);
    OneAboveSecond(players);
    var bb := players[SeatAfter(dealer, 2, |players|)];
    assert (|players| - 1) * Raises(Min(blinds.big, bb.stack), Lowest(players), Second(players), blinds.big) >= 0;
  }
}
