// The Texas Hold'em state machine: dealing, blinds, actions, streets and showdown
// (ghosts/rdc-poker/src/gameEngine.ts).
module Engine {
  import opened Seqs
  import opened PokerTypes
  import opened Evaluator
  import opened Pot

  // ----- Seats -----

  /** The seat k places after from, going round the table. */
  function SeatAfter(from: int, k: nat, n: nat): nat
    requires n > 0 && from >= 0
  {
    (from + k) % n
  }

  /** The first of the next places from the k-th on where the player can act, or -1. */
  function NextFrom(ps: seq<Player>, from: nat, k: nat): int
    requires ps != [] && 1 <= k <= |ps| + 1
    decreases |ps| + 1 - k
  {
    if k > |ps| then -1
    else if CanAct(ps[SeatAfter(from, k, |ps|)]) then SeatAfter(from, k, |ps|)
    else NextFrom(ps, from, k + 1)
  }

  function NextToAct(ps: seq<Player>, from: nat): int
    requires ps != []
  {
    NextFrom(ps, from, 1)
  }

  method FindNextActivePlayer(players: seq<Player>, fromIndex: nat) returns (r: int)
    requires players != []
    ensures r == NextToAct(players, fromIndex)
  {
    var i := 1;
    while i <= |players|
      invariant 1 <= i <= |players| + 1
      invariant NextToAct(players, fromIndex) == NextFrom(players, fromIndex, i)
    {
      var idx := (fromIndex + i) % |players|;
      if CanAct(players[idx]) {
        return idx;
      }
      i := i + 1;
    }
    return -1;
  }

  /** The position of the player with this id, or -1 (Array.findIndex). */
  function IndexOf(ps: seq<Player>, id: string): (i: int)
    ensures -1 <= i < |ps|
    ensures i >= 0 ==> ps[i].id == id
    ensures i == -1 ==> forall p :: p in ps ==> p.id != id
  {
    if ps == [] then -1
    else
      var i := IndexOf(ps[..|ps| - 1], id);
      if i >= 0 then i
      else if ps[|ps| - 1].id == id then |ps| - 1
      else -1
  }

  // ----- A new hand -----

  /** A player as a hand finds it: reset, with two hole cards. */
  function Seated(p: Player, hole: seq<Card>, isBigBlind: bool): Player {
    Player(p.id, p.stack, hole, 0, 0, false, false, isBigBlind)
  }

  /** Posting a blind: as much of it as the stack allows. */
  function Post(p: Player, blind: int): Player {
    var amount := Min(blind, p.stack);
    p.(stack := p.stack - amount, bet := amount, contributed := amount,
       allIn := p.stack - amount == 0)
  }

  /** How many places after the dealer's left this seat is served. */
  function DealOrder(dealer: nat, seat: nat, n: nat): nat
    requires seat < n
  {
    (seat + 2 * n - dealer % n - 1) % n
  }

  function DealtPlayers(players: seq<Player>, dealer: nat, deck: seq<Card>): (r: seq<Player>)
    requires players != [] && 2 * |players| <= |deck|
    ensures |r| == |players|
  {
    seq(|players|, i requires 0 <= i < |players| =>
      var k := DealOrder(dealer, i, |players|);
      Seated(players[i], deck[2 * k..2 * k + 2], i == SeatAfter(dealer, 2, |players|)))
  }

  function NewHand(players: seq<Player>, dealer: nat, blinds: Blinds, deck: seq<Card>): GameState
    requires |players| >= 2 && 2 * |players| <= |deck|
  {
    var n := |players|;
    var sb, bb := SeatAfter(dealer, 1, n), SeatAfter(dealer, 2, n);
    var dealt := DealtPlayers(players, dealer, deck);
    var ps1 := dealt[sb := Post(dealt[sb], blinds.small)];
    var ps2 := ps1[bb := Post(ps1[bb], blinds.big)];
    GameState(PreFlop, ps2, [], ps2[sb].bet + ps2[bb].bet, [], NextToAct(ps2, bb), dealer, blinds,
              blinds.big, ps2[bb].bet, [], deck[2 * n..], [])
  }

  /** The seat served k-th after the dealer is served k-th. */
  lemma DealOrderInverts(dealer: nat, k: nat, n: nat)
    requires k < n
    ensures DealOrder(dealer, SeatAfter(dealer, 1 + k, n), n) == k
  {
    var d := dealer % n;
    assert dealer == n * (dealer / n) + d;
    var q := dealer / n;
    if d + 1 + k < n {
      Reduce(dealer + 1 + k, q, d + 1 + k, n);
      Reduce(k + 2 * n, 2, k, n);
    } else {
      Reduce(dealer + 1 + k, q + 1, d + 1 + k - n, n);
      Reduce(k + n, 1, k, n);
    }
  }

  lemma Reduce(a: int, q: int, r: int, n: int)
    requires 0 <= r < n && a == n * q + r
    ensures a % n == r
  {
    var q' := a / n;
    assert q' < q ==> n * (q' + 1) <= n * q;
    assert q < q' ==> n * (q + 1) <= n * q';
  }

  lemma SeatsInTurn(dealer: nat, j: nat, k: nat, n: nat)
    requires j < k < n
    ensures SeatAfter(dealer, 1 + j, n) != SeatAfter(dealer, 1 + k, n)
  {
    DealOrderInverts(dealer, j, n);
    DealOrderInverts(dealer, k, n);
  }

  /** Every seat is reached going once round the table. */
  lemma SeatReached(dealer: nat, seat: nat, n: nat)
    requires seat < n
    ensures SeatAfter(dealer, 1 + DealOrder(dealer, seat, n), n) == seat
  {
    var d := dealer % n;
    var q := dealer / n;
    assert dealer == n * q + d;
    if d + 1 <= seat {
      Reduce(seat + 2 * n - d - 1, 2, seat - d - 1, n);
      Reduce(dealer + 1 + (seat - d - 1), q, seat, n);
    } else if seat + n - d - 1 < n {
      Reduce(seat + 2 * n - d - 1, 1, seat + n - d - 1, n);
      Reduce(dealer + 1 + (seat + n - d - 1), q + 1, seat, n);
    }
  }

  /** The source's dealing loop: two cards to each player, starting left of the dealer. */
  method DealHoleCards(players: seq<Player>, dealerIndex: nat, shuffled: seq<Card>)
    returns (dealt: seq<Player>, currentDeck: seq<Card>)
    requires |players| >= 2 && 2 * |players| <= |shuffled|
    ensures dealt == DealtPlayers(players, dealerIndex, shuffled)
    ensures currentDeck == shuffled[2 * |players|..]
  {
    hide DealOrder;
    var n := |players|;
    var bbIndex := SeatAfter(dealerIndex, 2, n);
    ghost var goal := DealtPlayers(players, dealerIndex, shuffled);
    dealt := seq(n, i requires 0 <= i < n => Seated(players[i], [], i == bbIndex));
    currentDeck := shuffled;
    var i := 0;
    while i < n
      invariant 0 <= i <= n && |dealt| == n
      invariant currentDeck == shuffled[2 * i..]
      invariant forall k :: 0 <= k < n ==>
                  dealt[k] == if DealOrder(dealerIndex, k, n) < i then goal[k]
                              else Seated(players[k], [], k == bbIndex)
    {
      var playerIndex := SeatAfter(dealerIndex, 1 + i, n);
      var cards, remaining := currentDeck[..2], currentDeck[2..];
      assert cards == shuffled[2 * i..2 * i + 2] && remaining == shuffled[2 * (i + 1)..];
      DealOrderInverts(dealerIndex, i, n);
      forall k | 0 <= k < n && DealOrder(dealerIndex, k, n) == i ensures k == playerIndex {
        SeatReached(dealerIndex, k, n);
      }
      dealt := dealt[playerIndex := dealt[playerIndex].(hole := cards)];
      currentDeck := remaining;
      i := i + 1;
    }
    DealOrderBounds(dealerIndex, n);
  }

  lemma DealOrderBounds(dealer: nat, n: nat)
    ensures forall k :: 0 <= k < n ==> 0 <= DealOrder(dealer, k, n) < n
  {
  }

  lemma SeatBounds(dealer: nat, n: nat)
    requires n > 0
    ensures forall k: nat :: 0 <= SeatAfter(dealer, k, n) < n
    ensures forall i :: 0 <= i < n ==> 0 <= DealOrder(dealer, i, n) < n
  {
  }

  /** createNewHand on a shuffled deck: hole cards, then the two blinds. */
  method CreateNewHand(players: seq<Player>, dealerIndex: nat, blinds: Blinds, shuffled: seq<Card>)
    returns (state: GameState)
    requires |players| >= 2 && 2 * |players| <= |shuffled|
    ensures state == NewHand(players, dealerIndex, blinds, shuffled)
  {
    hide DealOrder, NextFrom, SeatAfter;
    SeatBounds(dealerIndex, |players|);
    var n := |players|;
    var sbIndex := SeatAfter(dealerIndex, 1, n);
    var bbIndex := SeatAfter(dealerIndex, 2, n);
    var reset, currentDeck := DealHoleCards(players, dealerIndex, shuffled);
    var sbAmount := Min(blinds.small, reset[sbIndex].stack);
    var sb := reset[sbIndex].(stack := reset[sbIndex].stack - sbAmount, bet := sbAmount, contributed := sbAmount);
    if sb.stack == 0 {
      sb := sb.(allIn := true);
    }
    reset := reset[sbIndex := sb];
    var bbAmount := Min(blinds.big, reset[bbIndex].stack);
    var bb := reset[bbIndex].(stack := reset[bbIndex].stack - bbAmount, bet := bbAmount, contributed := bbAmount);
    SeatsInTurn(dealerIndex, 0, 1, n);
    if bb.stack == 0 {
      bb := bb.(allIn := true);
    }
    reset := reset[bbIndex := bb];
    var firstToAct := FindNextActivePlayer(reset, bbIndex);
    state := GameState(PreFlop, reset, [], sbAmount + bbAmount, [], firstToAct, dealerIndex, blinds,
                       blinds.big, bbAmount, [], currentDeck, []);
  }

  // ----- Legal actions -----

  const NO_ACTIONS := AvailableActions(false, false, false, 0, false, 0, 0, false, 0)

  /** getAvailableActions */
  function Available(s: GameState, playerId: string): AvailableActions {
    var i := IndexOf(s.players, playerId);
    if i == -1 || s.players[i].folded || s.players[i].allIn then NO_ACTIONS
    else
      var p := s.players[i];
      var toCall := s.currentBet - p.bet;
      var callAmount := Min(toCall, p.stack);
      var minRaiseLevel := s.currentBet + s.minRaise;
      var allInLevel := p.stack + p.bet;
      AvailableActions(
        true,
        toCall == 0,
        toCall > 0 && p.stack > 0 && !(callAmount >= p.stack),
        callAmount,
        allInLevel >= minRaiseLevel && p.stack > toCall,
        minRaiseLevel,
        allInLevel,
        p.stack > 0,
        p.stack)
  }

  // ----- Acting -----

  /** Moving amount from a player's stack to the middle. */
  function PayIn(p: Player, amount: int): Player {
    p.(stack := p.stack - amount, bet := p.bet + amount, contributed := p.contributed + amount,
       allIn := p.allIn || p.stack - amount == 0)
  }

  /** The player and the betting of the table right after an action, before anything closes. */
  function Act(s: GameState, a: PlayerAction): GameState
    requires IndexOf(s.players, a.playerId) >= 0
  {
    var i := IndexOf(s.players, a.playerId);
    var p := s.players[i];
    var t := s.(history := s.history + [a]);
    match a.action
    case Fold => t.(players := s.players[i := p.(folded := true)])
    case Check => t
    case Call =>
      var toCall := Min(s.currentBet - p.bet, p.stack);
      t.(players := s.players[i := PayIn(p, toCall)], pot := s.pot + toCall)
    case Raise =>
      if a.amount - p.bet <= 0 || a.amount < s.currentBet then t
      else
        var actual := Min(a.amount - p.bet, p.stack);
        t.(players := s.players[i := PayIn(p, actual)], pot := s.pot + actual,
           currentBet := p.bet + actual, minRaise := p.bet + actual - s.currentBet)
    case AllIn =>
      var q := PayIn(p, p.stack);
      var u := t.(players := s.players[i := q], pot := s.pot + p.stack);
      if q.bet > s.currentBet then u.(minRaise := q.bet - s.currentBet, currentBet := q.bet) else u
  }

  predicate Acted(s: GameState, id: string) {
    exists k :: 0 <= k < |s.history| && s.history[k].playerId == id
  }

  function BigBlindIndex(ps: seq<Player>): (i: int)
    ensures -1 <= i < |ps|
    ensures i >= 0 ==> ps[i].bigBlind
  {
    if ps == [] then -1
    else
      var i := BigBlindIndex(ps[..|ps| - 1]);
      if i >= 0 then i else if ps[|ps| - 1].bigBlind then |ps| - 1 else -1
  }

  /** isBettingRoundComplete. The actors are those of the whole hand, not of the street. */
  predicate RoundComplete(s: GameState) {
    if Count(s.players, CanAct) == 0 then true
    else if Count(s.players, CanAct) == 1 && Count(s.players, Unfolded) <= 1 then true
    else if exists i :: 0 <= i < |s.players| && CanAct(s.players[i]) && s.players[i].bet != s.currentBet then false
    else if s.phase == PreFlop && BigBlindHasOption(s) then false
    else forall i :: 0 <= i < |s.players| && CanAct(s.players[i]) ==> Acted(s, s.players[i].id)
  }

  /** Before the flop the big blind may still act if nobody has raised it. */
  predicate BigBlindHasOption(s: GameState) {
    var b := BigBlindIndex(s.players);
    && b >= 0
    && !s.players[b].folded
    && !s.players[b].allIn
    && !Acted(s, s.players[b].id)
    && s.currentBet == s.blinds.big
  }

  // ----- Streets -----

  predicate EnoughCards(s: GameState) {
    |s.board| <= 5 <= |s.board| + |s.deck|
  }

  /** The street's board, with enough cards left to finish it. */
  predicate BoardFits(s: GameState) {
    && EnoughCards(s)
    && match s.phase
       case PreFlop => |s.board| == 0
       case Flop => |s.board| == 3
       case Turn => |s.board| == 4
       case River => |s.board| == 5
       case _ => false
  }

  function WithoutBet(p: Player): Player { p.(bet := 0) }

  function ClearBets(ps: seq<Player>): (r: seq<Player>)
    ensures |r| == |ps| && forall i :: 0 <= i < |ps| ==> r[i] == WithoutBet(ps[i])
  {
    seq(|ps|, i requires 0 <= i < |ps| => WithoutBet(ps[i]))
  }

  predicate LiveAllIn(p: Player) { p.allIn && !p.folded }

  /** The start of advancePhase: bets are cleared, and side pots drawn up if anyone is all-in. */
  function CloseRound(s: GameState): GameState {
    var ps := ClearBets(s.players);
    s.(players := ps, currentBet := 0, minRaise := s.blinds.big,
       sidePots := if Count(ps, LiveAllIn) > 0 then SidePots(ps) else s.sidePots)
  }

  /** k cards from the deck to the board. */
  function DealBoard(s: GameState, k: nat): GameState
    requires k <= |s.deck|
  {
    s.(board := s.board + s.deck[..k], deck := s.deck[k..])
  }

  function FullBoard(s: GameState): GameState
    requires EnoughCards(s)
  {
    DealBoard(s, 5 - |s.board|)
  }

  method DealRemainingBoard(state: GameState) returns (r: GameState)
    requires EnoughCards(state)
    ensures r == FullBoard(state)
  {
    r := state;
    while |r.board| < 5
      invariant |state.board| <= |r.board| <= 5
      invariant r == DealBoard(state, |r.board| - |state.board|)
    {
      var cards, remaining := r.deck[..1], r.deck[1..];
      ghost var k := |r.board| - |state.board|;
      assert state.deck[..k] + cards == state.deck[..k + 1] && remaining == state.deck[k + 1..];
      assert r.board + cards == state.board + state.deck[..k + 1];
      r := r.(board := r.board + cards, deck := remaining);
    }
  }

  function AdvancePhase(s: GameState): GameState
    requires s.players != [] && BoardFits(s) && Count(s.players, Unfolded) > 0
  {
    UnfoldedUnchanged(s.players);
    var t := CloseRound(s);
    if Count(t.players, CanAct) < 2 && Count(t.players, Unfolded) >= 2 then AfterShowdown(FullBoard(t))
    else
      match s.phase
      case PreFlop => StartStreet(DealBoard(t, 3).(phase := Flop))
      case Flop => StartStreet(DealBoard(t, 1).(phase := Turn))
      case Turn => StartStreet(DealBoard(t, 1).(phase := River))
      case River => AfterShowdown(FullBoard(t))
  }

  lemma UnfoldedUnchanged(ps: seq<Player>)
    ensures Count(ClearBets(ps), Unfolded) == Count(ps, Unfolded)
    ensures Count(ClearBets(ps), CanAct) == Count(ps, CanAct)
  {
    CountPointwise(ClearBets(ps), ps, Unfolded, Unfolded);
    CountPointwise(ClearBets(ps), ps, CanAct, CanAct);
  }

  /** The end of advancePhase: the first player after the dealer who can act. */
  function StartStreet(t: GameState): GameState
    requires t.players != [] && EnoughCards(t) && Count(t.players, Unfolded) > 0
  {
    var first := NextToAct(t.players, t.dealer);
    if first == -1 then AfterShowdown(FullBoard(t)) else t.(current := first)
  }

  // ----- Resolution -----

  datatype Entry = Entry(id: string, eval: HandEvaluation)

  /** The unfolded players with the evaluation of their seven cards. */
  function Evaluations(ps: seq<Player>, board: seq<Card>): seq<Entry>
    requires |board| >= 5
  {
    if ps == [] then []
    else
      var p := ps[|ps| - 1];
      var rest := Evaluations(ps[..|ps| - 1], board);
      if p.folded then rest else rest + [Entry(p.id, BestHand(p.hole + board))]
  }

  function InsertEntry(es: seq<Entry>, e: Entry): seq<Entry> {
    if es == [] then [e]
    else if Compare(es[|es| - 1].eval, e.eval) >= 0 then es + [e]
    else InsertEntry(es[..|es| - 1], e) + [es[|es| - 1]]
  }

  /** Array.sort with the best hand first; equal hands keep their order. */
  function SortEntries(es: seq<Entry>): seq<Entry> {
    if es == [] then [] else InsertEntry(SortEntries(es[..|es| - 1]), es[|es| - 1])
  }

  function EligibleEntries(es: seq<Entry>, ids: seq<string>): seq<Entry> {
    if es == [] then []
    else
      var e := es[|es| - 1];
      var rest := EligibleEntries(es[..|es| - 1], ids);
      if e.id in ids then rest + [e] else rest
  }

  /** The entries that tie with the given hand. */
  function TiedWith(es: seq<Entry>, best: HandEvaluation): seq<Entry> {
    if es == [] then []
    else
      var e := es[|es| - 1];
      var rest := TiedWith(es[..|es| - 1], best);
      if Compare(e.eval, best) == 0 then rest + [e] else rest
  }

  /** The winners of a pot among the given entries, best first. */
  function Winners(es: seq<Entry>): seq<Entry> {
    if es == [] then [] else TiedWith(es, es[0].eval)
  }

  function Payments(winners: seq<Entry>, share: int): seq<WinResult> {
    if winners == [] then []
    else Payments(winners[..|winners| - 1], share) + [WinResult(winners[|winners| - 1].id, share)]
  }

  /** Splitting a pot equally, rounding down. */
  function Split(amount: int, winners: seq<Entry>): seq<WinResult> {
    if winners == [] then [] else Payments(winners, amount / |winners|)
  }

  function SidePayments(pots: seq<SidePot>, es: seq<Entry>): seq<WinResult> {
    if pots == [] then []
    else
      var pot := pots[|pots| - 1];
      SidePayments(pots[..|pots| - 1], es) + Split(pot.amount, Winners(EligibleEntries(es, pot.eligible)))
  }

  /** Everything a showdown pays, in the order the source pays it. */
  function AllPayments(s: GameState, es: seq<Entry>): seq<WinResult> {
    if s.sidePots == [] then Split(s.pot, Winners(es))
    else
      var leftover := s.pot - Sum(s.sidePots, Amount);
      SidePayments(s.sidePots, es) + if leftover > 0 then Split(leftover, Winners(es)) else []
  }

  /** What the payments give one player. */
  function PaidTo(payments: seq<WinResult>, id: string): int {
    if payments == [] then 0
    else
      var w := payments[|payments| - 1];
      PaidTo(payments[..|payments| - 1], id) + if w.playerId == id then w.amount else 0
  }

  function Credited(ps: seq<Player>, payments: seq<WinResult>): (r: seq<Player>)
    ensures |r| == |ps|
  {
    seq(|ps|, i requires 0 <= i < |ps| => ps[i].(stack := ps[i].stack + PaidTo(payments, ps[i].id)))
  }

  function IndexOfWin(ws: seq<WinResult>, id: string): (i: int)
    ensures -1 <= i < |ws|
    ensures i >= 0 ==> ws[i].playerId == id
    ensures i == -1 ==> forall w :: w in ws ==> w.playerId != id
  {
    if ws == [] then -1
    else
      var i := IndexOfWin(ws[..|ws| - 1], id);
      if i >= 0 then i else if ws[|ws| - 1].playerId == id then |ws| - 1 else -1
  }

  /** Adding a payment to the winner's entry, or a new entry for a new winner. */
  function Merge(ws: seq<WinResult>, w: WinResult): seq<WinResult> {
    var i := IndexOfWin(ws, w.playerId);
    if i >= 0 then ws[i := WinResult(w.playerId, ws[i].amount + w.amount)] else ws + [w]
  }

  /** One entry per winner, in order of first payment. */
  function Dedupe(payments: seq<WinResult>): seq<WinResult> {
    if payments == [] then []
    else Merge(Dedupe(payments[..|payments| - 1]), payments[|payments| - 1])
  }

  /** resolveShowdown, once the board is complete. */
  function AfterShowdown(s: GameState): GameState
    requires |s.board| == 5
  {
    var es := SortEntries(Evaluations(s.players, s.board));
    var payments := AllPayments(s, es);
    s.(phase := HandComplete, players := Credited(s.players, payments), pot := 0, winners := Dedupe(payments))
  }

  function FirstUnfolded(ps: seq<Player>): (i: nat)
    requires Count(ps, Unfolded) > 0
    ensures i < |ps| && !ps[i].folded
    ensures forall j :: 0 <= j < i ==> ps[j].folded
  {
    CountBounds(ps[..|ps| - 1], Unfolded);
    if Count(ps[..|ps| - 1], Unfolded) > 0 then FirstUnfolded(ps[..|ps| - 1]) else |ps| - 1
  }

  /** resolveHand: the last player left takes the pot unseen. */
  function AfterFold(s: GameState): GameState
    requires Count(s.players, Unfolded) > 0
  {
    var w := FirstUnfolded(s.players);
    var p := s.players[w];
    s.(phase := HandComplete, players := s.players[w := p.(stack := p.stack + s.pot)], pot := 0,
       winners := [WinResult(p.id, s.pot)])
  }

  // ----- One action -----

  /** A hand under way: at least two players left in, and cards for the rest of the board. */
  predicate Playing(s: GameState) {
    && s.players != []
    && Count(s.players, Unfolded) >= 2
    && BoardFits(s)
  }

  /** applyAction */
  function ApplyAction(s: GameState, a: PlayerAction): GameState
    requires Playing(s)
  {
    var i := IndexOf(s.players, a.playerId);
    if i == -1 then s
    else
      var t := Act(s, a);
      ActKeepsUnfolded(s, a);
      if Count(t.players, Unfolded) == 1 then AfterFold(t)
      else
        var next := NextToAct(t.players, i);
        if next == -1 || RoundComplete(t) then AdvancePhase(t) else t.(current := next)
  }

  /** At most the actor leaves the hand. */
  lemma ActKeepsUnfolded(s: GameState, a: PlayerAction)
    requires IndexOf(s.players, a.playerId) >= 0
    ensures var i := IndexOf(s.players, a.playerId);
            Count(Act(s, a).players, Unfolded)
            == Count(s.players, Unfolded) - if a.action == Fold && !s.players[i].folded then 1 else 0
  {
    var i := IndexOf(s.players, a.playerId);
    var p := Act(s, a).players[i];
    CountUpdate(s.players, i, p, Unfolded);
    assert Act(s, a).players == s.players[i := p];
  }
}
