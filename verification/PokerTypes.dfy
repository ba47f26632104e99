// The poker package's data: cards, players, actions, pots and the hand state
// (ghosts/rdc-poker/src/types.ts, constants.ts).
module PokerTypes {
  import opened Seqs

  datatype Suit = Hearts | Diamonds | Clubs | Spades

  /** A rank stands for its RANK_VALUES entry: 2..10, J = 11, Q = 12, K = 13, A = 14. */
  type Rank = r: int | 2 <= r <= 14 witness 2

  datatype Card = Card(suit: Suit, rank: Rank)

  datatype Player = Player(
    id: string,
    stack: int,
    hole: seq<Card>,
    bet: int,            // currentBet: chips put in on this street
    contributed: int,    // totalContributed: chips put in over the whole hand
    folded: bool,
    allIn: bool,
    bigBlind: bool)

  datatype Phase = Waiting | PreFlop | Flop | Turn | River | HandComplete

  datatype ActionType = Fold | Check | Call | Raise | AllIn

  datatype PlayerAction = PlayerAction(playerId: string, action: ActionType, amount: int)

  datatype SidePot = SidePot(amount: int, eligible: seq<string>)

  datatype WinResult = WinResult(playerId: string, amount: int)

  datatype Blinds = Blinds(small: int, big: int)

  datatype GameState = GameState(
    phase: Phase,
    players: seq<Player>,
    board: seq<Card>,
    pot: int,
    sidePots: seq<SidePot>,
    current: int,
    dealer: nat,
    blinds: Blinds,
    minRaise: int,
    currentBet: int,
    history: seq<PlayerAction>,
    deck: seq<Card>,
    winners: seq<WinResult>)

  datatype AvailableActions = AvailableActions(
    canFold: bool,
    canCheck: bool,
    canCall: bool,
    callAmount: int,
    canRaise: bool,
    minRaise: int,
    maxRaise: int,
    canAllIn: bool,
    allInAmount: int)

  // Named projections, so that sums and counts over players are comparable terms.

  function Stack(p: Player): int { p.stack }

  function Contribution(p: Player): int { p.contributed }

  predicate Unfolded(p: Player) { !p.folded }

  predicate CanAct(p: Player) { !p.folded && !p.allIn && p.stack > 0 }

  function FoldedContribution(p: Player): int { if p.folded then p.contributed else 0 }

  function LiveContribution(p: Player): int { if p.folded then 0 else p.contributed }

  function Amount(p: SidePot): int { p.amount }

  function WinAmount(w: WinResult): int { w.amount }

  ghost predicate DistinctIds(ps: seq<Player>) {
    forall i, j :: 0 <= i < j < |ps| ==> ps[i].id != ps[j].id
  }

  /** Chips in front of the players plus chips in the middle. */
  function Chips(s: GameState): int {
    Sum(s.players, Stack) + s.pot
  }

  lemma {:induction false} SplitContributions(ps: seq<Player>)
    ensures Sum(ps, Contribution) == Sum(ps, LiveContribution) + Sum(ps, FoldedContribution)
  {
    if ps != [] {
      SplitContributions(ps[..|ps| - 1]);
    }
  }
}
