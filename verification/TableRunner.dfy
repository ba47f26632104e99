// Driving one hand from replies: the legality gate and the turn loop
// (ghosts/rdc-poker-session/src/table-runner.ts:144-310, 341-419).
module TableRunner {
  import opened Seqs
  import opened PokerTypes
  import opened Engine
  import opened EngineSteps
  import opened Pot
  import opened Betting
  import opened Hands
  import opened Conservation
  import opened Termination
  import opened IdleRaises

  /** What an agent sends back for a turn; a missing or non-numeric amount is None. */
  datatype Reply = Reply(ghostId: string, action: string, amount: Option<int>)

  datatype RunError = TooFewSeats | NoReply | GhostMismatch | NotAvailable | UnknownAction

  function ActionName(a: ActionType): string {
    match a
    case Fold => "fold"
    case Check => "check"
    case Call => "call"
    case Raise => "raise"
    case AllIn => "all-in"
  }

  /** parseAction */
  function ParseAction(reply: Reply, expected: string, av: AvailableActions): Result<PlayerAction, RunError> {
    var amount := if reply.amount.Some? then reply.amount.value else 0;
    if reply.ghostId != expected then Err(GhostMismatch)
    else if reply.action == "fold" then
      if av.canFold then Ok(PlayerAction(expected, Fold, 0)) else Err(NotAvailable)
    else if reply.action == "check" then
      if av.canCheck then Ok(PlayerAction(expected, Check, 0)) else Err(NotAvailable)
    else if reply.action == "call" then
      if av.canCall || av.canAllIn then Ok(PlayerAction(expected, Call, av.callAmount)) else Err(NotAvailable)
    else if reply.action == "raise" then
      if av.canRaise then Ok(PlayerAction(expected, Raise, Max(av.minRaise, Min(av.maxRaise, amount))))
      else Err(NotAvailable)
    else if reply.action == "all-in" then
      if av.canAllIn then Ok(PlayerAction(expected, AllIn, av.allInAmount)) else Err(NotAvailable)
    else Err(UnknownAction)
  }

  /** Whatever the reply, an action the gate lets through is legal for the player to act. */
  lemma GateIsSound(s: GameState, reply: Reply)
    requires 0 <= s.current < |s.players|
    ensures var id := s.players[s.current].id;
            var r := ParseAction(reply, id, Available(s, id));
            r.Ok? ==> Legal(s, r.value)
  {
    hide IndexOf;
  }

  /** The gate lets through every legal action, unchanged: its image is exactly Legal. */
  lemma GateIsComplete(s: GameState, a: PlayerAction)
    requires 0 <= s.current < |s.players|
    ensures var id := s.players[s.current].id;
            Legal(s, a) <==>
            a.playerId == id
            && ParseAction(Reply(a.playerId, ActionName(a.action), Some(a.amount)), id, Available(s, id)) == Ok(a)
  {
    hide IndexOf;
  }

  /** What the gate makes of a reply: which error it names, and otherwise the action asked for, a
      raise brought to the nearest amount allowed and every other action at the amount offered. */
  lemma GateReads(reply: Reply, expected: string, av: AvailableActions)
    ensures var r, verb := ParseAction(reply, expected, av), reply.action;
            && (r == Err(GhostMismatch) <==> reply.ghostId != expected)
            && (r == Err(UnknownAction) <==> reply.ghostId == expected
                                             && verb !in {"fold", "check", "call", "raise", "all-in"})
            && (r == Err(NotAvailable) <==> reply.ghostId == expected
                                            && (|| (verb == "fold" && !av.canFold) || (verb == "check" && !av.canCheck)
                                                || (verb == "call" && !av.canCall && !av.canAllIn)
                                                || (verb == "raise" && !av.canRaise) || (verb == "all-in" && !av.canAllIn)))
            && (r.Err? ==> r.error in {GhostMismatch, UnknownAction, NotAvailable})
            && (r.Ok? ==>
                  && r.value.playerId == expected && ActionName(r.value.action) == verb
                  && (verb == "call" ==> r.value.amount == av.callAmount)
                  && (verb == "all-in" ==> r.value.amount == av.allInAmount)
                  && (verb in {"fold", "check"} ==> r.value.amount == 0)
                  && (verb == "raise" && av.minRaise <= av.maxRaise ==>
                        var asked := if reply.amount.Some? then reply.amount.value else 0;
                        && av.minRaise <= r.value.amount <= av.maxRaise
                        && (av.minRaise <= asked <= av.maxRaise ==> r.value.amount == asked)
                        && (asked < av.minRaise ==> r.value.amount == av.minRaise)
                        && (av.maxRaise < asked ==> r.value.amount == av.maxRaise)))
  {
  }

  predicate HasAnyAction(a: AvailableActions) {
    a.canFold || a.canCheck || a.canCall || a.canRaise || a.canAllIn
  }

  const SAFETY_TURNS := 200

  // ----- What holds of any run, even one whose blinds were posted short -----

  ghost predicate Structured(s: GameState) {
    && DistinctIds(s.players)
    && -1 <= s.current < |s.players|
    && (s.phase != HandComplete ==> Playing(s))
  }

  lemma StructureKept(s: GameState, a: PlayerAction)
    requires Structured(s) && s.phase != HandComplete && 0 <= s.current < |s.players| && Legal(s, a)
    ensures Structured(ApplyAction(s, a))
  {
    hide Act, Count, IndexOf, SortEntries, Evaluations, AllPayments, Dedupe, PaidTo, RoundComplete, SidePots,
      DistinctIds, NextFrom, AfterFold, AfterShowdown, AdvancePhase;
    var i := IndexOf(s.players, a.playerId);
    if i >= 0 {
      var t := Act(s, a);
      ActKeepsUnfolded(s, a);
      ActKeepsIds(s, a);
      ActKeepsBoard(s, a);
      ActKeepsCurrent(s, a);
      NextCanAct(t.players, i, 1);
      if Count(t.players, Unfolded) == 1 {
        FoldStructured(t);
      } else if NextToAct(t.players, i) == -1 || RoundComplete(t) {
        PhaseStructured(t);
      }
    }
  }

  lemma ActKeepsCurrent(s: GameState, a: PlayerAction)
    requires IndexOf(s.players, a.playerId) >= 0
    ensures Act(s, a).current == s.current
  {
    hide IndexOf;
  }

  lemma FoldStructured(t: GameState)
    requires DistinctIds(t.players) && Count(t.players, Unfolded) == 1 && -1 <= t.current < |t.players|
    ensures Structured(AfterFold(t))
  {
    hide Count, FirstUnfolded;
    var r := AfterFold(t);
    forall i, j | 0 <= i < j < |r.players| ensures r.players[i].id != r.players[j].id {
      assert t.players[i].id != t.players[j].id;
    }
  }

  lemma ShowdownStructured(t: GameState)
    requires DistinctIds(t.players) && |t.board| == 5 && -1 <= t.current < |t.players|
    ensures Structured(AfterShowdown(t))
  {
    hide SortEntries, Evaluations, AllPayments, Dedupe, Credited, DistinctIds;
    CreditKeepsIds(t.players, AllPayments(t, SortEntries(Evaluations(t.players, t.board))));
  }

  /** A closed round settled on a full board. */
  lemma SettledStructured(c: GameState, d: GameState)
    requires DistinctIds(c.players) && EnoughCards(d) && -1 <= c.current < |c.players|
    requires d.players == c.players && d.current == c.current
    ensures Structured(AfterShowdown(FullBoard(d)))
  {
    hide AfterShowdown, DistinctIds, Structured;
    ShowdownStructured(FullBoard(d));
  }

  lemma ClosedRound(t: GameState)
    requires DistinctIds(t.players) && BoardFits(t) && -1 <= t.current < |t.players|
    ensures var c := CloseRound(t);
            && DistinctIds(c.players) && |c.players| == |t.players| && c.current == t.current
            && Count(c.players, Unfolded) == Count(t.players, Unfolded)
            && EnoughCards(c)
  {
    hide SidePots, Count, DistinctIds;
    ClearKeepsIds(t.players);
    UnfoldedUnchanged(t.players);
  }

  /** The next street, if somebody can act on it, and otherwise a settled hand. */
  lemma StreetStructured(c: GameState, d: GameState)
    requires c.players != [] && DistinctIds(c.players) && -1 <= c.current < |c.players|
    requires Count(c.players, Unfolded) >= 2
    requires d == c.(board := d.board, deck := d.deck, phase := d.phase) && BoardFits(d)
    ensures Structured(StartStreet(d))
  {
    hide AfterShowdown, Count, DistinctIds, NextFrom;
    NextCanAct(d.players, d.dealer, 1);
    SettledStructured(c, d);
  }

  lemma PhaseStructured(t: GameState)
    requires DistinctIds(t.players) && Count(t.players, Unfolded) >= 2 && BoardFits(t)
    requires t.players != [] && -1 <= t.current < |t.players|
    ensures Structured(AdvancePhase(t))
  {
    ClosedRound(t);
    AdvanceCases(t);
    hide AdvancePhase, AfterShowdown, Structured, CloseRound, FullBoard, DistinctIds, Count, StartStreet, LastStreet;
    var c := CloseRound(t);
    if LastStreet(t) {
      SettledStructured(c, c);
    } else {
      var d := StreetCases(t);
      StreetStructured(c, d);
    }
  }

  lemma {:induction false} RunSnoc(s: GameState, actions: seq<PlayerAction>, a: PlayerAction)
    requires LegalRun(s, actions)
    requires var t := Run(s, actions); Playing(t) && 0 <= t.current < |t.players| && Legal(t, a)
    ensures LegalRun(s, actions + [a])
    ensures Run(s, actions + [a]) == ApplyAction(Run(s, actions), a)
    decreases |actions|
  {
    hide Playing, Legal, ApplyAction;
    if actions == [] {
      assert [a][1..] == [];
      assert actions + [a] == [a];
    } else {
      RunSnoc(ApplyAction(s, actions[0]), actions[1..], a);
      assert (actions + [a])[1..] == actions[1..] + [a];
    }
  }

  lemma StartStructured(players: seq<Player>, dealer: nat, blinds: Blinds, deck: seq<Card>)
    requires Deal(players, blinds, deck)
    ensures Structured(NewHand(players, dealer, blinds, deck))
  {
    hide NewHand, NextFrom, DistinctIds, Count, SeatAfter, DealOrder;
    var s := NewHand(players, dealer, blinds, deck);
    NewSeats(players, dealer, blinds, deck);
    NewTable(players, dealer, blinds, deck);
    NewRest(players, dealer, blinds, deck);
    SeatsInRange(dealer, |players|);
    NextCanAct(s.players, SeatAfter(dealer, 2, |players|), 1);
  }

  lemma {:induction false} RunStructured(s: GameState, actions: seq<PlayerAction>)
    requires Structured(s) && LegalRun(s, actions)
    ensures Structured(Run(s, actions))
    decreases |actions|
  {
    hide Structured, Legal, ApplyAction;
    if actions != [] {
      PlayingGoesOn(s);
      StructureKept(s, actions[0]);
      RunStructured(ApplyAction(s, actions[0]), actions[1..]);
    }
  }

  lemma PlayingGoesOn(s: GameState)
    requires Playing(s)
    ensures s.phase != HandComplete
  {
  }

  /** Where the runner stops: at the end of the hand, with nobody to act, or with its turns
      spent. */
  predicate Stopped(t: GameState, turns: nat) {
    turns <= SAFETY_TURNS && (t.phase == HandComplete || t.current == -1 || turns == SAFETY_TURNS)
  }

  /** The actor's reply as the gate reads it. */
  function Asked(s: GameState, reply: Reply): Result<PlayerAction, RunError>
    requires 0 <= s.current < |s.players|
  {
    var id := s.players[s.current].id;
    ParseAction(reply, id, Available(s, id))
  }

  /** The actions are what the replies from the n-th on ask for, turn by turn. */
  ghost predicate Followed(s: GameState, actions: seq<PlayerAction>, replies: nat -> Option<Reply>, n: nat)
    decreases |actions|
  {
    actions == []
    || (Playing(s) && 0 <= s.current < |s.players|
        && replies(n).Some? && Asked(s, replies(n).value) == Ok(actions[0])
        && Followed(ApplyAction(s, actions[0]), actions[1..], replies, n + 1))
  }

  lemma {:induction false} FollowedIsLegal(s: GameState, actions: seq<PlayerAction>, replies: nat -> Option<Reply>, n: nat)
    requires Followed(s, actions, replies, n)
    ensures LegalRun(s, actions)
    decreases |actions|
  {
    hide Legal, Available, ApplyAction, ParseAction, Playing;
    if actions != [] {
      GateIsSound(s, replies(n).value);
      FollowedIsLegal(ApplyAction(s, actions[0]), actions[1..], replies, n + 1);
    }
  }

  lemma {:induction false} FollowedSnoc(s: GameState, actions: seq<PlayerAction>, replies: nat -> Option<Reply>, n: nat,
                                        a: PlayerAction)
    requires Followed(s, actions, replies, n) && LegalRun(s, actions)
    requires var t := Run(s, actions);
             Playing(t) && 0 <= t.current < |t.players|
             && replies(n + |actions|).Some? && Asked(t, replies(n + |actions|).value) == Ok(a)
    ensures Followed(s, actions + [a], replies, n)
    decreases |actions|
  {
    hide Legal, ApplyAction, Asked, Playing;
    if actions == [] {
      assert ([a])[1..] == [] && actions + [a] == [a];
    } else {
      FollowedSnoc(ApplyAction(s, actions[0]), actions[1..], replies, n + 1, a);
      assert (actions + [a])[1..] == actions[1..] + [a];
    }
  }

  /** The hand breaks off over a reply: there is none, or the gate does not let it through. */
  ghost predicate Refused(t: GameState, reply: Option<Reply>, e: RunError) {
    && t.phase != HandComplete && 0 <= t.current < |t.players|
    && if reply.None? then e == NoReply else Asked(t, reply.value) == Err(e)
  }

  /** runOneHand: replies is whatever the agents answer, turn by turn. The result is the state
      after a run of legal actions. An unfinished hand is given up on only when the turn guard
      is spent, or before the first turn, when the blinds leave nobody to act. */
  method RunOneHand(players: seq<Player>, blinds: Blinds, deck: seq<Card>, replies: nat -> Option<Reply>)
    returns (r: Result<GameState, RunError>, ghost actions: seq<PlayerAction>)
    requires |players| >= 2 ==> Deal(players, blinds, deck)
    ensures |players| < 2 <==> r == Err(TooFewSeats)
    ensures r.Ok? ==>
              && |players| >= 2
              && LegalRun(NewHand(players, 0, blinds, deck), actions)
              && r.value == Run(NewHand(players, 0, blinds, deck), actions)
              && Stopped(r.value, |actions|)
    ensures |players| >= 2 ==> Followed(NewHand(players, 0, blinds, deck), actions, replies, 0)
    ensures |players| >= 2 && r.Err? ==>
              && |actions| < SAFETY_TURNS && LegalRun(NewHand(players, 0, blinds, deck), actions)
              && Refused(Run(NewHand(players, 0, blinds, deck), actions), replies(|actions|), r.error)
    ensures r.Ok? && r.value.phase != HandComplete ==>
              |actions| == SAFETY_TURNS || (actions == [] && !SomeoneLeft(players, 0, blinds))
    ensures |players| >= 2 && !SomeoneLeft(players, 0, blinds) ==>
              r == Ok(NewHand(players, 0, blinds, deck)) && r.value.phase != HandComplete
    ensures r.Ok? && SomeoneLeft(players, 0, blinds) && !CanIdle(players, 0, blinds)
            && TurnLimit(players, 0, blinds) <= SAFETY_TURNS ==>
              r.value.phase == HandComplete
  {
    hide CanIdle, TurnLimit;
    hide NewHand, Legal, Playing, SomeoneLeft, Structured, LegalRun, Run, Available, ApplyAction, HasMover, ParseAction;
    actions := [];
    if |players| < 2 {
      return Err(TooFewSeats), actions;
    }
    var state := CreateNewHand(players, 0, blinds, deck);
    ghost var start := state;
    StartStructured(players, 0, blinds, deck);
    FirstActor(players, 0, blinds, deck);
    NewRest(players, 0, blinds, deck);
    EmptyRun(start);
    var turn := 0;
    while state.phase != HandComplete && turn < SAFETY_TURNS
      invariant 0 <= turn <= SAFETY_TURNS && turn == |actions|
      invariant Structured(state) && LegalRun(start, actions) && state == Run(start, actions)
      invariant Followed(start, actions, replies, 0)
      invariant !SomeoneLeft(players, 0, blinds) ==> actions == [] && state == start
      decreases SAFETY_TURNS - turn
    {
      StructureMeans(state);
      SomebodyMoves(players, 0, blinds, deck, actions);
      var actorIdx := state.current;
      if actorIdx < 0 {
        break;
      }
      var actor := state.players[actorIdx];
      var available := Available(state, actor.id);
      if !HasAnyAction(available) {
        break;
      }
      var reply := replies(turn);
      turn := turn + 1;
      if reply.None? {
        return Err(NoReply), actions;
      }
      var action := ParseAction(reply.value, actor.id, available);
      GateIsSound(state, reply.value);
      if action.Err? {
        GateReads(reply.value, actor.id, available);
        return Err(action.error), actions;
      }
      RunSnoc(start, actions, action.value);
      FollowedSnoc(start, actions, replies, 0, action.value);
      StructureKept(state, action.value);
      actions := actions + [action.value];
      state := PlayAction(state, action.value);
    }
    if state.phase != HandComplete && SomeoneLeft(players, 0, blinds) && !CanIdle(players, 0, blinds) {
      GuardSpares(players, 0, blinds, deck, actions);
    }
    r := Ok(state);
  }

  /** A hand that is not over has used fewer turns than the limit, unless somebody can raise
      idly: so a limit within the guard is never cut off. */
  lemma GuardSpares(players: seq<Player>, dealer: nat, blinds: Blinds, deck: seq<Card>, actions: seq<PlayerAction>)
    requires Deal(players, blinds, deck) && !CanIdle(players, dealer, blinds)
    requires LegalRun(NewHand(players, dealer, blinds, deck), actions)
    requires Run(NewHand(players, dealer, blinds, deck), actions).phase != HandComplete
    ensures |actions| < TurnLimit(players, dealer, blinds)
  {
    hide NewHand, LegalRun, Run, CanIdle, TurnLimit, Playing, SomeoneLeft, Structured;
    var s := NewHand(players, dealer, blinds, deck);
    var t := Run(s, actions);
    HandsEndExactly(players, dealer, blinds, deck);
    RunHasMover(players, dealer, blinds, deck, actions);
    if HasMover(t) {
      StartStructured(players, dealer, blinds, deck);
      RunStructured(s, actions);
      StructureMeans(t);
      var a := PlayerAction(t.players[t.current].id, Fold, 0);
      FoldIsLegal(t, a);
      RunSnoc(s, actions, a);
      assert |actions + [a]| <= TurnLimit(players, dealer, blinds);
    } else {
      LimitIsPositive(players, dealer, blinds);
    }
  }

  lemma StructureMeans(s: GameState)
    requires Structured(s)
    ensures DistinctIds(s.players) && -1 <= s.current < |s.players|
    ensures s.phase != HandComplete ==> Playing(s)
  {
  }

  /** An unfinished run has somebody to act, with an action, unless nobody could act to begin
      with and nothing has happened. */
  lemma SomebodyMoves(players: seq<Player>, dealer: nat, blinds: Blinds, deck: seq<Card>, actions: seq<PlayerAction>)
    requires Deal(players, blinds, deck)
    requires LegalRun(NewHand(players, dealer, blinds, deck), actions)
    ensures var t := Run(NewHand(players, dealer, blinds, deck), actions);
            || t.phase == HandComplete
            || (0 <= t.current < |t.players| && HasAnyAction(Available(t, t.players[t.current].id)))
            || (actions == [] && t.current == -1 && !SomeoneLeft(players, dealer, blinds))
  {
    hide NewHand, LegalRun, Run, SomeoneLeft, Available, HasAnyAction, DistinctIds, HasMover;
    RunHasMover(players, dealer, blinds, deck, actions);
    var t := Run(NewHand(players, dealer, blinds, deck), actions);
    if HasMover(t) && DistinctIds(t.players) {
      MoverHasAction(t);
    }
  }

  lemma MoverHasAction(t: GameState)
    requires HasMover(t) && DistinctIds(t.players)
    ensures 0 <= t.current < |t.players| && HasAnyAction(Available(t, t.players[t.current].id))
  {
    IndexOfDistinct(t.players, t.current);
  }

  /** The runner finds an actor with an action at every turn of a hand, until it is over,
      exactly when the blinds leave somebody with chips: whatever the big blind could post. */
  lemma StillSound(players: seq<Player>, dealer: nat, blinds: Blinds, deck: seq<Card>)
    requires Deal(players, blinds, deck)
    ensures (forall actions :: LegalRun(NewHand(players, dealer, blinds, deck), actions) ==>
               var t := Run(NewHand(players, dealer, blinds, deck), actions);
               t.phase == HandComplete
               || (0 <= t.current < |t.players| && HasAnyAction(Available(t, t.players[t.current].id))))
            <==> SomeoneLeft(players, dealer, blinds)
    ensures (forall actions :: LegalRun(NewHand(players, dealer, blinds, deck), actions) ==>
               var t := Run(NewHand(players, dealer, blinds, deck), actions);
               t.phase == HandComplete || t.current >= 0)
            <==> SomeoneLeft(players, dealer, blinds)
  {
    hide NewHand, LegalRun, Run, SomeoneLeft, Available, HasAnyAction, HasMover;
    var s := NewHand(players, dealer, blinds, deck);
    FirstActor(players, dealer, blinds, deck);
    NewRest(players, dealer, blinds, deck);
    EmptyRun(s);
    if SomeoneLeft(players, dealer, blinds) {
      forall actions | LegalRun(s, actions)
        ensures var t := Run(s, actions);
                t.phase == HandComplete
                || (0 <= t.current < |t.players| && HasAnyAction(Available(t, t.players[t.current].id)))
      {
        SomebodyMoves(players, dealer, blinds, deck, actions);
      }
    } else {
      assert LegalRun(s, []) && Run(s, []).current == -1 && Run(s, []).phase == PreFlop;
    }
  }
}
