// The table session: ghosts buy in, play hands and cash out while handoffs and other ledger traffic
// arrive in between (ghosts/rdc-poker-session/src/executor.ts:256-428, session-loop.ts:160-560).
module Session {
  import opened Seqs
  import opened PokerTypes
  import opened Engine
  import opened Hands
  import opened Ledger
  import opened TableState
  import TableRunner

  const BUSTED_COOLDOWN_MS := 120_000
  const LEFT_BY_CHOICE_COOLDOWN_MS := 30_000

  datatype Reason = BustedOut | LeftByChoice

  /** The table and the ledger, between which chips move. */
  datatype Room = Room(table: Table, book: Book)

  function Cooldown(reason: Reason): int {
    if reason == BustedOut then BUSTED_COOLDOWN_MS else LEFT_BY_CHOICE_COOLDOWN_MS
  }

  /** handleBarnacleHandoff: the room after it, and whether the handoff was accepted. */
  function HandoffOutcome(r: Room, buyIn: int, g: string, session: string, now: int): (Room, bool) {
    var i := FindSeat(r.table.seats, g);
    if i >= 0 && r.table.seats[i].sessionId == session then (r, true)
    else if CooldownLeft(r.table, g, now) > 0 then (r, false)
    else
      var t := Pruned(r.table, g, now);
      var b := Touch(r.book, g);
      if Balance(b, g) < buyIn then (Room(t, b), false)
      else
        var debit := DebitOutcome(b, g, buyIn);
        if debit.error.Some? then (Room(t, debit.book), false)
        else
          var seating := Seating(t, Seat(g, session, buyIn));
          if seating.1 == Full then (Room(t, AwardOutcome(debit.book, g, buyIn).book), false)
          else (Room(seating.0, debit.book), true)
  }

  /** releasePlayer */
  function ReleaseOutcome(r: Room, seat: Seat, reason: Reason, now: int): Room {
    var cashOut := Max(0, seat.chips);
    var b := if cashOut > 0 then AwardOutcome(r.book, seat.ghostId, cashOut).book else r.book;
    Room(Released(Cooled(r.table, seat.ghostId, Cooldown(reason), now), seat.ghostId), b)
  }

  /** The seats with chips to play, and those without. */
  function Eligible(seats: seq<Seat>): seq<Seat> {
    if seats == [] then []
    else
      var rest := Eligible(seats[..|seats| - 1]);
      if seats[|seats| - 1].chips <= 0 then rest else rest + [seats[|seats| - 1]]
  }

  function Busted(seats: seq<Seat>): seq<Seat> {
    if seats == [] then []
    else
      var rest := Busted(seats[..|seats| - 1]);
      if seats[|seats| - 1].chips <= 0 then rest + [seats[|seats| - 1]] else rest
  }

  /** The players of a hand, as the table runner builds them from the seats. */
  function PlayersOf(seats: seq<Seat>): (ps: seq<Player>)
    ensures |ps| == |seats|
  {
    seq(|seats|, i requires 0 <= i < |seats| =>
      Player(seats[i].ghostId, seats[i].chips, [], 0, 0, false, false, false))
  }

  /** One seat takes over the stack its player ended the hand with. */
  function SettleSeat(seats: seq<Seat>, seat: Seat, finals: seq<Player>): seq<Seat> {
    var i, j := FindSeat(seats, seat.ghostId), IndexOf(finals, seat.ghostId);
    if i == -1 || j == -1 then seats else seats[i := seats[i].(chips := finals[j].stack)]
  }

  function Settled(seats: seq<Seat>, eligible: seq<Seat>, finals: seq<Player>): seq<Seat> {
    if eligible == [] then seats
    else SettleSeat(Settled(seats, eligible[..|eligible| - 1], finals), eligible[|eligible| - 1], finals)
  }

  /** The seats a hand leaves without chips. */
  function BustedAfter(eligible: seq<Seat>, finals: seq<Player>): seq<Seat> {
    if eligible == [] then []
    else
      var rest, seat := BustedAfter(eligible[..|eligible| - 1], finals), eligible[|eligible| - 1];
      var j := IndexOf(finals, seat.ghostId);
      if j != -1 && finals[j].stack <= 0 then rest + [seat.(chips := finals[j].stack)] else rest
  }

  // ----- The handlers, step by step on the shared objects -----

  method HandleHandoff(ledger: CyphersLedger, table: ActiveTable, ghostId: string, sessionId: string,
                       buyIn: int, now: int) returns (accepted: bool)
    modifies ledger, table
    ensures (Room(table.Contents(), ledger.Contents()), accepted)
         == HandoffOutcome(Room(old(table.Contents()), old(ledger.Contents())), buyIn, ghostId, sessionId, now)
  {
    var i := FindSeat(table.seats, ghostId);
    if i >= 0 && table.seats[i].sessionId == sessionId {
      return true;
    }
    var cooldownLeft := table.CooldownRemainingMs(ghostId, now);
    if cooldownLeft > 0 {
      return false;
    }
    var balance := ledger.GetBalance(ghostId);
    if balance < buyIn {
      return false;
    }
    var debit := ledger.Debit(ghostId, buyIn);
    if debit.Err? {
      return false;
    }
    var outcome := table.TakeSeat(Seat(ghostId, sessionId, buyIn));
    if outcome == Full {
      var refund := ledger.Award(ghostId, buyIn);
      return false;
    }
    accepted := true;
  }

  method ReleasePlayer(ledger: CyphersLedger, table: ActiveTable, seat: Seat, reason: Reason, now: int)
    modifies ledger, table
    ensures Room(table.Contents(), ledger.Contents())
         == ReleaseOutcome(Room(old(table.Contents()), old(ledger.Contents())), seat, reason, now)
  {
    var cashOut := Max(0, seat.chips);
    if cashOut > 0 {
      var paid := ledger.Award(seat.ghostId, cashOut);
    }
    table.SetCooldown(seat.ghostId, Cooldown(reason), now);
    var released := table.Release(seat.ghostId);
  }

  /** The opening loop of dealOneHand: seats without chips are to go, the others play. */
  method SplitSeated(seated: seq<Seat>) returns (eligibleSeats: seq<Seat>, bustedOut: seq<Seat>)
    ensures eligibleSeats == Eligible(seated) && bustedOut == Busted(seated)
    ensures forall s :: s in seated <==> s in eligibleSeats + bustedOut
    ensures forall s :: s in eligibleSeats ==> s.chips > 0
    ensures forall s :: s in bustedOut ==> s.chips <= 0
  {
    eligibleSeats, bustedOut := [], [];
    for k := 0 to |seated|
      invariant eligibleSeats == Eligible(seated[..k]) && bustedOut == Busted(seated[..k])
      invariant forall s :: s in seated[..k] <==> s in eligibleSeats + bustedOut
      invariant forall s :: s in eligibleSeats ==> s.chips > 0
      invariant forall s :: s in bustedOut ==> s.chips <= 0
    {
      var seat := seated[k];
      assert seated[..k + 1][..k] == seated[..k];
      assert seated[..k + 1] == seated[..k] + [seat];
      if seat.chips <= 0 {
        bustedOut := bustedOut + [seat];
        continue;
      }
      eligibleSeats := eligibleSeats + [seat];
    }
    assert seated[..|seated|] == seated;
  }

  /** The settlement loop of dealOneHand. */
  method Settle(table: ActiveTable, eligible: seq<Seat>, finals: seq<Player>) returns (bustedSeats: seq<Seat>)
    modifies table
    ensures table.Contents()
         == old(table.Contents()).(seats := Settled(old(table.seats), eligible, finals))
    ensures bustedSeats == BustedAfter(eligible, finals)
  {
    bustedSeats := [];
    for k := 0 to |eligible|
      invariant table.Contents()
             == old(table.Contents()).(seats := Settled(old(table.seats), eligible[..k], finals))
      invariant bustedSeats == BustedAfter(eligible[..k], finals)
    {
      assert eligible[..k + 1][..k] == eligible[..k];
      var seat := eligible[k];
      var j := IndexOf(finals, seat.ghostId);
      if j == -1 {
        continue;
      }
      var i := FindSeat(table.seats, seat.ghostId);
      if i >= 0 {
        table.seats := table.seats[i := table.seats[i].(chips := finals[j].stack)];
      }
      if finals[j].stack <= 0 {
        bustedSeats := bustedSeats + [seat.(chips := finals[j].stack)];
      }
    }
    assert eligible[..|eligible|] == eligible;
  }

  // ----- The session as interleaved steps -----

  datatype Config = Config(minPlayers: int, buyIn: int, blinds: Blinds)

  /** The room, the seats in the hand under way, and the seats that busted and are still to be
      released. */
  datatype World = World(room: Room, hand: Option<seq<Seat>>, leaving: seq<Seat>)

  datatype Step =
    | Handoff(ghostId: string, sessionId: string, now: int)
    | Deal
    | DealThrows
    | HandEnds(deck: seq<Card>, actions: seq<PlayerAction>)
    | ReleaseBusted(now: int)
    | Leave(ghostId: string, now: int)
    | LedgerTraffic(op: Op)

  /** The state a hand ends in. */
  function Final(c: Config, eligible: seq<Seat>, deck: seq<Card>, actions: seq<PlayerAction>): GameState
    requires Hands.Deal(PlayersOf(eligible), c.blinds, deck)
    requires LegalRun(NewHand(PlayersOf(eligible), 0, c.blinds, deck), actions)
  {
    Run(NewHand(PlayersOf(eligible), 0, c.blinds, deck), actions)
  }

  /** A hand is dealt and settled by one loop, which also releases seats and may throw anywhere;
      it is settled where the runner stops. Handoffs and ledger traffic come from elsewhere at
      any time. */
  ghost predicate Enabled(c: Config, w: World, step: Step) {
    match step
    case Handoff(_, _, _) => true
    case Deal => w.hand.None? && w.leaving == []
    case DealThrows => w.hand.Some? || w.leaving != []
    case HandEnds(deck, actions) =>
      && w.hand.Some? && w.leaving == []
      && Hands.Deal(PlayersOf(w.hand.value), c.blinds, deck)
      && LegalRun(NewHand(PlayersOf(w.hand.value), 0, c.blinds, deck), actions)
      && TableRunner.Stopped(Final(c, w.hand.value, deck, actions), |actions|)
    case ReleaseBusted(_) => w.leaving != []
    case Leave(g, _) => w.hand.None? && w.leaving == [] && FindSeat(w.room.table.seats, g) >= 0
    case LedgerTraffic(_) => true
  }

  function Next(c: Config, w: World, step: Step): World
    requires Enabled(c, w, step)
  {
    match step
    case Handoff(g, session, now) => w.(room := HandoffOutcome(w.room, c.buyIn, g, session, now).0)
    case Deal =>
      var eligible := Eligible(w.room.table.seats);
      w.(hand := if |eligible| < c.minPlayers then None else Some(eligible), leaving := Busted(w.room.table.seats))
    case DealThrows => w.(hand := None, leaving := [])
    case HandEnds(deck, actions) =>
      var finals := Final(c, w.hand.value, deck, actions).players;
      var seats := Settled(w.room.table.seats, w.hand.value, finals);
      World(w.room.(table := w.room.table.(seats := seats)), None, BustedAfter(w.hand.value, finals))
    case ReleaseBusted(now) =>
      w.(room := ReleaseOutcome(w.room, w.leaving[0], BustedOut, now), leaving := w.leaving[1..])
    case Leave(g, now) =>
      var seat := w.room.table.seats[FindSeat(w.room.table.seats, g)];
      w.(room := ReleaseOutcome(w.room, seat, LeftByChoice, now))
    case LedgerTraffic(op) => w.(room := w.room.(book := Apply(w.room.book, op)))
  }
}
