// What a session keeps over every interleaving of handoffs, hands, releases and ledger traffic
// (ghosts/rdc-poker-session/src/executor.ts:280-420, session-loop.ts:160-175, 322-344, 519-544,
// table-state.ts:117-169).
module Circulation {
  import opened Seqs
  import opened PokerTypes
  import opened Engine
  import opened Betting
  import opened Hands
  import opened Conservation
  import opened Termination
  import opened IdleRaises
  import opened Ledger
  import opened Audit
  import opened TableState
  import opened Session

  function SeatChips(s: Seat): int { s.chips }

  /** All there is: balances, escrow, and the chips on the table. */
  function Total(w: World, roster: seq<string>): int {
    Worth(w.room.book, roster) + Sum(w.room.table.seats, SeatChips)
  }

  ghost predicate Among(some: seq<Seat>, seats: seq<Seat>) {
    DistinctSeats(some) && forall s :: s in some ==> s in seats
  }

  /** What every step keeps. */
  ghost predicate Sound(w: World) {
    && SeatsFit(w.room.table)
    && (forall s :: s in w.room.table.seats ==> 0 <= s.chips)
    && Among(w.leaving, w.room.table.seats)
    && (forall s :: s in w.leaving ==> s.chips == 0)
    && (w.hand.Some? ==> Among(w.hand.value, w.room.table.seats))
    && (w.hand.Some? ==> forall s :: s in w.hand.value ==> s.chips > 0)
  }

  // ----- Handoffs -----

  /** A ghost already seated under another session passes the gates a second time. */
  predicate SitsTwice(r: Room, buyIn: int, g: string, session: string, now: int) {
    var i := FindSeat(r.table.seats, g);
    && i >= 0 && r.table.seats[i].sessionId != session
    && CooldownLeft(r.table, g, now) == 0
    && 0 < buyIn <= Balance(r.book, g)
  }

  /** A ghost not seated, with no cooldown to wait for and the Cyphers to pay. */
  predicate MayBuyIn(r: Room, buyIn: int, g: string, now: int) {
    && FindSeat(r.table.seats, g) == -1
    && CooldownLeft(r.table, g, now) == 0
    && 0 < buyIn <= Balance(r.book, g)
  }

  predicate SeatedUnder(r: Room, g: string, session: string) {
    var i := FindSeat(r.table.seats, g);
    i >= 0 && r.table.seats[i].sessionId == session
  }

  datatype Fate = Refused | Refunded | Doubled | Sat

  /** The four ways a handoff can go, when each of them comes about, and when it is accepted. */
  lemma HandoffCases(r: Room, buyIn: int, g: string, session: string, now: int) returns (f: Fate)
    ensures var h := HandoffOutcome(r, buyIn, g, session, now);
            var debit := DebitOutcome(Touch(r.book, g), g, buyIn);
            && h.0.table.capacity == r.table.capacity
            && (f == Sat <==> h.0.table.seats != r.table.seats)
            && (f == Sat ==> h.0.table.seats == r.table.seats + [Seat(g, session, buyIn)] && h.1
                             && FindSeat(r.table.seats, g) == -1 && |r.table.seats| < r.table.capacity)
            && (f == Refused ==> h.0.book == r.book || h.0.book == Touch(r.book, g)
                                 || (h.0.book == debit.book && debit.error.Some?))
            && (f != Refused ==> debit.error.None?)
            && (f == Refunded ==> h.0.book == AwardOutcome(debit.book, g, buyIn).book && !h.1)
            && (f == Doubled || f == Sat ==> h.0.book == debit.book)
            && (f == Doubled <==> SitsTwice(r, buyIn, g, session, now))
            && (f == Sat <==> MayBuyIn(r, buyIn, g, now) && |r.table.seats| < r.table.capacity)
            && (f == Refunded <==> MayBuyIn(r, buyIn, g, now) && |r.table.seats| >= r.table.capacity)
            && (h.1 <==> f == Sat || f == Doubled || SeatedUnder(r, g, session))
  {
    hide FindSeat;
    var i := FindSeat(r.table.seats, g);
    var b := Touch(r.book, g);
    if (i >= 0 && r.table.seats[i].sessionId == session) || CooldownLeft(r.table, g, now) > 0
       || Balance(b, g) < buyIn || DebitOutcome(b, g, buyIn).error.Some? {
      f := Refused;
    } else {
      f := if i >= 0 then Doubled else if |r.table.seats| >= r.table.capacity then Refunded else Sat;
    }
  }

  lemma TakeOutWorth(b: Book, g: string, n: int, roster: seq<string>)
    requires Distinct(roster) && g in roster
    ensures var d := DebitOutcome(Touch(b, g), g, n);
            && (d.error.Some? ==> Worth(d.book, roster) == Worth(b, roster))
            && (d.error.None? ==> n > 0 && Worth(d.book, roster) == Worth(b, roster) - n)
            && (d.error.None? ==> Worth(AwardOutcome(d.book, g, n).book, roster) == Worth(b, roster))
            && Worth(Touch(b, g), roster) == Worth(b, roster)
  {
    hide Worth, Distinct, Balance;
    var d := DebitOutcome(Touch(b, g), g, n);
    CreditConserves(b, g, n, roster);
    CreditConserves(Touch(b, g), g, n, roster);
    CreditConserves(d.book, g, n, roster);
  }

  /** A handoff moves the buy-in from the ledger to the table, or moves nothing; the one
      exception takes the buy-in and gives no seat for it. */
  lemma HandoffConserves(c: Config, w: World, g: string, session: string, now: int, roster: seq<string>)
    requires Distinct(roster) && g in roster
    ensures Total(Next(c, w, Handoff(g, session, now)), roster)
         == Total(w, roster) - if SitsTwice(w.room, c.buyIn, g, session, now) then c.buyIn else 0
  {
    hide Worth, Distinct, Sum, Balance, FindSeat, HandoffOutcome, DebitOutcome, AwardOutcome, Touch, SitsTwice;
    var f := HandoffCases(w.room, c.buyIn, g, session, now);
    TakeOutWorth(w.room.book, g, c.buyIn, roster);
    SumSnoc(w.room.table.seats, Seat(g, session, c.buyIn), SeatChips);
  }

  /** A concrete second session: the buy-in is gone, the handoff is accepted, and the seat and
      its chips are the old ones. */
  lemma SecondSessionLosesBuyIn()
    ensures var r := Room(Table(6, [Seat("ann", "first", 100)], map[]), Book(1000, map["ann" := 900], [], []));
            var h := HandoffOutcome(r, 100, "ann", "second", 0);
            && h.1 && h.0.table.seats == r.table.seats
            && Worth(h.0.book, ["ann"]) == Worth(r.book, ["ann"]) - 100
  {
    hide Worth, FindSeat;
    var seats := [Seat("ann", "first", 100)];
    SeatOf(seats, 0);
    var b := Book(1000, map["ann" := 900], [], []);
    TakeOutWorth(b, "ann", 100, ["ann"]);
  }

  lemma HandoffKeepsSound(c: Config, w: World, g: string, session: string, now: int)
    requires Sound(w)
    ensures Sound(Next(c, w, Handoff(g, session, now)))
  {
    hide FindSeat, HandoffOutcome, Touch, SitsTwice, AwardOutcome, DistinctSeats;
    var f := HandoffCases(w.room, c.buyIn, g, session, now);
    SeatingKeepsFit(w.room.table, Seat(g, session, c.buyIn));
  }

  // ----- Releases -----

  lemma {:induction false} WithoutTotal(seats: seq<Seat>, i: nat)
    requires i < |seats|
    ensures Sum(seats[..i] + seats[i + 1..], SeatChips) == Sum(seats, SeatChips) - seats[i].chips
  {
    assert seats == (seats[..i] + [seats[i]]) + seats[i + 1..];
    SumConcat(seats[..i], seats[i + 1..], SeatChips);
    SumConcat(seats[..i] + [seats[i]], seats[i + 1..], SeatChips);
    SumSnoc(seats[..i], seats[i], SeatChips);
  }

  lemma InSeats(seats: seq<Seat>, s: Seat)
    requires DistinctSeats(seats) && s in seats
    ensures FindSeat(seats, s.ghostId) >= 0 && seats[FindSeat(seats, s.ghostId)] == s
  {
    var i :| 0 <= i < |seats| && seats[i] == s;
    SeatOf(seats, i);
  }

  /** Cashing a seat out moves its chips to the ledger. */
  lemma ReleaseConserves(r: Room, s: Seat, reason: Reason, now: int, roster: seq<string>)
    requires SeatsFit(r.table) && s in r.table.seats && 0 <= s.chips
    requires Distinct(roster) && (s.ghostId in roster || s.chips == 0)
    ensures var q := ReleaseOutcome(r, s, reason, now);
            Worth(q.book, roster) + Sum(q.table.seats, SeatChips)
            == Worth(r.book, roster) + Sum(r.table.seats, SeatChips)
  {
    hide Worth, Distinct, Sum, FindSeat, DistinctSeats, AwardOutcome;
    InSeats(r.table.seats, s);
    WithoutTotal(r.table.seats, FindSeat(r.table.seats, s.ghostId));
    if s.chips > 0 {
      AwardWorth(r.book, s.ghostId, s.chips, roster);
    }
  }

  lemma AwardWorth(b: Book, g: string, n: int, roster: seq<string>)
    requires Distinct(roster) && g in roster && n > 0
    ensures Worth(AwardOutcome(b, g, n).book, roster) == Worth(b, roster) + n
  {
    hide Worth, Distinct;
    CreditConserves(b, g, n, roster);
  }

  lemma ReleaseKeeps(r: Room, s: Seat, reason: Reason, now: int)
    requires SeatsFit(r.table)
    ensures var q := ReleaseOutcome(r, s, reason, now);
            && SeatsFit(q.table)
            && (forall x :: x in q.table.seats <==> x in r.table.seats && x.ghostId != s.ghostId)
  {
    hide DistinctSeats, FindSeat, Without, AwardOutcome;
    ReleaseFacts(Cooled(r.table, s.ghostId, Cooldown(reason), now), s.ghostId);
  }

  lemma RestOfLeaving(leaving: seq<Seat>)
    requires DistinctSeats(leaving) && leaving != []
    ensures DistinctSeats(leaving[1..])
    ensures forall x :: x in leaving[1..] ==> x in leaving && x.ghostId != leaving[0].ghostId
  {
    forall x | x in leaving[1..] ensures x in leaving && x.ghostId != leaving[0].ghostId {
      var k :| 0 <= k < |leaving| - 1 && leaving[1..][k] == x;
      assert leaving[k + 1] == x;
    }
  }

  // ----- Settling a hand -----

  lemma {:induction false} EligibleFacts(seats: seq<Seat>)
    ensures forall s :: s in Eligible(seats) <==> s in seats && s.chips > 0
    ensures forall s :: s in Busted(seats) <==> s in seats && s.chips <= 0
  {
    if seats != [] {
      EligibleFacts(seats[..|seats| - 1]);
      assert seats == seats[..|seats| - 1] + [seats[|seats| - 1]];
    }
  }

  lemma SeatsSnoc(seats: seq<Seat>, s: Seat)
    requires DistinctSeats(seats) && forall x :: x in seats ==> x.ghostId != s.ghostId
    ensures DistinctSeats(seats + [s])
  {
  }

  lemma LastSeat(seats: seq<Seat>)
    requires DistinctSeats(seats) && seats != []
    ensures DistinctSeats(seats[..|seats| - 1])
    ensures forall x :: x in seats[..|seats| - 1] ==> x in seats && x.ghostId != seats[|seats| - 1].ghostId
  {
    var init := seats[..|seats| - 1];
    forall x | x in init ensures x in seats && x.ghostId != seats[|seats| - 1].ghostId {
      var k :| 0 <= k < |init| && init[k] == x;
      assert seats[k] == x;
    }
  }

  lemma {:induction false} EligibleDistinct(seats: seq<Seat>)
    requires DistinctSeats(seats)
    ensures DistinctSeats(Eligible(seats)) && DistinctSeats(Busted(seats))
  {
    if seats != [] {
      hide DistinctSeats;
      var init, s := seats[..|seats| - 1], seats[|seats| - 1];
      LastSeat(seats);
      EligibleDistinct(init);
      EligibleFacts(init);
      if s.chips <= 0 {
        SeatsSnoc(Busted(init), s);
      } else {
        SeatsSnoc(Eligible(init), s);
      }
    }
    assert DistinctSeats([]);
  }

  /** The seats and the final players of a hand, in step. */
  ghost predicate Match(eligible: seq<Seat>, finals: seq<Player>) {
    && |eligible| == |finals|
    && DistinctIds(finals)
    && forall i :: 0 <= i < |finals| ==> finals[i].id == eligible[i].ghostId && 0 <= finals[i].stack
  }

  /** The seats after the first k players have been settled. */
  ghost predicate SettledTo(seats: seq<Seat>, after: seq<Seat>, eligible: seq<Seat>, finals: seq<Player>, k: nat)
    requires Match(eligible, finals) && k <= |eligible|
  {
    && |after| == |seats|
    && (forall i :: 0 <= i < |seats| ==> after[i].ghostId == seats[i].ghostId && after[i].sessionId == seats[i].sessionId)
    && (forall i, j :: 0 <= i < |seats| && 0 <= j < k && eligible[j].ghostId == seats[i].ghostId ==>
          after[i].chips == finals[j].stack)
    && (forall i :: 0 <= i < |seats| && (forall j :: 0 <= j < k ==> eligible[j].ghostId != seats[i].ghostId) ==>
          after[i].chips == seats[i].chips)
  }

  lemma {:induction false} SettleFacts(seats: seq<Seat>, eligible: seq<Seat>, finals: seq<Player>, k: nat)
    requires DistinctSeats(seats) && Among(eligible, seats) && Match(eligible, finals) && k <= |eligible|
    ensures SettledTo(seats, Settled(seats, eligible[..k], finals), eligible, finals, k)
    ensures Sum(Settled(seats, eligible[..k], finals), SeatChips)
         == Sum(seats, SeatChips) + Sum(finals[..k], Stack) - Sum(eligible[..k], SeatChips)
  {
    hide FindSeat, IndexOf, SettledTo, Sum, Match, SettleSeat;
    if k == 0 {
      NothingSettled(seats, eligible, finals);
    } else {
      MatchedLengths(eligible, finals);
      SettleFacts(seats, eligible, finals, k - 1);
      var before := Settled(seats, eligible[..k - 1], finals);
      assert eligible[..k][..k - 1] == eligible[..k - 1] && finals[..k] == finals[..k - 1] + [finals[k - 1]];
      assert eligible[..k] == eligible[..k - 1] + [eligible[k - 1]];
      SumSnoc(finals[..k - 1], finals[k - 1], Stack);
      SumSnoc(eligible[..k - 1], eligible[k - 1], SeatChips);
      OneSettled(seats, before, eligible, finals, k - 1);
    }
  }

  lemma NothingSettled(seats: seq<Seat>, eligible: seq<Seat>, finals: seq<Player>)
    requires Match(eligible, finals)
    ensures SettledTo(seats, Settled(seats, eligible[..0], finals), eligible, finals, 0)
    ensures Sum(finals[..0], Stack) == 0 && Sum(eligible[..0], SeatChips) == 0
    ensures Settled(seats, eligible[..0], finals) == seats
  {
  }

  /** Which place the k-th player settles, and in what it leaves the seats. */
  lemma SettledPlace(seats: seq<Seat>, before: seq<Seat>, eligible: seq<Seat>, finals: seq<Player>, k: nat) returns (i: nat)
    requires DistinctSeats(seats) && Among(eligible, seats) && Match(eligible, finals) && k < |eligible|
    requires SettledTo(seats, before, eligible, finals, k)
    ensures i < |before| && seats[i] == eligible[k] && before[i].chips == eligible[k].chips
    ensures SettleSeat(before, eligible[k], finals) == before[i := before[i].(chips := finals[k].stack)]
  {
    hide FindSeat, IndexOf, Sum;
    var s := eligible[k];
    assert s in eligible;
    i :| 0 <= i < |seats| && seats[i] == s;
    SettledDistinct(seats, before, eligible, finals, k);
    SeatOf(before, i);
    IndexOfDistinct(finals, k);
  }

  lemma SettledDistinct(seats: seq<Seat>, before: seq<Seat>, eligible: seq<Seat>, finals: seq<Player>, k: nat)
    requires DistinctSeats(seats) && Match(eligible, finals) && k <= |eligible|
    requires SettledTo(seats, before, eligible, finals, k)
    ensures DistinctSeats(before)
  {
  }

  lemma OneSettled(seats: seq<Seat>, before: seq<Seat>, eligible: seq<Seat>, finals: seq<Player>, k: nat)
    requires DistinctSeats(seats) && Among(eligible, seats) && Match(eligible, finals) && k < |eligible|
    requires SettledTo(seats, before, eligible, finals, k)
    ensures var after := SettleSeat(before, eligible[k], finals);
            && SettledTo(seats, after, eligible, finals, k + 1)
            && Sum(after, SeatChips) == Sum(before, SeatChips) + finals[k].stack - eligible[k].chips
  {
    hide SettleSeat, Sum;
    var i := SettledPlace(seats, before, eligible, finals, k);
    SumUpdate(before, i, before[i].(chips := finals[k].stack), SeatChips);
  }

  /** Settlement turns the chips the hand started with into the chips it ended with, and
      leaves every other seat alone. */
  lemma SettleTotal(seats: seq<Seat>, eligible: seq<Seat>, finals: seq<Player>)
    requires DistinctSeats(seats) && Among(eligible, seats) && Match(eligible, finals)
    ensures var after := Settled(seats, eligible, finals);
            && SettledTo(seats, after, eligible, finals, |eligible|)
            && Sum(after, SeatChips) == Sum(seats, SeatChips) + Sum(finals, Stack) - Sum(eligible, SeatChips)
  {
    hide SettledTo, Match, Among, Sum;
    SettleFacts(seats, eligible, finals, |eligible|);
    assert eligible[..|eligible|] == eligible && finals[..|eligible|] == finals by { MatchedLengths(eligible, finals); }
  }

  lemma MatchedLengths(eligible: seq<Seat>, finals: seq<Player>)
    requires Match(eligible, finals)
    ensures |eligible| == |finals|
  {
  }

  /** Exactly the players whose hand ended without chips are to be released. */
  lemma {:induction false} BustedFacts(eligible: seq<Seat>, finals: seq<Player>, k: nat)
    requires DistinctSeats(eligible) && Match(eligible, finals) && k <= |eligible|
    ensures DistinctSeats(BustedAfter(eligible[..k], finals))
    ensures forall s :: s in BustedAfter(eligible[..k], finals) <==>
              exists j :: 0 <= j < k && finals[j].stack == 0 && s == eligible[j].(chips := 0)
  {
    hide IndexOf, DistinctIds;
    if k > 0 {
      assert eligible[..k][..k - 1] == eligible[..k - 1];
      BustedFacts(eligible, finals, k - 1);
      IndexOfDistinct(finals, k - 1);
      var rest := BustedAfter(eligible[..k - 1], finals);
      if finals[k - 1].stack == 0 {
        SeatsSnoc(rest, eligible[k - 1].(chips := 0));
      }
    }
  }

  predicate HasChips(s: Seat) { s.chips > 0 }

  lemma {:induction false} EligibleCount(seats: seq<Seat>)
    ensures |Eligible(seats)| == Count(seats, HasChips)
  {
    if seats != [] {
      EligibleCount(seats[..|seats| - 1]);
    }
  }

  /** A hand is dealt when enough seats have chips, to those and no others; the seats without are
      to be released whether or not it is. */
  lemma DealPicks(c: Config, w: World)
    requires Enabled(c, w, Deal)
    ensures var v, seats := Next(c, w, Deal), w.room.table.seats;
            && v.room == w.room
            && (v.hand.Some? <==> c.minPlayers <= Count(seats, HasChips))
            && (v.hand.Some? ==> |v.hand.value| == Count(seats, HasChips)
                                 && forall s :: s in v.hand.value <==> s in seats && HasChips(s))
            && (forall s :: s in v.leaving <==> s in seats && !HasChips(s))
  {
    hide Eligible, Busted, Count;
    EligibleFacts(w.room.table.seats);
    EligibleCount(w.room.table.seats);
  }

  /** What a settled hand leaves behind is sound: every busted seat is still at the table, with
      nothing left. */
  lemma SettleKeepsSound(w: World, finals: seq<Player>)
    requires Sound(w) && w.hand.Some? && Match(w.hand.value, finals)
    ensures var seats := Settled(w.room.table.seats, w.hand.value, finals);
            Sound(World(w.room.(table := w.room.table.(seats := seats)), None, BustedAfter(w.hand.value, finals)))
  {
    hide Settled, BustedAfter, Sum;
    var seats, eligible := w.room.table.seats, w.hand.value;
    SettleTotal(seats, eligible, finals);
    BustedFacts(eligible, finals, |eligible|);
    assert eligible[..|eligible|] == eligible;
    SettledSeats(seats, Settled(seats, eligible, finals), eligible, finals);
    var after := Settled(seats, eligible, finals);
    forall s | s in BustedAfter(eligible, finals) ensures s in after && s.chips == 0 {
      var j :| 0 <= j < |eligible| && finals[j].stack == 0 && s == eligible[j].(chips := 0);
      assert eligible[j] in eligible;
      var i :| 0 <= i < |seats| && seats[i] == eligible[j];
      assert after[i] == s;
    }
  }

  lemma SettledSeats(seats: seq<Seat>, after: seq<Seat>, eligible: seq<Seat>, finals: seq<Player>)
    requires DistinctSeats(seats) && Match(eligible, finals)
    requires SettledTo(seats, after, eligible, finals, |eligible|)
    requires forall s :: s in seats ==> 0 <= s.chips
    ensures DistinctSeats(after) && forall s :: s in after ==> 0 <= s.chips
  {
    forall s | s in after ensures 0 <= s.chips {
      var i :| 0 <= i < |after| && after[i] == s;
      assert seats[i] in seats;
    }
  }

  lemma PlayerChips(seats: seq<Seat>)
    ensures Sum(PlayersOf(seats), Stack) == Sum(seats, SeatChips)
  {
    SumPointwise(PlayersOf(seats), seats, Stack, SeatChips);
  }

  /** The final players of any hand match the seats it was dealt to. */
  lemma FinalsMatch(c: Config, eligible: seq<Seat>, deck: seq<Card>, actions: seq<PlayerAction>)
    requires DistinctSeats(eligible) && Hands.Deal(PlayersOf(eligible), c.blinds, deck)
    requires LegalRun(NewHand(PlayersOf(eligible), 0, c.blinds, deck), actions)
    ensures Match(eligible, Final(c, eligible, deck, actions).players)
  {
    hide NewHand, LegalRun, Run, Hands.Deal;
    StacksStayWhole(PlayersOf(eligible), 0, c.blinds, deck, actions);
  }

  // ----- Every step -----

  /** Why a hand was given up on: the blinds left nobody to act, or its turns were spent, which takes
      stacks with more turns in them or a small blind that can raise idly. */
  ghost predicate GivenUp(c: Config, eligible: seq<Seat>, actions: seq<PlayerAction>)
    requires |eligible| >= 2 && 0 < c.blinds.big
  {
    var players := PlayersOf(eligible);
    || (actions == [] && !SomeoneLeft(players, 0, c.blinds))
    || (|actions| == TableRunner.SAFETY_TURNS
        && (TurnLimit(players, 0, c.blinds) > TableRunner.SAFETY_TURNS || CanIdle(players, 0, c.blinds)))
  }

  /** What a hand costs the table: nothing if it ended by a fold, its rounding if it ended at a
      showdown, and the pot if the runner gave it up. */
  ghost predicate HandCosts(c: Config, eligible: seq<Seat>, deck: seq<Card>, actions: seq<PlayerAction>, loss: int)
    requires Hands.Deal(PlayersOf(eligible), c.blinds, deck)
    requires LegalRun(NewHand(PlayersOf(eligible), 0, c.blinds, deck), actions)
  {
    exists r, e :: Cost(Final(c, eligible, deck, actions), r, e, loss)
                   && (e == Continues ==> GivenUp(c, eligible, actions))
  }

  /** Wherever the runner stops, the stacks hold what was brought less what the hand costs. */
  lemma HandLossIs(c: Config, eligible: seq<Seat>, deck: seq<Card>, actions: seq<PlayerAction>) returns (loss: int)
    requires Hands.Deal(PlayersOf(eligible), c.blinds, deck)
    requires LegalRun(NewHand(PlayersOf(eligible), 0, c.blinds, deck), actions)
    requires TableRunner.Stopped(Final(c, eligible, deck, actions), |actions|)
    ensures HandCosts(c, eligible, deck, actions, loss)
    ensures Sum(Final(c, eligible, deck, actions).players, Stack) == Sum(eligible, SeatChips) - loss
  {
    hide NewHand, LegalRun, Run, Payout.Payable, Payout.Dust, AfterShowdown, AfterFold, Sum, Count,
      Loose, SameStart, SomeoneLeft, TurnLimit, CanIdle;
    PlayerChips(eligible);
    RunHasMover(PlayersOf(eligible), 0, c.blinds, deck, actions);
    var r, e := HandConservesChips(PlayersOf(eligible), 0, c.blinds, deck, actions);
    var t := Final(c, eligible, deck, actions);
    if e == Continues && !CanIdle(PlayersOf(eligible), 0, c.blinds) {
      TableRunner.GuardSpares(PlayersOf(eligible), 0, c.blinds, deck, actions);
    }
    loss := Sum(eligible, SeatChips) - Sum(t.players, Stack);
    assert Cost(t, r, e, loss);
  }

  /** A concrete hand nobody can act in: the blinds put both players all-in, the runner stops
      before the first turn, and everything they had is gone. */
  lemma BlindsCanTakeEverything(c: Config, deck: seq<Card>)
    requires c.blinds == Blinds(10, 20) && |deck| == 52
    ensures var eligible := [Seat("ann", "first", 10), Seat("bob", "second", 10)];
            && Hands.Deal(PlayersOf(eligible), c.blinds, deck)
            && LegalRun(NewHand(PlayersOf(eligible), 0, c.blinds, deck), [])
            && TableRunner.Stopped(Final(c, eligible, deck, []), 0)
            && Final(c, eligible, deck, []).current == -1
            && HandCosts(c, eligible, deck, [], 20)
  {
    hide NewHand, Run, Sum, HandCosts, TableRunner.Stopped;
    var eligible := [Seat("ann", "first", 10), Seat("bob", "second", 10)];
    BlindsTakeAll(c, eligible, deck);
    TwoTens(eligible);
    var loss := HandLossIs(c, eligible, deck, []);
  }

  lemma BlindsTakeAll(c: Config, eligible: seq<Seat>, deck: seq<Card>)
    requires c.blinds == Blinds(10, 20) && |deck| == 52
    requires eligible == [Seat("ann", "first", 10), Seat("bob", "second", 10)]
    ensures Hands.Deal(PlayersOf(eligible), c.blinds, deck)
    ensures LegalRun(NewHand(PlayersOf(eligible), 0, c.blinds, deck), [])
    ensures var t := Final(c, eligible, deck, []);
            TableRunner.Stopped(t, 0) && t.current == -1 && Sum(t.players, Stack) == 0
  {
    hide NewHand, Run, Sum;
    var two := PlayersOf(eligible);
    assert two == [Hands.Fresh("ann", 10), Hands.Fresh("bob", 10)];
    BothAllIn(two, deck);
    BothAreBroke(two, deck);
    EmptyRun(NewHand(two, 0, c.blinds, deck));
    NobodyHasChips(NewHand(two, 0, c.blinds, deck).players);
  }

  lemma TwoTens(seats: seq<Seat>)
    requires |seats| == 2 && seats[0].chips == 10 && seats[1].chips == 10
    ensures Sum(seats, SeatChips) == 20
  {
    var one := seats[..1];
    assert one[..0] == [] && one[0] == seats[0];
    assert Sum(one, SeatChips) == 10;
    assert seats[..|seats| - 1] == one;
  }

  lemma BothAreBroke(two: seq<Player>, deck: seq<Card>)
    requires two == [Hands.Fresh("ann", 10), Hands.Fresh("bob", 10)] && |deck| == 52
    ensures forall p :: p in NewHand(two, 0, Blinds(10, 20), deck).players ==> p.stack == 0
  {
    hide NewHand, DealOrder;
    NewSeats(two, 0, Blinds(10, 20), deck);
  }

  lemma {:induction false} NobodyHasChips(ps: seq<Player>)
    requires forall p :: p in ps ==> p.stack == 0
    ensures Sum(ps, Stack) == 0
  {
    if ps != [] {
      NobodyHasChips(ps[..|ps| - 1]);
    }
  }

  /** What a step takes out of circulation. */
  ghost predicate Loses(c: Config, w: World, step: Step, loss: int)
    requires Enabled(c, w, step)
  {
    match step
    case Handoff(g, session, now) => loss == if SitsTwice(w.room, c.buyIn, g, session, now) then c.buyIn else 0
    case HandEnds(deck, actions) => HandCosts(c, w.hand.value, deck, actions, loss)
    case _ => loss == 0
  }

  /** What a step brings into circulation. */
  function Issued(w: World, step: Step): int {
    if step.LedgerTraffic? then Minted(w.room.book, step.op) else 0
  }

  ghost predicate OnRoster(w: World, step: Step, roster: seq<string>) {
    match step
    case Handoff(g, _, _) => g in roster
    case Leave(g, _) => g in roster
    case LedgerTraffic(op) => forall g :: g in GhostsOf(w.room.book, op) ==> g in roster
    case _ => true
  }

  lemma StepKeepsSound(c: Config, w: World, step: Step)
    requires Sound(w) && Enabled(c, w, step)
    ensures Sound(Next(c, w, step))
  {
    hide Settled, BustedAfter, Eligible, Busted, HandoffOutcome, ReleaseOutcome, Apply, DistinctSeats, FindSeat,
      LegalRun, NewHand;
    match step {
      case Handoff(g, session, now) => HandoffKeepsSound(c, w, g, session, now);
      case Deal =>
        EligibleFacts(w.room.table.seats);
        EligibleDistinct(w.room.table.seats);
      case HandEnds(deck, actions) =>
        FinalsMatch(c, w.hand.value, deck, actions);
        SettleKeepsSound(w, Final(c, w.hand.value, deck, actions).players);
      case ReleaseBusted(now) => ReleaseBustedKeepsSound(c, w, now);
      case Leave(g, now) =>
        ReleaseKeeps(w.room, w.room.table.seats[FindSeat(w.room.table.seats, g)], LeftByChoice, now);
        NobodyThere();
      case _ => NobodyThere();
    }
  }

  lemma NobodyThere()
    ensures DistinctSeats([])
  {
  }

  lemma ReleaseBustedKeepsSound(c: Config, w: World, now: int)
    requires Sound(w) && w.leaving != []
    ensures Sound(Next(c, w, ReleaseBusted(now)))
  {
    hide ReleaseOutcome, FindSeat;
    var s := w.leaving[0];
    ReleaseKeeps(w.room, s, BustedOut, now);
    RestOfLeaving(w.leaving);
    if w.hand.Some? {
      forall x | x in w.hand.value ensures x.ghostId != s.ghostId {
        InSeats(w.room.table.seats, x);
        InSeats(w.room.table.seats, s);
      }
    }
  }

  /** Every step moves chips between ledger, escrow and table; the total changes by exactly
      what the step loses and issues. */
  lemma StepConserves(c: Config, w: World, step: Step, roster: seq<string>) returns (loss: int)
    requires Sound(w) && Enabled(c, w, step)
    requires Distinct(roster) && OnRoster(w, step, roster)
    ensures Loses(c, w, step, loss)
    ensures Total(Next(c, w, step), roster) == Total(w, roster) - loss + Issued(w, step)
  {
    loss := 0;
    hide HandCosts, Settled, BustedAfter, Eligible, Busted, HandoffOutcome, ReleaseOutcome, Apply, DistinctSeats, FindSeat,
      LegalRun, NewHand, Sum, Worth, Distinct, Minted, GhostsOf, SitsTwice;
    match step {
      case Handoff(g, session, now) =>
        HandoffConserves(c, w, g, session, now, roster);
        loss := if SitsTwice(w.room, c.buyIn, g, session, now) then c.buyIn else 0;
      case HandEnds(deck, actions) =>
        FinalsMatch(c, w.hand.value, deck, actions);
        loss := HandLossIs(c, w.hand.value, deck, actions);
        SettleTotal(w.room.table.seats, w.hand.value, Final(c, w.hand.value, deck, actions).players);
      case ReleaseBusted(now) =>
        ReleaseConserves(w.room, w.leaving[0], BustedOut, now, roster);
      case Leave(g, now) =>
        ReleaseConserves(w.room, w.room.table.seats[FindSeat(w.room.table.seats, g)], LeftByChoice, now, roster);
      case LedgerTraffic(op) => OpConserves(w.room.book, op, roster);
      case _ =>
    }
  }

  // ----- Every run -----

  ghost predicate SessionRun(c: Config, w: World, steps: seq<Step>)
    decreases |steps|
  {
    steps == [] || (Enabled(c, w, steps[0]) && SessionRun(c, Next(c, w, steps[0]), steps[1..]))
  }

  function After(c: Config, w: World, steps: seq<Step>): World
    requires SessionRun(c, w, steps)
    decreases |steps|
  {
    if steps == [] then w else After(c, Next(c, w, steps[0]), steps[1..])
  }

  /** One release after the other, at these times. */
  function ReleasesAt(nows: seq<int>): seq<Step> {
    if nows == [] then [] else [ReleaseBusted(nows[0])] + ReleasesAt(nows[1..])
  }

  predicate Named(seats: seq<Seat>, g: string) {
    exists s :: s in seats && s.ghostId == g
  }

  lemma ReleaseTakesFirst(c: Config, w: World, now: int)
    requires Sound(w) && w.leaving != []
    ensures var v := Next(c, w, ReleaseBusted(now));
            && v.leaving == w.leaving[1..] && v.hand == w.hand
            && forall x :: x in v.room.table.seats <==> x in w.room.table.seats && x.ghostId != w.leaving[0].ghostId
  {
    hide ReleaseOutcome, FindSeat;
    ReleaseKeeps(w.room, w.leaving[0], BustedOut, now);
  }

  /** Releasing the busted seats one by one frees all of theirs and no other. */
  lemma {:induction false} BustedAllGo(c: Config, w: World, nows: seq<int>)
    requires Sound(w) && |nows| == |w.leaving|
    ensures SessionRun(c, w, ReleasesAt(nows))
    ensures var v := After(c, w, ReleasesAt(nows));
            && v.leaving == [] && v.hand == w.hand
            && forall x :: x in v.room.table.seats <==> x in w.room.table.seats && !Named(w.leaving, x.ghostId)
    decreases |nows|
  {
    hide Sound, Next;
    if nows != [] {
      var step := ReleaseBusted(nows[0]);
      assert ReleasesAt(nows)[0] == step && ReleasesAt(nows)[1..] == ReleasesAt(nows[1..]);
      ReleaseTakesFirst(c, w, nows[0]);
      StepKeepsSound(c, w, step);
      BustedAllGo(c, Next(c, w, step), nows[1..]);
      NamedFirst(w.leaving);
    }
  }

  lemma NamedFirst(leaving: seq<Seat>)
    requires leaving != []
    ensures forall g :: Named(leaving, g) <==> g == leaving[0].ghostId || Named(leaving[1..], g)
  {
    assert leaving == [leaving[0]] + leaving[1..];
  }

  /** What each step of a run loses: a handoff the buy-in it takes for nothing, a hand its
      cost. */
  ghost predicate LossesOf(c: Config, w: World, steps: seq<Step>, losses: seq<int>)
    requires SessionRun(c, w, steps)
    decreases |steps|
  {
    && |losses| == |steps|
    && (steps != [] ==>
          && Loses(c, w, steps[0], losses[0])
          && LossesOf(c, Next(c, w, steps[0]), steps[1..], losses[1..]))
  }

  function IssuedIn(c: Config, w: World, steps: seq<Step>): int
    requires SessionRun(c, w, steps)
    decreases |steps|
  {
    if steps == [] then 0
    else Issued(w, steps[0]) + IssuedIn(c, Next(c, w, steps[0]), steps[1..])
  }

  ghost predicate RosterCovers(c: Config, w: World, steps: seq<Step>, roster: seq<string>)
    requires SessionRun(c, w, steps)
    decreases |steps|
  {
    steps == [] || (OnRoster(w, steps[0], roster) && RosterCovers(c, Next(c, w, steps[0]), steps[1..], roster))
  }

  /** No step changes how many may sit. */
  lemma StepKeepsCapacity(c: Config, w: World, step: Step)
    requires Enabled(c, w, step)
    ensures Next(c, w, step).room.table.capacity == w.room.table.capacity
  {
    hide Settled, BustedAfter, Eligible, Busted, FindSeat, LegalRun, NewHand, Apply, DebitOutcome, AwardOutcome,
      Touch, Balance, Without;
  }

  /** Over every interleaving the seats stay within capacity, one to a ghost, and the Cyphers in
      balances, escrow and stacks change by exactly what was issued and what each step lost. */
  lemma {:induction false} SessionConserves(c: Config, w: World, steps: seq<Step>, roster: seq<string>)
    returns (losses: seq<int>)
    requires Sound(w) && SessionRun(c, w, steps)
    requires Distinct(roster) && RosterCovers(c, w, steps, roster)
    ensures Sound(After(c, w, steps)) && LossesOf(c, w, steps, losses)
    ensures After(c, w, steps).room.table.capacity == w.room.table.capacity
    ensures Total(After(c, w, steps), roster) == Total(w, roster) - SumOf(losses) + IssuedIn(c, w, steps)
    decreases |steps|
  {
    hide Sound, Enabled, Next, Loses, Issued, Total, Distinct, OnRoster;
    losses := [];
    if steps != [] {
      StepKeepsSound(c, w, steps[0]);
      StepKeepsCapacity(c, w, steps[0]);
      var loss := StepConserves(c, w, steps[0], roster);
      var rest := SessionConserves(c, Next(c, w, steps[0]), steps[1..], roster);
      losses := [loss] + rest;
      assert losses[1..] == rest && losses[0] == loss;
      assert SumOf(losses) == loss + SumOf(rest);
    }
  }

  /** A session that has just started, with whatever the ledger holds. */
  function Opening(capacity: nat, book: Book): World {
    World(Room(Table(capacity, [], map[]), book), None, [])
  }

  lemma OpeningIsSound(capacity: nat, book: Book, roster: seq<string>)
    ensures Sound(Opening(capacity, book)) && Total(Opening(capacity, book), roster) == Worth(book, roster)
  {
    hide Worth;
  }

  /** From the opening of the table on, however handoffs, hands, departures and other ledger
      traffic interleave: no more seats than the table has room for, no ghost twice, and all
      that was on the ledger is still there or on the table, but for what was issued, the
      buy-ins of second sessions, the rounding of showdowns and the pots of hands given up. */
  lemma SessionKeepsEverything(c: Config, capacity: nat, book: Book, steps: seq<Step>, roster: seq<string>)
    returns (losses: seq<int>)
    requires SessionRun(c, Opening(capacity, book), steps)
    requires Distinct(roster) && RosterCovers(c, Opening(capacity, book), steps, roster)
    ensures var t := After(c, Opening(capacity, book), steps).room.table;
            DistinctSeats(t.seats) && |t.seats| <= capacity
    ensures LossesOf(c, Opening(capacity, book), steps, losses)
    ensures var w := After(c, Opening(capacity, book), steps);
            Worth(w.room.book, roster) + Sum(w.room.table.seats, SeatChips)
            == Worth(book, roster) - SumOf(losses) + IssuedIn(c, Opening(capacity, book), steps)
  {
    hide Worth, SessionRun, After, LossesOf, RosterCovers, IssuedIn, Distinct, DistinctSeats, Sum;
    OpeningIsSound(capacity, book, roster);
    losses := SessionConserves(c, Opening(capacity, book), steps, roster);
  }

  // ----- Cooldowns -----

  /** Every handoff these steps bring from g comes before then. */
  ghost predicate EarlyFor(steps: seq<Step>, g: string, until: int) {
    forall step :: step in steps && step.Handoff? && step.ghostId == g ==> step.now < until
  }

  /** Until a cooldown runs out, no interleaving seats its ghost again: every handoff it sends
      before then is refused. */
  lemma {:induction false} CooldownBars(c: Config, w: World, steps: seq<Step>, g: string, until: int)
    requires Sound(w) && SessionRun(c, w, steps)
    requires Barred(w.room.table, g, until) && EarlyFor(steps, g, until)
    ensures Barred(After(c, w, steps).room.table, g, until)
    decreases |steps|
  {
    hide Sound, Enabled, Next, Barred;
    if steps != [] {
      StepKeepsSound(c, w, steps[0]);
      StepBars(c, w, steps[0], g, until);
      CooldownBars(c, Next(c, w, steps[0]), steps[1..], g, until);
    }
  }

  /** g is not seated and may not be until then. */
  predicate Barred(t: Table, g: string, until: int) {
    FindSeat(t.seats, g) == -1 && g in t.cooldownUntil && t.cooldownUntil[g] == until
  }

  lemma HandoffBars(r: Room, buyIn: int, h: string, session: string, now: int, g: string, until: int)
    requires Barred(r.table, g, until) && (h == g ==> now < until)
    ensures Barred(HandoffOutcome(r, buyIn, h, session, now).0.table, g, until)
    ensures h == g ==> !HandoffOutcome(r, buyIn, h, session, now).1
  {
    hide FindSeat, DebitOutcome, AwardOutcome, Touch, Balance;
    var seats := r.table.seats;
    NotSeated(seats, g);
    if h != g {
      Absent(seats + [Seat(h, session, buyIn)], g);
    }
  }

  lemma ReleaseBars(r: Room, s: Seat, reason: Reason, now: int, g: string, until: int)
    requires Barred(r.table, g, until) && SeatsFit(r.table) && s in r.table.seats
    ensures Barred(ReleaseOutcome(r, s, reason, now).table, g, until)
  {
    hide FindSeat, AwardOutcome, Without;
    NotSeated(r.table.seats, g);
    ReleaseKeeps(r, s, reason, now);
    Absent(ReleaseOutcome(r, s, reason, now).table.seats, g);
  }

  lemma StepBars(c: Config, w: World, step: Step, g: string, until: int)
    requires Sound(w) && Enabled(c, w, step) && Barred(w.room.table, g, until)
    requires step.Handoff? && step.ghostId == g ==> step.now < until
    ensures Barred(Next(c, w, step).room.table, g, until)
  {
    hide FindSeat, DistinctSeats, Settled, BustedAfter, LegalRun, NewHand, Apply, HandoffOutcome, ReleaseOutcome,
      Eligible, Busted;
    match step {
      case HandEnds(deck, actions) =>
        FinalsMatch(c, w.hand.value, deck, actions);
        NotSeated(w.room.table.seats, g);
        SettleKeepsAway(w, Final(c, w.hand.value, deck, actions).players, g);
      case ReleaseBusted(now) =>
        ReleaseBars(w.room, w.leaving[0], BustedOut, now, g, until);
      case Leave(h, now) =>
        ReleaseBars(w.room, w.room.table.seats[FindSeat(w.room.table.seats, h)], LeftByChoice, now, g, until);
      case Handoff(h, session, now) => HandoffBars(w.room, c.buyIn, h, session, now, g, until);
      case _ =>
    }
  }

  lemma NotSeated(seats: seq<Seat>, g: string)
    ensures FindSeat(seats, g) == -1 ==> forall s :: s in seats ==> s.ghostId != g
  {
    var i := FindSeat(seats, g);
  }

  lemma SettleKeepsAway(w: World, finals: seq<Player>, g: string)
    requires Sound(w) && w.hand.Some? && Match(w.hand.value, finals)
    requires forall s :: s in w.room.table.seats ==> s.ghostId != g
    ensures FindSeat(Settled(w.room.table.seats, w.hand.value, finals), g) == -1
  {
    hide Settled, Sum, DistinctSeats;
    var seats := w.room.table.seats;
    SettleTotal(seats, w.hand.value, finals);
    var after := Settled(seats, w.hand.value, finals);
    forall s | s in after ensures s.ghostId != g {
      var i :| 0 <= i < |after| && after[i] == s;
      assert seats[i] in seats;
    }
    Absent(after, g);
  }

  /** The ghost a step releases, and how long it then has to wait. */
  function Releases(w: World, step: Step): (string, int)
    requires step.Leave? || (step.ReleaseBusted? && w.leaving != [])
  {
    if step.Leave? then (step.ghostId, step.now + 30_000) else (w.leaving[0].ghostId, step.now + 120_000)
  }

  /** A released ghost cannot be seated again until its cooldown has run out: two minutes after
      busting, half a minute after leaving. */
  lemma ReleasedStaysOut(c: Config, w: World, step: Step, steps: seq<Step>)
    requires Sound(w) && Enabled(c, w, step) && (step.ReleaseBusted? || step.Leave?)
    requires SessionRun(c, Next(c, w, step), steps)
    requires EarlyFor(steps, Releases(w, step).0, Releases(w, step).1)
    ensures FindSeat(After(c, Next(c, w, step), steps).room.table.seats, Releases(w, step).0) == -1
  {
    hide Sound, FindSeat, Next;
    StepKeepsSound(c, w, step);
    ReleaseCools(c, w, step);
    CooldownBars(c, Next(c, w, step), steps, Releases(w, step).0, Releases(w, step).1);
  }

  lemma ReleaseCools(c: Config, w: World, step: Step)
    requires Sound(w) && Enabled(c, w, step) && (step.ReleaseBusted? || step.Leave?)
    ensures Barred(Next(c, w, step).room.table, Releases(w, step).0, Releases(w, step).1)
  {
    hide FindSeat, DistinctSeats, AwardOutcome, Without;
    var g := Releases(w, step).0;
    var reason := if step.Leave? then LeftByChoice else BustedOut;
    ReleaseFacts(Cooled(w.room.table, g, Cooldown(reason), step.now), g);
  }
}
