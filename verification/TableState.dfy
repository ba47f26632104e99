// The one active table of a session process: its seats and the cooldowns of ghosts that left
// (ghosts/rdc-poker-session/src/table-state.ts).
module TableState {
  import opened Seqs

  /** A seated ghost, the session it was seated under, and the chips it carries between hands. */
  datatype Seat = Seat(ghostId: string, sessionId: string, chips: int)

  /** Seats are listed in the order the ghosts sat down, as a Map keeps them. */
  datatype Table = Table(capacity: nat, seats: seq<Seat>, cooldownUntil: map<string, int>)

  datatype SeatOutcome = Seated | Full | AlreadyHere

  function FindSeat(seats: seq<Seat>, g: string): (i: int)
    ensures -1 <= i < |seats|
    ensures i >= 0 ==> seats[i].ghostId == g
    ensures i == -1 ==> forall s :: s in seats ==> s.ghostId != g
  {
    if seats == [] then -1
    else
      var i := FindSeat(seats[..|seats| - 1], g);
      if i >= 0 then i else if seats[|seats| - 1].ghostId == g then |seats| - 1 else -1
  }

  ghost predicate DistinctSeats(seats: seq<Seat>) {
    forall i, j :: 0 <= i < j < |seats| ==> seats[i].ghostId != seats[j].ghostId
  }

  function Without(seats: seq<Seat>, g: string): seq<Seat> {
    var i := FindSeat(seats, g);
    if i == -1 then seats else seats[..i] + seats[i + 1..]
  }

  function Seating(t: Table, seat: Seat): (Table, SeatOutcome) {
    if FindSeat(t.seats, seat.ghostId) >= 0 then (t, AlreadyHere)
    else if |t.seats| >= t.capacity then (t, Full)
    else (t.(seats := t.seats + [seat]), Seated)
  }

  function Released(t: Table, g: string): Table {
    t.(seats := Without(t.seats, g))
  }

  function Cooled(t: Table, g: string, duration: int, now: int): Table {
    t.(cooldownUntil := if duration <= 0 then t.cooldownUntil - {g} else t.cooldownUntil[g := now + duration])
  }

  /** The time a ghost still has to wait. */
  function CooldownLeft(t: Table, g: string, now: int): int {
    if g in t.cooldownUntil then Max(t.cooldownUntil[g] - now, 0) else 0
  }

  /** Reading a cooldown forgets it once it has run out. */
  function Pruned(t: Table, g: string, now: int): Table {
    if CooldownLeft(t, g, now) > 0 then t else t.(cooldownUntil := t.cooldownUntil - {g})
  }

  class ActiveTable {
    const capacity: nat
    var seats: seq<Seat>
    var cooldownUntil: map<string, int>

    constructor (capacity: nat)
      ensures Contents() == Table(capacity, [], map[])
    {
      this.capacity := capacity;
      seats, cooldownUntil := [], map[];
    }

    ghost function Contents(): Table
      reads this
    {
      Table(capacity, seats, cooldownUntil)
    }

    /** seat() */
    method TakeSeat(seat: Seat) returns (outcome: SeatOutcome)
      modifies this
      ensures (Contents(), outcome) == Seating(old(Contents()), seat)
      ensures outcome == AlreadyHere <==> exists s :: s in old(seats) && s.ghostId == seat.ghostId
      ensures outcome == Seated <==> |old(seats)| < capacity && outcome != AlreadyHere
      ensures seats == old(seats) + if outcome == Seated then [seat] else []
    {
      var i := FindSeat(seats, seat.ghostId);
      if i >= 0 {
        return AlreadyHere;
      }
      if |seats| >= capacity {
        return Full;
      }
      seats := seats + [seat];
      outcome := Seated;
    }

    method Release(ghostId: string) returns (seat: Option<Seat>)
      modifies this
      ensures Contents() == Released(old(Contents()), ghostId)
      ensures var i := FindSeat(old(seats), ghostId);
              seat == if i == -1 then None else Some(old(seats)[i])
    {
      var i := FindSeat(seats, ghostId);
      if i == -1 {
        return None;
      }
      seat := Some(seats[i]);
      seats := seats[..i] + seats[i + 1..];
    }

    method SetCooldown(ghostId: string, durationMs: int, now: int)
      modifies this
      ensures Contents() == Cooled(old(Contents()), ghostId, durationMs, now)
    {
      if durationMs <= 0 {
        cooldownUntil := cooldownUntil - {ghostId};
        return;
      }
      cooldownUntil := cooldownUntil[ghostId := now + durationMs];
    }

    method CooldownRemainingMs(ghostId: string, now: int) returns (ms: int)
      modifies this
      ensures ms == CooldownLeft(old(Contents()), ghostId, now)
      ensures Contents() == Pruned(old(Contents()), ghostId, now)
    {
      if ghostId !in cooldownUntil {
        assert cooldownUntil - {ghostId} == cooldownUntil;
        return 0;
      }
      var remaining := cooldownUntil[ghostId] - now;
      if remaining <= 0 {
        cooldownUntil := cooldownUntil - {ghostId};
        return 0;
      }
      ms := remaining;
    }
  }

  // ----- What the seats keep -----

  /** No ghost sits twice, and no more sit than there is room for. */
  ghost predicate SeatsFit(t: Table) {
    DistinctSeats(t.seats) && |t.seats| <= t.capacity
  }

  lemma SeatingKeepsFit(t: Table, seat: Seat)
    requires SeatsFit(t)
    ensures SeatsFit(Seating(t, seat).0)
  {
    var r := Seating(t, seat).0;
    forall i, j | 0 <= i < j < |r.seats| ensures r.seats[i].ghostId != r.seats[j].ghostId {
      assert r.seats[i] in t.seats;
    }
  }

  lemma {:induction false} Absent(seats: seq<Seat>, g: string)
    requires forall s :: s in seats ==> s.ghostId != g
    ensures FindSeat(seats, g) == -1
  {
    if seats != [] {
      Absent(seats[..|seats| - 1], g);
      assert seats[|seats| - 1] in seats;
    }
  }

  lemma SeatOf(seats: seq<Seat>, i: nat)
    requires DistinctSeats(seats) && i < |seats|
    ensures FindSeat(seats, seats[i].ghostId) == i
  {
    var k := FindSeat(seats, seats[i].ghostId);
    assert seats[i] in seats;
    assert k >= 0;
  }

  /** A cooldown set for a while leaves exactly what is left of that while, and after it nothing. */
  lemma CooldownRunsOut(t: Table, g: string, duration: int, since: int, now: int)
    requires since <= now
    ensures CooldownLeft(Cooled(t, g, duration, since), g, now)
         == if now < since + duration then since + duration - now else 0
    ensures forall h :: h != g ==> CooldownLeft(Cooled(t, g, duration, since), h, now) == CooldownLeft(t, h, now)
    ensures forall h :: CooldownLeft(Pruned(t, g, since), h, now) == CooldownLeft(t, h, now)
    ensures duration <= 0 ==> g !in Cooled(t, g, duration, since).cooldownUntil
    ensures g in Pruned(t, g, since).cooldownUntil <==> CooldownLeft(t, g, since) > 0
  {
  }

  /** Ghosts arriving one after the other. */
  function SeatAll(t: Table, arrivals: seq<Seat>): Table {
    if arrivals == [] then t else Seating(SeatAll(t, arrivals[..|arrivals| - 1]), arrivals[|arrivals| - 1]).0
  }

  /** The arrivals a table of this capacity has room for. */
  function FirstFew(arrivals: seq<Seat>, capacity: nat): seq<Seat> {
    if |arrivals| <= capacity then arrivals else arrivals[..capacity]
  }

  lemma NewcomerSeated(t: Table, seat: Seat)
    requires forall s :: s in t.seats ==> s.ghostId != seat.ghostId
    ensures Seating(t, seat).0 == t.(seats := if |t.seats| < t.capacity then t.seats + [seat] else t.seats)
  {
    Absent(t.seats, seat.ghostId);
  }

  lemma OneMoreArrival(arrivals: seq<Seat>, capacity: nat)
    requires arrivals != [] && DistinctSeats(arrivals)
    ensures var init, last := arrivals[..|arrivals| - 1], arrivals[|arrivals| - 1];
            && (forall s :: s in FirstFew(init, capacity) ==> s.ghostId != last.ghostId)
            && FirstFew(arrivals, capacity)
               == if |FirstFew(init, capacity)| < capacity then FirstFew(init, capacity) + [last] else FirstFew(init, capacity)
  {
    var init, last := arrivals[..|arrivals| - 1], arrivals[|arrivals| - 1];
    assert init + [last] == arrivals;
    if |arrivals| > capacity {
      assert init[..capacity] == arrivals[..capacity];
    }
  }

  /** An empty table seats everybody in turn until its capacity is reached, and then nobody. */
  lemma {:induction false} TableFillsUp(capacity: nat, arrivals: seq<Seat>)
    requires DistinctSeats(arrivals)
    ensures SeatAll(Table(capacity, [], map[]), arrivals) == Table(capacity, FirstFew(arrivals, capacity), map[])
  {
    hide Seating, FirstFew;
    if arrivals == [] {
      assert FirstFew([], capacity) == [] by { NoArrivals(capacity); }
    } else {
      TableFillsUp(capacity, arrivals[..|arrivals| - 1]);
      OneMoreArrival(arrivals, capacity);
      NewcomerSeated(SeatAll(Table(capacity, [], map[]), arrivals[..|arrivals| - 1]), arrivals[|arrivals| - 1]);
    }
  }

  lemma NoArrivals(capacity: nat)
    ensures FirstFew([], capacity) == []
  {
  }

  /** The seats behind the one released move up, in their order. */
  lemma ReleaseKeepsOrder(t: Table, g: string, i: nat)
    requires DistinctSeats(t.seats) && i < |t.seats| && t.seats[i].ghostId == g
    ensures var rest := Released(t, g).seats;
            && |rest| == |t.seats| - 1
            && forall k :: 0 <= k < |rest| ==> rest[k] == t.seats[if k < i then k else k + 1]
  {
    SeatOf(t.seats, i);
  }

  /** Releasing a ghost frees its seat and no other. */
  lemma ReleaseFacts(t: Table, g: string)
    requires SeatsFit(t)
    ensures SeatsFit(Released(t, g))
    ensures FindSeat(Released(t, g).seats, g) == -1
    ensures forall s :: s in Released(t, g).seats <==> s in t.seats && s.ghostId != g
  {
    hide FindSeat;
    var seats, rest := t.seats, Released(t, g).seats;
    var i := FindSeat(seats, g);
    if i >= 0 {
      forall k | 0 <= k < |rest| ensures rest[k] == seats[if k < i then k else k + 1] {
      }
      forall s ensures s in rest <==> s in seats && s.ghostId != g {
        if s in seats && s.ghostId != g {
          var k :| 0 <= k < |seats| && seats[k] == s;
          assert rest[if k < i then k else k - 1] == s;
        }
      }
    }
    Absent(rest, g);
  }
}
