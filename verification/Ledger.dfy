// The Cyphers ledger: balances, escrowed bounties and the append-only event log
// (ghosts/rdc-ledger/src/ledger.ts, types.ts).
module Ledger {
  import opened Seqs

  datatype Status = Open | Claimed | Revoked

  datatype Bounty = Bounty(
    id: string,
    target: string,
    placer: string,
    amount: int,
    status: Status,
    claimedBy: Option<string>)

  datatype Event =
    | Credit(ghostId: string, amount: int)
    | Debit(ghostId: string, amount: int)
    | Transfer(from: string, to: string, amount: int)
    | BountyPlaced(bountyId: string, target: string, placer: string, amount: int)
    | BountyClaimed(bountyId: string, claimer: string, amount: int)
    | BountyRevoked(bountyId: string)

  datatype LedgerError =
    | InvalidAmount
    | InsufficientFunds(available: int, required: int)
    | BountyNotFound
    | BountyNotOpen
    | BountySelfClaim

  /** The ledger's contents. Bounties are listed in the order they were placed, as a Map keeps
      them. */
  datatype Book = Book(start: int, balances: map<string, int>, bounties: seq<Bounty>, events: seq<Event>)

  // ----- Operations on contents -----

  /** A ghost the ledger has never seen is worth the starting balance. */
  function Balance(b: Book, g: string): int {
    if g in b.balances then b.balances[g] else b.start
  }

  /** getBalance, which records the starting balance of a ghost it has not seen. */
  function Touch(b: Book, g: string): Book {
    b.(balances := b.balances[g := Balance(b, g)])
  }

  function SetBalance(b: Book, g: string, n: int): Book {
    b.(balances := b.balances[g := n])
  }

  function Record(b: Book, e: Event): Book {
    b.(events := b.events + [e])
  }

  function FindBounty(bs: seq<Bounty>, id: string): (i: int)
    ensures -1 <= i < |bs|
    ensures i >= 0 ==> bs[i].id == id
    ensures i == -1 ==> forall x :: x in bs ==> x.id != id
  {
    if bs == [] then -1
    else
      var i := FindBounty(bs[..|bs| - 1], id);
      if i >= 0 then i else if bs[|bs| - 1].id == id then |bs| - 1 else -1
  }

  datatype Outcome = Outcome(book: Book, error: Option<LedgerError>)

  function AwardOutcome(b: Book, g: string, amount: int): Outcome {
    if amount <= 0 then Outcome(b, Some(InvalidAmount))
    else Outcome(Record(SetBalance(b, g, Balance(b, g) + amount), Credit(g, amount)), None)
  }

  function DebitOutcome(b: Book, g: string, amount: int): Outcome {
    if amount <= 0 then Outcome(b, Some(InvalidAmount))
    else if Balance(b, g) < amount then Outcome(Touch(b, g), Some(InsufficientFunds(Balance(b, g), amount)))
    else Outcome(Record(SetBalance(b, g, Balance(b, g) - amount), Debit(g, amount)), None)
  }

  /** transfer: the receiver's balance is read before the sender's is written. */
  function TransferOutcome(b: Book, from: string, to: string, amount: int): Outcome {
    if amount <= 0 then Outcome(b, Some(InvalidAmount))
    else if Balance(b, from) < amount then
      Outcome(Touch(b, from), Some(InsufficientFunds(Balance(b, from), amount)))
    else
      var b1 := SetBalance(b, from, Balance(b, from) - amount);
      Outcome(Record(SetBalance(b1, to, Balance(b, to) + amount), Transfer(from, to, amount)), None)
  }

  function PlaceOutcome(b: Book, id: string, placer: string, target: string, amount: int): Outcome {
    var debited := DebitOutcome(b, placer, amount);
    if debited.error.Some? then debited
    else
      var b1 := debited.book;
      var b2 := b1.(bounties := b1.bounties + [Bounty(id, target, placer, amount, Open, None)]);
      Outcome(Record(b2, BountyPlaced(id, target, placer, amount)), None)
  }

  function ClaimOutcome(b: Book, id: string, claimer: string): Outcome {
    var i := FindBounty(b.bounties, id);
    if i == -1 then Outcome(b, Some(BountyNotFound))
    else if b.bounties[i].status != Open then Outcome(b, Some(BountyNotOpen))
    else if b.bounties[i].target == claimer then Outcome(b, Some(BountySelfClaim))
    else
      var bounty := b.bounties[i];
      var b1 := SetBalance(b, claimer, Balance(b, claimer) + bounty.amount);
      var b2 := b1.(bounties := b1.bounties[i := bounty.(claimedBy := Some(claimer), status := Claimed)]);
      Outcome(Record(b2, BountyClaimed(id, claimer, bounty.amount)), None)
  }

  function RevokeOutcome(b: Book, id: string): Outcome {
    var i := FindBounty(b.bounties, id);
    if i == -1 then Outcome(b, Some(BountyNotFound))
    else if b.bounties[i].status != Open then Outcome(b, Some(BountyNotOpen))
    else
      var bounty := b.bounties[i];
      var b1 := SetBalance(b, bounty.placer, Balance(b, bounty.placer) + bounty.amount);
      var b2 := b1.(bounties := b1.bounties[i := bounty.(status := Revoked)]);
      Outcome(Record(b2, BountyRevoked(id)), None)
  }

  /** Reading two balances first makes no difference to writing both. */
  lemma TwoWrites(before: map<string, int>, touched: map<string, int>, f: string, t: string,
                  m: int, n: int, newF: int, newT: int)
    requires touched == before[f := m][t := n]
    ensures touched[f := newF][t := newT] == before[f := newF][t := newT]
  {
  }

  /** When each operation goes through: a positive amount, covered where Cyphers are taken; a claim of
      an open bounty by anybody but its target; a revocation of an open bounty. */
  lemma OpSucceedsExactly(b: Book, op: Op)
    ensures OpOutcome(b, op).error.None? <==>
            match op
            case Look(_) => true
            case Award(_, n) => 0 < n
            case TakeOut(g, n) => 0 < n <= Balance(b, g)
            case Move(f, _, n) => 0 < n <= Balance(b, f)
            case Place(_, p, _, n) => 0 < n <= Balance(b, p)
            case Claim(id, c) => IsOpen(b, id) && b.bounties[FindBounty(b.bounties, id)].target != c
            case Revoke(id) => IsOpen(b, id)
  {
    hide FindBounty;
  }

  /** What each refusal says. */
  lemma RefusalsMean(b: Book, op: Op)
    requires OpOutcome(b, op).error.Some?
    ensures match OpOutcome(b, op).error.value
            case InvalidAmount => !op.Look? && !op.Claim? && !op.Revoke? && op.amount <= 0
            case InsufficientFunds(available, required) =>
              && (op.TakeOut? || op.Move? || op.Place?) && required == op.amount > available
              && available == Balance(b, if op.TakeOut? then op.ghostId else if op.Move? then op.from else op.placer)
            case BountyNotFound => (op.Claim? || op.Revoke?) && forall x :: x in b.bounties ==> x.id != op.id
            case BountyNotOpen => (op.Claim? || op.Revoke?) && !IsOpen(b, op.id)
                                  && exists x :: x in b.bounties && x.id == op.id
            case BountySelfClaim => op.Claim? && IsOpen(b, op.id)
                                    && b.bounties[FindBounty(b.bounties, op.id)].target == op.claimer
  {
    hide FindBounty;
  }

  predicate IsOpen(b: Book, id: string) {
    var i := FindBounty(b.bounties, id);
    i >= 0 && b.bounties[i].status == Open
  }

  /** What an operation that goes through does to a ghost's balance. */
  function GainOf(b: Book, op: Op, g: string): int {
    match op
    case Look(_) => 0
    case Award(h, n) => if h == g then n else 0
    case TakeOut(h, n) => if h == g then -n else 0
    case Move(f, t, n) => if t == g then n else if f == g then -n else 0
    case Place(_, p, _, n) => if p == g then -n else 0
    case Claim(id, c) =>
      var i := FindBounty(b.bounties, id);
      if i >= 0 && c == g then b.bounties[i].amount else 0
    case Revoke(id) =>
      var i := FindBounty(b.bounties, id);
      if i >= 0 && b.bounties[i].placer == g then b.bounties[i].amount else 0
  }

  /** Balances change by the operation's amount and nowhere else, a refused operation changes none;
      and each event logged is one write queued. */
  lemma OpBalances(b: Book, op: Op, g: string)
    ensures OpOutcome(b, op).error.Some? ==> Balance(Apply(b, op), g) == Balance(b, g)
    ensures OpOutcome(b, op).error.None? ==>
              Balance(Apply(b, op), g) == Balance(b, g) + GainOf(b, op, g)
    ensures |Apply(b, op).events| == |b.events| + Writes(b, op)
  {
    hide FindBounty;
  }

  lemma MoveWrites(b: Book, f: string, t: string, n: int)
    ensures Writes(b, Move(f, t, n)) == if TransferOutcome(b, f, t, n).error.Some? then 0 else 1
    ensures forall c, g :: Writes(c, Look(g)) == 0
  {
  }

  // ----- The class -----

  class CyphersLedger {
    const startingBalance: int
    var balances: map<string, int>
    var bounties: seq<Bounty>
    var events: seq<Event>
    /** How many writes persist() has chained onto the queue. */
    var writesQueued: nat

    constructor (startingBalance: int)
      ensures Contents() == Book(startingBalance, map[], [], [])
      ensures writesQueued == 0
    {
      this.startingBalance := startingBalance;
      balances, bounties, events, writesQueued := map[], [], [], 0;
    }

    ghost function Contents(): Book
      reads this
    {
      Book(startingBalance, balances, bounties, events)
    }

    method GetBalance(ghostId: string) returns (n: int)
      modifies this
      ensures Contents() == Touch(old(Contents()), ghostId)
      ensures n == Balance(old(Contents()), ghostId)
      ensures writesQueued == old(writesQueued) + Writes(old(Contents()), Look(ghostId))
    {
      if ghostId !in balances {
        balances := balances[ghostId := startingBalance];
      }
      assert balances == old(balances)[ghostId := Balance(old(Contents()), ghostId)];
      n := balances[ghostId];
    }

    method RecordEvent(e: Event)
      modifies this
      ensures Contents() == Record(old(Contents()), e) && writesQueued == old(writesQueued)
    {
      events := events + [e];
    }

    method Persist()
      modifies this
      ensures Contents() == old(Contents()) && writesQueued == old(writesQueued) + 1
    {
      writesQueued := writesQueued + 1;
    }

    method Award(ghostId: string, amount: int) returns (r: Result<int, LedgerError>)
      modifies this
      ensures var o := AwardOutcome(old(Contents()), ghostId, amount);
              Contents() == o.book && (if o.error.Some? then r == Err(o.error.value)
                                       else r == Ok(Balance(Contents(), ghostId)))
      ensures writesQueued == old(writesQueued) + Writes(old(Contents()), Op.Award(ghostId, amount))
    {
      if amount <= 0 {
        return Err(InvalidAmount);
      }
      var current := GetBalance(ghostId);
      var next := current + amount;
      balances := balances[ghostId := next];
      assert balances == old(balances)[ghostId := next];
      RecordEvent(Credit(ghostId, amount));
      Persist();
      r := Ok(next);
    }

    method Debit(ghostId: string, amount: int) returns (r: Result<int, LedgerError>)
      modifies this
      ensures var o := DebitOutcome(old(Contents()), ghostId, amount);
              Contents() == o.book && (if o.error.Some? then r == Err(o.error.value)
                                       else r == Ok(Balance(Contents(), ghostId)))
      ensures writesQueued == old(writesQueued) + Writes(old(Contents()), TakeOut(ghostId, amount))
    {
      if amount <= 0 {
        return Err(InvalidAmount);
      }
      var balance := GetBalance(ghostId);
      if balance < amount {
        return Err(InsufficientFunds(balance, amount));
      }
      var next := balance - amount;
      balances := balances[ghostId := next];
      assert balances == old(balances)[ghostId := next];
      RecordEvent(Event.Debit(ghostId, amount));
      Persist();
      r := Ok(next);
    }

    method Transfer(fromGhostId: string, toGhostId: string, amount: int) returns (r: Result<(int, int), LedgerError>)
      modifies this
      ensures var o := TransferOutcome(old(Contents()), fromGhostId, toGhostId, amount);
              Contents() == o.book && (if o.error.Some? then r == Err(o.error.value) else r.Ok?)
      ensures r.Ok? ==> r.value == (Balance(old(Contents()), fromGhostId) - amount, Balance(Contents(), toGhostId))
      ensures writesQueued == old(writesQueued) + Writes(old(Contents()), Move(fromGhostId, toGhostId, amount))
    {
      hide OpOutcome, Writes;
      MoveWrites(Contents(), fromGhostId, toGhostId, amount);
      if amount <= 0 {
        return Err(InvalidAmount);
      }
      var fromBalance := GetBalance(fromGhostId);
      if fromBalance < amount {
        return Err(InsufficientFunds(fromBalance, amount));
      }
      var newFrom := fromBalance - amount;
      var toBalance := GetBalance(toGhostId);
      var newTo := toBalance + amount;
      ghost var touched := balances;
      balances := balances[fromGhostId := newFrom];
      balances := balances[toGhostId := newTo];
      TwoWrites(old(balances), touched, fromGhostId, toGhostId, fromBalance, toBalance, newFrom, newTo);
      RecordEvent(Event.Transfer(fromGhostId, toGhostId, amount));
      Persist();
      r := Ok((newFrom, newTo));
    }

    method PlaceBounty(freshId: string, placerId: string, targetGhostId: string, amount: int)
      returns (r: Result<Bounty, LedgerError>)
      modifies this
      ensures var o := PlaceOutcome(old(Contents()), freshId, placerId, targetGhostId, amount);
              Contents() == o.book && (if o.error.Some? then r == Err(o.error.value) else r.Ok?)
      ensures r.Ok? ==> r.value == Bounty(freshId, targetGhostId, placerId, amount, Open, None)
      ensures writesQueued == old(writesQueued) + Writes(old(Contents()), Place(freshId, placerId, targetGhostId, amount))
    {
      if amount <= 0 {
        return Err(InvalidAmount);
      }
      var debited := Debit(placerId, amount);
      if debited.Err? {
        return Err(debited.error);
      }
      var bounty := Bounty(freshId, targetGhostId, placerId, amount, Open, None);
      bounties := bounties + [bounty];
      RecordEvent(BountyPlaced(freshId, targetGhostId, placerId, amount));
      Persist();
      r := Ok(bounty);
    }

    method ClaimBounty(bountyId: string, claimerId: string) returns (r: Result<Bounty, LedgerError>)
      modifies this
      ensures var o := ClaimOutcome(old(Contents()), bountyId, claimerId);
              Contents() == o.book && (if o.error.Some? then r == Err(o.error.value) else r.Ok?)
      ensures r.Ok? ==>
                var i := FindBounty(old(bounties), bountyId);
                i >= 0 && bounties == old(bounties)[i := r.value]
                && r.value == old(bounties)[i].(claimedBy := Some(claimerId), status := Claimed)
      ensures writesQueued == old(writesQueued) + Writes(old(Contents()), Claim(bountyId, claimerId))
    {
      var i := FindBounty(bounties, bountyId);
      if i == -1 {
        return Err(BountyNotFound);
      }
      var bounty := bounties[i];
      if bounty.status != Open {
        return Err(BountyNotOpen);
      }
      if bounty.target == claimerId {
        return Err(BountySelfClaim);
      }
      var current := GetBalance(claimerId);
      balances := balances[claimerId := current + bounty.amount];
      assert balances == old(balances)[claimerId := current + bounty.amount];
      var updated := bounty.(claimedBy := Some(claimerId), status := Claimed);
      bounties := bounties[i := updated];
      RecordEvent(BountyClaimed(bountyId, claimerId, bounty.amount));
      Persist();
      r := Ok(updated);
    }

    method RevokeBounty(bountyId: string) returns (r: Result<Bounty, LedgerError>)
      modifies this
      ensures var o := RevokeOutcome(old(Contents()), bountyId);
              Contents() == o.book && (if o.error.Some? then r == Err(o.error.value) else r.Ok?)
      ensures r.Ok? ==>
                var i := FindBounty(old(bounties), bountyId);
                i >= 0 && bounties == old(bounties)[i := r.value]
                && r.value == old(bounties)[i].(status := Revoked)
      ensures writesQueued == old(writesQueued) + Writes(old(Contents()), Revoke(bountyId))
    {
      var i := FindBounty(bounties, bountyId);
      if i == -1 {
        return Err(BountyNotFound);
      }
      var bounty := bounties[i];
      if bounty.status != Open {
        return Err(BountyNotOpen);
      }
      var current := GetBalance(bounty.placer);
      balances := balances[bounty.placer := current + bounty.amount];
      assert balances == old(balances)[bounty.placer := current + bounty.amount];
      var updated := bounty.(status := Revoked);
      bounties := bounties[i := updated];
      RecordEvent(BountyRevoked(bountyId));
      Persist();
      r := Ok(updated);
    }
  }

  // ----- Sequences of operations -----

  datatype Op =
    | Look(ghostId: string)
    | Award(ghostId: string, amount: int)
    | TakeOut(ghostId: string, amount: int)
    | Move(from: string, to: string, amount: int)
    | Place(id: string, placer: string, target: string, amount: int)
    | Claim(id: string, claimer: string)
    | Revoke(id: string)

  function OpOutcome(b: Book, op: Op): Outcome {
    match op
    case Look(g) => Outcome(Touch(b, g), None)
    case Award(g, n) => AwardOutcome(b, g, n)
    case TakeOut(g, n) => DebitOutcome(b, g, n)
    case Move(f, t, n) => TransferOutcome(b, f, t, n)
    case Place(id, p, t, n) => PlaceOutcome(b, id, p, t, n)
    case Claim(id, c) => ClaimOutcome(b, id, c)
    case Revoke(id) => RevokeOutcome(b, id)
  }

  /** How many writes an operation chains onto the queue: placing a bounty persists once for the
      debit and once for the bounty. */
  function Writes(b: Book, op: Op): nat {
    if OpOutcome(b, op).error.Some? || op.Look? then 0 else if op.Place? then 2 else 1
  }

  function Apply(b: Book, op: Op): Book {
    OpOutcome(b, op).book
  }

  /** A bounty id is fresh when it is placed. */
  predicate Fresh(b: Book, op: Op) {
    op.Place? ==> FindBounty(b.bounties, op.id) == -1
  }

  predicate FreshRun(b: Book, ops: seq<Op>)
    decreases |ops|
  {
    ops == [] || (FreshRun(b, ops[..|ops| - 1]) && Fresh(RunOps(b, ops[..|ops| - 1]), ops[|ops| - 1]))
  }

  function RunOps(b: Book, ops: seq<Op>): Book {
    if ops == [] then b else Apply(RunOps(b, ops[..|ops| - 1]), ops[|ops| - 1])
  }

  function NewBook(start: int): Book { Book(start, map[], [], []) }

  ghost predicate DistinctBounties(bs: seq<Bounty>) {
    forall i, j :: 0 <= i < j < |bs| ==> bs[i].id != bs[j].id
  }

  // ----- The audit trail -----

  /** What an event does to one ghost's balance, given the bounties recorded before it. */
  function Effect(e: Event, g: string, bounties: seq<Bounty>): int {
    match e
    case Credit(h, n) => if h == g then n else 0
    case Debit(h, n) => if h == g then -n else 0
    case Transfer(f, t, n) => (if t == g then n else 0) - (if f == g then n else 0)
    case BountyPlaced(_, _, _, _) => 0
    case BountyClaimed(_, c, n) => if c == g then n else 0
    case BountyRevoked(id) =>
      var i := FindBounty(bounties, id);
      if i >= 0 && bounties[i].placer == g then bounties[i].amount else 0
  }

  function ReplayBounty(bounties: seq<Bounty>, e: Event): seq<Bounty> {
    match e
    case BountyPlaced(id, t, p, n) => bounties + [Bounty(id, t, p, n, Open, None)]
    case BountyClaimed(id, c, _) =>
      var i := FindBounty(bounties, id);
      if i >= 0 then bounties[i := bounties[i].(claimedBy := Some(c), status := Claimed)] else bounties
    case BountyRevoked(id) =>
      var i := FindBounty(bounties, id);
      if i >= 0 then bounties[i := bounties[i].(status := Revoked)] else bounties
    case _ => bounties
  }

  /** The bounties, read back from the log alone. */
  function ReplayBounties(events: seq<Event>): seq<Bounty> {
    if events == [] then []
    else ReplayBounty(ReplayBounties(events[..|events| - 1]), events[|events| - 1])
  }

  /** One ghost's balance, read back from the log alone. */
  function ReplayBalance(events: seq<Event>, start: int, g: string): int {
    if events == [] then start
    else
      var init := events[..|events| - 1];
      ReplayBalance(init, start, g) + Effect(events[|events| - 1], g, ReplayBounties(init))
  }

  /** What a ghost has gained by transfers to itself. */
  function SelfMinted(events: seq<Event>, g: string): int {
    if events == [] then 0
    else
      var e := events[|events| - 1];
      SelfMinted(events[..|events| - 1], g)
      + if e.Transfer? && e.from == g && e.to == g then e.amount else 0
  }
}
