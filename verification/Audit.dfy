// What the ledger's event log proves about its balances and bounties, over every sequence of
// operations (ghosts/rdc-ledger/src/ledger.ts:126-320, types.ts:14).
module Audit {
  import opened Seqs
  import opened Ledger

  // ----- Replay -----

  /** The log accounts for everything: bounties exactly, and balances up to what a ghost
      gained by transferring to itself. */
  ghost predicate Audited(b: Book) {
    && DistinctBounties(b.bounties)
    && b.bounties == ReplayBounties(b.events)
    && forall g :: Balance(b, g) == ReplayBalance(b.events, b.start, g) + SelfMinted(b.events, g)
  }

  /** Recording one event that accounts for the change keeps the audit. */
  lemma RecordKeepsAudit(b: Book, c: Book, e: Event)
    requires Audited(b) && c.start == b.start && c.events == b.events + [e]
    requires c.bounties == ReplayBounty(b.bounties, e) && DistinctBounties(c.bounties)
    requires forall g :: Balance(c, g) == Balance(b, g) + Effect(e, g, b.bounties)
               + (if e.Transfer? && e.from == g && e.to == g then e.amount else 0)
    ensures Audited(c)
  {
    hide Effect, ReplayBounty, Balance, DistinctBounties;
    assert c.events[..|b.events|] == b.events;
    forall g ensures Balance(c, g) == ReplayBalance(c.events, c.start, g) + SelfMinted(c.events, g) {
      assert ReplayBalance(c.events, c.start, g)
          == ReplayBalance(b.events, b.start, g) + Effect(e, g, ReplayBounties(b.events));
    }
  }

  lemma TouchKeepsAudit(b: Book, g: string)
    requires Audited(b)
    ensures Audited(Touch(b, g))
  {
    hide ReplayBalance, SelfMinted, ReplayBounties;
    assert forall h :: Balance(Touch(b, g), h) == Balance(b, h);
  }

  lemma DebitKeepsAudit(b: Book, g: string, amount: int)
    requires Audited(b)
    ensures Audited(DebitOutcome(b, g, amount).book)
  {
    TouchKeepsAudit(b, g);
    hide Audited;
    if amount > 0 && Balance(b, g) >= amount {
      AuditedBounties(b);
      RecordKeepsAudit(b, DebitOutcome(b, g, amount).book, Event.Debit(g, amount));
    }
  }

  lemma AuditedBounties(b: Book)
    requires Audited(b)
    ensures DistinctBounties(b.bounties)
  {
  }

  lemma BountySnoc(bs: seq<Bounty>, x: Bounty)
    requires DistinctBounties(bs) && FindBounty(bs, x.id) == -1
    ensures DistinctBounties(bs + [x])
  {
    assert forall i :: 0 <= i < |bs| ==> bs[i] in bs;
  }

  lemma BountyUpdate(bs: seq<Bounty>, i: nat, x: Bounty)
    requires DistinctBounties(bs) && i < |bs| && x.id == bs[i].id
    ensures DistinctBounties(bs[i := x])
  {
  }

  lemma AwardKeepsAudit(b: Book, g: string, n: int)
    requires Audited(b)
    ensures Audited(AwardOutcome(b, g, n).book)
  {
    AuditedBounties(b);
    hide Audited;
    if n > 0 {
      RecordKeepsAudit(b, AwardOutcome(b, g, n).book, Credit(g, n));
    }
  }

  lemma TransferKeepsAudit(b: Book, f: string, t: string, n: int)
    requires Audited(b)
    ensures Audited(TransferOutcome(b, f, t, n).book)
  {
    AuditedBounties(b);
    TouchKeepsAudit(b, f);
    hide Audited;
    if n > 0 && Balance(b, f) >= n {
      RecordKeepsAudit(b, TransferOutcome(b, f, t, n).book, Event.Transfer(f, t, n));
    }
  }

  lemma PlaceKeepsAudit(b: Book, id: string, p: string, t: string, n: int)
    requires Audited(b) && FindBounty(b.bounties, id) == -1
    ensures Audited(PlaceOutcome(b, id, p, t, n).book)
  {
    AuditedBounties(b);
    DebitKeepsAudit(b, p, n);
    hide Audited, FindBounty;
    var debited := DebitOutcome(b, p, n);
    if debited.error.None? {
      BountySnoc(b.bounties, Bounty(id, t, p, n, Open, None));
      RecordKeepsAudit(debited.book, PlaceOutcome(b, id, p, t, n).book, BountyPlaced(id, t, p, n));
    }
  }

  lemma ClaimKeepsAudit(b: Book, id: string, c: string)
    requires Audited(b)
    ensures Audited(ClaimOutcome(b, id, c).book)
  {
    AuditedBounties(b);
    hide Audited, FindBounty;
    var i := FindBounty(b.bounties, id);
    if i >= 0 && b.bounties[i].status == Open && b.bounties[i].target != c {
      BountyUpdate(b.bounties, i, b.bounties[i].(claimedBy := Some(c), status := Claimed));
      RecordKeepsAudit(b, ClaimOutcome(b, id, c).book, BountyClaimed(id, c, b.bounties[i].amount));
    }
  }

  lemma RevokeKeepsAudit(b: Book, id: string)
    requires Audited(b)
    ensures Audited(RevokeOutcome(b, id).book)
  {
    AuditedBounties(b);
    hide Audited, FindBounty;
    var i := FindBounty(b.bounties, id);
    if i >= 0 && b.bounties[i].status == Open {
      BountyUpdate(b.bounties, i, b.bounties[i].(status := Revoked));
      RecordKeepsAudit(b, RevokeOutcome(b, id).book, BountyRevoked(id));
    }
  }

  /** Every operation keeps the audit. */
  lemma OpKeepsAudit(b: Book, op: Op)
    requires Audited(b) && Fresh(b, op)
    ensures Audited(Apply(b, op))
  {
    hide Audited, FindBounty, AwardOutcome, DebitOutcome, TransferOutcome, PlaceOutcome, ClaimOutcome, RevokeOutcome,
      Touch;
    match op {
      case Look(g) => TouchKeepsAudit(b, g);
      case Award(g, n) => AwardKeepsAudit(b, g, n);
      case TakeOut(g, n) => DebitKeepsAudit(b, g, n);
      case Move(f, t, n) => TransferKeepsAudit(b, f, t, n);
      case Place(id, p, t, n) => PlaceKeepsAudit(b, id, p, t, n);
      case Claim(id, c) => ClaimKeepsAudit(b, id, c);
      case Revoke(id) => RevokeKeepsAudit(b, id);
    }
  }

  /** After any operations, the log alone gives back every bounty, and every balance less what
      self-transfers minted. */
  lemma {:induction false} LogAccountsForEverything(start: int, ops: seq<Op>)
    requires FreshRun(NewBook(start), ops)
    ensures Audited(RunOps(NewBook(start), ops)) && RunOps(NewBook(start), ops).start == start
  {
    hide Audited, Apply, Fresh;
    if ops == [] {
      EmptyIsAudited(start);
    } else {
      var init := ops[..|ops| - 1];
      LogAccountsForEverything(start, init);
      OpKeepsAudit(RunOps(NewBook(start), init), ops[|ops| - 1]);
      ApplyKeepsStart(RunOps(NewBook(start), init), ops[|ops| - 1]);
    }
  }

  lemma EmptyIsAudited(start: int)
    ensures Audited(NewBook(start))
  {
  }

  lemma ApplyKeepsStart(b: Book, op: Op)
    ensures Apply(b, op).start == b.start
  {
  }

  ghost predicate NoSelfTransfer(events: seq<Event>) {
    forall k :: 0 <= k < |events| && events[k].Transfer? ==> events[k].from != events[k].to
  }

  ghost predicate PositiveTransfers(events: seq<Event>) {
    forall k :: 0 <= k < |events| && events[k].Transfer? ==> events[k].amount > 0
  }

  lemma {:induction false} SelfMintedSign(events: seq<Event>, g: string)
    requires PositiveTransfers(events)
    ensures SelfMinted(events, g) >= 0
    ensures SelfMinted(events, g) == 0 <==>
            forall k :: 0 <= k < |events| && events[k].Transfer? && events[k].from == g ==> events[k].to != g
  {
    if events != [] {
      var init := events[..|events| - 1];
      SelfMintedSign(init, g);
      assert forall k :: 0 <= k < |init| ==> init[k] == events[k];
    }
  }

  lemma OpKeepsPositive(b: Book, op: Op)
    requires PositiveTransfers(b.events)
    ensures PositiveTransfers(Apply(b, op).events)
  {
    hide FindBounty, Balance;
    var c := Apply(b, op);
    assert c.events == b.events || c.events[..|b.events|] == b.events;
    forall k | 0 <= k < |c.events| && c.events[k].Transfer? ensures c.events[k].amount > 0 {
      assert k < |b.events| ==> c.events[k] == b.events[k];
    }
  }

  lemma {:induction false} TransfersArePositive(start: int, ops: seq<Op>)
    ensures PositiveTransfers(RunOps(NewBook(start), ops).events)
  {
    hide Apply, PositiveTransfers;
    if ops == [] {
      NoTransfers(start);
    } else {
      TransfersArePositive(start, ops[..|ops| - 1]);
      OpKeepsPositive(RunOps(NewBook(start), ops[..|ops| - 1]), ops[|ops| - 1]);
    }
  }

  lemma NoTransfers(start: int)
    ensures PositiveTransfers(NewBook(start).events)
  {
  }

  /** Replaying the log reproduces every balance exactly when no ghost transferred to itself. */
  lemma ReplayIsExactUnlessSelfTransfer(start: int, ops: seq<Op>)
    requires FreshRun(NewBook(start), ops)
    ensures var b := RunOps(NewBook(start), ops);
            (forall g :: Balance(b, g) == ReplayBalance(b.events, start, g)) <==> NoSelfTransfer(b.events)
  {
    hide ReplayBalance, SelfMinted, ReplayBounties, RunOps, Balance;
    var b := RunOps(NewBook(start), ops);
    LogAccountsForEverything(start, ops);
    TransfersArePositive(start, ops);
    forall g
      ensures Balance(b, g) == ReplayBalance(b.events, start, g) <==>
              forall k :: 0 <= k < |b.events| && b.events[k].Transfer? && b.events[k].from == g ==> b.events[k].to != g
    {
      SelfMintedSign(b.events, g);
    }
    if !NoSelfTransfer(b.events) {
      var k :| 0 <= k < |b.events| && b.events[k].Transfer? && b.events[k].from == b.events[k].to;
      var g := b.events[k].from;
      assert Balance(b, g) != ReplayBalance(b.events, start, g);
    }
  }

  /** A transfer to oneself that goes through: a positive amount the ghost has. */
  predicate PaysItself(b: Book, op: Op) {
    op.Move? && op.from == op.to && 0 < op.amount <= Balance(b, op.from)
  }

  ghost predicate NobodyPaysItself(b: Book, ops: seq<Op>) {
    forall k :: 0 <= k < |ops| ==> !PaysItself(RunOps(b, ops[..k]), ops[k])
  }

  lemma OpLogsSelfTransfer(b: Book, op: Op)
    ensures NoSelfTransfer(Apply(b, op).events) <==> NoSelfTransfer(b.events) && !PaysItself(b, op)
  {
    hide FindBounty, Balance;
    var c := Apply(b, op);
    assert b.events <= c.events;
    assert !op.Move? ==> forall k :: |b.events| <= k < |c.events| ==> !c.events[k].Transfer?;
    assert forall k :: 0 <= k < |b.events| ==> c.events[k] == b.events[k];
    if PaysItself(b, op) {
      assert c.events[|b.events|] == Event.Transfer(op.from, op.to, op.amount);
    }
  }

  lemma {:induction false} LogShowsSelfTransfers(b: Book, ops: seq<Op>)
    requires b.events == []
    ensures NoSelfTransfer(RunOps(b, ops).events) <==> NobodyPaysItself(b, ops)
  {
    hide Apply, NoSelfTransfer, PaysItself;
    if ops == [] {
      NothingLogged(b);
    } else {
      var n := |ops| - 1;
      LogShowsSelfTransfers(b, ops[..n]);
      OpLogsSelfTransfer(RunOps(b, ops[..n]), ops[n]);
      assert forall k :: 0 <= k <= n ==> ops[..n][..k] == ops[..k];
    }
  }

  lemma NothingLogged(b: Book)
    requires b.events == []
    ensures NoSelfTransfer(b.events)
  {
  }

  /** Replaying the log reproduces every balance exactly when no ghost ever asked to pay itself a
      positive amount it had, which a caller can see before each operation. */
  lemma ReplayIsExactExactly(start: int, ops: seq<Op>)
    requires FreshRun(NewBook(start), ops)
    ensures var b := RunOps(NewBook(start), ops);
            (forall g :: Balance(b, g) == ReplayBalance(b.events, start, g)) <==> NobodyPaysItself(NewBook(start), ops)
  {
    hide ReplayBalance, RunOps, Balance, NoSelfTransfer, NobodyPaysItself;
    ReplayIsExactUnlessSelfTransfer(start, ops);
    LogShowsSelfTransfers(NewBook(start), ops);
  }

  /** A concrete self-transfer: the balance grows, and the log does not account for it. */
  lemma SelfTransferMints()
    ensures var b := RunOps(NewBook(1000), [Move("ann", "ann", 300)]);
            && Balance(b, "ann") == 1300
            && ReplayBalance(b.events, 1000, "ann") == 1000
  {
    var move := Move("ann", "ann", 300);
    assert [move][..0] == [];
    var b := Apply(NewBook(1000), move);
    assert b.events == [Event.Transfer("ann", "ann", 300)];
    assert b.events[..0] == [];
  }

  // ----- Balances never go negative -----

  ghost predicate Solvent(b: Book) {
    && (forall g :: Balance(b, g) >= Min(0, b.start))
    && (forall i :: 0 <= i < |b.bounties| ==> b.bounties[i].amount > 0)
  }

  lemma OpKeepsAmounts(b: Book, op: Op)
    requires Solvent(b)
    ensures Apply(b, op).start == b.start
    ensures var bs := Apply(b, op).bounties; forall i :: 0 <= i < |bs| ==> bs[i].amount > 0
  {
    hide FindBounty, Balance;
  }

  lemma OpKeepsBalance(b: Book, op: Op, g: string)
    requires Solvent(b)
    ensures Balance(Apply(b, op), g) >= Min(0, b.start)
  {
    hide FindBounty;
    assert Balance(b, g) >= Min(0, b.start);
    if op.Move? {
      assert Balance(b, op.to) >= Min(0, b.start);
    }
  }

  lemma OpKeepsSolvent(b: Book, op: Op)
    requires Solvent(b)
    ensures Solvent(Apply(b, op)) && Apply(b, op).start == b.start
  {
    hide Apply, Balance;
    OpKeepsAmounts(b, op);
    forall g ensures Balance(Apply(b, op), g) >= Min(0, b.start) {
      OpKeepsBalance(b, op, g);
    }
  }

  /** No sequence of operations takes a balance below zero, or below a negative start. */
  lemma {:induction false} NeverOverdrawn(start: int, ops: seq<Op>)
    ensures Solvent(RunOps(NewBook(start), ops)) && RunOps(NewBook(start), ops).start == start
  {
    hide Apply;
    if ops != [] {
      NeverOverdrawn(start, ops[..|ops| - 1]);
      OpKeepsSolvent(RunOps(NewBook(start), ops[..|ops| - 1]), ops[|ops| - 1]);
    }
  }

  // ----- Escrow is paid out at most once -----

  function Payouts(events: seq<Event>, id: string): nat {
    if events == [] then 0
    else
      var e := events[|events| - 1];
      Payouts(events[..|events| - 1], id)
      + if (e.BountyClaimed? || e.BountyRevoked?) && e.bountyId == id then 1 else 0
  }

  lemma PayoutsSnoc(events: seq<Event>, e: Event, id: string)
    ensures Payouts(events + [e], id)
         == Payouts(events, id) + if (e.BountyClaimed? || e.BountyRevoked?) && e.bountyId == id then 1 else 0
  {
    assert (events + [e])[..|events|] == events;
  }

  /** A bounty's escrow has been paid out once if it is no longer open, and otherwise never. */
  ghost predicate PaidOnce(b: Book) {
    && DistinctBounties(b.bounties)
    && (forall i :: 0 <= i < |b.bounties| ==>
          Payouts(b.events, b.bounties[i].id) == if b.bounties[i].status == Open then 0 else 1)
    && (forall id :: FindBounty(b.bounties, id) == -1 ==> Payouts(b.events, id) == 0)
  }

  /** An event that pays nothing out leaves the payouts as they were. */
  lemma QuietKeepsPaidOnce(b: Book, c: Book, e: Event)
    requires PaidOnce(b) && c.events == b.events + [e] && c.bounties == b.bounties
    requires !e.BountyClaimed? && !e.BountyRevoked?
    ensures PaidOnce(c)
  {
    hide Payouts, FindBounty;
    forall id ensures Payouts(c.events, id) == Payouts(b.events, id) {
      PayoutsSnoc(b.events, e, id);
    }
  }

  lemma AbsentEarlier(bs: seq<Bounty>, cs: seq<Bounty>, id: string)
    requires |bs| <= |cs| && forall i :: 0 <= i < |bs| ==> cs[i].id == bs[i].id
    ensures FindBounty(cs, id) == -1 ==> FindBounty(bs, id) == -1
  {
    hide FindBounty;
    var k := FindBounty(bs, id);
    assert k >= 0 ==> cs[k] in cs;
  }

  lemma PayoutKeepsPaidOnce(b: Book, c: Book, e: Event, i: nat)
    requires PaidOnce(b) && i < |b.bounties| && b.bounties[i].status == Open
    requires e.BountyClaimed? || e.BountyRevoked?
    requires e.bountyId == b.bounties[i].id
    requires c.events == b.events + [e] && |c.bounties| == |b.bounties|
    requires c.bounties == b.bounties[i := c.bounties[i]]
    requires c.bounties[i].id == b.bounties[i].id && c.bounties[i].status != Open
    ensures PaidOnce(c)
  {
    hide Payouts, FindBounty;
    forall id ensures Payouts(c.events, id) == Payouts(b.events, id) + if id == e.bountyId then 1 else 0 {
      PayoutsSnoc(b.events, e, id);
    }
    BountyUpdate(b.bounties, i, c.bounties[i]);
    forall id | FindBounty(c.bounties, id) == -1 ensures Payouts(c.events, id) == 0 {
      assert c.bounties[i] in c.bounties;
      AbsentEarlier(b.bounties, c.bounties, id);
    }
  }

  lemma PlaceKeepsPaidOnce(b: Book, c: Book, x: Bounty)
    requires PaidOnce(b) && FindBounty(b.bounties, x.id) == -1 && x.status == Open
    requires c.bounties == b.bounties + [x]
    requires exists e :: c.events == b.events + [e] && !e.BountyClaimed? && !e.BountyRevoked?
    ensures PaidOnce(c)
  {
    hide Payouts, FindBounty;
    var e :| c.events == b.events + [e] && !e.BountyClaimed? && !e.BountyRevoked?;
    forall id ensures Payouts(c.events, id) == Payouts(b.events, id) {
      PayoutsSnoc(b.events, e, id);
    }
    BountySnoc(b.bounties, x);
    forall id | FindBounty(c.bounties, id) == -1 ensures Payouts(c.events, id) == 0 {
      AbsentEarlier(b.bounties, c.bounties, id);
    }
  }

  lemma DebitKeepsPaidOnce(b: Book, g: string, n: int)
    requires PaidOnce(b)
    ensures PaidOnce(DebitOutcome(b, g, n).book)
  {
    hide Payouts, FindBounty;
    var c := DebitOutcome(b, g, n).book;
    if n > 0 && Balance(b, g) >= n {
      QuietKeepsPaidOnce(b, c, Event.Debit(g, n));
    }
  }

  lemma OpKeepsPaidOnce(b: Book, op: Op)
    requires PaidOnce(b) && Fresh(b, op)
    ensures PaidOnce(Apply(b, op))
  {
    hide Payouts, FindBounty;
    var c := Apply(b, op);
    match op {
      case Look(g) =>
      case Award(g, n) =>
        if n > 0 { QuietKeepsPaidOnce(b, c, Credit(g, n)); }
      case TakeOut(g, n) =>
        DebitKeepsPaidOnce(b, g, n);
      case Move(f, t, n) =>
        if n > 0 && Balance(b, f) >= n { QuietKeepsPaidOnce(b, c, Event.Transfer(f, t, n)); }
      case Place(id, p, t, n) =>
        DebitKeepsPaidOnce(b, p, n);
        var d := DebitOutcome(b, p, n);
        if d.error.None? {
          assert c.events == d.book.events + [BountyPlaced(id, t, p, n)];
          PlaceKeepsPaidOnce(d.book, c, Bounty(id, t, p, n, Open, None));
        }
      case Claim(id, who) =>
        var i := FindBounty(b.bounties, id);
        if i >= 0 && b.bounties[i].status == Open && b.bounties[i].target != who {
          PayoutKeepsPaidOnce(b, c, BountyClaimed(id, who, b.bounties[i].amount), i);
        }
      case Revoke(id) =>
        var i := FindBounty(b.bounties, id);
        if i >= 0 && b.bounties[i].status == Open {
          PayoutKeepsPaidOnce(b, c, BountyRevoked(id), i);
        }
    }
  }

  /** After any operations, no bounty's escrow has been paid out twice. */
  lemma {:induction false} EscrowPaidAtMostOnce(start: int, ops: seq<Op>, id: string)
    requires FreshRun(NewBook(start), ops)
    ensures PaidOnce(RunOps(NewBook(start), ops))
    ensures Payouts(RunOps(NewBook(start), ops).events, id) <= 1
  {
    hide Payouts, Apply, Fresh;
    var b := RunOps(NewBook(start), ops);
    if ops == [] {
      NothingPaidOut(start);
    } else {
      EscrowPaidAtMostOnce(start, ops[..|ops| - 1], id);
      OpKeepsPaidOnce(RunOps(NewBook(start), ops[..|ops| - 1]), ops[|ops| - 1]);
    }
    var i := FindBounty(b.bounties, id);
  }

  lemma NothingPaidOut(start: int)
    ensures PaidOnce(NewBook(start))
  {
  }

  // ----- Nobody collects on his own head -----

  /** A bounty is claimed exactly when it names its claimer, who is not its target. */
  ghost predicate ClaimsSound(bs: seq<Bounty>) {
    forall i :: 0 <= i < |bs| ==>
      && (bs[i].status == Claimed <==> bs[i].claimedBy.Some?)
      && bs[i].claimedBy != Some(bs[i].target)
  }

  lemma OpKeepsClaims(b: Book, op: Op)
    requires ClaimsSound(b.bounties)
    ensures ClaimsSound(Apply(b, op).bounties)
  {
    hide FindBounty, Balance;
  }

  /** After any operations, no bounty has been claimed by the ghost it was placed on. */
  lemma {:induction false} NobodyClaimsHisOwnBounty(start: int, ops: seq<Op>)
    ensures ClaimsSound(RunOps(NewBook(start), ops).bounties)
  {
    hide Apply, ClaimsSound;
    if ops == [] {
      NothingClaimed(start);
    } else {
      NobodyClaimsHisOwnBounty(start, ops[..|ops| - 1]);
      OpKeepsClaims(RunOps(NewBook(start), ops[..|ops| - 1]), ops[|ops| - 1]);
    }
  }

  lemma NothingClaimed(start: int)
    ensures ClaimsSound(NewBook(start).bounties)
  {
  }

  // ----- Cyphers in circulation -----

  function OpenAmount(x: Bounty): int { if x.status == Open then x.amount else 0 }

  function Balances(b: Book, roster: seq<string>): int {
    if roster == [] then 0
    else Balances(b, roster[..|roster| - 1]) + Balance(b, roster[|roster| - 1])
  }

  /** The balances of the ghosts on the roster, and what is held in escrow. */
  function Worth(b: Book, roster: seq<string>): int {
    Balances(b, roster) + Sum(b.bounties, OpenAmount)
  }

  function GhostsOf(b: Book, op: Op): set<string> {
    match op
    case Look(g) => {g}
    case Award(g, _) => {g}
    case TakeOut(g, _) => {g}
    case Move(f, t, _) => {f, t}
    case Place(_, p, _, _) => {p}
    case Claim(_, c) => {c}
    case Revoke(id) =>
      var i := FindBounty(b.bounties, id);
      if i >= 0 then {b.bounties[i].placer} else {}
  }

  /** The Cyphers an operation creates, or destroys when negative: awards and debits by design,
      and a transfer to oneself by the order in which it writes the two balances. */
  function Minted(b: Book, op: Op): int {
    if OpOutcome(b, op).error.Some? then 0
    else
      match op
      case Award(_, n) => n
      case TakeOut(_, n) => -n
      case Move(f, t, n) => if f == t then n else 0
      case _ => 0
  }

  lemma {:induction false} BalancesFollow(b: Book, c: Book, roster: seq<string>, g: string, d: int)
    requires Distinct(roster)
    requires forall h :: Balance(c, h) == Balance(b, h) + if h == g then d else 0
    ensures Balances(c, roster) == Balances(b, roster) + if g in roster then d else 0
  {
    hide Balance;
    if roster != [] {
      var init, h := roster[..|roster| - 1], roster[|roster| - 1];
      BalancesFollow(b, c, init, g, d);
      assert roster == init + [h];
      assert g == h ==> g !in init;
    }
  }

  lemma Unchanged(b: Book, c: Book, roster: seq<string>)
    requires forall h :: Balance(c, h) == Balance(b, h)
    requires Distinct(roster) && c.bounties == b.bounties
    ensures Worth(c, roster) == Worth(b, roster)
  {
    hide Balance, Sum, Balances;
    BalancesFollow(b, c, roster, "", 0);
  }

  lemma Adjusted(b: Book, c: Book, roster: seq<string>, g: string, d: int)
    requires forall h :: Balance(c, h) == Balance(b, h) + if h == g then d else 0
    requires Distinct(roster) && g in roster
    ensures Worth(c, roster) == Worth(b, roster) + d + Sum(c.bounties, OpenAmount) - Sum(b.bounties, OpenAmount)
  {
    hide Balance, Sum, Balances;
    BalancesFollow(b, c, roster, g, d);
  }

  lemma TransferConserves(b: Book, f: string, t: string, n: int, roster: seq<string>)
    requires Distinct(roster) && f in roster && t in roster
    ensures Worth(TransferOutcome(b, f, t, n).book, roster) == Worth(b, roster) + Minted(b, Move(f, t, n))
  {
    hide Worth, Distinct, Sum;
    var o := TransferOutcome(b, f, t, n);
    if o.error.Some? {
      Unchanged(b, o.book, roster);
    } else if f == t {
      Adjusted(b, o.book, roster, f, n);
    } else {
      var mid := SetBalance(b, f, Balance(b, f) - n);
      Adjusted(b, mid, roster, f, -n);
      Adjusted(mid, o.book, roster, t, n);
    }
  }

  lemma PlaceConserves(b: Book, id: string, p: string, t: string, n: int, roster: seq<string>)
    requires Distinct(roster) && p in roster
    ensures Worth(PlaceOutcome(b, id, p, t, n).book, roster) == Worth(b, roster)
  {
    hide Worth, Distinct, Sum;
    var o := PlaceOutcome(b, id, p, t, n);
    if o.error.Some? {
      Unchanged(b, o.book, roster);
    } else {
      Adjusted(b, o.book, roster, p, -n);
      SumSnoc(b.bounties, Bounty(id, t, p, n, Open, None), OpenAmount);
    }
  }

  lemma ClaimConserves(b: Book, id: string, who: string, roster: seq<string>)
    requires Distinct(roster) && who in roster
    ensures Worth(ClaimOutcome(b, id, who).book, roster) == Worth(b, roster)
  {
    hide Worth, Distinct, Sum, FindBounty;
    var o := ClaimOutcome(b, id, who);
    if o.error.None? {
      var i := FindBounty(b.bounties, id);
      Adjusted(b, o.book, roster, who, b.bounties[i].amount);
      SumUpdate(b.bounties, i, o.book.bounties[i], OpenAmount);
    }
  }

  lemma RevokeConserves(b: Book, id: string, roster: seq<string>)
    requires Distinct(roster)
    requires FindBounty(b.bounties, id) >= 0 ==> b.bounties[FindBounty(b.bounties, id)].placer in roster
    ensures Worth(RevokeOutcome(b, id).book, roster) == Worth(b, roster)
  {
    hide Worth, Distinct, Sum, FindBounty;
    var o := RevokeOutcome(b, id);
    if o.error.None? {
      var i := FindBounty(b.bounties, id);
      Adjusted(b, o.book, roster, b.bounties[i].placer, b.bounties[i].amount);
      SumUpdate(b.bounties, i, o.book.bounties[i], OpenAmount);
    }
  }

  lemma CreditConserves(b: Book, g: string, n: int, roster: seq<string>)
    requires Distinct(roster) && g in roster
    ensures Worth(AwardOutcome(b, g, n).book, roster) == Worth(b, roster) + Minted(b, Award(g, n))
    ensures Worth(DebitOutcome(b, g, n).book, roster) == Worth(b, roster) + Minted(b, TakeOut(g, n))
    ensures Worth(Touch(b, g), roster) == Worth(b, roster)
  {
    hide Worth, Distinct, Sum;
    Unchanged(b, Touch(b, g), roster);
    if n > 0 {
      Adjusted(b, AwardOutcome(b, g, n).book, roster, g, n);
      if Balance(b, g) >= n {
        Adjusted(b, DebitOutcome(b, g, n).book, roster, g, -n);
      }
    }
  }

  /** Escrow, claims and refunds only move Cyphers: what is in circulation changes by exactly
      what the operation mints. */
  lemma OpConserves(b: Book, op: Op, roster: seq<string>)
    requires Distinct(roster) && forall g :: g in GhostsOf(b, op) ==> g in roster
    ensures Worth(Apply(b, op), roster) == Worth(b, roster) + Minted(b, op)
  {
    hide Worth, Distinct, FindBounty, AwardOutcome, DebitOutcome, TransferOutcome, PlaceOutcome, ClaimOutcome,
      RevokeOutcome, Touch;
    match op {
      case Look(g) => CreditConserves(b, g, 0, roster);
      case Award(g, n) => CreditConserves(b, g, n, roster);
      case TakeOut(g, n) => CreditConserves(b, g, n, roster);
      case Move(f, t, n) => TransferConserves(b, f, t, n, roster);
      case Place(id, p, t, n) => PlaceConserves(b, id, p, t, n, roster);
      case Claim(id, who) => ClaimConserves(b, id, who, roster);
      case Revoke(id) => RevokeConserves(b, id, roster);
    }
  }
}
