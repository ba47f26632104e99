// Who wins a pot and what a showdown pays, over ranked entries
// (ghosts/rdc-poker/src/gameEngine.ts:394-495).
module Settlement {
  import opened Seqs
  import opened PokerTypes
  import opened Evaluator
  import opened Pot
  import opened Engine

  ghost predicate Rated(es: seq<Entry>) {
    forall e :: e in es ==> WellFormed(e.eval)
  }

  ghost predicate OneEach(es: seq<Entry>) {
    forall i, j :: 0 <= i < j < |es| ==> es[i].id != es[j].id
  }

  ghost predicate BestFirst(es: seq<Entry>) {
    forall i, j :: 0 <= i < j < |es| ==> Compare(es[i].eval, es[j].eval) >= 0
  }

  /** No other entry ties or beats this one. */
  ghost predicate BeatsAll(e: Entry, es: seq<Entry>) {
    forall x :: x in es && x != e ==> Compare(e.eval, x.eval) > 0
  }

  /** Some entry beats this one. */
  ghost predicate Beaten(e: Entry, es: seq<Entry>) {
    exists x :: x in es && Compare(x.eval, e.eval) > 0
  }

  // ----- Ranking the entries -----

  lemma {:induction false} InsertEntryMembers(es: seq<Entry>, e: Entry)
    ensures multiset(InsertEntry(es, e)) == multiset(es) + multiset{e}
  {
    if es != [] {
      InsertEntryMembers(es[..|es| - 1], e);
      MultisetSnoc(es);
    }
  }

  lemma BestFirstSnoc(es: seq<Entry>, e: Entry)
    requires BestFirst(es) && forall x :: x in es ==> Compare(x.eval, e.eval) >= 0
    ensures BestFirst(es + [e])
  {
    hide Compare;
    assert forall i :: 0 <= i < |es| ==> es[i] in es;
  }

  lemma {:induction false} InsertEntrySorts(es: seq<Entry>, e: Entry)
    requires BestFirst(es) && Rated(es) && WellFormed(e.eval)
    ensures BestFirst(InsertEntry(es, e))
  {
    hide Compare, WellFormed;
    if es != [] {
      var k := |es| - 1;
      var last := es[k];
      assert last in es;
      if Compare(last.eval, e.eval) >= 0 {
        forall x | x in es ensures Compare(x.eval, e.eval) >= 0 {
          if x != last {
            var i :| 0 <= i < |es| && es[i] == x;
            CompareChains(x.eval, last.eval, e.eval);
          }
        }
        BestFirstSnoc(es, e);
      } else {
        CompareFlips(last.eval, e.eval);
        var init := es[..k];
        InsertEntrySorts(init, e);
        InsertEntryMembers(init, e);
        var front := InsertEntry(init, e);
        forall x | x in front ensures Compare(x.eval, last.eval) >= 0 {
          assert x in multiset(front);
          if x != e {
            assert x in init;
            var i :| 0 <= i < k && es[i] == x;
          }
        }
        BestFirstSnoc(front, last);
      }
    }
  }

  lemma {:induction false} SortEntriesFacts(es: seq<Entry>)
    requires Rated(es)
    ensures multiset(SortEntries(es)) == multiset(es)
    ensures BestFirst(SortEntries(es)) && Rated(SortEntries(es))
  {
    hide Compare, WellFormed, InsertEntry;
    if es != [] {
      var init, e := es[..|es| - 1], es[|es| - 1];
      assert e in es;
      SortEntriesFacts(init);
      InsertEntrySorts(SortEntries(init), e);
      InsertEntryMembers(SortEntries(init), e);
      MultisetSnoc(es);
    }
    assert forall x :: x in SortEntries(es) <==> x in multiset(SortEntries(es));
    assert forall x :: x in es <==> x in multiset(es);
  }

  /** A reordering of entries with one entry per player has one entry per player. */
  lemma OneEachReordered(a: seq<Entry>, b: seq<Entry>)
    requires multiset(a) == multiset(b) && OneEach(a)
    ensures OneEach(b)
  {
    forall i, j | 0 <= i < j < |b| ensures b[i].id != b[j].id {
      assert b[i] in multiset(a) && b[j] in multiset(a);
      var k :| 0 <= k < |a| && a[k] == b[i];
      var l :| 0 <= l < |a| && a[l] == b[j];
      if b[i].id == b[j].id {
        assert k == l;
        TwoCopies(b, i, j);
        OneCopy(a, a[k]);
      }
    }
  }

  // ----- The winners of a pot -----

  lemma {:induction false} EligibleMembers(es: seq<Entry>, ids: seq<string>)
    ensures forall e :: e in EligibleEntries(es, ids) <==> e in es && e.id in ids
  {
    if es != [] {
      var init, last := es[..|es| - 1], es[|es| - 1];
      EligibleMembers(init, ids);
      assert es == init + [last];
    }
  }

  lemma {:induction false} EligibleSorted(es: seq<Entry>, ids: seq<string>)
    requires BestFirst(es)
    ensures BestFirst(EligibleEntries(es, ids))
  {
    hide Compare;
    if es != [] {
      var init, last := es[..|es| - 1], es[|es| - 1];
      EligibleSorted(init, ids);
      EligibleMembers(init, ids);
      var rest := EligibleEntries(init, ids);
      forall x | x in rest ensures Compare(x.eval, last.eval) >= 0 {
        var i :| 0 <= i < |init| && es[i] == x;
      }
      BestFirstSnoc(rest, last);
    }
  }

  lemma OneEachSnoc(es: seq<Entry>, e: Entry)
    requires OneEach(es) && forall x :: x in es ==> x.id != e.id
    ensures OneEach(es + [e])
  {
    assert forall i :: 0 <= i < |es| ==> es[i] in es;
  }

  lemma {:induction false} EligibleOneEach(es: seq<Entry>, ids: seq<string>)
    requires OneEach(es)
    ensures OneEach(EligibleEntries(es, ids))
  {
    if es != [] {
      var init, last := es[..|es| - 1], es[|es| - 1];
      EligibleOneEach(init, ids);
      EligibleMembers(init, ids);
      var rest := EligibleEntries(init, ids);
      forall x | x in rest ensures x.id != last.id {
        var i :| 0 <= i < |init| && es[i] == x;
      }
      OneEachSnoc(rest, last);
    }
  }

  lemma EligibleFacts(es: seq<Entry>, ids: seq<string>)
    requires BestFirst(es) && OneEach(es)
    ensures forall e :: e in EligibleEntries(es, ids) <==> e in es && e.id in ids
    ensures BestFirst(EligibleEntries(es, ids)) && OneEach(EligibleEntries(es, ids))
  {
    hide EligibleEntries, BestFirst, OneEach;
    EligibleMembers(es, ids);
    EligibleSorted(es, ids);
    EligibleOneEach(es, ids);
  }

  lemma {:induction false} TiedMembers(es: seq<Entry>, best: HandEvaluation)
    ensures forall e :: e in TiedWith(es, best) <==> e in es && Compare(e.eval, best) == 0
  {
    hide Compare;
    if es != [] {
      var init, last := es[..|es| - 1], es[|es| - 1];
      TiedMembers(init, best);
      assert es == init + [last];
    }
  }

  lemma {:induction false} TiedOneEach(es: seq<Entry>, best: HandEvaluation)
    requires OneEach(es)
    ensures OneEach(TiedWith(es, best))
  {
    hide Compare;
    if es != [] {
      var init, last := es[..|es| - 1], es[|es| - 1];
      TiedOneEach(init, best);
      TiedMembers(init, best);
      var rest := TiedWith(init, best);
      forall x | x in rest ensures x.id != last.id {
        var i :| 0 <= i < |init| && es[i] == x;
      }
      OneEachSnoc(rest, last);
    }
  }

  /** A pot's winners are exactly the contenders nobody beats, and there is always one. */
  lemma WinnersAreUnbeaten(es: seq<Entry>)
    requires BestFirst(es) && Rated(es)
    ensures forall e :: e in Winners(es) <==> e in es && !Beaten(e, es)
    ensures es != [] ==> Winners(es) != []
    ensures OneEach(es) ==> OneEach(Winners(es))
  {
    hide Compare, WellFormed;
    if es != [] {
      var head := es[0];
      assert head in es;
      TiedMembers(es, head.eval);
      if OneEach(es) {
        TiedOneEach(es, head.eval);
      }
      CompareFlips(head.eval, head.eval);
      assert head in Winners(es);
      forall e | e in es ensures Compare(e.eval, head.eval) == 0 <==> !Beaten(e, es) {
        var i :| 0 <= i < |es| && es[i] == e;
        CompareFlips(e.eval, head.eval);
        assert Compare(head.eval, e.eval) >= 0;
        if Compare(e.eval, head.eval) == 0 && Beaten(e, es) {
          var x :| x in es && Compare(x.eval, e.eval) > 0;
          var j :| 0 <= j < |es| && es[j] == x;
          assert Compare(head.eval, x.eval) >= 0;
          CompareChains(head.eval, x.eval, e.eval);
        }
      }
    }
  }

  lemma OnlyOne(ws: seq<Entry>, e: Entry)
    requires OneEach(ws) && e in ws && forall x :: x in ws ==> x == e
    ensures ws == [e]
  {
    assert forall i :: 0 <= i < |ws| ==> ws[i] in ws;
    assert |ws| > 1 ==> ws[0].id != ws[1].id;
  }

  /** Whoever beats all the others wins every pot he contends for, alone. */
  lemma BestWinsAlone(es: seq<Entry>, ids: seq<string>, e: Entry)
    requires BestFirst(es) && Rated(es) && OneEach(es)
    requires e in es && BeatsAll(e, es)
    ensures e.id in ids ==> Winners(EligibleEntries(es, ids)) == [e]
    ensures Winners(es) == [e]
  {
    hide Compare, WellFormed, Winners, EligibleEntries;
    var el := EligibleEntries(es, ids);
    EligibleFacts(es, ids);
    WinnersAreUnbeaten(el);
    WinnersAreUnbeaten(es);
    NotBeaten(es, e);
    if e.id in ids {
      assert e in el;
      assert !Beaten(e, el);
      assert forall x :: x in el && x != e ==> Beaten(x, el);
      OnlyOne(Winners(el), e);
    }
    OnlyOne(Winners(es), e);
  }

  lemma NotBeaten(es: seq<Entry>, e: Entry)
    requires BeatsAll(e, es)
    ensures !Beaten(e, es)
  {
    hide Compare;
    CompareFlips(e.eval, e.eval);
    forall x | x in es ensures Compare(x.eval, e.eval) <= 0 {
      CompareFlips(x.eval, e.eval);
    }
  }

  // ----- What a split pays -----

  ghost predicate Wins(ws: seq<Entry>, id: string) {
    exists e :: e in ws && e.id == id
  }

  lemma {:induction false} PaymentTotal(ws: seq<Entry>, share: int)
    ensures Sum(Payments(ws, share), WinAmount) == share * |ws|
  {
    if ws != [] {
      var n := |ws| - 1;
      PaymentTotal(ws[..n], share);
      SumSnoc(Payments(ws[..n], share), WinResult(ws[n].id, share), WinAmount);
      OneMore(share, n);
    }
  }

  lemma PaidSnoc(payments: seq<WinResult>, w: WinResult, id: string)
    ensures PaidTo(payments + [w], id) == PaidTo(payments, id) + if w.playerId == id then w.amount else 0
  {
    assert (payments + [w])[..|payments|] == payments;
  }

  lemma {:induction false} PaymentTo(ws: seq<Entry>, share: int, id: string)
    requires OneEach(ws)
    ensures PaidTo(Payments(ws, share), id) == if Wins(ws, id) then share else 0
  {
    if ws != [] {
      var init, last := ws[..|ws| - 1], ws[|ws| - 1];
      PaymentTo(init, share, id);
      PaidSnoc(Payments(init, share), WinResult(last.id, share), id);
      assert ws == init + [last];
      if Wins(init, id) {
        var e :| e in init && e.id == id;
        var i :| 0 <= i < |init| && ws[i] == e;
        assert e in ws && last.id != id;
      } else if last.id == id {
        assert last in ws;
      }
    }
  }

  /** What splitting an amount among these winners leaves unpaid. */
  function Unpaid(amount: int, winners: seq<Entry>): int {
    if winners == [] then amount else amount % |winners|
  }

  lemma SplitFacts(amount: int, ws: seq<Entry>, id: string)
    requires OneEach(ws) && amount >= 0
    ensures Sum(Split(amount, ws), WinAmount) == amount - Unpaid(amount, ws)
    ensures 0 <= PaidTo(Split(amount, ws), id) <= amount
    ensures !Wins(ws, id) ==> PaidTo(Split(amount, ws), id) == 0
    ensures |ws| == 1 && ws[0].id == id ==> PaidTo(Split(amount, ws), id) == amount
    ensures Wins(ws, id) && ws != [] ==> PaidTo(Split(amount, ws), id) == amount / |ws|
  {
    hide PaidTo, Payments, Wins, Sum, OneEach;
    if ws != [] {
      var n := |ws|;
      PaymentTotal(ws, amount / n);
      PaymentTo(ws, amount / n, id);
      QuotientBounds(amount, n, amount / n, amount % n);
      if n == 1 && ws[0].id == id {
        FirstWins(ws);
      }
    } else {
      NothingPaid(id);
    }
  }

  lemma NothingPaid(id: string)
    ensures PaidTo([], id) == 0 && Sum([], WinAmount) == 0
  {
  }

  lemma FirstWins(ws: seq<Entry>)
    requires ws != []
    ensures Wins(ws, ws[0].id)
  {
    assert ws[0] in ws;
  }

  lemma QuotientBounds(amount: int, n: int, q: int, r: int)
    requires amount >= 0 && n >= 1 && amount == n * q + r && 0 <= r < n
    ensures 0 <= q <= amount && q * n == amount - r
    ensures n == 1 ==> q == amount
  {
    assert q < 0 ==> n * q <= n * -1;
    assert q >= 0 ==> q <= n * q;
  }

  lemma {:induction false} PaidConcat(a: seq<WinResult>, b: seq<WinResult>, id: string)
    ensures PaidTo(a + b, id) == PaidTo(a, id) + PaidTo(b, id)
  {
    if b == [] {
      assert a + b == a;
    } else {
      var k := |b| - 1;
      assert (a + b)[..|a + b| - 1] == a + b[..k];
      PaidConcat(a, b[..k], id);
    }
  }

  // ----- What the side pots pay -----

  ghost predicate Amounts(pots: seq<SidePot>) {
    forall pot :: pot in pots ==> pot.amount >= 0
  }

  /** The winners of one side pot. */
  function PotWinners(pot: SidePot, es: seq<Entry>): seq<Entry> {
    Winners(EligibleEntries(es, pot.eligible))
  }

  lemma PotWinnersFacts(pot: SidePot, es: seq<Entry>)
    requires BestFirst(es) && Rated(es) && OneEach(es)
    ensures OneEach(PotWinners(pot, es))
    ensures forall e :: e in PotWinners(pot, es)
              <==> e in es && e.id in pot.eligible && !Beaten(e, EligibleEntries(es, pot.eligible))
    ensures (exists e :: e in es && e.id in pot.eligible) ==> PotWinners(pot, es) != []
  {
    hide Compare, WellFormed, Winners, EligibleEntries, Beaten;
    EligibleFacts(es, pot.eligible);
    WinnersAreUnbeaten(EligibleEntries(es, pot.eligible));
  }

  /** No side pot pays a player more than the pot, or anything at all to an outsider. */
  lemma {:induction false} SidePaymentsBounded(pots: seq<SidePot>, es: seq<Entry>, id: string)
    requires BestFirst(es) && Rated(es) && OneEach(es) && Amounts(pots)
    ensures 0 <= PaidTo(SidePayments(pots, es), id) <= Reach(pots, id)
  {
    hide Compare, WellFormed, Winners, EligibleEntries, Beaten, Split, BestFirst;
    if pots != [] {
      var init, pot := pots[..|pots| - 1], pots[|pots| - 1];
      assert pot in pots;
      SidePaymentsBounded(init, es, id);
      PotWinnersFacts(pot, es);
      SplitFacts(pot.amount, PotWinners(pot, es), id);
      PaidConcat(SidePayments(init, es), Split(pot.amount, PotWinners(pot, es)), id);
    }
  }

  /** The player who beats everyone is paid every pot he is eligible for, in full. */
  lemma {:induction false} SidePaymentsToBest(pots: seq<SidePot>, es: seq<Entry>, e: Entry)
    requires BestFirst(es) && Rated(es) && OneEach(es) && Amounts(pots)
    requires e in es && BeatsAll(e, es)
    ensures PaidTo(SidePayments(pots, es), e.id) == Reach(pots, e.id)
  {
    hide Compare, WellFormed, Winners, EligibleEntries, Beaten, Split, BestFirst, BeatsAll;
    if pots != [] {
      var init, pot := pots[..|pots| - 1], pots[|pots| - 1];
      assert pot in pots;
      SidePaymentsToBest(init, es, e);
      PotWinnersFacts(pot, es);
      BestWinsAlone(es, pot.eligible, e);
      SplitFacts(pot.amount, PotWinners(pot, es), e.id);
      PaidConcat(SidePayments(init, es), Split(pot.amount, PotWinners(pot, es)), e.id);
    }
  }

  /** The chips the side pots round away. */
  function SideDust(pots: seq<SidePot>, es: seq<Entry>): int {
    if pots == [] then 0
    else
      var pot := pots[|pots| - 1];
      SideDust(pots[..|pots| - 1], es) + Unpaid(pot.amount, PotWinners(pot, es))
  }

  lemma {:induction false} SidePaymentsTotal(pots: seq<SidePot>, es: seq<Entry>)
    requires BestFirst(es) && Rated(es) && OneEach(es) && Amounts(pots)
    ensures Sum(SidePayments(pots, es), WinAmount) == Sum(pots, Amount) - SideDust(pots, es)
  {
    hide Compare, WellFormed, Winners, EligibleEntries, Beaten, Split, BestFirst;
    if pots != [] {
      var init, pot := pots[..|pots| - 1], pots[|pots| - 1];
      assert pot in pots;
      SidePaymentsTotal(init, es);
      PotWinnersFacts(pot, es);
      SplitFacts(pot.amount, PotWinners(pot, es), "");
      SumConcat(SidePayments(init, es), Split(pot.amount, PotWinners(pot, es)), WinAmount);
    }
  }

  /** An equal share of each of the pots id may win. */
  function SharesOf(pots: seq<SidePot>, es: seq<Entry>, id: string): int {
    if pots == [] then 0
    else
      var pot := pots[|pots| - 1];
      SharesOf(pots[..|pots| - 1], es, id)
      + if id in pot.eligible && PotWinners(pot, es) != [] then pot.amount / |PotWinners(pot, es)| else 0
  }

  /** An unbeaten contender is among the winners of a pot exactly if it may win it. */
  lemma UnbeatenWinsPot(pot: SidePot, es: seq<Entry>, e: Entry)
    requires BestFirst(es) && Rated(es) && OneEach(es) && e in es && !Beaten(e, es)
    ensures Wins(PotWinners(pot, es), e.id) <==> e.id in pot.eligible
    ensures e.id in pot.eligible ==> PotWinners(pot, es) != []
  {
    hide Compare, WellFormed, PotWinners, EligibleEntries;
    PotWinnersFacts(pot, es);
    EligibleFacts(es, pot.eligible);
    if e.id in pot.eligible {
      assert !Beaten(e, EligibleEntries(es, pot.eligible));
      assert e in PotWinners(pot, es);
    }
  }

  /** The side pots pay an unbeaten hand an equal share of every pot it may win, rounded down. */
  lemma {:induction false} SidePaymentsToUnbeaten(pots: seq<SidePot>, es: seq<Entry>, e: Entry)
    requires BestFirst(es) && Rated(es) && OneEach(es) && Amounts(pots)
    requires e in es && !Beaten(e, es)
    ensures PaidTo(SidePayments(pots, es), e.id) == SharesOf(pots, es, e.id)
  {
    hide Compare, WellFormed, Winners, EligibleEntries, Beaten, Split, BestFirst, Wins, PotWinners, PaidTo;
    if pots == [] {
      NothingPaid(e.id);
    } else {
      var init, pot := pots[..|pots| - 1], pots[|pots| - 1];
      assert pot in pots;
      SidePaymentsToUnbeaten(init, es, e);
      PotWinnersFacts(pot, es);
      UnbeatenWinsPot(pot, es, e);
      SplitFacts(pot.amount, PotWinners(pot, es), e.id);
      PaidConcat(SidePayments(init, es), Split(pot.amount, PotWinners(pot, es)), e.id);
      SidePaymentsSplit(pots, es);
    }
  }

  lemma SidePaymentsSplit(pots: seq<SidePot>, es: seq<Entry>)
    requires pots != []
    ensures SidePayments(pots, es)
         == SidePayments(pots[..|pots| - 1], es) + Split(pots[|pots| - 1].amount, PotWinners(pots[|pots| - 1], es))
  {
  }

  lemma {:induction false} FewerTied(es: seq<Entry>, best: HandEvaluation)
    ensures |TiedWith(es, best)| <= |es|
  {
    if es != [] {
      FewerTied(es[..|es| - 1], best);
    }
  }

  lemma {:induction false} FewerEligible(es: seq<Entry>, ids: seq<string>)
    ensures |EligibleEntries(es, ids)| <= |es|
  {
    if es != [] {
      FewerEligible(es[..|es| - 1], ids);
    }
  }

  lemma WinnersAreFew(pot: SidePot, es: seq<Entry>)
    ensures |Winners(es)| <= |es| && |PotWinners(pot, es)| <= |es|
  {
    hide TiedWith, EligibleEntries;
    FewerEligible(es, pot.eligible);
    var el := EligibleEntries(es, pot.eligible);
    if el != [] { FewerTied(el, el[0].eval); }
    if es != [] { FewerTied(es, es[0].eval); }
  }

  // ----- Crediting and reporting -----

  ghost predicate PaidOnlyTo(payments: seq<WinResult>, es: seq<Entry>) {
    forall w :: w in payments ==> exists e :: e in es && e.id == w.playerId
  }

  lemma {:induction false} PaymentsToEntries(ws: seq<Entry>, share: int, es: seq<Entry>)
    requires forall e :: e in ws ==> e in es
    ensures PaidOnlyTo(Payments(ws, share), es)
  {
    if ws != [] {
      var init, last := ws[..|ws| - 1], ws[|ws| - 1];
      assert last in ws;
      PaymentsToEntries(init, share, es);
    }
  }

  lemma {:induction false} SidePaymentsToEntries(pots: seq<SidePot>, es: seq<Entry>)
    requires BestFirst(es) && Rated(es) && OneEach(es)
    ensures PaidOnlyTo(SidePayments(pots, es), es)
  {
    hide Compare, WellFormed, Winners, EligibleEntries, Beaten, BestFirst;
    if pots != [] {
      var init, pot := pots[..|pots| - 1], pots[|pots| - 1];
      SidePaymentsToEntries(init, es);
      PotWinnersFacts(pot, es);
      var ws := PotWinners(pot, es);
      if ws != [] {
        PaymentsToEntries(ws, pot.amount / |ws|, es);
      }
    }
  }

  /** Crediting the payments raises the stacks by exactly what is paid. */
  lemma {:induction false} CreditTotal(ps: seq<Player>, payments: seq<WinResult>)
    requires DistinctIds(ps)
    requires forall w :: w in payments ==> exists i :: 0 <= i < |ps| && ps[i].id == w.playerId
    ensures Sum(Credited(ps, payments), Stack) == Sum(ps, Stack) + Sum(payments, WinAmount)
  {
    hide DistinctIds;
    if payments == [] {
      SumPointwise(Credited(ps, payments), ps, Stack, Stack);
    } else {
      var init, w := payments[..|payments| - 1], payments[|payments| - 1];
      assert w in payments;
      CreditTotal(ps, init);
      var i :| 0 <= i < |ps| && ps[i].id == w.playerId;
      CreditOne(ps, payments, i);
      SumUpdate(Credited(ps, init), i, Credited(ps, payments)[i], Stack);
    }
  }

  /** The last payment goes to one seat. */
  lemma CreditOne(ps: seq<Player>, payments: seq<WinResult>, i: nat)
    requires payments != [] && DistinctIds(ps)
    requires i < |ps| && ps[i].id == payments[|payments| - 1].playerId
    ensures var before, after := Credited(ps, payments[..|payments| - 1]), Credited(ps, payments);
            && |before| == |ps| && |after| == |ps| && after == before[i := after[i]]
            && Stack(after[i]) == Stack(before[i]) + payments[|payments| - 1].amount
  {
  }

  ghost predicate OnePerWinner(ws: seq<WinResult>) {
    forall i, j :: 0 <= i < j < |ws| ==> ws[i].playerId != ws[j].playerId
  }

  ghost predicate Reported(ws: seq<WinResult>, payments: seq<WinResult>) {
    forall p :: p in payments ==> ListedIn(ws, p.playerId)
  }

  ghost predicate ListedIn(ws: seq<WinResult>, id: string) {
    exists i :: 0 <= i < |ws| && ws[i].playerId == id
  }

  lemma MergeLists(ws: seq<WinResult>, w: WinResult, payments: seq<WinResult>)
    requires OnePerWinner(ws) && Reported(ws, payments)
    ensures OnePerWinner(Merge(ws, w)) && Reported(Merge(ws, w), payments + [w])
  {
    hide IndexOfWin, ListedIn, Reported;
    var i := IndexOfWin(ws, w.playerId);
    if i >= 0 {
      KeepsWinners(ws, i, w, payments);
    } else {
      assert forall j :: 0 <= j < |ws| ==> ws[j] in ws;
      AddsWinner(ws, w, payments);
    }
  }

  lemma {:induction false} DedupeLists(payments: seq<WinResult>)
    ensures OnePerWinner(Dedupe(payments)) && Reported(Dedupe(payments), payments)
  {
    hide Merge, OnePerWinner;
    if payments == [] {
      NothingToReport();
    } else {
      var init, w := payments[..|payments| - 1], payments[|payments| - 1];
      DedupeLists(init);
      MergeLists(Dedupe(init), w, init);
      assert payments == init + [w];
    }
  }

  lemma NothingToReport()
    ensures OnePerWinner([]) && Reported([], [])
  {
  }

  ghost predicate CarriesAll(ws: seq<WinResult>, payments: seq<WinResult>) {
    forall i :: 0 <= i < |ws| ==> ws[i].amount == PaidTo(payments, ws[i].playerId)
  }

  lemma MergeAmounts(ws: seq<WinResult>, w: WinResult, payments: seq<WinResult>)
    requires OnePerWinner(ws) && Reported(ws, payments) && CarriesAll(ws, payments)
    ensures CarriesAll(Merge(ws, w), payments + [w])
    ensures Sum(Merge(ws, w), WinAmount) == Sum(ws, WinAmount) + w.amount
  {
    hide IndexOfWin, PaidTo, Sum;
    var i := IndexOfWin(ws, w.playerId);
    var all := Merge(ws, w);
    if i >= 0 {
      SumUpdate(ws, i, WinResult(w.playerId, ws[i].amount + w.amount), WinAmount);
    } else {
      SumSnoc(ws, w, WinAmount);
      NeverPaid(payments, w.playerId, ws);
      assert forall j :: 0 <= j < |ws| ==> ws[j] in ws;
    }
    forall j | 0 <= j < |all| ensures all[j].amount == PaidTo(payments + [w], all[j].playerId) {
      PaidSnoc(payments, w, all[j].playerId);
    }
  }

  lemma {:induction false} DedupeAmounts(payments: seq<WinResult>)
    ensures CarriesAll(Dedupe(payments), payments)
    ensures Sum(Dedupe(payments), WinAmount) == Sum(payments, WinAmount)
  {
    hide Merge, PaidTo;
    if payments != [] {
      var init, w := payments[..|payments| - 1], payments[|payments| - 1];
      DedupeAmounts(init);
      DedupeLists(init);
      MergeAmounts(Dedupe(init), w, init);
      assert payments == init + [w];
      SumSnoc(init, w, WinAmount);
    }
  }

  lemma AddsWinner(rest: seq<WinResult>, w: WinResult, init: seq<WinResult>)
    requires Reported(rest, init)
    ensures Reported(rest + [w], init + [w])
  {
    var r := rest + [w];
    forall p | p in init + [w] ensures ListedIn(r, p.playerId) {
      if p in init {
        var i :| 0 <= i < |rest| && rest[i].playerId == p.playerId;
        assert r[i].playerId == p.playerId;
      } else {
        assert r[|rest|].playerId == p.playerId;
      }
    }
  }

  lemma KeepsWinners(rest: seq<WinResult>, i: nat, w: WinResult, init: seq<WinResult>)
    requires i < |rest| && rest[i].playerId == w.playerId && Reported(rest, init)
    ensures Reported(rest[i := WinResult(w.playerId, rest[i].amount + w.amount)], init + [w])
  {
    var r := rest[i := WinResult(w.playerId, rest[i].amount + w.amount)];
    forall p | p in init + [w] ensures ListedIn(r, p.playerId) {
      if p in init {
        var j :| 0 <= j < |rest| && rest[j].playerId == p.playerId;
        assert r[j].playerId == p.playerId;
      } else {
        assert r[i].playerId == p.playerId;
      }
    }
  }

  lemma {:induction false} NeverPaid(payments: seq<WinResult>, id: string, rest: seq<WinResult>)
    requires Reported(rest, payments)
    requires forall x :: x in rest ==> x.playerId != id
    ensures PaidTo(payments, id) == 0
  {
    if payments != [] {
      assert payments[|payments| - 1] in payments;
      NeverPaid(payments[..|payments| - 1], id, rest);
    }
  }
}
