// From a raw menu of three plays to the action the engine applies: legalising, deduplicating,
// shuffling, picking, validating (ghosts/rdc-poker-session/src/candidate-generator.ts:73-227,
// 436-461, poker-brain.ts:220-305, 382-418, table-runner.ts:362-419).
module Legality {
  import opened Seqs
  import opened PokerTypes
  import opened Engine
  import opened Betting
  import opened TableRunner
  import Deck

  /** A play offered to the model, without its label. */
  datatype Candidate = Candidate(action: ActionType, amount: int)

  function ClampAmount(amount: int, action: ActionType, a: AvailableActions): int {
    match action
    case Fold => 0
    case Check => 0
    case Call => a.callAmount
    case AllIn => a.allInAmount
    case Raise => if !a.canRaise then 0 else Max(a.minRaise, Min(amount, a.maxRaise))
  }

  predicate LegalAction(action: ActionType, a: AvailableActions) {
    match action
    case Fold => a.canFold
    case Check => a.canCheck
    case Call => a.canCall
    case Raise => a.canRaise
    case AllIn => a.canAllIn
  }

  function Substitute(action: ActionType, a: AvailableActions): ActionType {
    match action
    case Raise => if a.canCall then Call else if a.canCheck then Check else Fold
    case AllIn => if a.canRaise then Raise else if a.canCall then Call else Fold
    case Call => if a.canCheck then Check else Fold
    case Check => if a.canCall then Call else Fold
    case Fold => if a.canCheck then Check else if a.canCall then Call else AllIn
  }

  function Legalize(t: Candidate, a: AvailableActions): Candidate {
    var action := if LegalAction(t.action, a) then t.action else Substitute(t.action, a);
    Candidate(action, ClampAmount(t.amount, action, a))
  }

  const ACTIONS := [Fold, Check, Call, Raise, AllIn]

  /** The first of the first k actions that is legal and, at its least amount, not listed. */
  function FirstUnused(out: seq<Candidate>, k: nat, a: AvailableActions): Option<Candidate>
    requires k <= 5
  {
    if k == 0 then None
    else
      var earlier := FirstUnused(out, k - 1, a);
      var c := Candidate(ACTIONS[k - 1], ClampAmount(0, ACTIONS[k - 1], a));
      if earlier.Some? then earlier else if LegalAction(c.action, a) && c !in out then Some(c) else None
  }

  /** What replaces a play that is already listed, if anything does: another size for a raise,
      another action for the rest. */
  function Replacement(out: seq<Candidate>, t: Candidate, a: AvailableActions): Option<Candidate> {
    if t.action == Raise then
      var bigger := Candidate(Raise, ClampAmount(t.amount + a.minRaise, Raise, a));
      var smaller := Candidate(Raise, ClampAmount(t.amount - a.minRaise, Raise, a));
      if bigger !in out && bigger != t then Some(bigger)
      else if smaller !in out && smaller != t then Some(smaller)
      else None
    else FirstUnused(out, 5, a)
  }

  function Listed(out: seq<Candidate>, t: Candidate, a: AvailableActions): seq<Candidate> {
    if t !in out then out + [t]
    else
      var r := Replacement(out, t, a);
      if r.Some? then out + [r.value] else out
  }

  function ListAll(triple: seq<Candidate>, a: AvailableActions): seq<Candidate> {
    if triple == [] then []
    else Listed(ListAll(triple[..|triple| - 1], a), triple[|triple| - 1], a)
  }

  const FOLD := Candidate(Fold, 0)

  /** Padding with folds up to three. */
  function Padded(out: seq<Candidate>): (r: seq<Candidate>)
    ensures |out| <= 3 ==> |r| == 3
    ensures out <= r && forall k :: |out| <= k < |r| ==> r[k] == FOLD
    decreases 3 - |out|
  {
    if |out| >= 3 then out else Padded(out + [FOLD])
  }

  function LegalizeAll(triple: seq<Candidate>, a: AvailableActions): (r: seq<Candidate>)
    ensures |r| == |triple| && forall k :: 0 <= k < |r| ==> r[k] == Legalize(triple[k], a)
  {
    seq(|triple|, k requires 0 <= k < |triple| => Legalize(triple[k], a))
  }

  /** finalize, applied to whatever plays a tier came up with. */
  function Finalize(raw: seq<Candidate>, a: AvailableActions): seq<Candidate> {
    Padded(ListAll(LegalizeAll(Padded(raw)[..3], a), a))
  }

  // ----- The loops -----

  /** Substituting an unused legal action. */
  method FindUnused(out: seq<Candidate>, seen: set<Candidate>, a: AvailableActions) returns (r: Option<Candidate>)
    requires forall c :: c in seen <==> c in out
    ensures r == FirstUnused(out, 5, a)
  {
    r := None;
    var k := 0;
    while k < 5
      invariant 0 <= k <= 5 && r == FirstUnused(out, k, a) && r.None?
    {
      var c := ACTIONS[k];
      if !LegalAction(c, a) {
        k := k + 1;
        continue;
      }
      var amt := ClampAmount(0, c, a);
      if Candidate(c, amt) !in seen {
        r := Some(Candidate(c, amt));
        FirstUnusedStays(out, k + 1, 5, a);
        return;
      }
      k := k + 1;
    }
  }

  lemma {:induction false} FirstUnusedStays(out: seq<Candidate>, k: nat, m: nat, a: AvailableActions)
    requires k <= m <= 5 && FirstUnused(out, k, a).Some?
    ensures FirstUnused(out, m, a) == FirstUnused(out, k, a)
    decreases m
  {
    if k < m {
      FirstUnusedStays(out, k, m - 1, a);
    }
  }

  /** The body of deduplicate's loop for a play already seen. Every play pushed is recorded as
      seen, so after a repeated raise the length test always skips the substitution. */
  method PushInstead(before: seq<Candidate>, seenBefore: set<Candidate>, t: Candidate, a: AvailableActions)
    returns (out: seq<Candidate>, seen: set<Candidate>)
    requires t in before && |seenBefore| == |before| && forall c :: c in seenBefore <==> c in before
    ensures out == Listed(before, t, a) && |out| <= |before| + 1
    ensures |seen| == |out| && forall c :: c in seen <==> c in out
  {
    hide FirstUnused, ClampAmount;
    out, seen := before, seenBefore;
    if t.action == Raise {
      var bigger := ClampAmount(t.amount + a.minRaise, Raise, a);
      var smaller := ClampAmount(t.amount - a.minRaise, Raise, a);
      if Candidate(Raise, bigger) !in seen && bigger != t.amount {
        seen := seen + {Candidate(Raise, bigger)};
        out := out + [Candidate(Raise, bigger)];
      } else if Candidate(Raise, smaller) !in seen && smaller != t.amount {
        seen := seen + {Candidate(Raise, smaller)};
        out := out + [Candidate(Raise, smaller)];
      }
      if |out| == |seen| {
        return;
      }
    }
    var unused := FindUnused(out, seen, a);
    UnusedIsNew(out, 5, a);
    if unused.Some? {
      seen := seen + {unused.value};
      out := out + [unused.value];
    }
  }

  /** deduplicate */
  method Deduplicate(triple: seq<Candidate>, a: AvailableActions) returns (out: seq<Candidate>)
    requires |triple| == 3
    ensures out == Padded(ListAll(triple, a)) && |out| == 3
  {
    hide Replacement;
    var seen: set<Candidate> := {};
    out := [];
    for k := 0 to 3
      invariant out == ListAll(triple[..k], a) && |out| <= k
      invariant |seen| == |out| && forall c :: c in seen <==> c in out
    {
      var t := triple[k];
      assert triple[..k + 1][..k] == triple[..k];
      if t in seen {
        out, seen := PushInstead(out, seen, t, a);
      } else {
        seen := seen + {t};
        out := out + [t];
      }
    }
    assert triple[..3] == triple;
    ghost var listed := out;
    while |out| < 3
      invariant |out| <= 3 && Padded(out) == Padded(listed)
      decreases 3 - |out|
    {
      out := out + [FOLD];
    }
  }

  lemma {:induction false} UnusedIsNew(out: seq<Candidate>, k: nat, a: AvailableActions)
    requires k <= 5
    ensures var r := FirstUnused(out, k, a);
            r.Some? ==> r.value !in out && LegalAction(r.value.action, a)
                        && r.value.amount == ClampAmount(0, r.value.action, a)
  {
    if k > 0 {
      UnusedIsNew(out, k - 1, a);
    }
  }

  /** The order the three plays are shown in: a shuffle of their places. */
  method ShuffleIndices(js: seq<nat>) returns (order: seq<nat>)
    requires Deck.Choices(js, 3)
    ensures order == Deck.Shuffle([0, 1, 2], js)
  {
    var places := new nat[3](i => i);
    assert places[..] == [0, 1, 2];
    Deck.ShuffleDeck(places, js);
    order := places[..];
  }

  /** generateCandidates, from a tier's raw plays on: the plays as shown, and the place of the
      first of them. */
  method GenerateCandidates(raw: seq<Candidate>, a: AvailableActions, js: seq<nat>)
    returns (candidates: seq<Candidate>, nearestOptimal: nat)
    requires Deck.Choices(js, 3)
    ensures |candidates| == 3 && multiset(candidates) == multiset(Finalize(raw, a))
    ensures var order := Deck.Shuffle([0, 1, 2], js);
            |order| == 3 && forall k :: 0 <= k < 3 ==>
              0 <= order[k] < 3 && order[k] < |Finalize(raw, a)| && candidates[k] == Finalize(raw, a)[order[k]]
    ensures nearestOptimal < 3 && candidates[nearestOptimal] == Legalize(Padded(raw)[0], a)
  {
    hide Legalize, ListAll, Deck.Choices, Deck.Shuffle, ThreePlaces, Padded;
    var padded := Padded(raw);
    var legal := LegalizeAll(padded[..3], a);
    var triple := Deduplicate(legal, a);
    FirstIsKept(legal, a);
    var order := ShuffleIndices(js);
    OrderFacts(order, js);
    PlacesAre(order);
    candidates := [triple[order[0]], triple[order[1]], triple[order[2]]];
    nearestOptimal := if order[0] == 0 then 0 else if order[1] == 0 then 1 else 2;
    ShowsTheSame(triple, order);
  }

  /** The places 0, 1 and 2 in some order. */
  ghost predicate ThreePlaces(order: seq<nat>) {
    && |order| == 3
    && order[0] < 3 && order[1] < 3 && order[2] < 3
    && order[0] != order[1] && order[0] != order[2] && order[1] != order[2]
  }

  lemma PlacesAre(order: seq<nat>)
    requires ThreePlaces(order)
    ensures |order| == 3 && order[0] < 3 && order[1] < 3 && order[2] < 3
    ensures order[0] != 0 && order[1] != 0 ==> order[2] == 0
    ensures forall k :: 0 <= k < 3 ==> order[k] < 3
  {
  }

  lemma OrderFacts(order: seq<nat>, js: seq<nat>)
    requires Deck.Choices(js, 3) && order == Deck.Shuffle([0, 1, 2], js)
    ensures ThreePlaces(order)
  {
    hide Deck.Shuffle;
    Deck.ShuffleIsPermutation([0, 1, 2], js);
    var m := multiset([0, 1, 2]);
    assert order[0] in multiset(order) && order[1] in multiset(order) && order[2] in multiset(order);
    assert order == [order[0], order[1], order[2]];
    assert multiset(order) == multiset{order[0], order[1], order[2]};
    assert m == multiset{0, 1, 2};
    assert multiset(order)[0] == 1 && multiset(order)[1] == 1 && multiset(order)[2] == 1;
  }

  lemma ShowsTheSame(triple: seq<Candidate>, order: seq<nat>)
    requires |triple| == 3
    requires ThreePlaces(order)
    ensures multiset([triple[order[0]], triple[order[1]], triple[order[2]]]) == multiset(triple)
  {
    hide Is;
    var shown := [triple[order[0]], triple[order[1]], triple[order[2]]];
    forall c ensures multiset(shown)[c] == multiset(triple)[c] {
      ThreeCounts(shown, c);
      ThreeCounts(triple, c);
      SameThree(Is(triple[0], c), Is(triple[1], c), Is(triple[2], c), order);
    }
  }

  lemma SameThree(x: int, y: int, z: int, order: seq<nat>)
    requires ThreePlaces(order)
    ensures [x, y, z][order[0]] + [x, y, z][order[1]] + [x, y, z][order[2]] == x + y + z
  {
  }

  function Is(x: Candidate, c: Candidate): nat { if x == c then 1 else 0 }

  lemma ThreeCounts(s: seq<Candidate>, c: Candidate)
    requires |s| == 3
    ensures multiset(s)[c] == Is(s[0], c) + Is(s[1], c) + Is(s[2], c)
  {
    assert s == [s[0]] + [s[1]] + [s[2]];
  }

  lemma FirstIsKept(triple: seq<Candidate>, a: AvailableActions)
    requires |triple| == 3
    ensures Padded(ListAll(triple, a))[0] == triple[0]
  {
    assert triple[..2][..1] == [triple[0]] && triple[..2][1] == triple[1];
    assert [triple[0]][..0] == [];
    assert ListAll([triple[0]], a) == [triple[0]];
  }

  // ----- All three plays are legal -----

  /** What getAvailableActions offers a player who can still act. */
  predicate Menu(a: AvailableActions) {
    a.canFold && (a.canRaise ==> a.minRaise <= a.maxRaise)
  }

  /** Legal, and for exactly the amount the engine wants, or within its range. */
  predicate InMenu(c: Candidate, a: AvailableActions) {
    && LegalAction(c.action, a)
    && (c.action == Raise ==> a.minRaise <= c.amount <= a.maxRaise)
    && (c.action != Raise ==> c.amount == ClampAmount(0, c.action, a))
  }

  lemma MenuOfAnActor(s: GameState, id: string)
    requires var i := IndexOf(s.players, id); i >= 0 && !s.players[i].folded && !s.players[i].allIn
    ensures Menu(Available(s, id))
  {
    hide IndexOf;
  }

  lemma LegalizedIsInMenu(t: Candidate, a: AvailableActions)
    requires Menu(a)
    ensures InMenu(Legalize(t, a), a)
    ensures InMenu(t, a) ==> Legalize(t, a) == t
  {
  }

  lemma ReplacementIsInMenu(out: seq<Candidate>, t: Candidate, a: AvailableActions)
    requires Menu(a) && InMenu(t, a)
    ensures var r := Replacement(out, t, a); r.Some? ==> InMenu(r.value, a) && r.value !in out
  {
    UnusedIsNew(out, 5, a);
  }

  lemma {:induction false} ListedAreInMenu(triple: seq<Candidate>, a: AvailableActions)
    requires Menu(a) && forall c :: c in triple ==> InMenu(c, a)
    ensures |ListAll(triple, a)| <= |triple| && Distinct(ListAll(triple, a))
    ensures forall c :: c in ListAll(triple, a) ==> InMenu(c, a)
  {
    hide InMenu, Replacement;
    if triple != [] {
      var init, t := triple[..|triple| - 1], triple[|triple| - 1];
      ListedAreInMenu(init, a);
      ReplacementIsInMenu(ListAll(init, a), t, a);
    }
  }

  /** Whatever plays a tier comes up with, and however many, all three candidates are legal and
      in range; the first is the tier's own first play if that was; and the listed ones are
      all different, so only the padding can repeat. */
  lemma CandidatesAreLegal(raw: seq<Candidate>, a: AvailableActions)
    requires Menu(a)
    ensures |Finalize(raw, a)| == 3 && forall c :: c in Finalize(raw, a) ==> InMenu(c, a)
    ensures InMenu(Padded(raw)[0], a) ==> Finalize(raw, a)[0] == Padded(raw)[0]
    ensures forall i, j :: 0 <= i < j < 3 && Finalize(raw, a)[i] == Finalize(raw, a)[j] ==>
              Finalize(raw, a)[j] == FOLD
  {
    hide InMenu, Legalize, ListAll;
    var legal := LegalizeAll(Padded(raw)[..3], a);
    forall c | c in legal ensures InMenu(c, a) {
      var k :| 0 <= k < 3 && legal[k] == c;
      LegalizedIsInMenu(Padded(raw)[..3][k], a);
    }
    ListedAreInMenu(legal, a);
    FirstIsKept(legal, a);
    LegalizedIsInMenu(Padded(raw)[0], a);
    assert InMenu(FOLD, a) by { FoldInMenu(a); }
  }

  lemma FoldInMenu(a: AvailableActions)
    requires Menu(a)
    ensures InMenu(FOLD, a)
  {
  }

  // ----- What stands in for an illegal play -----

  /** The nearest amount within the raise limits. */
  predicate Nearest(amount: int, asked: int, a: AvailableActions) {
    && a.minRaise <= amount <= a.maxRaise
    && (a.minRaise <= asked <= a.maxRaise ==> amount == asked)
    && (asked < a.minRaise ==> amount == a.minRaise)
    && (a.maxRaise < asked ==> amount == a.maxRaise)
  }

  /** A legal play keeps its action, an illegal one becomes the closest there is: a raise a call or
      else a check, an all-in a raise or else a call, a call a check, a check a call. The amount is
      the menu's, and for a raise the nearest to the one asked for. */
  lemma LegalizedMeans(t: Candidate, a: AvailableActions)
    requires Menu(a)
    ensures var r := Legalize(t, a);
            && (LegalAction(t.action, a) ==> r.action == t.action)
            && (t.action == Raise && !a.canRaise && a.canCall ==> r.action == Call)
            && (t.action == Raise && !a.canRaise && !a.canCall && a.canCheck ==> r.action == Check)
            && (t.action == AllIn && !a.canAllIn && a.canRaise ==> r.action == Raise)
            && (t.action == AllIn && !a.canAllIn && !a.canRaise && a.canCall ==> r.action == Call)
            && (t.action == Call && !a.canCall && a.canCheck ==> r.action == Check)
            && (t.action == Check && !a.canCheck && a.canCall ==> r.action == Call)
            && (t.action != Fold && r.action == Fold ==>
                  && !LegalAction(t.action, a)
                  && (t.action in {Raise, AllIn, Check} ==> !a.canCall)
                  && (t.action in {Raise, Call} ==> !a.canCheck)
                  && (t.action == AllIn ==> !a.canRaise))
            && (r.action == Raise ==> Nearest(r.amount, t.amount, a))
            && (r.action == Call ==> r.amount == a.callAmount)
            && (r.action == AllIn ==> r.amount == a.allInAmount)
            && (r.action in {Fold, Check} ==> r.amount == 0)
  {
  }

  // ----- When the three plays differ -----

  /** The menu of an actor with chips. */
  predicate OpenMenu(a: AvailableActions) {
    Menu(a) && a.canAllIn && (a.canRaise ==> 0 < a.minRaise)
  }

  /** The least play of an action. */
  function Least(action: ActionType, a: AvailableActions): Candidate {
    Candidate(action, ClampAmount(0, action, a))
  }

  lemma FirstUnusedIs(out: seq<Candidate>, a: AvailableActions)
    requires OpenMenu(a)
    ensures FirstUnused(out, 5, a) ==
            if FOLD !in out then Some(FOLD)
            else if a.canCheck && Least(Check, a) !in out then Some(Least(Check, a))
            else if a.canCall && Least(Call, a) !in out then Some(Least(Call, a))
            else if a.canRaise && Least(Raise, a) !in out then Some(Least(Raise, a))
            else if Least(AllIn, a) !in out then Some(Least(AllIn, a))
            else None
  {
    hide ClampAmount, FirstUnused;
    assert ClampAmount(0, Fold, a) == 0 by { FoldClamps(a); }
    UnusedStep(out, 1, a);
    UnusedStep(out, 2, a);
    UnusedStep(out, 3, a);
    UnusedStep(out, 4, a);
    UnusedStep(out, 5, a);
    assert FirstUnused(out, 0, a) == None by { UnusedOfNone(out, a); }
  }

  lemma UnusedStep(out: seq<Candidate>, k: nat, a: AvailableActions)
    requires 0 < k <= 5
    ensures FirstUnused(out, k, a) ==
            if FirstUnused(out, k - 1, a).Some? then FirstUnused(out, k - 1, a)
            else if LegalAction(ACTIONS[k - 1], a) && Least(ACTIONS[k - 1], a) !in out then Some(Least(ACTIONS[k - 1], a))
            else None
  {
    hide ClampAmount;
  }

  lemma UnusedOfNone(out: seq<Candidate>, a: AvailableActions)
    ensures FirstUnused(out, 0, a) == None
  {
  }

  lemma FoldClamps(a: AvailableActions)
    ensures ClampAmount(0, Fold, a) == 0
  {
  }

  /** Fold and all-in are no room for three different plays. */
  predicate TwoPlaysOnly(a: AvailableActions) {
    !a.canCheck && !a.canCall && !a.canRaise
  }

  /** Raises and folds only, when there is one size to raise to: two of them raises, or two folds
      and then a raise where nothing else but an all-in is on offer. */
  predicate Stuck(plays: seq<Candidate>, a: AvailableActions)
    requires |plays| == 3
  {
    && a.canRaise && a.minRaise == a.maxRaise
    && (forall k :: 0 <= k < 3 ==> plays[k].action in {Raise, Fold})
    && (|| (plays[0].action == Raise && (plays[1].action == Raise || plays[2].action == Raise))
        || (plays[1].action == Raise && plays[2].action == Raise)
        || (!a.canCheck && !a.canCall && plays[2].action == Raise))
  }

  lemma PaddedDiffer(out: seq<Candidate>)
    requires 1 <= |out| <= 3 && Distinct(out)
    ensures Distinct(Padded(out)) <==> |out| == 3 || (|out| == 2 && FOLD !in out)
  {
    var padded := Padded(out);
    assert out <= padded && forall k :: |out| <= k < 3 ==> padded[k] == FOLD;
    if |out| == 3 {
      assert padded == out;
    } else if |out| == 2 {
      assert padded == [out[0], out[1], FOLD];
      assert padded[0] == out[0] && padded[1] == out[1] && padded[2] == FOLD;
    } else {
      assert padded[1] == padded[2];
    }
  }

  /** The other size a repeated raise can be moved to, if there is any. */
  lemma JitterIs(out: seq<Candidate>, t: Candidate, a: AvailableActions)
    requires OpenMenu(a) && InMenu(t, a) && t.action == Raise
    ensures var up, down := Max(a.minRaise, Min(t.amount + a.minRaise, a.maxRaise)), Max(a.minRaise, t.amount - a.minRaise);
            && (up == t.amount <==> t.amount == a.maxRaise)
            && (down == t.amount <==> t.amount == a.minRaise)
            && Replacement(out, t, a) == if Candidate(Raise, up) !in out && up != t.amount then Some(Candidate(Raise, up))
                                         else if Candidate(Raise, down) !in out && down != t.amount then Some(Candidate(Raise, down))
                                         else None
  {
    hide FirstUnused;
  }

  lemma ListThree(plays: seq<Candidate>, a: AvailableActions)
    requires |plays| == 3
    ensures ListAll(plays, a) == Listed(Listed([plays[0]], plays[1], a), plays[2], a)
  {
    hide Replacement;
    var none: seq<Candidate> := [];
    assert plays[..2][..1] == [plays[0]] && [plays[0]][..0] == none;
    assert ListAll([plays[0]], a) == [plays[0]];
  }

  /** With more on offer than fold and all-in, a list of at most two plays leaves one unused. */
  lemma SomeUnused(out: seq<Candidate>, a: AvailableActions)
    requires OpenMenu(a) && !TwoPlaysOnly(a) && |out| <= 2
    ensures FirstUnused(out, 5, a).Some?
  {
    FirstUnusedIs(out, a);
    hide FirstUnused, ClampAmount;
    if FirstUnused(out, 5, a).None? {
      var x := if a.canCheck then Least(Check, a) else if a.canCall then Least(Call, a) else Least(Raise, a);
      assert FOLD in out && x in out && Least(AllIn, a) in out;
      ThreeDoNotFit(out, FOLD, x, Least(AllIn, a));
    }
  }

  lemma ThreeDoNotFit(out: seq<Candidate>, x: Candidate, y: Candidate, z: Candidate)
    requires |out| <= 2 && x in out && y in out && z in out
    ensures x == y || y == z || x == z
  {
  }

  /** When the first two plays differ. */
  lemma DifferentPair(c0: Candidate, c1: Candidate, c2: Candidate, a: AvailableActions)
    requires OpenMenu(a) && InMenu(c0, a) && InMenu(c1, a) && InMenu(c2, a) && !TwoPlaysOnly(a) && c0 != c1
    ensures var out := Listed([c0, c1], c2, a);
            |out| == 3 || (|out| == 2 && FOLD !in out) <==> !Stuck([c0, c1, c2], a)
  {
    hide FirstUnused, Replacement;
    var out := Listed([c0, c1], c2, a);
    if c2 in [c0, c1] {
      if c2.action == Raise {
        JitterIs([c0, c1], c2, a);
      } else {
        SomeUnused([c0, c1], a);
        assert Replacement([c0, c1], c2, a) == FirstUnused([c0, c1], 5, a) by { NotARaise([c0, c1], c2, a); }
      }
    }
  }

  lemma NotARaise(out: seq<Candidate>, t: Candidate, a: AvailableActions)
    requires t.action != Raise
    ensures Replacement(out, t, a) == FirstUnused(out, 5, a)
  {
    hide FirstUnused;
  }

  /** When the second play repeats the first and is no raise. */
  lemma RepeatedPlay(c: Candidate, c2: Candidate, a: AvailableActions)
    requires OpenMenu(a) && InMenu(c, a) && InMenu(c2, a) && !TwoPlaysOnly(a) && c.action != Raise
    ensures var out := Listed(Listed([c], c, a), c2, a);
            |out| == 3 || (|out| == 2 && FOLD !in out) <==> !Stuck([c, c, c2], a)
  {
    hide FirstUnused, Replacement;
    NotARaise([c], c, a);
    SomeUnused([c], a);
    FirstUnusedIs([c], a);
    var u := FirstUnused([c], 5, a).value;
    assert Listed([c], c, a) == [c, u];
    if c2 in [c, u] {
      if c2.action == Raise {
        JitterIs([c, u], c2, a);
      } else {
        NotARaise([c, u], c2, a);
        SomeUnused([c, u], a);
      }
    }
  }

  /** When the second play repeats a raise. */
  lemma RepeatedRaise(c: Candidate, c2: Candidate, a: AvailableActions)
    requires OpenMenu(a) && InMenu(c, a) && InMenu(c2, a) && c.action == Raise
    ensures var out := Listed(Listed([c], c, a), c2, a);
            |out| == 3 || (|out| == 2 && FOLD !in out) <==> !Stuck([c, c, c2], a)
  {
    hide FirstUnused, Replacement;
    JitterIs([c], c, a);
    var pair := Listed([c], c, a);
    if a.minRaise == a.maxRaise {
      assert pair == [c];
    } else {
      assert |pair| == 2 && pair[0] == c && pair[1].action == Raise;
    }
    if c2 in pair {
      assert c2.action == Raise;
      JitterIs(pair, c2, a);
      assert a.minRaise == a.maxRaise ==> Listed(pair, c2, a) == [c];
      assert FOLD !in Listed(pair, c2, a);
    } else {
      assert Listed(pair, c2, a) == pair + [c2];
      if a.minRaise == a.maxRaise {
        assert c2.action == Raise ==> c2 == c;
        assert [c, c, c2][2].action == Fold ==> c2 == FOLD;
      }
    }
  }

  lemma {:induction false} ListedLength(plays: seq<Candidate>, a: AvailableActions)
    requires plays != []
    ensures 1 <= |ListAll(plays, a)| <= |plays|
  {
    hide Replacement;
    if |plays| > 1 {
      ListedLength(plays[..|plays| - 1], a);
    } else {
      assert plays[..0] == [];
    }
  }

  lemma OnlyTwo(plays: seq<Candidate>, a: AvailableActions)
    requires OpenMenu(a) && TwoPlaysOnly(a) && |plays| == 3 && forall c :: c in plays ==> InMenu(c, a)
    ensures !Distinct(plays)
  {
    assert plays[0] in plays && plays[1] in plays && plays[2] in plays;
  }

  /** The candidates of an actor with chips are three different plays exactly when there is more on
      offer than fold and all-in, and the legalised plays are not stuck. */
  lemma CandidatesDifferExactly(raw: seq<Candidate>, a: AvailableActions)
    requires OpenMenu(a)
    ensures Distinct(Finalize(raw, a)) <==> !TwoPlaysOnly(a) && !Stuck(LegalizeAll(Padded(raw)[..3], a), a)
  {
    hide InMenu, Legalize, ListAll, Listed, TwoPlaysOnly, Stuck, Padded;
    var plays := LegalizeAll(Padded(raw)[..3], a);
    forall k | 0 <= k < 3 ensures InMenu(plays[k], a) {
      LegalizedIsInMenu(Padded(raw)[..3][k], a);
    }
    ListedAreInMenu(plays, a);
    ListedLength(plays, a);
    PaddedDiffer(ListAll(plays, a));
    if TwoPlaysOnly(a) {
      CandidatesAreLegal(raw, a);
      OnlyTwo(Finalize(raw, a), a);
    } else {
      ListThree(plays, a);
      assert plays == [plays[0], plays[1], plays[2]];
      if plays[0] != plays[1] {
        FreshPlay(plays[0], plays[1], a);
        DifferentPair(plays[0], plays[1], plays[2], a);
      } else if plays[0].action == Raise {
        RepeatedRaise(plays[0], plays[2], a);
      } else {
        RepeatedPlay(plays[0], plays[2], a);
      }
    }
  }

  lemma FreshPlay(c: Candidate, d: Candidate, a: AvailableActions)
    requires c != d
    ensures Listed([c], d, a) == [c, d]
  {
    hide Replacement;
  }

  /** A concrete repeated raise: the second fold is listed although a call and an all-in are
      legal and unused. */
  lemma RepeatedRaiseEndsInFolds()
    ensures var a := AvailableActions(true, false, true, 10, true, 40, 40, true, 40);
            var r := Candidate(Raise, 40);
            Finalize([r, FOLD, r], a) == [r, FOLD, FOLD] && InMenu(Candidate(Call, 10), a) && InMenu(Candidate(AllIn, 40), a)
  {
    hide FirstUnused;
    var a := AvailableActions(true, false, true, 10, true, 40, 40, true, 40);
    var r := Candidate(Raise, 40);
    assert LegalizeAll([r, FOLD, r], a) == [r, FOLD, r];
    assert Padded([r, FOLD, r])[..3] == [r, FOLD, r];
    ListThree([r, FOLD, r], a);
    FreshPlay(r, FOLD, a);
    JitterIs([r, FOLD], r, a);
    assert Padded([r, FOLD]) == [r, FOLD] + [FOLD];
  }

  // ----- Validating -----

  function BestFallback(a: AvailableActions): Candidate {
    if a.canCheck then Candidate(Check, 0)
    else if a.canCall then Candidate(Call, a.callAmount)
    else FOLD
  }

  /** validateAction, on the action's name in lower case without surrounding blanks. */
  function ValidateAction(action: string, amount: int, a: AvailableActions): Candidate {
    if action == "raise" && a.canRaise then Candidate(Raise, Max(a.minRaise, Min(amount, a.maxRaise)))
    else if action == "all-in" && a.canAllIn then Candidate(AllIn, a.allInAmount)
    else if action == "call" && a.canCall then Candidate(Call, a.callAmount)
    else if action == "check" && a.canCheck then Candidate(Check, 0)
    else if action == "fold" && a.canFold then FOLD
    else BestFallback(a)
  }

  /** Whatever the model wrote, validation comes out in the menu; and it leaves a play as it is
      exactly when the play was in the menu. */
  lemma ValidationIsSound(action: string, amount: int, c: Candidate, a: AvailableActions)
    requires Menu(a)
    ensures InMenu(ValidateAction(action, amount, a), a)
    ensures ValidateAction(ActionName(c.action), c.amount, a) == c <==> InMenu(c, a)
  {
  }

  /** What validation does with a play that is not in the menu: a raise that is possible is brought
      to the nearest amount; a named action that is possible gets the menu's amount; and anything
      else becomes a check if that is free, or else a call, or else a fold. */
  lemma ValidationMeans(action: string, amount: int, a: AvailableActions)
    requires Menu(a)
    ensures var r := ValidateAction(action, amount, a);
            && (action == "raise" && a.canRaise ==> r.action == Raise && Nearest(r.amount, amount, a))
            && (forall x :: x != Raise && action == ActionName(x) && LegalAction(x, a) ==> r.action == x)
            && (r.action == Call ==> r.amount == a.callAmount)
            && (r.action == AllIn ==> r.amount == a.allInAmount)
            && (r.action in {Fold, Check} ==> r.amount == 0)
            && ((forall x :: action == ActionName(x) ==> !LegalAction(x, a)) ==>
                  && (a.canCheck ==> r == Candidate(Check, 0))
                  && (!a.canCheck && a.canCall ==> r == Candidate(Call, a.callAmount))
                  && (!a.canCheck && !a.canCall ==> r == FOLD))
  {
    if action == "raise" && !a.canRaise {
      assert forall x :: action == ActionName(x) ==> x == Raise;
    }
    assert ActionName(Raise) == "raise" && ActionName(AllIn) == "all-in" && ActionName(Call) == "call"
        && ActionName(Check) == "check" && ActionName(Fold) == "fold";
  }

  // ----- Picking -----

  /** The parts of a model's reply a decision reads; a reply that is not JSON has none. */
  datatype ModelReply = ModelReply(choice: Option<char>, action: Option<string>, amount: Option<int>)

  function Letter(k: nat): char
    requires k < 3
  {
    if k == 0 then 'A' else if k == 1 then 'B' else 'C'
  }

  /** parseLetterResponse: the letter, else the first candidate with the named action, else the
      first candidate. */
  function ParseLetter(reply: ModelReply, candidates: seq<Candidate>, a: AvailableActions): Candidate
    requires |candidates| == 3
  {
    var c :=
      if reply.choice == Some(Letter(0)) then candidates[0]
      else if reply.choice == Some(Letter(1)) then candidates[1]
      else if reply.choice == Some(Letter(2)) then candidates[2]
      else if reply.action == Some(ActionName(candidates[0].action)) then candidates[0]
      else if reply.action == Some(ActionName(candidates[1].action)) then candidates[1]
      else if reply.action == Some(ActionName(candidates[2].action)) then candidates[2]
      else candidates[0];
    ValidateAction(ActionName(c.action), c.amount, a)
  }

  /** parseResponse, used when there are no candidates. */
  function ParseFree(reply: Option<ModelReply>, a: AvailableActions): Candidate {
    match reply
    case None => BestFallback(a)
    case Some(r) =>
      ValidateAction(if r.action.Some? then r.action.value else "fold",
                     if r.amount.Some? then r.amount.value else 0, a)
  }

  /** A reply can only pick one of the candidates, and a letter picks the one it names. */
  lemma LockedToCandidates(reply: ModelReply, candidates: seq<Candidate>, a: AvailableActions)
    requires Menu(a) && |candidates| == 3 && forall c :: c in candidates ==> InMenu(c, a)
    ensures ParseLetter(reply, candidates, a) in candidates
    ensures reply.choice == Some('A') ==> ParseLetter(reply, candidates, a) == candidates[0]
    ensures reply.choice == Some('B') ==> ParseLetter(reply, candidates, a) == candidates[1]
    ensures reply.choice == Some('C') ==> ParseLetter(reply, candidates, a) == candidates[2]
  {
    hide InMenu, ValidateAction, Menu;
    forall c | c in candidates ensures ValidateAction(ActionName(c.action), c.amount, a) == c {
      ValidationIsSound("", 0, c, a);
    }
  }

  /** Without candidates the named action is validated: a missing one counts as a fold, a raise without
      an amount is the least one, and with no reply at all there is a check, or else a call, or else a
      fold. */
  lemma FreeReplyMeans(reply: ModelReply, a: AvailableActions)
    requires Menu(a) && (a.canRaise ==> 0 <= a.minRaise)
    ensures reply.action.None? ==> ParseFree(Some(reply), a) == FOLD
    ensures reply.action == Some("raise") && a.canRaise ==>
              && ParseFree(Some(reply), a).action == Raise
              && (reply.amount.Some? ==> Nearest(ParseFree(Some(reply), a).amount, reply.amount.value, a))
              && (reply.amount.None? ==> ParseFree(Some(reply), a).amount == a.minRaise)
    ensures forall x :: x != Raise && reply.action == Some(ActionName(x)) && LegalAction(x, a) ==>
              ParseFree(Some(reply), a).action == x
    ensures a.canCheck ==> ParseFree(None, a) == Candidate(Check, 0)
    ensures !a.canCheck && a.canCall ==> ParseFree(None, a) == Candidate(Call, a.callAmount)
    ensures !a.canCheck && !a.canCall ==> ParseFree(None, a) == FOLD
  {
    hide ValidateAction, ActionName;
    ValidationMeans("fold", if reply.amount.Some? then reply.amount.value else 0, a);
    if reply.action.Some? {
      ValidationMeans(reply.action.value, if reply.amount.Some? then reply.amount.value else 0, a);
    }
    assert ActionName(Fold) == "fold" by { FoldsName(); }
  }

  lemma FoldsName()
    ensures ActionName(Fold) == "fold"
  {
  }

  /** Without a letter the reply's action is looked for from the first candidate on, and failing
      that the first one is played. */
  lemma ReplyWithoutLetter(reply: ModelReply, candidates: seq<Candidate>, a: AvailableActions)
    requires Menu(a) && |candidates| == 3 && forall c :: c in candidates ==> InMenu(c, a)
    requires forall k :: 0 <= k < 3 ==> reply.choice != Some(Letter(k))
    ensures forall k :: 0 <= k < 3 && reply.action == Some(ActionName(candidates[k].action))
                        && (forall j :: 0 <= j < k ==> reply.action != Some(ActionName(candidates[j].action))) ==>
              ParseLetter(reply, candidates, a) == candidates[k]
    ensures (forall k :: 0 <= k < 3 ==> reply.action != Some(ActionName(candidates[k].action))) ==>
              ParseLetter(reply, candidates, a) == candidates[0]
  {
    hide InMenu, ValidateAction, Menu, ActionName;
    assert candidates[0] in candidates && candidates[1] in candidates && candidates[2] in candidates;
    assert reply.choice != Some(Letter(0)) && reply.choice != Some(Letter(1)) && reply.choice != Some(Letter(2));
    forall c | c in candidates ensures ValidateAction(ActionName(c.action), c.amount, a) == c {
      ValidationIsSound("", 0, c, a);
    }
  }

  // ----- The whole pipeline -----

  /** Any play in the menu passes the table's gate unchanged, and is a legal action. */
  lemma GatePassesMenu(s: GameState, c: Candidate)
    requires 0 <= s.current < |s.players|
    requires InMenu(c, Available(s, s.players[s.current].id))
    ensures var id := s.players[s.current].id;
            && ParseAction(Reply(id, ActionName(c.action), Some(c.amount)), id, Available(s, id))
               == Ok(PlayerAction(id, c.action, c.amount))
            && Legal(s, PlayerAction(id, c.action, c.amount))
  {
    hide IndexOf;
    var id := s.players[s.current].id;
    GateIsSound(s, Reply(id, ActionName(c.action), Some(c.amount)));
  }

  /** The player to act is neither folded nor all-in. */
  predicate HasActor(s: GameState) {
    && 0 <= s.current < |s.players|
    && var i := IndexOf(s.players, s.players[s.current].id);
       i >= 0 && !s.players[i].folded && !s.players[i].allIn
  }

  /** Every unfinished hand that started soundly has such a player, with chips and a raise that is
      worth something. */
  lemma UnfinishedHasActor(s: GameState)
    requires Inv(s)
    ensures HasActor(s) && OpenMenu(Available(s, s.players[s.current].id))
  {
    hide IndexOf;
    IndexOfDistinct(s.players, s.current);
  }

  /** For any player who can act: whatever the tier's plays, the shuffle
      and the model's reply, with candidates or without, the decision reaches the engine
      unchanged and is legal there. */
  lemma EveryDecisionIsLegal(s: GameState, raw: seq<Candidate>, candidates: seq<Candidate>,
                             reply: ModelReply, free: Option<ModelReply>)
    requires HasActor(s)
    requires multiset(candidates) == multiset(Finalize(raw, Available(s, s.players[s.current].id)))
    ensures |candidates| == 3
    ensures var id := s.players[s.current].id;
            var av := Available(s, id);
            && (forall c :: c in candidates ==> InMenu(c, av))
            && var d := ParseLetter(reply, candidates, av);
               d in candidates
               && ParseAction(Reply(id, ActionName(d.action), Some(d.amount)), id, av)
                  == Ok(PlayerAction(id, d.action, d.amount))
               && Legal(s, PlayerAction(id, d.action, d.amount))
    ensures var id := s.players[s.current].id;
            var d := ParseFree(free, Available(s, id));
            Legal(s, PlayerAction(id, d.action, d.amount))
  {
    hide Finalize, InMenu, ValidateAction, ParseLetter, Legal, ParseAction, Available, Menu, BestFallback, IndexOf;
    MenuOfAnActor(s, s.players[s.current].id);
    var av := Available(s, s.players[s.current].id);
    CandidatesAreLegal(raw, av);
    SameMultisetSameLength(candidates, Finalize(raw, av));
    assert forall c :: c in candidates ==> c in multiset(Finalize(raw, av));
    LockedToCandidates(reply, candidates, av);
    GatePassesMenu(s, ParseLetter(reply, candidates, av));
    FreeIsInMenu(free, av);
    GatePassesMenu(s, ParseFree(free, av));
  }

  lemma FreeIsInMenu(free: Option<ModelReply>, a: AvailableActions)
    requires Menu(a)
    ensures InMenu(ParseFree(free, a), a)
  {
  }
}
