// One distinct animal type per player at a table of up to five: the brute force, and what pins and
// forbids mean for its optimum (ghosts/rdc-poker-session/src/animal-assignment.ts:23-148).
module AnimalAssignment {
  import opened Seqs

  datatype Animal = Mouse | Lion | Jackal | Elephant | Eagle

  const ANIMAL_TYPES := [Mouse, Lion, Jackal, Elephant, Eagle]

  datatype Fitness = Fitness(mouse: real, lion: real, jackal: real, elephant: real, eagle: real) {
    function At(a: Animal): real {
      match a
      case Mouse => mouse
      case Lion => lion
      case Jackal => jackal
      case Elephant => elephant
      case Eagle => eagle
    }

    function With(a: Animal, x: real): (f: Fitness)
      ensures f.At(a) == x && forall b :: b != a ==> f.At(b) == At(b)
    {
      match a
      case Mouse => this.(mouse := x)
      case Lion => this.(lion := x)
      case Jackal => this.(jackal := x)
      case Elephant => this.(elephant := x)
      case Eagle => this.(eagle := x)
    }
  }

  datatype PlayerFitness = PlayerFitness(ghostId: string, fitness: Fitness)

  datatype Constraints = Constraints(pin: map<string, Animal>, forbid: map<string, Animal>)

  // ----- Enumerating the choices -----

  function WithoutAt<T>(arr: seq<T>, i: nat): seq<T>
    requires i < |arr|
  {
    arr[..i] + arr[i + 1..]
  }

  function Prefixed<T>(x: T, tails: seq<seq<T>>): (r: seq<seq<T>>)
    ensures |r| == |tails| && forall k :: 0 <= k < |r| ==> r[k] == [x] + tails[k]
  {
    seq(|tails|, k requires 0 <= k < |tails| => [x] + tails[k])
  }

  /** Everything pickPermutations yields, in order. */
  function Picks<T>(arr: seq<T>, n: nat): seq<seq<T>>
    decreases n, 1, 0
  {
    if n == 0 then [[]] else PicksTo(arr, n, |arr|)
  }

  /** The choices that start with one of the first k items. */
  function PicksTo<T>(arr: seq<T>, n: nat, k: nat): seq<seq<T>>
    requires n > 0 && k <= |arr|
    decreases n, 0, k
  {
    if k == 0 then []
    else PicksTo(arr, n, k - 1) + Prefixed(arr[k - 1], Picks(WithoutAt(arr, k - 1), n - 1))
  }

  /** The generator, with its yields collected. */
  method PickPermutations<T>(arr: seq<T>, n: nat) returns (perms: seq<seq<T>>)
    ensures perms == Picks(arr, n)
    decreases n
  {
    if n == 0 {
      return [[]];
    }
    perms := [];
    for i := 0 to |arr|
      invariant perms == PicksTo(arr, n, i)
    {
      var rest := arr[..i] + arr[i + 1..];
      var tails := PickPermutations(rest, n - 1);
      ghost var before := perms;
      for t := 0 to |tails|
        invariant perms == before + Prefixed(arr[i], tails)[..t]
      {
        perms := perms + [[arr[i]] + tails[t]];
        assert Prefixed(arr[i], tails)[..t + 1] == Prefixed(arr[i], tails)[..t] + [Prefixed(arr[i], tails)[t]];
      }
      assert Prefixed(arr[i], tails)[..|tails|] == Prefixed(arr[i], tails);
    }
  }

  /** n different items of arr, in some order. */
  ghost predicate Choice<T(!new)>(p: seq<T>, arr: seq<T>, n: nat) {
    |p| == n && Distinct(p) && forall x :: x in p ==> x in arr
  }

  lemma WithoutFacts<T(!new)>(arr: seq<T>, i: nat)
    requires Distinct(arr) && i < |arr|
    ensures Distinct(WithoutAt(arr, i))
    ensures forall x :: x in WithoutAt(arr, i) <==> x in arr && x != arr[i]
  {
    var rest := WithoutAt(arr, i);
    forall x ensures x in rest <==> x in arr && x != arr[i] {
      if x in arr && x != arr[i] {
        var k :| 0 <= k < |arr| && arr[k] == x;
        assert rest[if k < i then k else k - 1] == x;
      }
    }
  }

  lemma ChoiceCons<T(!new)>(p: seq<T>, arr: seq<T>, n: nat, i: nat)
    requires Distinct(arr) && i < |arr| && n > 0 && |p| == n && p[0] == arr[i]
    ensures Choice(p, arr, n) <==> Choice(p[1..], WithoutAt(arr, i), n - 1)
  {
    WithoutFacts(arr, i);
    hide WithoutAt;
    assert p == [p[0]] + p[1..];
    if Choice(p[1..], WithoutAt(arr, i), n - 1) {
      forall j, k | 0 <= j < k < |p| ensures p[j] != p[k] {
        assert p[k] == p[1..][k - 1] && p[k] in p[1..];
        assert j > 0 ==> p[j] == p[1..][j - 1];
      }
    }
    if Choice(p, arr, n) {
      forall x | x in p[1..] ensures x in WithoutAt(arr, i) {
        var k :| 0 <= k < n - 1 && p[1..][k] == x;
        assert p[k + 1] == x && p[0] != p[k + 1] && p[k + 1] in p;
      }
    }
  }

  lemma HeadIndex<T(!new)>(p: seq<T>, arr: seq<T>, n: nat) returns (i: nat)
    requires Choice(p, arr, n) && n > 0
    ensures i < |arr| && arr[i] == p[0]
  {
    assert p[0] in p;
    i :| 0 <= i < |arr| && arr[i] == p[0];
  }

  /** pickPermutations yields exactly the ordered choices of n different items. */
  lemma {:induction false} PicksAreChoices<T(!new)>(arr: seq<T>, n: nat)
    requires Distinct(arr)
    ensures forall p :: p in Picks(arr, n) <==> Choice(p, arr, n)
    decreases n, 1, 0
  {
    hide Choice;
    if n == 0 {
      forall p: seq<T> ensures p in [[]] <==> Choice(p, arr, 0) {
        EmptyChoice(p, arr);
      }
    } else {
      PicksToAreChoices(arr, n, |arr|);
      forall p ensures p in Picks(arr, n) <==> Choice(p, arr, n) {
        if Choice(p, arr, n) {
          var i := HeadIndex(p, arr, n);
          ChoiceSize(p, arr, n);
        }
      }
    }
  }

  lemma ChoiceSize<T(!new)>(p: seq<T>, arr: seq<T>, n: nat)
    requires Choice(p, arr, n)
    ensures |p| == n
  {
  }

  lemma EmptyChoice<T(!new)>(p: seq<T>, arr: seq<T>)
    ensures Choice(p, arr, 0) <==> p == []
  {
  }

  lemma {:induction false} PicksToAreChoices<T(!new)>(arr: seq<T>, n: nat, k: nat)
    requires Distinct(arr) && n > 0 && k <= |arr|
    ensures forall p :: p in PicksTo(arr, n, k)
              <==> Choice(p, arr, n) && |p| == n && exists i :: 0 <= i < k && arr[i] == p[0]
    decreases n, 0, k
  {
    hide Choice, WithoutAt, Distinct;
    if k > 0 {
      var rest := WithoutAt(arr, k - 1);
      WithoutFacts(arr, k - 1);
      PicksToAreChoices(arr, n, k - 1);
      PicksAreChoices(rest, n - 1);
      var tails := Picks(rest, n - 1);
      forall p ensures p in Prefixed(arr[k - 1], tails) <==> |p| == n && p[0] == arr[k - 1] && Choice(p, arr, n) {
        InPrefixed(arr[k - 1], tails, p);
        if |p| == n && p[0] == arr[k - 1] {
          ChoiceCons(p, arr, n, k - 1);
        } else if p in Prefixed(arr[k - 1], tails) {
          ChoiceSize(p[1..], rest, n - 1);
        }
      }
    }
  }

  lemma InPrefixed<T(!new)>(x: T, tails: seq<seq<T>>, p: seq<T>)
    ensures p in Prefixed(x, tails) <==> |p| > 0 && p[0] == x && p[1..] in tails
  {
    if |p| > 0 && p[0] == x && p[1..] in tails {
      var k :| 0 <= k < |tails| && tails[k] == p[1..];
      assert Prefixed(x, tails)[k] == p;
    }
    if p in Prefixed(x, tails) {
      var k :| 0 <= k < |tails| && Prefixed(x, tails)[k] == p;
      assert p[1..] == tails[k];
    }
  }

  lemma DistinctConcat<T(!new)>(a: seq<T>, b: seq<T>)
    requires Distinct(a) && Distinct(b) && forall x :: x in a ==> x !in b
    ensures Distinct(a + b)
  {
    forall i, j | 0 <= i < j < |a + b| ensures (a + b)[i] != (a + b)[j] {
      if i < |a| <= j {
        assert a[i] in a && b[j - |a|] in b;
      }
    }
  }

  lemma PrefixedDistinct<T(!new)>(x: T, tails: seq<seq<T>>)
    requires Distinct(tails)
    ensures Distinct(Prefixed(x, tails))
  {
    var r := Prefixed(x, tails);
    forall i, j | 0 <= i < j < |r| ensures r[i] != r[j] {
      assert r[i][1..] == tails[i] && r[j][1..] == tails[j];
    }
  }

  /** And none of them twice. */
  lemma {:induction false} PicksOnceEach<T(!new)>(arr: seq<T>, n: nat)
    requires Distinct(arr)
    ensures Distinct(Picks(arr, n))
    decreases n, 1, 0
  {
    if n > 0 {
      PicksToOnceEach(arr, n, |arr|);
    }
  }

  lemma {:induction false} PicksToOnceEach<T(!new)>(arr: seq<T>, n: nat, k: nat)
    requires Distinct(arr) && n > 0 && k <= |arr|
    ensures Distinct(PicksTo(arr, n, k))
    decreases n, 0, k
  {
    hide WithoutAt, Distinct, Picks;
    if k == 0 {
      NothingTwice<seq<T>>();
    } else {
      var rest := WithoutAt(arr, k - 1);
      WithoutFacts(arr, k - 1);
      PicksToOnceEach(arr, n, k - 1);
      PicksOnceEach(rest, n - 1);
      PrefixedDistinct(arr[k - 1], Picks(rest, n - 1));
      EarlierHeads(arr, n, k - 1);
      DistinctConcat(PicksTo(arr, n, k - 1), Prefixed(arr[k - 1], Picks(rest, n - 1)));
    }
  }

  lemma NothingTwice<T(!new)>()
    ensures Distinct<T>([])
  {
  }

  /** A choice that starts with an earlier item does not start with the k-th. */
  lemma EarlierHeads<T(!new)>(arr: seq<T>, n: nat, k: nat)
    requires Distinct(arr) && n > 0 && k < |arr|
    ensures forall p :: p in PicksTo(arr, n, k) ==> p !in Prefixed(arr[k], Picks(WithoutAt(arr, k), n - 1))
  {
    hide Choice, WithoutAt, Picks, PicksTo;
    var tails := Picks(WithoutAt(arr, k), n - 1);
    PicksToAreChoices(arr, n, k);
    forall p | p in PicksTo(arr, n, k) ensures p !in Prefixed(arr[k], tails) {
      InPrefixed(arr[k], tails, p);
    }
  }

  // ----- Choosing the best -----

  /** Total fitness of giving player i the type perm[i]. */
  function Score(players: seq<PlayerFitness>, perm: seq<Animal>): real
    requires |players| == |perm|
  {
    if players == [] then 0.0
    else
      var k := |players| - 1;
      Score(players[..k], perm[..k]) + players[k].fitness.At(perm[k])
  }

  /** Distinct types, one for each player. */
  ghost predicate Assignment(players: seq<PlayerFitness>, perm: seq<Animal>) {
    |perm| == |players| && Distinct(perm)
  }

  ghost predicate Optimal(players: seq<PlayerFitness>, perm: seq<Animal>) {
    && Assignment(players, perm)
    && forall q :: Assignment(players, q) ==> Score(players, q) <= Score(players, perm)
  }

  lemma EveryTypeListed()
    ensures Distinct(ANIMAL_TYPES) && forall a: Animal :: a in ANIMAL_TYPES
  {
    forall a: Animal ensures a in ANIMAL_TYPES {
      match a {
        case Mouse => assert ANIMAL_TYPES[0] == a;
        case Lion => assert ANIMAL_TYPES[1] == a;
        case Jackal => assert ANIMAL_TYPES[2] == a;
        case Elephant => assert ANIMAL_TYPES[3] == a;
        case Eagle => assert ANIMAL_TYPES[4] == a;
      }
    }
  }

  lemma ChoicesAreAssignments(players: seq<PlayerFitness>, p: seq<Animal>)
    ensures Choice(p, ANIMAL_TYPES, |players|) <==> Assignment(players, p)
  {
    EveryTypeListed();
  }

  /** With at most five players there is something to choose from. */
  lemma SomeAssignment(players: seq<PlayerFitness>)
    requires |players| <= 5
    ensures Picks(ANIMAL_TYPES, |players|) != []
  {
    EveryTypeListed();
    PicksAreChoices(ANIMAL_TYPES, |players|);
    var p := ANIMAL_TYPES[..|players|];
    assert Distinct(p);
    ChoicesAreAssignments(players, p);
  }

  /** The loop of assignUnique. The result is an optimal assignment, and of the optimal ones
      the first in the order of enumeration. */
  method AssignUnique(players: seq<PlayerFitness>) returns (best: seq<Animal>)
    requires |players| <= 5
    ensures Optimal(players, best)
    ensures exists k :: 0 <= k < |Picks(ANIMAL_TYPES, |players|)| && FirstBest(players, k) == Some(best)
  {
    hide Picks, Score, Choice, Assignment;
    var perms := PickPermutations(ANIMAL_TYPES, |players|);
    EveryTypeListed();
    PicksAreChoices(ANIMAL_TYPES, |players|);
    SomeAssignment(players);
    var bestScore: Option<real> := None;
    best := [];
    ghost var at := 0;
    for k := 0 to |perms|
      invariant bestScore.None? <==> k == 0
      invariant k > 0 ==> at < k && perms[at] == best
      invariant k > 0 ==> |best| == |players| && bestScore == Some(Score(players, best))
      invariant forall j :: 0 <= j < k ==> |perms[j]| == |players| && Score(players, perms[j]) <= bestScore.value
      invariant k > 0 ==> forall j :: 0 <= j < at ==> Score(players, perms[j]) < bestScore.value
    {
      var perm := perms[k];
      ChoiceSize(perm, ANIMAL_TYPES, |players|);
      var total := Total(players, perm);
      if bestScore.None? || total > bestScore.value {
        bestScore, best, at := Some(total), perm, k;
      }
    }
    OptimalAmongPicks(players, best);
    FirstBestIs(players, at);
  }

  method Total(players: seq<PlayerFitness>, perm: seq<Animal>) returns (total: real)
    requires |players| == |perm|
    ensures total == Score(players, perm)
  {
    total := 0.0;
    for i := 0 to |players|
      invariant total == Score(players[..i], perm[..i])
    {
      assert players[..i + 1][..i] == players[..i] && perm[..i + 1][..i] == perm[..i];
      total := total + players[i].fitness.At(perm[i]);
    }
    assert players[..|players|] == players && perm[..|players|] == perm;
  }

  /** The k-th choice, if none before it scores as high and none after it scores higher. */
  ghost function FirstBest(players: seq<PlayerFitness>, k: nat): Option<seq<Animal>> {
    var perms := Picks(ANIMAL_TYPES, |players|);
    if k < |perms| && (forall j :: 0 <= j < |perms| ==> |perms[j]| == |players|)
       && (forall j :: 0 <= j < |perms| ==> Score(players, perms[j]) <= Score(players, perms[k]))
       && (forall j :: 0 <= j < k ==> Score(players, perms[j]) < Score(players, perms[k]))
    then Some(perms[k]) else None
  }

  lemma FirstBestIs(players: seq<PlayerFitness>, k: nat)
    requires var perms := Picks(ANIMAL_TYPES, |players|);
             && k < |perms| && (forall j :: 0 <= j < |perms| ==> |perms[j]| == |players|)
             && (forall j :: 0 <= j < |perms| ==> Score(players, perms[j]) <= Score(players, perms[k]))
             && (forall j :: 0 <= j < k ==> Score(players, perms[j]) < Score(players, perms[k]))
    ensures FirstBest(players, k) == Some(Picks(ANIMAL_TYPES, |players|)[k])
  {
    hide Picks, Score;
  }

  lemma OptimalAmongPicks(players: seq<PlayerFitness>, best: seq<Animal>)
    requires |best| == |players| && best in Picks(ANIMAL_TYPES, |players|)
    requires forall p :: p in Picks(ANIMAL_TYPES, |players|) && |p| == |players| ==>
               Score(players, p) <= Score(players, best)
    ensures Optimal(players, best)
  {
    hide Picks, Score, Choice;
    EveryTypeListed();
    PicksAreChoices(ANIMAL_TYPES, |players|);
    ChoicesAreAssignments(players, best);
    forall q | Assignment(players, q) ensures Score(players, q) <= Score(players, best) {
      ChoicesAreAssignments(players, q);
    }
  }

  // ----- Pins and forbids -----

  predicate Pinned(p: PlayerFitness, c: Constraints) { p.ghostId in c.pin }

  /** The type a player must not get; a pin takes precedence. */
  predicate Denied(p: PlayerFitness, c: Constraints, a: Animal) {
    p.ghostId !in c.pin && p.ghostId in c.forbid && c.forbid[p.ghostId] == a
  }

  function Adjusted(p: PlayerFitness, c: Constraints): PlayerFitness {
    if p.ghostId in c.pin then
      p.(fitness := Fitness(0.0, 0.0, 0.0, 0.0, 0.0).With(c.pin[p.ghostId], 100.0))
    else if p.ghostId in c.forbid then p.(fitness := p.fitness.With(c.forbid[p.ghostId], -1.0))
    else p
  }

  function AdjustedAll(players: seq<PlayerFitness>, c: Constraints): (r: seq<PlayerFitness>)
    ensures |r| == |players| && forall i :: 0 <= i < |r| ==> r[i] == Adjusted(players[i], c)
  {
    seq(|players|, i requires 0 <= i < |players| => Adjusted(players[i], c))
  }

  lemma {:induction false} ScoreUpdate(players: seq<PlayerFitness>, perm: seq<Animal>, i: nat, a: Animal)
    requires |players| == |perm| && i < |perm|
    ensures Score(players, perm[i := a])
         == Score(players, perm) - players[i].fitness.At(perm[i]) + players[i].fitness.At(a)
  {
    hide Fitness.At;
    var k := |players| - 1;
    if i == k {
      assert perm[i := a][..k] == perm[..k];
    } else {
      ScoreUpdate(players[..k], perm[..k], i, a);
      assert perm[i := a][..k] == perm[..k][i := a];
    }
  }

  /** In an optimal assignment nobody would rather have an unused type. */
  lemma NoBetterUnused(players: seq<PlayerFitness>, best: seq<Animal>, i: nat, a: Animal)
    requires Optimal(players, best) && i < |players| && a !in best
    ensures players[i].fitness.At(a) <= players[i].fitness.At(best[i])
  {
    hide Score, Fitness.At;
    ScoreUpdate(players, best, i, a);
    var q := best[i := a];
    assert Assignment(players, q);
  }

  /** And no two players would rather swap. */
  lemma NoBetterSwap(players: seq<PlayerFitness>, best: seq<Animal>, i: nat, j: nat)
    requires Optimal(players, best) && i < |players| && j < |players| && i != j
    ensures players[i].fitness.At(best[j]) + players[j].fitness.At(best[i])
         <= players[i].fitness.At(best[i]) + players[j].fitness.At(best[j])
  {
    hide Score, Fitness.At;
    ScoreUpdate(players, best, i, best[j]);
    ScoreUpdate(players, best[i := best[j]], j, best[i]);
    var q := best[i := best[j]][j := best[i]];
    assert Assignment(players, q) by {
      forall x, y | 0 <= x < y < |q| ensures q[x] != q[y] {
        assert q[x] == best[if x == i then j else if x == j then i else x];
        assert q[y] == best[if y == i then j else if y == j then i else y];
      }
    }
  }

  /** No unpinned player's adjusted ratings are so far apart that they outweigh a pin. */
  ghost predicate PinsOutweigh(players: seq<PlayerFitness>, c: Constraints) {
    forall i, a: Animal, b: Animal :: 0 <= i < |players| && !Pinned(players[i], c) ==>
      Adjusted(players[i], c).fitness.At(a) - Adjusted(players[i], c).fitness.At(b) < 100.0
  }

  /** Who is denied a type likes every other type better, and by more than any unpinned player who
      is not denied it. */
  ghost predicate DenialsOutweigh(players: seq<PlayerFitness>, c: Constraints) {
    forall i, j, t: Animal, b: Animal ::
      0 <= i < |players| && 0 <= j < |players| && Denied(players[i], c, t) && b != t ==>
        && Adjusted(players[i], c).fitness.At(t) < Adjusted(players[i], c).fitness.At(b)
        && (!Pinned(players[j], c) && !Denied(players[j], c, t) ==>
              Adjusted(players[j], c).fitness.At(b) - Adjusted(players[j], c).fitness.At(t)
              < Adjusted(players[i], c).fitness.At(b) - Adjusted(players[i], c).fitness.At(t))
  }

  ghost predicate PinsDiffer(players: seq<PlayerFitness>, c: Constraints) {
    forall i, j :: 0 <= i < j < |players| && Pinned(players[i], c) && Pinned(players[j], c) ==>
      c.pin[players[i].ghostId] != c.pin[players[j].ghostId]
  }

  ghost predicate PinsHonoured(players: seq<PlayerFitness>, c: Constraints, best: seq<Animal>)
    requires |best| == |players|
  {
    forall i :: 0 <= i < |players| && Pinned(players[i], c) ==> best[i] == c.pin[players[i].ghostId]
  }

  /** What adjusting makes of a pinned or denied rating, and of the others. */
  lemma AdjustedRating(p: PlayerFitness, c: Constraints, a: Animal)
    ensures var x := Adjusted(p, c).fitness.At(a);
            if Pinned(p, c) then x == if c.pin[p.ghostId] == a then 100.0 else 0.0
            else if Denied(p, c, a) then x == -1.0
            else x == p.fitness.At(a)
  {
  }

  /** Ratings above zero and at most one, as the sliders give them, keep every order of weight. */
  lemma SliderRatingsAreMild(players: seq<PlayerFitness>, c: Constraints)
    requires forall i, a: Animal :: 0 <= i < |players| ==> 0.0 < players[i].fitness.At(a) <= 1.0
    ensures PinsOutweigh(players, c) && DenialsOutweigh(players, c) && PinsOutrank(players, c)
  {
    hide Adjusted, Fitness.At;
    forall i, a: Animal | 0 <= i < |players|
      ensures var x := Adjusted(players[i], c).fitness.At(a);
              !Pinned(players[i], c) ==> if Denied(players[i], c, a) then x == -1.0 else 0.0 < x <= 1.0
    {
      AdjustedRating(players[i], c, a);
    }
    forall i, t: Animal, b: Animal | 0 <= i < |players| && Denied(players[i], c, t) && b != t
      ensures !Denied(players[i], c, b)
    {
    }
  }

  /** A pin nobody else asks for is honoured. */
  lemma PinIsHonoured(players: seq<PlayerFitness>, c: Constraints, best: seq<Animal>, i: nat)
    requires PinsOutweigh(players, c) && PinsDiffer(players, c) && Optimal(AdjustedAll(players, c), best)
    requires i < |players| && Pinned(players[i], c)
    ensures |best| == |players| && best[i] == c.pin[players[i].ghostId]
  {
    hide Score, Fitness.At, Optimal, Adjusted, Denied;
    var adjusted, t := AdjustedAll(players, c), c.pin[players[i].ghostId];
    OptimalSize(adjusted, best);
    AdjustedRating(players[i], c, t);
    AdjustedRating(players[i], c, best[i]);
    if best[i] != t {
      if t in best {
        var j :| 0 <= j < |best| && best[j] == t;
        NoBetterSwap(adjusted, best, i, j);
        AdjustedRating(players[j], c, t);
        AdjustedRating(players[j], c, best[i]);
      } else {
        NoBetterUnused(adjusted, best, i, t);
      }
    }
  }

  /** All pins are honoured exactly when they ask for different types. */
  lemma PinsAreHonoured(players: seq<PlayerFitness>, c: Constraints, best: seq<Animal>)
    requires PinsOutweigh(players, c) && Optimal(AdjustedAll(players, c), best)
    ensures |best| == |players| && (PinsHonoured(players, c, best) <==> PinsDiffer(players, c))
  {
    hide Optimal, AdjustedAll, PinsOutweigh;
    OptimalSize(AdjustedAll(players, c), best);
    if PinsDiffer(players, c) {
      forall i | 0 <= i < |players| && Pinned(players[i], c) ensures best[i] == c.pin[players[i].ghostId] {
        PinIsHonoured(players, c, best, i);
      }
    }
  }

  /** A concrete pin that is outweighed: a rating of 200 beside it takes the type away. */
  lemma OutweighedPin(best: seq<Animal>)
    requires var players := [PlayerFitness("ann", Fitness(0.0, 0.0, 0.0, 0.0, 0.0)),
                             PlayerFitness("bob", Fitness(0.0, 200.0, 0.0, 0.0, 0.0))];
             Optimal(AdjustedAll(players, Constraints(map["ann" := Lion], map[])), best)
    ensures |best| == 2 && best[0] != Lion
  {
    var players := [PlayerFitness("ann", Fitness(0.0, 0.0, 0.0, 0.0, 0.0)),
                    PlayerFitness("bob", Fitness(0.0, 200.0, 0.0, 0.0, 0.0))];
    var c := Constraints(map["ann" := Lion], map[]);
    var adjusted := AdjustedAll(players, c);
    hide Optimal;
    OptimalSize(adjusted, best);
    if best[0] == Lion {
      assert best[1] != Lion;
      NoBetterSwap(adjusted, best, 0, 1);
    }
  }

  lemma OptimalSize(players: seq<PlayerFitness>, best: seq<Animal>)
    requires Optimal(players, best)
    ensures |best| == |players| && Distinct(best)
  {
  }

  lemma AreAll(xs: seq<Animal>, all: set<Animal>)
    requires Distinct(xs) && forall a: Animal :: a in all
    ensures |xs| == |all| <==> forall a: Animal :: a in xs
    ensures |xs| <= |all|
  {
    DistinctSetSize(xs);
    var used := set x | x in xs;
    Subsets(used, all);
    if forall a: Animal :: a in xs {
      assert all == used;
    }
    if |xs| == |all| {
      forall a: Animal ensures a in xs {
        assert a in all && a in used;
      }
    }
  }

  /** Five distinct types are all the types, and no fewer are. */
  lemma FiveAreAll(xs: seq<Animal>)
    requires Distinct(xs)
    ensures |xs| == 5 <==> forall a: Animal :: a in xs
    ensures |xs| <= 5
  {
    AllTypes();
    AreAll(xs, EVERY_TYPE);
  }

  const EVERY_TYPE: set<Animal> := {Mouse, Lion, Jackal, Elephant, Eagle}

  lemma AllTypes()
    ensures |EVERY_TYPE| == 5 && forall a: Animal :: a in EVERY_TYPE
  {
    forall a: Animal ensures a in EVERY_TYPE {
      match a {
        case Mouse =>
        case Lion =>
        case Jackal =>
        case Elephant =>
        case Eagle =>
      }
    }
  }

  lemma Subsets(a: set<Animal>, b: set<Animal>)
    requires a <= b
    ensures |a| <= |b| && (|a| == |b| ==> a == b)
  {
    assert b == a + (b - a);
  }

  /** Nobody in the way: a type every unpinned player denies, and no pin asks for. */
  ghost predicate EveryoneDenies(players: seq<PlayerFitness>, c: Constraints, t: Animal) {
    forall i :: 0 <= i < |players| ==>
      if Pinned(players[i], c) then c.pin[players[i].ghostId] != t else Denied(players[i], c, t)
  }

  /** A player gets the type it is denied exactly when that cannot be helped: five players, no two
      pinned to one type and none to this one, and every unpinned one denied it. */
  lemma DeniedOnlyWhenForced(players: seq<PlayerFitness>, c: Constraints, best: seq<Animal>, t: Animal)
    requires PinsOutweigh(players, c) && DenialsOutweigh(players, c) && Optimal(AdjustedAll(players, c), best)
    ensures (exists i :: 0 <= i < |players| && |best| == |players| && Denied(players[i], c, t) && best[i] == t)
       <==> |players| == 5 && PinsDiffer(players, c) && EveryoneDenies(players, c, t)
  {
    hide Optimal, AdjustedAll, PinsOutweigh, DenialsOutweigh, PinsDiffer;
    OptimalSize(AdjustedAll(players, c), best);
    FiveAreAll(best);
    PinsAreHonoured(players, c, best);
    if i :| 0 <= i < |players| && Denied(players[i], c, t) && best[i] == t {
      EverythingUsed(players, c, best, i, t);
      forall j | 0 <= j < |players|
        ensures if Pinned(players[j], c) then c.pin[players[j].ghostId] == best[j] != t else Denied(players[j], c, t)
      {
        EveryoneElseDenies(players, c, best, i, j, t);
      }
    }
    if |players| == 5 && PinsDiffer(players, c) && EveryoneDenies(players, c, t) {
      assert t in best;
      var i :| 0 <= i < |best| && best[i] == t;
      assert Denied(players[i], c, t);
    }
  }

  lemma EverythingUsed(players: seq<PlayerFitness>, c: Constraints, best: seq<Animal>, i: nat, t: Animal)
    requires DenialsOutweigh(players, c) && Optimal(AdjustedAll(players, c), best) && i < |players|
    requires |best| == |players| && Denied(players[i], c, t) && best[i] == t
    ensures forall a: Animal :: a in best
  {
    hide Optimal, Adjusted, Fitness.At, Denied;
    forall a: Animal ensures a in best {
      if a !in best {
        NoBetterUnused(AdjustedAll(players, c), best, i, a);
      }
    }
  }

  /** While somebody has the type it is denied, every pin is honoured and everybody else is denied
      the type as well: otherwise the two would swap. */
  lemma EveryoneElseDenies(players: seq<PlayerFitness>, c: Constraints, best: seq<Animal>, i: nat, j: nat, t: Animal)
    requires DenialsOutweigh(players, c) && Optimal(AdjustedAll(players, c), best) && i < |players| && j < |players|
    requires |best| == |players| && Distinct(best) && Denied(players[i], c, t) && best[i] == t
    ensures if Pinned(players[j], c) then c.pin[players[j].ghostId] == best[j] != t else Denied(players[j], c, t)
  {
    hide Optimal, Adjusted, Fitness.At;
    if i != j {
      NoBetterSwap(AdjustedAll(players, c), best, i, j);
      AdjustedRating(players[j], c, t);
      AdjustedRating(players[j], c, best[j]);
    }
  }

  // ----- The whole assignment -----

  ghost predicate DistinctGhosts(players: seq<PlayerFitness>) {
    forall i, j :: 0 <= i < j < |players| ==> players[i].ghostId != players[j].ghostId
  }

  function RealMax(a: real, b: real): real { if a >= b then a else b }

  function Highest(f: Fitness): real {
    RealMax(RealMax(RealMax(RealMax(f.mouse, f.lion), f.jackal), f.elephant), f.eagle)
  }

  function InsertPlayer(ps: seq<PlayerFitness>, p: PlayerFitness): seq<PlayerFitness> {
    if ps == [] then [p]
    else if Highest(ps[|ps| - 1].fitness) >= Highest(p.fitness) then ps + [p]
    else InsertPlayer(ps[..|ps| - 1], p) + [ps[|ps| - 1]]
  }

  /** The players with the strongest preference first; equal ones keep their order. */
  function ByPreference(ps: seq<PlayerFitness>): seq<PlayerFitness> {
    if ps == [] then [] else InsertPlayer(ByPreference(ps[..|ps| - 1]), ps[|ps| - 1])
  }

  lemma {:induction false} InsertedMultiset(ps: seq<PlayerFitness>, p: PlayerFitness)
    ensures multiset(InsertPlayer(ps, p)) == multiset(ps) + multiset{p}
  {
    if ps != [] && Highest(ps[|ps| - 1].fitness) < Highest(p.fitness) {
      InsertedMultiset(ps[..|ps| - 1], p);
      MultisetSnoc(ps);
    }
  }

  lemma {:induction false} SortedMultiset(ps: seq<PlayerFitness>)
    ensures multiset(ByPreference(ps)) == multiset(ps)
  {
    if ps != [] {
      SortedMultiset(ps[..|ps| - 1]);
      InsertedMultiset(ByPreference(ps[..|ps| - 1]), ps[|ps| - 1]);
      MultisetSnoc(ps);
    }
  }

  /** The same players, so each ghost still once. */
  lemma SortedGhosts(ps: seq<PlayerFitness>)
    requires DistinctGhosts(ps)
    ensures DistinctGhosts(ByPreference(ps)) && |ByPreference(ps)| == |ps|
    ensures forall p :: p in ByPreference(ps) <==> p in ps
  {
    hide ByPreference;
    SortedMultiset(ps);
    var qs := ByPreference(ps);
    SameMultisetSameLength(qs, ps);
    assert Distinct(ps);
    Rearranged(qs, ps);
    forall i, j | 0 <= i < j < |qs| ensures qs[i].ghostId != qs[j].ghostId {
      assert qs[i] in ps && qs[j] in ps;
    }
  }

  /** No stronger preference stands behind a weaker one. */
  ghost predicate StrongestFirst(ps: seq<PlayerFitness>) {
    forall i, j :: 0 <= i < j < |ps| ==> Highest(ps[j].fitness) <= Highest(ps[i].fitness)
  }

  lemma {:induction false} InsertKeepsOrder(ps: seq<PlayerFitness>, p: PlayerFitness)
    requires StrongestFirst(ps)
    ensures StrongestFirst(InsertPlayer(ps, p))
  {
    hide Highest;
    if ps != [] && Highest(ps[|ps| - 1].fitness) < Highest(p.fitness) {
      var init := ps[..|ps| - 1];
      InsertKeepsOrder(init, p);
      InsertedMultiset(init, p);
      var front := InsertPlayer(init, p);
      forall i | 0 <= i < |front| ensures Highest(ps[|ps| - 1].fitness) <= Highest(front[i].fitness) {
        assert front[i] in multiset(init) + multiset{p};
        assert front[i] == p || front[i] in init;
      }
    }
  }

  lemma {:induction false} SortedIsOrdered(ps: seq<PlayerFitness>)
    ensures StrongestFirst(ByPreference(ps))
  {
    hide Highest;
    if ps != [] {
      SortedIsOrdered(ps[..|ps| - 1]);
      InsertKeepsOrder(ByPreference(ps[..|ps| - 1]), ps[|ps| - 1]);
    }
  }

  /** The players of one strength of preference, in their order. */
  function Equals(ps: seq<PlayerFitness>, h: real): seq<PlayerFitness> {
    if ps == [] then []
    else
      var p := ps[|ps| - 1];
      Equals(ps[..|ps| - 1], h) + if Highest(p.fitness) == h then [p] else []
  }

  lemma {:induction false} InsertIsStable(ps: seq<PlayerFitness>, p: PlayerFitness, h: real)
    ensures Equals(InsertPlayer(ps, p), h) == Equals(ps + [p], h)
  {
    hide Highest;
    assert (ps + [p])[..|ps|] == ps;
    if ps != [] && Highest(ps[|ps| - 1].fitness) < Highest(p.fitness) {
      var init, last := ps[..|ps| - 1], ps[|ps| - 1];
      InsertIsStable(init, p, h);
      assert (init + [p])[..|init|] == init;
      var front := InsertPlayer(init, p);
      assert (front + [last])[..|front|] == front;
    }
  }

  /** Players of equal preference are served in the order they are given. */
  lemma {:induction false} SortIsStable(ps: seq<PlayerFitness>, h: real)
    ensures Equals(ByPreference(ps), h) == Equals(ps, h)
  {
    hide Highest, InsertPlayer;
    if ps != [] {
      var init, p := ps[..|ps| - 1], ps[|ps| - 1];
      SortIsStable(init, h);
      InsertIsStable(ByPreference(init), p, h);
      assert (ByPreference(init) + [p])[..|ByPreference(init)|] == ByPreference(init);
    }
  }

  /** The first of these types the player rates highest. */
  function TopType(f: Fitness, types: seq<Animal>): (a: Animal)
    requires types != []
    ensures a in types
  {
    var k := |types| - 1;
    if k == 0 then types[0]
    else
      var best := TopType(f, types[..k]);
      if f.At(types[k]) > f.At(best) then types[k] else best
  }

  method Favourite(f: Fitness, types: seq<Animal>) returns (chosen: Animal)
    requires types != []
    ensures chosen == TopType(f, types)
  {
    hide Fitness.At;
    chosen := types[0];
    for k := 1 to |types|
      invariant chosen == TopType(f, types[..k])
    {
      assert types[..k + 1][..k] == types[..k];
      if f.At(types[k]) > f.At(chosen) {
        chosen := types[k];
      }
    }
    assert types[..|types|] == types;
  }

  function Without(types: seq<Animal>, a: Animal): (r: seq<Animal>)
    ensures forall b :: b in r <==> b in types && b != a
  {
    if types == [] then []
    else
      var k := |types| - 1;
      Without(types[..k], a) + if types[k] == a then [] else [types[k]]
  }

  /** The types nobody served so far has taken. */
  function Remaining(served: seq<PlayerFitness>): seq<Animal>
    decreases |served|, 0
  {
    if served == [] then ANIMAL_TYPES
    else
      var k := |served| - 1;
      Without(Remaining(served[..k]), Pick(served[..k], served[k]))
  }

  /** What the next player takes: its favourite of those, or of all once they have run out. */
  function Pick(served: seq<PlayerFitness>, p: PlayerFitness): Animal
    decreases |served|, 1
  {
    var left := Remaining(served);
    if left != [] then TopType(p.fitness, left) else TopType(p.fitness, ANIMAL_TYPES)
  }

  /** Everybody, in order of preference, has taken its pick. */
  ghost predicate Greedy(players: seq<PlayerFitness>, result: map<string, Animal>) {
    var sorted := ByPreference(players);
    forall k :: 0 <= k < |sorted| ==>
      sorted[k].ghostId in result && result[sorted[k].ghostId] == Pick(sorted[..k], sorted[k])
  }

  /** A type's place in the source's list. */
  function Place(a: Animal): nat {
    match a
    case Mouse => 0
    case Lion => 1
    case Jackal => 2
    case Elephant => 3
    case Eagle => 4
  }

  ghost predicate InOrder(types: seq<Animal>) {
    forall i, j :: 0 <= i < j < |types| ==> Place(types[i]) < Place(types[j])
  }

  lemma {:induction false} TopTypeMeans(f: Fitness, types: seq<Animal>, a: Animal)
    requires InOrder(types) && a in types
    ensures var best := TopType(f, types);
            f.At(a) <= f.At(best) && (Place(a) < Place(best) ==> f.At(a) < f.At(best))
  {
    hide Fitness.At, Place, InOrder;
    var k := |types| - 1;
    OrderParts(types);
    if k > 0 {
      var init := types[..k];
      TopTypeMeans(f, init, TopType(f, init));
      assert a in init || a == types[k];
      if a in init {
        TopTypeMeans(f, init, a);
      }
    }
  }

  lemma OrderParts(types: seq<Animal>)
    requires InOrder(types) && types != []
    ensures var k := |types| - 1;
            && types == types[..k] + [types[k]] && InOrder(types[..k])
            && (forall b :: b in types[..k] ==> Place(b) < Place(types[k])) && types[k] !in types[..k]
  {
    hide Place;
    var k := |types| - 1;
    forall b | b in types[..k] ensures Place(b) < Place(types[k]) {
      var i :| 0 <= i < k && types[i] == b;
    }
  }

  lemma OrderSnoc(types: seq<Animal>, a: Animal)
    requires InOrder(types) && forall b :: b in types ==> Place(b) < Place(a)
    ensures InOrder(types + [a])
  {
    hide Place;
  }

  lemma {:induction false} WithoutKeepsOrder(types: seq<Animal>, a: Animal)
    requires InOrder(types)
    ensures InOrder(Without(types, a))
    ensures |Without(types, a)| == |types| - if a in types then 1 else 0
  {
    hide Place, InOrder;
    if types != [] {
      var k := |types| - 1;
      OrderParts(types);
      WithoutKeepsOrder(types[..k], a);
      OrderSnoc(Without(types[..k], a), types[k]);
      assert a in types <==> a in types[..k] || a == types[k];
      assert types[k] == a ==> Without(types, a) == Without(types[..k], a);
    }
  }

  lemma ServeOne(served: seq<PlayerFitness>)
    requires served != []
    ensures var k := |served| - 1;
            var left, pick := Remaining(served[..k]), Pick(served[..k], served[k]);
            Remaining(served) == Without(left, pick) && (left != [] ==> pick in left)
  {
    hide TopType, Without;
  }

  /** The types left over are those nobody served has picked, in the source's order. */
  lemma {:induction false} RemainingMeans(served: seq<PlayerFitness>)
    ensures InOrder(Remaining(served)) && |Remaining(served)| == Max(5 - |served|, 0)
    ensures forall a: Animal :: a in Remaining(served) <==>
              forall j :: 0 <= j < |served| ==> Pick(served[..j], served[j]) != a
    decreases |served|
  {
    hide Place, Pick, Without, InOrder, Remaining;
    if served == [] {
      NobodyServed(served);
      EveryTypeListed();
      ListedInOrder();
    } else {
      var k := |served| - 1;
      RemainingMeans(served[..k]);
      ServeOne(served);
      WithoutKeepsOrder(Remaining(served[..k]), Pick(served[..k], served[k]));
      assert forall j :: 0 <= j < k ==> served[..k][..j] == served[..j] && served[..k][j] == served[j];
    }
  }

  /** Five picks use up the types. */
  lemma EveryTypePicked(sorted: seq<PlayerFitness>, a: Animal) returns (j: nat)
    requires |sorted| >= 5
    ensures j < |sorted| && Pick(sorted[..j], sorted[j]) == a
  {
    hide Pick, Remaining;
    RemainingMeans(sorted);
    assert a !in Remaining(sorted);
    j :| 0 <= j < |sorted| && Pick(sorted[..j], sorted[j]) == a;
  }

  lemma ListedInOrder()
    ensures InOrder(ANIMAL_TYPES)
  {
  }

  /** The k-th player served rates its pick at least as high as every type nobody before it has
      taken, strictly higher than those listed earlier, and the first five picks all differ; from
      the sixth player on the same holds against all types. */
  lemma PickMeans(sorted: seq<PlayerFitness>, k: nat, a: Animal)
    requires k < |sorted|
    ensures k < 5 ==> forall j :: 0 <= j < k ==> Pick(sorted[..j], sorted[j]) != Pick(sorted[..k], sorted[k])
    ensures var f, mine := sorted[k].fitness, Pick(sorted[..k], sorted[k]);
            k >= 5 || (forall j :: 0 <= j < k ==> Pick(sorted[..j], sorted[j]) != a) ==>
              f.At(a) <= f.At(mine) && (Place(a) < Place(mine) ==> f.At(a) < f.At(mine))
  {
    hide TopType, Place, Fitness.At, Remaining;
    var served := sorted[..k];
    assert forall j :: 0 <= j < k ==> served[..j] == sorted[..j] && served[j] == sorted[j];
    RemainingMeans(served);
    EveryTypeListed();
    ListedInOrder();
    var left := Remaining(served);
    if left == [] {
      TopTypeMeans(sorted[k].fitness, ANIMAL_TYPES, a);
    } else if a in left {
      TopTypeMeans(sorted[k].fitness, left, a);
    }
  }

  // ----- Pins and forbids among more than five -----

  /** Every rating of an unpinned player is below a pin's. */
  ghost predicate PinsOutrank(players: seq<PlayerFitness>, c: Constraints) {
    forall i, a: Animal :: 0 <= i < |players| && !Pinned(players[i], c) ==> Adjusted(players[i], c).fitness.At(a) < 100.0
  }

  /** No two of the first five served are pinned to one type. */
  ghost predicate FirstPinsDiffer(sorted: seq<PlayerFitness>, c: Constraints) {
    forall i, j :: 0 <= i < j < |sorted| && j < 5 && Pinned(sorted[i], c) && Pinned(sorted[j], c) ==>
      c.pin[sorted[i].ghostId] != c.pin[sorted[j].ghostId]
  }

  lemma HighestIs(f: Fitness)
    ensures forall a: Animal :: f.At(a) <= Highest(f)
    ensures exists a: Animal :: f.At(a) == Highest(f)
  {
    forall a: Animal ensures f.At(a) <= Highest(f) {
      match a {
        case Mouse =>
        case Lion =>
        case Jackal =>
        case Elephant =>
        case Eagle =>
      }
    }
    assert Highest(f) == f.At(Mouse) || Highest(f) == f.At(Lion) || Highest(f) == f.At(Jackal)
        || Highest(f) == f.At(Elephant) || Highest(f) == f.At(Eagle);
  }

  /** A served player's ratings are the adjusted ones of some player. */
  lemma ServedRating(players: seq<PlayerFitness>, c: Constraints, k: nat, a: Animal)
    requires DistinctGhosts(players) && PinsOutrank(players, c)
    requires k < |ByPreference(AdjustedAll(players, c))|
    ensures var p := ByPreference(AdjustedAll(players, c))[k];
            if Pinned(p, c) then p.fitness.At(a) == if c.pin[p.ghostId] == a then 100.0 else 0.0
            else p.fitness.At(a) < 100.0 && (Denied(p, c, a) ==> p.fitness.At(a) == -1.0)
  {
    hide Adjusted, Fitness.At, ByPreference;
    var i := ServedIsAdjusted(players, c, k);
    SameConstraints(players[i], c);
    AdjustedRating(players[i], c, a);
  }

  lemma SameConstraints(p: PlayerFitness, c: Constraints)
    ensures Adjusted(p, c).ghostId == p.ghostId
  {
  }

  lemma ServedIsAdjusted(players: seq<PlayerFitness>, c: Constraints, k: nat) returns (i: nat)
    requires DistinctGhosts(players) && k < |ByPreference(AdjustedAll(players, c))|
    ensures i < |players| && ByPreference(AdjustedAll(players, c))[k] == Adjusted(players[i], c)
  {
    hide Adjusted, ByPreference;
    var adjusted := AdjustedAll(players, c);
    AdjustedGhosts(players, c);
    SortedGhosts(adjusted);
    assert ByPreference(adjusted)[k] in adjusted;
    i :| 0 <= i < |adjusted| && adjusted[i] == ByPreference(adjusted)[k];
  }

  /** Pinned players are served before everybody else. */
  lemma PinnedFirst(players: seq<PlayerFitness>, c: Constraints, j: nat, k: nat)
    requires DistinctGhosts(players) && PinsOutrank(players, c)
    requires j < k < |ByPreference(AdjustedAll(players, c))| && Pinned(ByPreference(AdjustedAll(players, c))[k], c)
    ensures Pinned(ByPreference(AdjustedAll(players, c))[j], c)
  {
    hide Fitness.At, Highest, ByPreference, PinsOutrank, AdjustedAll;
    var sorted := ByPreference(AdjustedAll(players, c));
    SortedIsOrdered(AdjustedAll(players, c));
    ServedRating(players, c, k, c.pin[sorted[k].ghostId]);
    HighestIs(sorted[k].fitness);
    HighestIs(sorted[j].fitness);
    var a: Animal :| sorted[j].fitness.At(a) == Highest(sorted[j].fitness);
    ServedRating(players, c, j, a);
  }

  /** A pinned player takes its type when its turn comes. */
  lemma {:induction false} PinIsTaken(players: seq<PlayerFitness>, c: Constraints, k: nat)
    requires DistinctGhosts(players) && PinsOutrank(players, c)
    requires var sorted := ByPreference(AdjustedAll(players, c));
             k < |sorted| && Pinned(sorted[k], c) && FirstPinsDiffer(sorted, c)
    ensures var sorted := ByPreference(AdjustedAll(players, c));
            Pick(sorted[..k], sorted[k]) == c.pin[sorted[k].ghostId]
    decreases k
  {
    hide Fitness.At, ByPreference, PinsOutrank, AdjustedAll, Pick, Place;
    var sorted := ByPreference(AdjustedAll(players, c));
    var t := c.pin[sorted[k].ghostId];
    forall j | 0 <= j < k && k < 5 ensures Pick(sorted[..j], sorted[j]) != t {
      PinnedFirst(players, c, j, k);
      PinIsTaken(players, c, j);
    }
    PickMeans(sorted, k, t);
    ServedRating(players, c, k, t);
    ServedRating(players, c, k, Pick(sorted[..k], sorted[k]));
  }

  /** Among more than five, where no other rating reaches 100, every pin is honoured exactly when
      the first five served are not pinned to the same type twice. */
  lemma GreedyPins(players: seq<PlayerFitness>, c: Constraints, result: map<string, Animal>)
    requires DistinctGhosts(players) && PinsOutrank(players, c) && Greedy(AdjustedAll(players, c), result)
    ensures (forall i :: 0 <= i < |players| && Pinned(players[i], c) ==>
               players[i].ghostId in result && result[players[i].ghostId] == c.pin[players[i].ghostId])
            <==> FirstPinsDiffer(ByPreference(AdjustedAll(players, c)), c)
  {
    hide ByPreference, PinsOutrank, Pick, Adjusted, Place;
    var sorted := ByPreference(AdjustedAll(players, c));
    if FirstPinsDiffer(sorted, c) {
      forall i | 0 <= i < |players| && Pinned(players[i], c)
        ensures players[i].ghostId in result && result[players[i].ghostId] == c.pin[players[i].ghostId]
      {
        var k := IsServed(players, c, i);
        PinIsTaken(players, c, k);
      }
    } else {
      var i, j :| 0 <= i < j < |sorted| && j < 5 && Pinned(sorted[i], c) && Pinned(sorted[j], c)
                  && c.pin[sorted[i].ghostId] == c.pin[sorted[j].ghostId];
      PickMeans(sorted, j, Mouse);
      var x := ServedIsAdjusted(players, c, i);
      var y := ServedIsAdjusted(players, c, j);
      SameConstraints(players[x], c);
      SameConstraints(players[y], c);
      assert result[sorted[i].ghostId] != result[sorted[j].ghostId];
    }
  }

  lemma IsServed(players: seq<PlayerFitness>, c: Constraints, i: nat) returns (k: nat)
    requires DistinctGhosts(players) && i < |players|
    ensures k < |ByPreference(AdjustedAll(players, c))|
    ensures ByPreference(AdjustedAll(players, c))[k].ghostId == players[i].ghostId
  {
    hide Adjusted, ByPreference;
    var adjusted := AdjustedAll(players, c);
    AdjustedGhosts(players, c);
    SortedGhosts(adjusted);
    SameConstraints(players[i], c);
    assert adjusted[i] in ByPreference(adjusted);
    k :| 0 <= k < |ByPreference(adjusted)| && ByPreference(adjusted)[k] == adjusted[i];
  }

  /** A player rating every other type above the one it is denied gets the denied one exactly when
      it is the fifth served and nobody before it took it. */
  lemma GreedyDenials(players: seq<PlayerFitness>, c: Constraints, k: nat, t: Animal)
    requires DistinctGhosts(players) && k < |ByPreference(AdjustedAll(players, c))|
    requires var p := ByPreference(AdjustedAll(players, c))[k];
             Denied(p, c, t) && forall b: Animal :: b != t ==> p.fitness.At(t) < p.fitness.At(b)
    ensures var sorted := ByPreference(AdjustedAll(players, c));
            Pick(sorted[..k], sorted[k]) == t
            <==> k == 4 && forall j :: 0 <= j < k ==> Pick(sorted[..j], sorted[j]) != t
  {
    hide ByPreference, Pick, Place, Fitness.At, AdjustedAll, Remaining;
    var sorted := ByPreference(AdjustedAll(players, c));
    DeniedPick(sorted, k, t);
  }

  lemma DeniedPick(sorted: seq<PlayerFitness>, k: nat, t: Animal)
    requires k < |sorted| && forall b: Animal :: b != t ==> sorted[k].fitness.At(t) < sorted[k].fitness.At(b)
    ensures Pick(sorted[..k], sorted[k]) == t
            <==> k == 4 && forall j :: 0 <= j < k ==> Pick(sorted[..j], sorted[j]) != t
  {
    hide Pick, Place, Fitness.At, Remaining, InOrder;
    var served := sorted[..k];
    assert forall j :: 0 <= j < k ==> served[..j] == sorted[..j] && served[j] == sorted[j];
    RemainingMeans(served);
    var left := Remaining(served);
    PickMeans(sorted, k, t);
    PickIsLeft(served, sorted[k]);
    var mine := Pick(served, sorted[k]);
    if k < 4 {
      var b := OtherThan(left, t);
      PickMeans(sorted, k, b);
      assert mine != t;
    } else if k == 4 {
      assert |left| == 1 && mine == left[0];
      assert t in left <==> forall j :: 0 <= j < k ==> Pick(served[..j], served[j]) != t;
    } else {
      var b := if t == Mouse then Lion else Mouse;
      PickMeans(sorted, k, b);
      assert sorted[k].fitness.At(t) < sorted[k].fitness.At(b);
    }
  }

  lemma PickIsLeft(served: seq<PlayerFitness>, p: PlayerFitness)
    ensures Remaining(served) != [] ==> Pick(served, p) in Remaining(served)
  {
    hide TopType, Remaining;
  }

  lemma OtherThan(types: seq<Animal>, t: Animal) returns (b: Animal)
    requires InOrder(types) && |types| >= 2
    ensures b in types && b != t
  {
    assert Place(types[0]) < Place(types[1]);
    b := if types[0] == t then types[1] else types[0];
  }

  /** assignWithReuse: in order of preference, each player takes its pick, so that with five players
      or more every type is on the table. */
  method AssignWithReuse(players: seq<PlayerFitness>) returns (result: map<string, Animal>)
    requires DistinctGhosts(players)
    ensures forall g :: g in result <==> exists p :: p in players && p.ghostId == g
    ensures Greedy(players, result)
    ensures |players| >= 5 ==> forall a: Animal :: a in result.Values
  {
    hide ByPreference, Fitness.At, TopType, Remaining, Without, InOrder, Pick, Served, Greedy, DistinctGhosts;
    var sorted := ByPreference(players);
    SortedGhosts(players);
    var remaining := ANIMAL_TYPES;
    assert remaining == Remaining(sorted[..0]) by { NobodyServed(sorted); }
    result := map[];
    assert Served(sorted, 0, result) by { StartServing(sorted); }
    for k := 0 to |sorted|
      invariant remaining == Remaining(sorted[..k])
      invariant Served(sorted, k, result)
    {
      var p := sorted[k];
      var chosen: Animal;
      ghost var left := remaining;
      if |remaining| > 0 {
        chosen := Favourite(p.fitness, remaining);
        remaining := Without(remaining, chosen);
      } else {
        chosen := Favourite(p.fitness, ANIMAL_TYPES);
      }
      ServedOneMore(sorted, k, left, remaining, chosen);
      ServeNext(sorted, k, result, chosen);
      result := result[p.ghostId := chosen];
    }
    AllServed(players, result);
  }

  /** The first k have taken their picks, and nobody else. */
  ghost predicate Served(sorted: seq<PlayerFitness>, k: nat, result: map<string, Animal>)
    requires k <= |sorted|
  {
    && (forall i :: 0 <= i < k ==>
          sorted[i].ghostId in result && result[sorted[i].ghostId] == Pick(sorted[..i], sorted[i]))
    && forall g :: g in result ==> exists i :: 0 <= i < k && sorted[i].ghostId == g
  }

  lemma StartServing(sorted: seq<PlayerFitness>)
    ensures Served(sorted, 0, map[])
  {
  }

  lemma ServeNext(sorted: seq<PlayerFitness>, k: nat, result: map<string, Animal>, chosen: Animal)
    requires DistinctGhosts(sorted) && k < |sorted| && Served(sorted, k, result)
    requires chosen == Pick(sorted[..k], sorted[k])
    ensures Served(sorted, k + 1, result[sorted[k].ghostId := chosen])
  {
    hide Pick;
    var next := result[sorted[k].ghostId := chosen];
    forall i | 0 <= i < k + 1
      ensures sorted[i].ghostId in next && next[sorted[i].ghostId] == Pick(sorted[..i], sorted[i])
    {
      assert i < k ==> sorted[i].ghostId != sorted[k].ghostId;
    }
    forall g | g in next ensures exists i :: 0 <= i < k + 1 && sorted[i].ghostId == g {
      if g != sorted[k].ghostId {
        var i :| 0 <= i < k && sorted[i].ghostId == g;
      }
    }
  }

  lemma AllServed(players: seq<PlayerFitness>, result: map<string, Animal>)
    requires DistinctGhosts(players)
    requires var sorted := ByPreference(players); Served(sorted, |sorted|, result)
    ensures Greedy(players, result)
    ensures forall g :: g in result <==> exists p :: p in players && p.ghostId == g
    ensures |players| >= 5 ==> forall a: Animal :: a in result.Values
  {
    hide ByPreference, Pick;
    SortedGhosts(players);
    TypesServed(ByPreference(players), result);
    GhostsServed(players, ByPreference(players), result);
  }

  lemma TypesServed(sorted: seq<PlayerFitness>, result: map<string, Animal>)
    requires forall i :: 0 <= i < |sorted| ==>
               sorted[i].ghostId in result && result[sorted[i].ghostId] == Pick(sorted[..i], sorted[i])
    ensures |sorted| >= 5 ==> forall a: Animal :: a in result.Values
  {
    hide Pick;
    forall a: Animal | |sorted| >= 5 ensures a in result.Values {
      var j := EveryTypePicked(sorted, a);
      assert result[sorted[j].ghostId] == a;
    }
  }

  lemma GhostsServed(players: seq<PlayerFitness>, sorted: seq<PlayerFitness>, result: map<string, Animal>)
    requires forall p :: p in sorted <==> p in players
    requires forall i :: 0 <= i < |sorted| ==> sorted[i].ghostId in result
    requires forall g :: g in result ==> exists i :: 0 <= i < |sorted| && sorted[i].ghostId == g
    ensures forall g :: g in result <==> exists p :: p in players && p.ghostId == g
  {
    forall g ensures g in result <==> exists p :: p in players && p.ghostId == g {
      if p :| p in players && p.ghostId == g {
        assert p in sorted;
      }
      if g in result {
        var i :| 0 <= i < |sorted| && sorted[i].ghostId == g;
        assert sorted[i] in players;
      }
    }
  }

  lemma NobodyServed(sorted: seq<PlayerFitness>)
    ensures Remaining(sorted[..0]) == ANIMAL_TYPES && Remaining([]) == ANIMAL_TYPES
  {
  }

  lemma NothingToRemove(a: Animal)
    ensures Without([], a) == []
  {
  }

  lemma ServedOneMore(sorted: seq<PlayerFitness>, k: nat, left: seq<Animal>, next: seq<Animal>, chosen: Animal)
    requires k < |sorted| && left == Remaining(sorted[..k])
    requires chosen == if left != [] then TopType(sorted[k].fitness, left) else TopType(sorted[k].fitness, ANIMAL_TYPES)
    requires next == if left != [] then Without(left, chosen) else left
    ensures chosen == Pick(sorted[..k], sorted[k]) && next == Remaining(sorted[..k + 1])
  {
    hide TopType, Without;
    assert sorted[..k + 1][..k] == sorted[..k];
    assert left == [] ==> Without(left, chosen) == [] by { NothingToRemove(chosen); }
  }

  /** The assignment as a map, player by player. */
  function ToMap(players: seq<PlayerFitness>, perm: seq<Animal>): map<string, Animal>
    requires |players| == |perm|
  {
    if players == [] then map[]
    else
      var k := |players| - 1;
      ToMap(players[..k], perm[..k])[players[k].ghostId := perm[k]]
  }

  lemma {:induction false} ToMapFacts(players: seq<PlayerFitness>, perm: seq<Animal>)
    requires |players| == |perm| && DistinctGhosts(players)
    ensures forall i :: 0 <= i < |players| ==>
              players[i].ghostId in ToMap(players, perm) && ToMap(players, perm)[players[i].ghostId] == perm[i]
    ensures forall g :: g in ToMap(players, perm) ==> exists p :: p in players && p.ghostId == g
  {
    if players != [] {
      var k := |players| - 1;
      ToMapFacts(players[..k], perm[..k]);
      forall i | 0 <= i < k ensures ToMap(players, perm)[players[i].ghostId] == perm[i] {
        assert players[..k][i] == players[i] && perm[..k][i] == perm[i];
      }
      assert players[k] in players;
    }
  }

  /** assignAnimals: every player gets a type. Up to five players get different ones, chosen
      optimally; more take their picks in turn; from five players on, every type is on the table. */
  method AssignAnimals(players: seq<PlayerFitness>, constraints: Constraints)
    returns (result: map<string, Animal>, ghost best: seq<Animal>)
    requires DistinctGhosts(players)
    ensures forall p :: p in players ==> p.ghostId in result
    ensures |players| <= 5 ==>
              && Optimal(AdjustedAll(players, constraints), best)
              && forall i :: 0 <= i < |players| ==> result[players[i].ghostId] == best[i]
    ensures |players| > 5 ==> Greedy(AdjustedAll(players, constraints), result)
    ensures |players| >= 5 ==> forall a: Animal :: a in result.Values
  {
    hide Optimal, Adjusted, Greedy;
    var adjusted := AdjustedAll(players, constraints);
    AdjustedGhosts(players, constraints);
    if |adjusted| <= 5 {
      var perm := AssignUnique(adjusted);
      OptimalSize(adjusted, perm);
      best := perm;
      result := ToMap(adjusted, perm);
      ToMapFacts(adjusted, perm);
      FiveAreAll(perm);
      if |players| == 5 {
        forall a: Animal ensures a in result.Values {
          assert a in perm;
          var i :| 0 <= i < |perm| && perm[i] == a;
          assert result[adjusted[i].ghostId] == a;
        }
      }
    } else {
      best := [];
      result := AssignWithReuse(adjusted);
    }
    forall p | p in players ensures p.ghostId in result {
      var i :| 0 <= i < |players| && players[i] == p;
      assert adjusted[i] in adjusted && adjusted[i].ghostId == p.ghostId;
    }
  }

  lemma AdjustedGhosts(players: seq<PlayerFitness>, c: Constraints)
    requires DistinctGhosts(players)
    ensures DistinctGhosts(AdjustedAll(players, c))
    ensures forall i :: 0 <= i < |players| ==> AdjustedAll(players, c)[i].ghostId == players[i].ghostId
  {
  }
}
