// Side pots: slicing the unfolded players' contributions at the all-in levels
// (ghosts/rdc-poker/src/pot.ts).
module Pot {
  import opened Seqs
  import opened PokerTypes

  // ----- What the slicing means -----

  /** The part of a contribution c that lies between the levels lo and hi. */
  function Slice(c: int, lo: int, hi: int): int {
    Min(c, hi) - Min(c, lo)
  }

  /** The chips the players put in between lo and hi. */
  function Layer(ps: seq<Player>, lo: int, hi: int): int {
    if ps == [] then 0
    else Layer(ps[..|ps| - 1], lo, hi) + Slice(ps[|ps| - 1].contributed, lo, hi)
  }

  /** The chips the players put in above top. */
  function Above(ps: seq<Player>, top: int): int {
    if ps == [] then 0
    else Above(ps[..|ps| - 1], top) + Max(ps[|ps| - 1].contributed - top, 0)
  }

  /** The ids of the players who put in more than lo. */
  function Contributors(ps: seq<Player>, lo: int): seq<string> {
    if ps == [] then []
    else
      var p := ps[|ps| - 1];
      var rest := Contributors(ps[..|ps| - 1], lo);
      if p.contributed > lo then rest + [p.id] else rest
  }

  /** Who may win what is left above the highest all-in level. */
  function TopContenders(ps: seq<Player>, top: int): seq<string> {
    if ps == [] then []
    else
      var p := ps[|ps| - 1];
      var rest := TopContenders(ps[..|ps| - 1], top);
      if p.contributed > top || (p.contributed == top && !p.allIn) then rest + [p.id] else rest
  }

  predicate InPots(p: Player) { !p.folded && p.contributed > 0 }

  /** The players with chips at stake: not folded and something put in. */
  function Active(ps: seq<Player>): (r: seq<Player>)
    ensures forall p :: p in r <==> p in ps && InPots(p)
  {
    if ps == [] then []
    else
      var p := ps[|ps| - 1];
      var rest := Active(ps[..|ps| - 1]);
      if InPots(p) then rest + [p] else rest
  }

  ghost predicate StrictlyIncreasing(xs: seq<int>) {
    forall i, j :: 0 <= i < j < |xs| ==> xs[i] < xs[j]
  }

  /** Insertion into a strictly increasing sequence; a value already there is kept once. */
  function InsertLevel(xs: seq<int>, x: int): seq<int> {
    if xs == [] then [x]
    else if xs[0] == x then xs
    else if x < xs[0] then [x] + xs
    else [xs[0]] + InsertLevel(xs[1..], x)
  }

  lemma {:induction false} InsertLevelMembers(xs: seq<int>, x: int)
    ensures forall y :: y in InsertLevel(xs, x) <==> y == x || y in xs
  {
    if xs != [] && xs[0] < x {
      InsertLevelMembers(xs[1..], x);
      assert xs == [xs[0]] + xs[1..];
    }
  }

  lemma {:induction false} InsertLevelIncreases(xs: seq<int>, x: int)
    requires StrictlyIncreasing(xs)
    ensures StrictlyIncreasing(InsertLevel(xs, x))
  {
    if xs != [] && xs[0] < x {
      var rest := InsertLevel(xs[1..], x);
      InsertLevelIncreases(xs[1..], x);
      InsertLevelMembers(xs[1..], x);
      forall i | 0 <= i < |rest| ensures xs[0] < rest[i] {
        assert rest[i] in rest;
        if rest[i] != x {
          assert rest[i] in xs[1..];
        }
      }
    }
  }

  /** The distinct all-in contributions, lowest first. */
  function Levels(active: seq<Player>): seq<int> {
    if active == [] then []
    else
      var p := active[|active| - 1];
      var rest := Levels(active[..|active| - 1]);
      if p.allIn then InsertLevel(rest, p.contributed) else rest
  }

  lemma {:induction false} LevelsIncrease(active: seq<Player>)
    ensures StrictlyIncreasing(Levels(active))
  {
    if active != [] {
      var init := active[..|active| - 1];
      LevelsIncrease(init);
      InsertLevelIncreases(Levels(init), active[|active| - 1].contributed);
    }
  }

  ghost predicate AllInAt(ps: seq<Player>, x: int) {
    exists p :: p in ps && p.allIn && p.contributed == x
  }

  lemma {:induction false} LevelMembers(active: seq<Player>)
    ensures forall x :: x in Levels(active) <==> AllInAt(active, x)
  {
    if active != [] {
      var init, p := active[..|active| - 1], active[|active| - 1];
      LevelMembers(init);
      InsertLevelMembers(Levels(init), p.contributed);
      assert active == init + [p];
      forall x ensures x in Levels(active) <==> AllInAt(active, x) {
        if p.allIn && x == p.contributed {
          assert p in active;
        } else if AllInAt(active, x) {
          var q :| q in active && q.allIn && q.contributed == x;
          assert q in init;
        }
      }
    }
  }

  /** One pot for each level above lo. */
  function LayerPots(active: seq<Player>, lo: int, levels: seq<int>): seq<SidePot> {
    if levels == [] then []
    else
      var hi := levels[|levels| - 1];
      var below := if |levels| == 1 then lo else levels[|levels| - 2];
      var rest := LayerPots(active, lo, levels[..|levels| - 1]);
      var amount := Layer(active, below, hi);
      if amount > 0 then rest + [SidePot(amount, Contributors(active, below))] else rest
  }

  /** The pot above the highest all-in level, if it holds anything. */
  function TopPot(active: seq<Player>, top: int): seq<SidePot> {
    var amount := Above(active, top);
    var eligible := TopContenders(active, top);
    if amount > 0 && |eligible| > 0 then [SidePot(amount, eligible)] else []
  }

  function SidePots(ps: seq<Player>): seq<SidePot> {
    var active := Active(ps);
    var levels := Levels(active);
    if levels == [] then []
    else LayerPots(active, 0, levels) + TopPot(active, levels[|levels| - 1])
  }

  // ----- The source's loops -----

  /** One level's pass over the active players, with the source's two slice branches. */
  method SliceLevel(active: seq<Player>, previousLevel: int, level: int)
    returns (potAmount: int, eligible: seq<string>)
    requires previousLevel < level
    ensures potAmount == Layer(active, previousLevel, level)
    ensures eligible == Contributors(active, previousLevel)
  {
    var contribution := level - previousLevel;
    potAmount := 0;
    eligible := [];
    for i := 0 to |active|
      invariant potAmount == Layer(active[..i], previousLevel, level)
      invariant eligible == Contributors(active[..i], previousLevel)
    {
      var player := active[i];
      var c := player.contributed;
      if c >= level {
        potAmount := potAmount + contribution;
        eligible := eligible + [player.id];
      } else if c > previousLevel {
        potAmount := potAmount + (c - previousLevel);
        eligible := eligible + [player.id];
      }
      assert active[..i + 1][..i] == active[..i];
    }
    assert active[..|active|] == active;
  }

  /** The final pass, over what lies above the highest all-in level. */
  method SliceTop(active: seq<Player>, maxAllIn: int)
    returns (remainingPot: int, remainingEligible: seq<string>)
    ensures remainingPot == Above(active, maxAllIn)
    ensures remainingEligible == TopContenders(active, maxAllIn)
  {
    remainingPot := 0;
    remainingEligible := [];
    for i := 0 to |active|
      invariant remainingPot == Above(active[..i], maxAllIn)
      invariant remainingEligible == TopContenders(active[..i], maxAllIn)
    {
      var player := active[i];
      var c := player.contributed;
      if c > maxAllIn {
        remainingPot := remainingPot + (c - maxAllIn);
        remainingEligible := remainingEligible + [player.id];
      } else if c == maxAllIn && !player.allIn {
        remainingEligible := remainingEligible + [player.id];
      }
      assert active[..i + 1][..i] == active[..i];
    }
    assert active[..|active|] == active;
  }

  /** The loop of calculateSidePots over the levels. */
  method CalculateSidePots(players: seq<Player>) returns (pots: seq<SidePot>)
    ensures pots == SidePots(players)
  {
    hide Layer, Contributors, Above, TopContenders;
    var active := Active(players);
    if |active| == 0 {
      return [];
    }
    var uniqueLevels := Levels(active);
    if |uniqueLevels| == 0 {
      return [];
    }
    pots := [];
    var previousLevel := 0;
    LevelFacts(players);
    for k := 0 to |uniqueLevels|
      invariant previousLevel == if k == 0 then 0 else uniqueLevels[k - 1]
      invariant pots == LayerPots(active, 0, uniqueLevels[..k])
    {
      var level := uniqueLevels[k];
      var potAmount, eligible := SliceLevel(active, previousLevel, level);
      if potAmount > 0 {
        pots := pots + [SidePot(potAmount, eligible)];
      }
      assert uniqueLevels[..k + 1][..k] == uniqueLevels[..k];
      previousLevel := level;
    }
    assert uniqueLevels[..|uniqueLevels|] == uniqueLevels;
    var remainingPot, remainingEligible := SliceTop(active, previousLevel);
    if remainingPot > 0 && |remainingEligible| > 0 {
      pots := pots + [SidePot(remainingPot, remainingEligible)];
    }
  }

  /** The levels are the all-in contributions, all positive, in increasing order. */
  lemma LevelFacts(ps: seq<Player>)
    ensures StrictlyIncreasing(Levels(Active(ps)))
    ensures forall k :: 0 <= k < |Levels(Active(ps))| ==> Levels(Active(ps))[k] > 0
    ensures forall p :: p in Active(ps) && p.allIn ==>
              exists k :: 0 <= k < |Levels(Active(ps))| && Levels(Active(ps))[k] == p.contributed
  {
    var levels := Levels(Active(ps));
    LevelsIncrease(Active(ps));
    LevelMembers(Active(ps));
    forall k | 0 <= k < |levels| ensures levels[k] > 0 {
      assert levels[k] in levels;
      assert AllInAt(Active(ps), levels[k]);
    }
    forall p | p in Active(ps) && p.allIn
      ensures exists k :: 0 <= k < |levels| && levels[k] == p.contributed
    {
      assert AllInAt(Active(ps), p.contributed);
      assert p.contributed in levels;
    }
  }

  /** Someone is all-in exactly at the highest level. */
  lemma TopPlayer(active: seq<Player>) returns (p: Player)
    requires Levels(active) != []
    ensures p in active && p.allIn && p.contributed == Levels(active)[|Levels(active)| - 1]
  {
    var levels := Levels(active);
    LevelMembers(active);
    assert AllInAt(active, levels[|levels| - 1]);
    p :| p in active && p.allIn && p.contributed == levels[|levels| - 1];
  }

  // ----- The pots hold exactly the unfolded players' money -----

  lemma {:induction false} LayersJoin(ps: seq<Player>, lo: int, mid: int, hi: int)
    requires lo <= mid <= hi
    ensures Layer(ps, lo, mid) + Layer(ps, mid, hi) == Layer(ps, lo, hi)
  {
    if ps != [] {
      LayersJoin(ps[..|ps| - 1], lo, mid, hi);
    }
  }

  lemma {:induction false} LayerSigns(ps: seq<Player>, lo: int, hi: int)
    requires lo <= hi
    ensures Layer(ps, lo, hi) >= 0
    ensures lo < hi && (exists p :: p in ps && p.contributed > lo) ==> Layer(ps, lo, hi) > 0
  {
    if ps != [] {
      LayerSigns(ps[..|ps| - 1], lo, hi);
    }
  }

  lemma {:induction false} AboveSigns(ps: seq<Player>, top: int)
    ensures Above(ps, top) >= 0
    ensures Above(ps, top) > 0 ==> |TopContenders(ps, top)| > 0
  {
    if ps != [] {
      AboveSigns(ps[..|ps| - 1], top);
    }
  }

  lemma {:induction false} LayerPotsTotal(active: seq<Player>, lo: int, levels: seq<int>)
    requires StrictlyIncreasing(levels)
    requires levels != [] ==> lo < levels[0]
    ensures Sum(LayerPots(active, lo, levels), Amount)
         == if levels == [] then 0 else Layer(active, lo, levels[|levels| - 1])
  {
    if levels != [] {
      var n := |levels| - 1;
      var hi := levels[n];
      var below := if n == 0 then lo else levels[n - 1];
      var init := LayerPots(active, lo, levels[..n]);
      LayerPotsTotal(active, lo, levels[..n]);
      LayerSigns(active, below, hi);
      LayersJoin(active, lo, below, hi);
      LayersJoin(active, lo, lo, hi);
      var pot := SidePot(Layer(active, below, hi), Contributors(active, below));
      SumSnoc(init, pot, Amount);
    }
  }

  lemma {:induction false} WholeLayer(ps: seq<Player>, top: int)
    requires forall p :: p in ps ==> p.contributed >= 0
    requires top >= 0
    ensures Layer(ps, 0, top) + Above(ps, top) == Sum(ps, Contribution)
  {
    if ps != [] {
      WholeLayer(ps[..|ps| - 1], top);
    }
  }

  lemma {:induction false} ActiveTotal(ps: seq<Player>)
    requires forall p :: p in ps ==> p.contributed >= 0
    ensures Sum(Active(ps), Contribution) == Sum(ps, LiveContribution)
  {
    if ps != [] {
      var p := ps[|ps| - 1];
      ActiveTotal(ps[..|ps| - 1]);
      SumSnoc(Active(ps[..|ps| - 1]), p, Contribution);
    }
  }

  /** With a level to slice at, the pots hold the whole active money. */
  lemma SlicedTotal(active: seq<Player>, levels: seq<int>)
    requires forall p :: p in active ==> p.contributed >= 0
    requires StrictlyIncreasing(levels) && levels != [] && levels[0] > 0
    requires exists p :: p in active && p.contributed == levels[|levels| - 1]
    ensures LayerPots(active, 0, levels) != []
    ensures Sum(LayerPots(active, 0, levels) + TopPot(active, levels[|levels| - 1]), Amount)
         == Sum(active, Contribution)
  {
    hide Layer, Contributors, Above, TopContenders, LayerPots, Contribution;
    var top := levels[|levels| - 1];
    var lower := LayerPots(active, 0, levels);
    LayerPotsTotal(active, 0, levels);
    AboveSigns(active, top);
    WholeLayer(active, top);
    LayerSigns(active, 0, top);
    SumConcat(lower, TopPot(active, top), Amount);
    SumOne(SidePot(Above(active, top), TopContenders(active, top)));
  }

  lemma SumOne(pot: SidePot)
    ensures Sum([pot], Amount) == pot.amount
  {
    assert [pot][..0] == [];
  }

  /** There are side pots exactly when an unfolded player is all-in. */
  lemma PotsNeedAnAllIn(ps: seq<Player>)
    requires forall p :: p in ps ==> p.contributed >= 0
    ensures SidePots(ps) == [] <==> !(exists p :: p in ps && InPots(p) && p.allIn)
    ensures SidePots(ps) != [] ==>
              SidePots(ps) == LayerPots(Active(ps), 0, Levels(Active(ps)))
                              + TopPot(Active(ps), Levels(Active(ps))[|Levels(Active(ps))| - 1])
              && Sum(SidePots(ps), Amount) == Sum(Active(ps), Contribution)
  {
    hide LayerPots, TopPot, Sum, Levels, Active;
    var active := Active(ps);
    var levels := Levels(active);
    LevelFacts(ps);
    if levels != [] {
      var p := TopPlayer(active);
      SlicedTotal(active, levels);
    }
  }

  /** Whatever the contributions, the pots together hold exactly the money of the
      players who have not folded. */
  lemma PotsHoldTheLiveMoney(ps: seq<Player>)
    requires forall p :: p in ps ==> p.contributed >= 0
    ensures Sum(SidePots(ps), Amount) == if SidePots(ps) == [] then 0 else Sum(ps, LiveContribution)
  {
    hide SidePots;
    PotsNeedAnAllIn(ps);
    ActiveTotal(ps);
  }

  // ----- Exact funding and entitlement -----

  /** What betting guarantees at the end of a street: nobody has put in more than a player
      who has neither folded nor gone all-in, and an all-in player has put something in. */
  ghost predicate Matched(ps: seq<Player>) {
    && (forall p :: p in ps ==> p.contributed >= 0)
    && (forall p :: p in ps && !p.folded ==> p.contributed > 0)
    && (forall p, q :: p in ps && q in ps && !p.folded && !p.allIn ==> q.contributed <= p.contributed)
  }

  /** A pot whose eligible players all paid the same full slice, from lo up to hi. */
  ghost predicate FullyFunded(pot: SidePot, ps: seq<Player>, lo: int, hi: int) {
    && lo < hi
    && pot.amount == (hi - lo) * |pot.eligible|
    && (forall p :: p in ps && !p.folded && p.contributed > lo ==> p.contributed >= hi)
    && (forall id :: id in pot.eligible
          <==> exists p :: p in ps && !p.folded && p.contributed >= hi && p.id == id)
  }

  ghost predicate AllFullyFunded(pots: seq<SidePot>, ps: seq<Player>) {
    forall pot :: pot in pots ==> HasFullSlice(pot, ps)
  }

  ghost predicate HasFullSlice(pot: SidePot, ps: seq<Player>) {
    exists lo, hi :: FullyFunded(pot, ps, lo, hi)
  }

  lemma OneMore(slice: int, n: nat)
    ensures slice * (n + 1) == slice * n + slice
  {
  }

  lemma {:induction false} FullLayer(ps: seq<Player>, lo: int, hi: int)
    requires lo < hi
    requires forall p :: p in ps && p.contributed > lo ==> p.contributed >= hi
    ensures Layer(ps, lo, hi) == (hi - lo) * |Contributors(ps, lo)|
  {
    if ps != [] {
      FullLayer(ps[..|ps| - 1], lo, hi);
      OneMore(hi - lo, |Contributors(ps[..|ps| - 1], lo)|);
    }
  }

  lemma {:induction false} WhoContributed(ps: seq<Player>, lo: int)
    ensures forall id :: id in Contributors(ps, lo)
              <==> exists p :: p in ps && p.contributed > lo && p.id == id
  {
    if ps != [] {
      var init, p := ps[..|ps| - 1], ps[|ps| - 1];
      WhoContributed(init, lo);
      assert ps == init + [p];
      forall id | exists q :: q in ps && q.contributed > lo && q.id == id
        ensures id in Contributors(ps, lo)
      {
        var q :| q in ps && q.contributed > lo && q.id == id;
        if q != p { assert q in init; }
      }
    }
  }

  lemma {:induction false} TopAreContributors(ps: seq<Player>, top: int)
    requires forall p :: p in ps && p.contributed == top ==> p.allIn
    ensures TopContenders(ps, top) == Contributors(ps, top)
  {
    if ps != [] {
      TopAreContributors(ps[..|ps| - 1], top);
    }
  }

  lemma {:induction false} LayerPotsAreFull(ps: seq<Player>, lo: int, levels: seq<int>)
    requires StrictlyIncreasing(levels) && (levels != [] ==> lo < levels[0]) && lo >= 0
    requires forall p :: p in Active(ps) && levels != [] ==>
               p.contributed <= lo || p.contributed in levels || p.contributed > levels[|levels| - 1]
    ensures AllFullyFunded(LayerPots(Active(ps), lo, levels), ps)
  {
    if levels != [] {
      var active := Active(ps);
      var n := |levels| - 1;
      var hi := levels[n];
      var below := if n == 0 then lo else levels[n - 1];
      forall p | p in active && n > 0
        ensures p.contributed <= lo || p.contributed in levels[..n] || p.contributed > levels[n - 1]
      {
        if p.contributed in levels && p.contributed != hi {
          var k :| 0 <= k <= n && levels[k] == p.contributed;
          assert levels[..n][k] == p.contributed;
        }
      }
      LayerPotsAreFull(ps, lo, levels[..n]);
      forall p | p in active && p.contributed > below ensures p.contributed >= hi {
        if p.contributed in levels {
          var k :| 0 <= k <= n && levels[k] == p.contributed;
        }
      }
      FullLayer(active, below, hi);
      WhoContributed(active, below);
      var pot := SidePot(Layer(active, below, hi), Contributors(active, below));
      assert FullyFunded(pot, ps, below, hi) by {
        assert forall p :: p in ps && !p.folded && p.contributed > below ==> p in active;
      }
      assert HasFullSlice(pot, ps);
    }
  }

  /** Between matched players the partial branch never pays: every side pot is its slice
      times its eligible players, each of whom put in the whole slice. */
  lemma SidePotsAreFullyFunded(ps: seq<Player>)
    requires Matched(ps)
    ensures AllFullyFunded(SidePots(ps), ps)
  {
    var active := Active(ps);
    var levels := Levels(active);
    if levels != [] {
      var top := levels[|levels| - 1];
      LevelFacts(ps);
      var q := TopPlayer(active);
      assert top in levels;
      LayerPotsAreFull(ps, 0, levels);
      if Above(active, top) > 0 {
        TopIsFull(ps, top);
      }
      assert AllFullyFunded(TopPot(active, top), ps);
    }
  }

  lemma {:induction false} SomeoneAbove(ps: seq<Player>, top: int) returns (p: Player)
    requires Above(ps, top) > 0
    ensures p in ps && p.contributed > top
  {
    p := ps[|ps| - 1];
    if p.contributed <= top {
      p := SomeoneAbove(ps[..|ps| - 1], top);
    }
  }

  lemma TopIsFull(ps: seq<Player>, top: int)
    requires Matched(ps) && Above(Active(ps), top) > 0
    requires Levels(Active(ps)) != [] && top == Levels(Active(ps))[|Levels(Active(ps))| - 1]
    ensures HasFullSlice(SidePot(Above(Active(ps), top), TopContenders(Active(ps), top)), ps)
  {
    hide Layer, Levels, Above, Contributors, TopContenders;
    var active := Active(ps);
    var levels := Levels(active);
    var m := SomeoneAbove(active, top);
    LevelFacts(ps);
    forall p | p in active && p.allIn ensures p.contributed <= top {
      var k :| 0 <= k < |levels| && levels[k] == p.contributed;
    }
    AboveIsLayer(active, top, m.contributed);
    FullLayer(active, top, m.contributed);
    TopAreContributors(active, top);
    WhoContributed(active, top);
    var pot := SidePot(Above(active, top), TopContenders(active, top));
    assert forall p :: p in ps && !p.folded && p.contributed > top ==> p in active;
    assert FullyFunded(pot, ps, top, m.contributed);
  }

  // ----- Every pot can be won -----

  /** A pot holding chips that some player still in may win. */
  ghost predicate Contested(pot: SidePot, ps: seq<Player>) {
    && pot.amount > 0
    && exists p :: p in ps && !p.folded && p.id in pot.eligible
  }

  lemma {:induction false} SomeoneReached(ps: seq<Player>, lo: int, hi: int) returns (p: Player)
    requires Layer(ps, lo, hi) > 0 && lo <= hi
    ensures p in ps && p.contributed > lo
  {
    p := ps[|ps| - 1];
    if p.contributed <= lo {
      p := SomeoneReached(ps[..|ps| - 1], lo, hi);
    }
  }

  lemma {:induction false} LayerPotsAreContested(ps: seq<Player>, lo: int, levels: seq<int>)
    requires StrictlyIncreasing(levels) && (levels != [] ==> lo < levels[0])
    ensures forall pot :: pot in LayerPots(Active(ps), lo, levels) ==> Contested(pot, ps)
  {
    hide Layer, Contributors, Active;
    if levels != [] {
      var active := Active(ps);
      var n := |levels| - 1;
      var hi := levels[n];
      var below := if n == 0 then lo else levels[n - 1];
      LayerPotsAreContested(ps, lo, levels[..n]);
      if Layer(active, below, hi) > 0 {
        var p := SomeoneReached(active, below, hi);
        WhoContributed(active, below);
        assert p in ps && p.id in Contributors(active, below);
      }
    }
  }

  /** Whatever the contributions, every side pot holds chips and has somebody to win it. */
  lemma SidePotsAreContested(ps: seq<Player>)
    ensures forall pot :: pot in SidePots(ps) ==> Contested(pot, ps)
  {
    hide LayerPots, Levels, Above, Contested;
    var active := Active(ps);
    var levels := Levels(active);
    LevelFacts(ps);
    if levels != [] {
      LayerPotsAreContested(ps, 0, levels);
      var top := levels[|levels| - 1];
      if Above(active, top) > 0 {
        var m := SomeoneAbove(active, top);
        InTopContenders(active, top, m);
        assert Contested(SidePot(Above(active, top), TopContenders(active, top)), ps) by {
          OneContender(ps, m, SidePot(Above(active, top), TopContenders(active, top)));
        }
      }
    }
  }

  lemma OneContender(ps: seq<Player>, m: Player, pot: SidePot)
    requires pot.amount > 0 && m in ps && !m.folded && m.id in pot.eligible
    ensures Contested(pot, ps)
  {
  }

  lemma {:induction false} InTopContenders(ps: seq<Player>, top: int, m: Player)
    requires m in ps && m.contributed > top
    ensures m.id in TopContenders(ps, top)
  {
    var p := ps[|ps| - 1];
    assert ps == ps[..|ps| - 1] + [p];
    if m != p {
      InTopContenders(ps[..|ps| - 1], top, m);
    }
  }

  /** The chips in the pots that id may win. */
  function Reach(pots: seq<SidePot>, id: string): int {
    if pots == [] then 0
    else
      var pot := pots[|pots| - 1];
      Reach(pots[..|pots| - 1], id) + if id in pot.eligible then pot.amount else 0
  }

  lemma {:induction false} ReachConcat(ps: seq<SidePot>, qs: seq<SidePot>, id: string)
    ensures Reach(ps + qs, id) == Reach(ps, id) + Reach(qs, id)
  {
    if qs == [] {
      assert ps + qs == ps;
    } else {
      var k := |qs| - 1;
      assert (ps + qs)[..|ps + qs| - 1] == ps + qs[..k];
      ReachConcat(ps, qs[..k], id);
    }
  }

  /** In a list where only me carries my id, my id is listed exactly if I paid more than lo. */
  lemma {:induction false} MyContribution(ps: seq<Player>, lo: int, me: Player)
    requires forall p :: p in ps && p.id == me.id ==> p == me
    ensures me.id in Contributors(ps, lo) <==> me in ps && me.contributed > lo
  {
    if ps != [] {
      MyContribution(ps[..|ps| - 1], lo, me);
      assert ps == ps[..|ps| - 1] + [ps[|ps| - 1]];
    }
  }

  lemma {:induction false} MyContention(ps: seq<Player>, top: int, me: Player)
    requires forall p :: p in ps && p.id == me.id ==> p == me
    ensures me.id in TopContenders(ps, top)
       <==> me in ps && (me.contributed > top || (me.contributed == top && !me.allIn))
  {
    if ps != [] {
      MyContention(ps[..|ps| - 1], top, me);
      assert ps == ps[..|ps| - 1] + [ps[|ps| - 1]];
    }
  }

  lemma {:induction false} LayerPotsReach(active: seq<Player>, lo: int, levels: seq<int>, me: Player)
    requires StrictlyIncreasing(levels) && levels != [] && lo < levels[0]
    requires me in active && lo < me.contributed
    requires forall p :: p in active && p.id == me.id ==> p == me
    requires (exists k :: 0 <= k < |levels| && levels[k] == me.contributed)
             || me.contributed > levels[|levels| - 1]
    ensures Reach(LayerPots(active, lo, levels), me.id)
         == Layer(active, lo, Min(me.contributed, levels[|levels| - 1]))
  {
    hide Layer, Contributors, Reach;
    ReachNone(me.id);
    var n := |levels| - 1;
    var hi := levels[n];
    var below := if n == 0 then lo else levels[n - 1];
    var rest := LayerPots(active, lo, levels[..n]);
    var pot := SidePot(Layer(active, below, hi), Contributors(active, below));
    MyContribution(active, below, me);
    LayerSigns(active, below, hi);
    LayersJoin(active, lo, below, hi);
    LayersJoin(active, lo, lo, hi);
    assert me.contributed > below ==> me.contributed >= hi;
    if n > 0 {
      var init := levels[..n];
      assert init[n - 1] == levels[n - 1] && init[0] == levels[0];
      if k :| 0 <= k < |levels| && levels[k] == me.contributed && k < n {
        assert init[k] == me.contributed;
      }
      LayerPotsReach(active, lo, init, me);
    }
    ReachSnoc(rest, pot, me.id);
  }

  lemma ReachNone(id: string)
    ensures Reach([], id) == 0
  {
  }

  lemma ReachSnoc(pots: seq<SidePot>, pot: SidePot, id: string)
    ensures Reach(pots + [pot], id) == Reach(pots, id) + if id in pot.eligible then pot.amount else 0
  {
    assert (pots + [pot])[..|pots|] == pots;
  }

  /** The sum over the unfolded players of what each of them put in, capped at cap. */
  function CappedLive(ps: seq<Player>, cap: int): int {
    if ps == [] then 0
    else
      var p := ps[|ps| - 1];
      CappedLive(ps[..|ps| - 1], cap) + if p.folded then 0 else Min(p.contributed, cap)
  }

  lemma {:induction false} CappedIsLayer(ps: seq<Player>, cap: int)
    requires cap >= 0 && forall p :: p in ps ==> p.contributed >= 0
    ensures CappedLive(ps, cap) == Layer(Active(ps), 0, cap)
  {
    if ps != [] {
      CappedIsLayer(ps[..|ps| - 1], cap);
      var init, p := Active(ps[..|ps| - 1]), ps[|ps| - 1];
      assert (init + [p])[..|init|] == init;
    }
  }

  lemma {:induction false} AboveIsLayer(ps: seq<Player>, top: int, most: int)
    requires top <= most && forall p :: p in ps ==> p.contributed <= most
    ensures Above(ps, top) == Layer(ps, top, most)
  {
    if ps != [] {
      AboveIsLayer(ps[..|ps| - 1], top, most);
    }
  }

  /** An unfolded player's pots hold exactly what the unfolded players put in, each capped
      at the player's own contribution. */
  lemma ReachIsCapped(ps: seq<Player>, me: Player)
    requires Matched(ps) && DistinctIds(ps) && me in ps && !me.folded
    requires SidePots(ps) != []
    ensures Reach(SidePots(ps), me.id) == CappedLive(ps, me.contributed)
  {
    var active := Active(ps);
    var levels := Levels(active);
    LevelFacts(ps);
    var top := levels[|levels| - 1];
    var q := TopPlayer(active);
    CappedIsLayer(ps, me.contributed);
    UniqueId(ps, me);
    assert (exists k :: 0 <= k < |levels| && levels[k] == me.contributed) || me.contributed > top by {
      if !me.allIn && me.contributed == top {
        assert levels[|levels| - 1] == me.contributed;
      }
    }
    assert me.allIn ==> me.contributed <= top by {
      if me.allIn {
        var k :| 0 <= k < |levels| && levels[k] == me.contributed;
      }
    }
    LayerPotsReach(active, 0, levels, me);
    ReachConcat(LayerPots(active, 0, levels), TopPot(active, top), me.id);
    TopReach(active, top, me);
    LayersJoin(active, 0, Min(me.contributed, top), me.contributed);
  }

  lemma UniqueId(ps: seq<Player>, me: Player)
    requires DistinctIds(ps) && me in ps
    ensures forall p :: p in ps && p.id == me.id ==> p == me
  {
    forall p | p in ps && p.id == me.id ensures p == me {
      var i, j :| 0 <= i < |ps| && ps[i] == p && 0 <= j < |ps| && ps[j] == me;
    }
  }

  lemma TopReach(active: seq<Player>, top: int, me: Player)
    requires me in active && (me.allIn ==> me.contributed <= top)
    requires forall p :: p in active && p.id == me.id ==> p == me
    requires !me.allIn ==> top <= me.contributed
    requires forall p :: p in active && !me.allIn ==> p.contributed <= me.contributed
    ensures Reach(TopPot(active, top), me.id)
         == Layer(active, Min(me.contributed, top), me.contributed)
  {
    MyContention(active, top, me);
    AboveSigns(active, top);
    var c := me.contributed;
    LayersJoin(active, c, c, c);
    if !me.allIn {
      AboveIsLayer(active, top, c);
    }
    assert [SidePot(Above(active, top), TopContenders(active, top))][..0] == [];
  }
}
