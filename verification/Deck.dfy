// The deck and its shuffle (ghosts/rdc-poker/src/deck.ts).
module Deck {
  import opened Seqs
  import opened PokerTypes

  const SUITS: seq<Suit> := [Hearts, Diamonds, Clubs, Spades]

  /** The card at place k of a new deck: suit by suit, ranks in ascending order. */
  function CardAt(k: nat): Card
    requires k < 52
  {
    Card(SUITS[k / 13], 2 + k % 13)
  }

  /** createDeck, with the source's nested loops. */
  method CreateDeck() returns (deck: seq<Card>)
    ensures |deck| == 52 && forall k :: 0 <= k < 52 ==> deck[k] == CardAt(k)
  {
    deck := [];
    for s := 0 to |SUITS|
      invariant |deck| == 13 * s
      invariant forall k :: 0 <= k < |deck| ==> deck[k] == CardAt(k)
    {
      for r := 0 to 13
        invariant |deck| == 13 * s + r
        invariant forall k :: 0 <= k < |deck| ==> deck[k] == CardAt(k)
      {
        deck := deck + [Card(SUITS[s], 2 + r)];
      }
    }
  }

  /** A new deck holds every card exactly once. */
  lemma DeckIsComplete(deck: seq<Card>, c: Card)
    requires |deck| == 52 && forall k :: 0 <= k < 52 ==> deck[k] == CardAt(k)
    ensures Distinct(deck)
    ensures c in deck
  {
    forall i, j | 0 <= i < j < |deck| ensures deck[i] != deck[j] {
      assert i / 13 < j / 13 || i % 13 < j % 13;
      assert SUITS[i / 13] == SUITS[j / 13] ==> i / 13 == j / 13;
    }
    var s := match c.suit case Hearts => 0 case Diamonds => 1 case Clubs => 2 case Spades => 3;
    var k := 13 * s + (c.rank - 2);
    assert k / 13 == s && k % 13 == c.rank - 2;
    assert deck[k] == c;
  }

  // ----- The shuffle as a function of its random choices -----

  function Swap<T>(s: seq<T>, i: nat, j: nat): (r: seq<T>)
    requires i < |s| && j < |s|
    ensures |r| == |s|
  {
    s[i := s[j]][j := s[i]]
  }

  /** A choice sequence for n cards: first a place in [0, n - 1], then in [0, n - 2], ... */
  ghost predicate Choices(js: seq<nat>, n: nat) {
    && |js| == (if n == 0 then 0 else n - 1)
    && forall k :: 0 <= k < |js| ==> js[k] < n - k
  }

  /** The deck after the swaps the choices pick, from the top place down. */
  function Shuffle<T>(s: seq<T>, js: seq<nat>): (r: seq<T>)
    requires Choices(js, |s|)
    ensures |r| == |s|
    decreases |s|
  {
    if |s| <= 1 then s
    else
      var i := |s| - 1;
      var t := Swap(s, i, js[0]);
      ChoicesRest(js, |s|);
      Shuffle(t[..i], js[1..]) + [t[i]]
  }

  lemma ChoicesRest(js: seq<nat>, n: nat)
    requires Choices(js, n) && n >= 2
    ensures Choices(js[1..], n - 1)
  {
    forall k | 0 <= k < |js[1..]| ensures js[1..][k] < n - 1 - k {
      assert js[1..][k] == js[k + 1];
    }
  }

  /** One swap of the loop is one step of Shuffle. */
  lemma ShuffleStep<T>(before: seq<T>, rest: seq<nat>, above: seq<T>)
    requires |before| >= 2 && Choices(rest, |before|)
    ensures var i := |before| - 1;
            var t := Swap(before, i, rest[0]);
            && Choices(rest[1..], i)
            && Shuffle(before, rest) + above == Shuffle(t[..i], rest[1..]) + ([t[i]] + above)
  {
    ChoicesRest(rest, |before|);
  }

  /** shuffleDeck, in place on the copy, drawing choices from the given stream. */
  method ShuffleDeck<T>(shuffled: array<T>, js: seq<nat>)
    requires Choices(js, shuffled.Length)
    modifies shuffled
    ensures shuffled[..] == Shuffle(old(shuffled[..]), js)
  {
    hide Shuffle, Choices;
    var n := shuffled.Length;
    ghost var goal := Shuffle(shuffled[..], js);
    ChoiceBounds(js, n);
    if n == 0 {
      ShuffleShort(shuffled[..], js);
      return;
    }
    var i := n - 1;
    assert js[0..] == js && shuffled[..n] == shuffled[..] && goal + shuffled[n..] == goal;
    while i > 0
      invariant 0 <= i < n
      invariant Choices(js[n - 1 - i..], i + 1)
      invariant goal == Shuffle(shuffled[..i + 1], js[n - 1 - i..]) + shuffled[i + 1..]
    {
      ghost var before, rest, above := shuffled[..i + 1], js[n - 1 - i..], shuffled[i + 1..];
      ChoiceBounds(rest, i + 1);
      ShuffleStep(before, rest, above);
      var j := js[n - 1 - i];
      assert j == rest[0];
      shuffled[i], shuffled[j] := shuffled[j], shuffled[i];
      ghost var t := Swap(before, i, j);
      assert shuffled[..i + 1] == t;
      assert shuffled[..i] == t[..i];
      assert shuffled[i..] == [t[i]] + above;
      assert js[n - i..] == rest[1..];
      i := i - 1;
    }
    ShuffleShort(shuffled[..1], js[n - 1..]);
    assert shuffled[..1] + shuffled[1..] == shuffled[..];
  }

  lemma ChoiceBounds(js: seq<nat>, n: nat)
    requires Choices(js, n)
    ensures |js| == (if n == 0 then 0 else n - 1) && forall k :: 0 <= k < |js| ==> js[k] < n - k
  {
  }

  lemma ShuffleShort<T>(s: seq<T>, js: seq<nat>)
    requires |s| <= 1 && Choices(js, |s|)
    ensures Shuffle(s, js) == s
  {
  }

  // ----- Fisher-Yates is a bijection -----

  lemma SwapMultiset<T>(s: seq<T>, i: nat, j: nat)
    requires i < |s| && j < |s|
    ensures multiset(Swap(s, i, j)) == multiset(s)
  {
  }

  /** A shuffle only rearranges. */
  lemma {:induction false} ShuffleIsPermutation<T>(s: seq<T>, js: seq<nat>)
    requires Choices(js, |s|)
    ensures multiset(Shuffle(s, js)) == multiset(s)
    decreases |s|
  {
    if |s| > 1 {
      var i := |s| - 1;
      var t := Swap(s, i, js[0]);
      ChoicesRest(js, |s|);
      ShuffleIsPermutation(t[..i], js[1..]);
      SwapMultiset(s, i, js[0]);
      MultisetSnoc(t);
    }
  }

  lemma SwapDistinct<T(!new)>(s: seq<T>, i: nat, j: nat)
    requires Distinct(s) && i < |s| && j < |s|
    ensures Distinct(Swap(s, i, j)) && Distinct(Swap(s, i, j)[..i])
  {
  }

  /** Different choices give different orders. */
  lemma {:induction false} ShuffleIsInjective<T(!new)>(s: seq<T>, js: seq<nat>, ks: seq<nat>)
    requires Distinct(s) && Choices(js, |s|) && Choices(ks, |s|)
    requires Shuffle(s, js) == Shuffle(s, ks)
    ensures js == ks
    decreases |s|
  {
    if |s| > 1 {
      var i := |s| - 1;
      var t, u := Swap(s, i, js[0]), Swap(s, i, ks[0]);
      ChoicesRest(js, |s|);
      ChoicesRest(ks, |s|);
      var a, b := Shuffle(t[..i], js[1..]), Shuffle(u[..i], ks[1..]);
      assert (a + [t[i]])[i] == t[i] && (b + [u[i]])[i] == u[i];
      assert s[js[0]] == s[ks[0]];
      assert js[0] == ks[0];
      assert (a + [t[i]])[..i] == a && (b + [u[i]])[..i] == b;
      SwapDistinct(s, i, js[0]);
      ShuffleIsInjective(t[..i], js[1..], ks[1..]);
      assert js == [js[0]] + js[1..] && ks == [ks[0]] + ks[1..];
    }
  }

  lemma NoChoice(n: nat)
    requires n <= 1
    ensures Choices([], n)
  {
  }

  lemma OneMoreChoice(js: seq<nat>, rest: seq<nat>, n: nat)
    requires n >= 2 && js != [] && js[1..] == rest && js[0] < n && Choices(rest, n - 1)
    ensures Choices(js, n)
  {
    forall k | 0 <= k < |js| ensures js[k] < n - k {
      if k > 0 { assert js[k] == rest[k - 1]; }
    }
  }

  lemma NoneAbove<T>(whole: seq<T>, lower: seq<T>, top: seq<T>)
    requires whole + [] == lower + (top + [])
    ensures whole == lower + top
  {
    assert whole + [] == whole && top + [] == top;
  }

  /** Once the last card is in place, the rest of the goal is a rearrangement of the rest. */
  lemma RestIsPermutation<T>(s: seq<T>, goal: seq<T>, j: nat)
    requires |s| == |goal| >= 2 && multiset(goal) == multiset(s)
    requires j < |s| && s[j] == goal[|s| - 1]
    ensures var i := |s| - 1;
            && multiset(goal[..i]) == multiset(Swap(s, i, j)[..i])
            && Swap(s, i, j)[i] == goal[i]
  {
    var i := |s| - 1;
    var t := Swap(s, i, j);
    SwapMultiset(s, i, j);
    MultisetSnoc(t);
    MultisetSnoc(goal);
    MultisetCancel(multiset(goal[..i]), multiset(t[..i]), multiset{goal[i]});
  }

  /** Every order of the deck is reached by some choices. */
  lemma {:induction false} ShuffleIsSurjective<T(!new)>(s: seq<T>, goal: seq<T>) returns (js: seq<nat>)
    requires Distinct(s) && multiset(goal) == multiset(s)
    ensures Choices(js, |s|) && Shuffle(s, js) == goal
    decreases |s|
  {
    hide Choices, Shuffle, Swap;
    SameMultisetSameLength(goal, s);
    if |s| <= 1 {
      js := [];
      NoChoice(|s|);
      ShuffleShort(s, js);
      assert |s| == 1 ==> goal[0] in multiset(s);
    } else {
      var i := |s| - 1;
      assert goal[i] in multiset(s);
      var j :| 0 <= j < |s| && s[j] == goal[i];
      var t := Swap(s, i, j);
      SwapDistinct(s, i, j);
      RestIsPermutation(s, goal, j);
      var rest := ShuffleIsSurjective(t[..i], goal[..i]);
      js := [j] + rest;
      ChoiceBounds(rest, i);
      OneMoreChoice(js, rest, |s|);
      ShuffleStep(s, js, []);
      NoneAbove(Shuffle(s, js), Shuffle(t[..i], rest), [t[i]]);
      assert goal == goal[..i] + [goal[i]];
    }
  }

  /** Each order of a deck without duplicates comes from exactly one sequence of choices, so
      equally likely choices make every order equally likely. */
  lemma EveryOrderExactlyOnce<T(!new)>(s: seq<T>, goal: seq<T>) returns (js: seq<nat>)
    requires Distinct(s)
    ensures multiset(goal) == multiset(s) ==> Choices(js, |s|) && Shuffle(s, js) == goal
    ensures forall ks :: Choices(ks, |s|) && Shuffle(s, ks) == goal ==> multiset(goal) == multiset(s) && ks == js
  {
    hide Choices, Shuffle;
    js := [];
    if multiset(goal) == multiset(s) {
      js := ShuffleIsSurjective(s, goal);
    }
    forall ks | Choices(ks, |s|) && Shuffle(s, ks) == goal ensures multiset(goal) == multiset(s) && ks == js {
      ShuffleIsPermutation(s, ks);
      ShuffleIsInjective(s, js, ks);
    }
  }
}
