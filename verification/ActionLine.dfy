// An action as a line of text and back (ghosts/rdc-poker-session/src/memory-writer.ts:120-127,
// 407-426).
module ActionLine {
  import opened Seqs
  import opened PokerTypes

  datatype Step = Step(actor: string, verb: ActionType, amount: int)

  /** The verbs in the order the parser looks for them. */
  const VERBS := [Fold, Check, Call, Raise, AllIn]

  function Word(a: ActionType): (w: string)
    ensures |w| >= 4 && forall k :: 0 <= k < |w| ==> w[k] in "acdefhiklnors-"
  {
    match a
    case Fold => "fold"
    case Check => "check"
    case Call => "call"
    case Raise => "raise"
    case AllIn => "all-in"
  }

  // ----- Numbers -----

  function DigitChar(d: nat): char
    requires d < 10
  {
    "0123456789"[d]
  }

  predicate IsDigit(c: char) { '0' <= c <= '9' }

  function Digits(n: nat): (s: string)
    ensures |s| > 0 && forall k :: 0 <= k < |s| ==> IsDigit(s[k])
  {
    if n < 10 then [DigitChar(n)] else Digits(n / 10) + [DigitChar(n % 10)]
  }

  /** String(n) */
  function PrintInt(n: int): string {
    if n < 0 then "-" + Digits(-n) else Digits(n)
  }

  function Value(s: string): int {
    if s == [] then 0 else 10 * Value(s[..|s| - 1]) + (s[|s| - 1] as int - '0' as int)
  }

  /** A number is printed as JavaScript prints it: a minus exactly when it is negative, then digits of
      which the first is a zero only in zero itself. */
  lemma PrintedForm(n: int)
    ensures PrintInt(n)[0] == '-' <==> n < 0
    ensures var digits := if n < 0 then PrintInt(n)[1..] else PrintInt(n);
            digits != [] && (forall k :: 0 <= k < |digits| ==> IsDigit(digits[k]))
            && (digits[0] == '0' ==> n == 0 && digits == "0")
  {
    if n < 0 {
      assert PrintInt(n)[1..] == Digits(-n);
      NoLeadingZero(-n);
    } else {
      NoLeadingZero(n);
    }
  }

  lemma {:induction false} NoLeadingZero(n: nat)
    ensures Digits(n)[0] == '0' ==> n == 0 && Digits(n) == "0"
  {
    if n >= 10 {
      NoLeadingZero(n / 10);
    }
  }

  /** The digits a string starts with. */
  function LeadingDigits(s: string): string {
    if s != [] && IsDigit(s[0]) then [s[0]] + LeadingDigits(s[1..]) else []
  }

  /** Number.parseInt(s, 10) on a string without leading blanks; None stands for NaN. */
  function ParseInt(s: string): Option<int> {
    var signed := s != [] && (s[0] == '-' || s[0] == '+');
    var ds := LeadingDigits(if signed then s[1..] else s);
    if ds == [] then None else Some(if signed && s[0] == '-' then -Value(ds) else Value(ds))
  }

  lemma {:induction false} ValueOfDigits(n: nat)
    ensures Value(Digits(n)) == n
  {
    if n >= 10 {
      ValueOfDigits(n / 10);
      assert Digits(n)[..|Digits(n)| - 1] == Digits(n / 10);
    }
  }

  lemma {:induction false} AllDigits(s: string)
    requires forall k :: 0 <= k < |s| ==> IsDigit(s[k])
    ensures LeadingDigits(s) == s
  {
    if s != [] {
      AllDigits(s[1..]);
    }
  }

  lemma IntRoundTrip(n: int)
    ensures ParseInt(PrintInt(n)) == Some(n)
  {
    hide Value;
    var ds := Digits(if n < 0 then -n else n);
    AllDigits(ds);
    ValueOfDigits(if n < 0 then -n else n);
    assert n < 0 ==> PrintInt(n)[1..] == ds;
  }

  // ----- Blanks -----

  predicate IsBlank(c: char) {
    c in "\t\n\r \U{B}\U{C}\U{A0}\U{1680}\U{2028}\U{2029}\U{202F}\U{205F}\U{3000}\U{FEFF}" || '\U{2000}' <= c <= '\U{200A}'
  }

  function TrimStart(s: string): string {
    if s != [] && IsBlank(s[0]) then TrimStart(s[1..]) else s
  }

  function TrimEnd(s: string): string {
    if s != [] && IsBlank(s[|s| - 1]) then TrimEnd(s[..|s| - 1]) else s
  }

  function Trim(s: string): string { TrimEnd(TrimStart(s)) }

  ghost predicate AllBlank(s: string) {
    forall c :: c in s ==> IsBlank(c)
  }

  lemma {:induction false} TrimStartMeans(s: string) returns (n: nat)
    ensures n <= |s| && AllBlank(s[..n]) && TrimStart(s) == s[n..]
    ensures TrimStart(s) != [] ==> !IsBlank(TrimStart(s)[0])
  {
    hide IsBlank;
    n := 0;
    if s != [] && IsBlank(s[0]) {
      n := TrimStartMeans(s[1..]);
      n := n + 1;
      assert s[..n] == [s[0]] + s[1..][..n - 1] && s[1..][n - 1..] == s[n..];
    }
  }

  lemma {:induction false} TrimEndMeans(s: string) returns (n: nat)
    ensures n <= |s| && AllBlank(s[n..]) && TrimEnd(s) == s[..n]
    ensures TrimEnd(s) != [] ==> !IsBlank(TrimEnd(s)[|TrimEnd(s)| - 1])
  {
    hide IsBlank;
    n := |s|;
    if s != [] && IsBlank(s[|s| - 1]) {
      var t := s[..|s| - 1];
      n := TrimEndMeans(t);
      assert s[n..] == t[n..] + [s[|s| - 1]] && t[..n] == s[..n];
    }
  }

  /** Trimming takes away blanks only, at both ends, and all of them. */
  lemma TrimMeans(s: string) returns (i: nat, j: nat)
    ensures i <= j <= |s| && Trim(s) == s[i..j]
    ensures AllBlank(s[..i]) && AllBlank(s[j..])
    ensures i < j ==> !IsBlank(s[i]) && !IsBlank(s[j - 1])
  {
    hide IsBlank, TrimStart, TrimEnd;
    i := TrimStartMeans(s);
    var t := s[i..];
    j := TrimEndMeans(t);
    assert s[i + j..] == t[j..] && t[..j] == s[i..i + j];
    j := i + j;
  }

  /** A blank before a number is trimmed away, and the number is not. */
  lemma TrimNumber(n: int)
    ensures Trim(" " + PrintInt(n)) == PrintInt(n)
  {
    var s := PrintInt(n);
    assert (" " + s)[1..] == s;
    assert !IsBlank(s[0]) && !IsBlank(s[|s| - 1]);
    assert TrimStart(" " + s) == TrimStart(s) == s;
  }

  // ----- Printing -----

  predicate HasAmount(a: ActionType) { a == Raise || a == Call }

  function Rest(a: ActionType, amount: int): string {
    if HasAmount(a) then " " + PrintInt(amount) else ""
  }

  /** actionLine */
  function PrintLine(name: string, a: ActionType, amount: int): string {
    name + " " + Word(a) + Rest(a, amount)
  }

  /** A call and a raise are printed with their amount, the other actions without. */
  lemma LinesPrinted(name: string, amount: int)
    ensures PrintLine(name, Fold, amount) == name + " fold"
    ensures PrintLine(name, Check, amount) == name + " check"
    ensures PrintLine(name, AllIn, amount) == name + " all-in"
    ensures PrintLine(name, Call, amount) == name + " call " + PrintInt(amount)
    ensures PrintLine(name, Raise, amount) == name + " raise " + PrintInt(amount)
  {
    hide PrintInt;
    Joined(name, "fold", "", " fold");
    Joined(name, "check", "", " check");
    Joined(name, "all-in", "", " all-in");
    Joined(name, "call", " " + PrintInt(amount), " call");
    Joined(name, "raise", " " + PrintInt(amount), " raise");
    assert " call" + (" " + PrintInt(amount)) == " call " + PrintInt(amount);
    assert " raise" + (" " + PrintInt(amount)) == " raise " + PrintInt(amount);
  }

  lemma Joined(name: string, word: string, rest: string, blankWord: string)
    requires [' '] + word == blankWord
    ensures name + " " + word + rest == name + (blankWord + rest)
  {
  }

  // ----- Parsing -----

  predicate MatchAt(s: string, p: string, i: nat) {
    i + |p| <= |s| && s[i..i + |p|] == p
  }

  /** The first match at i or later, as indexOf finds it. */
  function FindFrom(s: string, p: string, i: nat): (r: int)
    ensures r == -1 || (i <= r && MatchAt(s, p, r))
    ensures forall k :: i <= k && (r == -1 || k < r) ==> !MatchAt(s, p, k)
    decreases |s| - i
  {
    if i + |p| > |s| then -1
    else if MatchAt(s, p, i) then i
    else FindFrom(s, p, i + 1)
  }

  function Parsed(raw: string, a: ActionType, idx: nat): Step
    requires MatchAt(raw, " " + Word(a), idx)
  {
    var tail := Trim(raw[idx + 1 + |Word(a)|..]);
    var amount := if tail == [] then Some(0) else ParseInt(tail);
    Step(Trim(raw[..idx]), a, if amount.Some? then amount.value else 0)
  }

  /** The parse by the first verb found, from the k-th on. */
  function ParseFrom(raw: string, k: nat): Option<Step>
    requires k <= 5
    decreases 5 - k
  {
    if k == 5 then None
    else
      var idx := FindFrom(raw, " " + Word(VERBS[k]), 0);
      if idx == -1 then ParseFrom(raw, k + 1) else Some(Parsed(raw, VERBS[k], idx))
  }

  /** parseStepAction */
  method ParseStepAction(raw: string) returns (r: Option<Step>)
    ensures r == ParseFrom(raw, 0)
  {
    hide Trim, ParseInt, Word, FindFrom;
    for k := 0 to 5
      invariant ParseFrom(raw, 0) == ParseFrom(raw, k)
    {
      var verb := VERBS[k];
      var idx := FindFrom(raw, " " + Word(verb), 0);
      if idx == -1 {
        continue;
      }
      var actor := Trim(raw[..idx]);
      var tail := Trim(raw[idx + 1 + |Word(verb)|..]);
      var amount := if |tail| > 0 then ParseInt(tail) else Some(0);
      return Some(Step(actor, verb, if amount.Some? then amount.value else 0));
    }
    r := None;
  }

  predicate Occurs(raw: string, a: ActionType) {
    exists i :: 0 <= i <= |raw| && MatchAt(raw, " " + Word(a), i)
  }

  /** What is read of any line: nothing exactly if no verb occurs in it; otherwise the first verb, in
      the order of the list, that occurs, at its first place, with the trimmed text before it, and no
      amount unless the trimmed text behind it starts with a number. */
  lemma {:induction false} LineMeans(raw: string, k: nat)
    requires k <= 5
    ensures ParseFrom(raw, k).None? <==> forall j :: k <= j < 5 ==> !Occurs(raw, VERBS[j])
    ensures ParseFrom(raw, k).Some? ==>
              exists j, i :: && k <= j < 5 && (forall h :: k <= h < j ==> !Occurs(raw, VERBS[h]))
                             && FirstAt(raw, VERBS[j], i) && Reads(raw, VERBS[j], i, ParseFrom(raw, k).value)
    decreases 5 - k
  {
    hide Trim, ParseInt, Word, MatchAt;
    if k < 5 {
      var idx := FindFrom(raw, " " + Word(VERBS[k]), 0);
      if idx == -1 {
        assert !Occurs(raw, VERBS[k]);
        LineMeans(raw, k + 1);
      } else {
        FoundInside(raw, " " + Word(VERBS[k]), idx);
        NoNumber(Trim(raw[idx + 1 + |Word(VERBS[k])|..]));
        assert FirstAt(raw, VERBS[k], idx) && Reads(raw, VERBS[k], idx, ParseFrom(raw, k).value);
      }
    }
  }

  lemma FoundInside(raw: string, p: string, i: nat)
    requires MatchAt(raw, p, i)
    ensures i + |p| <= |raw|
  {
  }

  /** The verb's first place in the line. */
  ghost predicate FirstAt(raw: string, a: ActionType, i: nat) {
    MatchAt(raw, " " + Word(a), i) && forall h :: 0 <= h < i ==> !MatchAt(raw, " " + Word(a), h)
  }

  ghost predicate Reads(raw: string, a: ActionType, i: nat, step: Step) {
    && i + 1 + |Word(a)| <= |raw|
    && step.actor == Trim(raw[..i]) && step.verb == a
    && var tail := Trim(raw[i + 1 + |Word(a)|..]);
       && (!StartsNumber(tail) ==> step.amount == 0)
       && (StartsNumber(tail) ==> ParseInt(tail) == Some(step.amount))
  }

  /** Digits, perhaps behind a sign. */
  predicate StartsNumber(s: string) {
    s != [] && (IsDigit(s[0]) || (|s| > 1 && (s[0] == '-' || s[0] == '+') && IsDigit(s[1])))
  }

  lemma NoNumber(s: string)
    ensures ParseInt(s).Some? <==> StartsNumber(s)
  {
  }

  // ----- The round trip -----

  predicate Mentions(name: string, a: ActionType) {
    exists i :: 0 <= i <= |name| && MatchAt(name, " " + Word(a), i)
  }

  predicate NoEarlierVerb(name: string, k: nat)
    requires k <= 5
  {
    forall j :: 0 <= j < k ==> !Mentions(name, VERBS[j])
  }

  /** No verb starts another. */
  lemma WordsDiffer(a: ActionType, b: ActionType)
    requires Word(a) <= Word(b)
    ensures a == b
  {
    assert Word(a)[0] == Word(b)[0] && Word(a)[1] == Word(b)[1];
  }

  lemma CharsOf(name: string, a: ActionType, amount: int)
    ensures var raw := PrintLine(name, a, amount);
            && |raw| == |name| + 1 + |Word(a)| + |Rest(a, amount)|
            && raw[|name|] == ' '
            && raw[..|name|] == name
            && raw[|name| + 1..|name| + 1 + |Word(a)|] == Word(a)
            && raw[|name| + 1 + |Word(a)|..] == Rest(a, amount)
  {
  }

  lemma RestChars(a: ActionType, amount: int)
    ensures var r := Rest(a, amount);
            && (r != [] ==> r[0] == ' ')
            && (forall k :: 1 <= k < |r| ==> IsDigit(r[k]) || r[k] == '-')
            && (r != [] ==> |r| > 1)
            && (forall k :: 2 <= k < |r| ==> IsDigit(r[k]))
  {
  }

  lemma MatchChar(s: string, p: string, i: nat, k: nat)
    requires k < |p|
    ensures MatchAt(s, p, i) ==> i + k < |s| && s[i + k] == p[k]
  {
    assert MatchAt(s, p, i) ==> s[i..i + |p|][k] == s[i + k];
  }

  lemma NotInWord(name: string, a: ActionType, amount: int, v: ActionType, i: nat)
    requires |name| < i <= |name| + |Word(a)|
    ensures !MatchAt(PrintLine(name, a, amount), " " + Word(v), i)
  {
    hide PrintLine, Rest, Word, MatchAt;
    var raw := PrintLine(name, a, amount);
    CharsOf(name, a, amount);
    MatchChar(raw, " " + Word(v), i, 0);
    assert raw[i] == Word(a)[i - |name| - 1];
  }

  lemma NotInRest(name: string, a: ActionType, amount: int, v: ActionType, k: nat)
    ensures !MatchAt(PrintLine(name, a, amount), " " + Word(v), |name| + 1 + |Word(a)| + k)
  {
    hide PrintLine, Rest, Word, MatchAt;
    var raw, p, rest := PrintLine(name, a, amount), " " + Word(v), Rest(a, amount);
    var at := |name| + 1 + |Word(a)|;
    CharsOf(name, a, amount);
    RestChars(a, amount);
    MatchChar(raw, p, at + k, 0);
    MatchChar(raw, p, at + k, 2);
    assert p[2] == Word(v)[1];
    assert forall j :: 0 <= j < |rest| ==> raw[at..][j] == raw[at + j];
  }

  /** The only blanks after the name stand before the verb and before the amount. */
  lemma NotLater(name: string, a: ActionType, amount: int, v: ActionType, i: nat)
    requires i > |name|
    ensures !MatchAt(PrintLine(name, a, amount), " " + Word(v), i)
  {
    hide PrintLine, Word, MatchAt;
    if i <= |name| + |Word(a)| {
      NotInWord(name, a, amount, v, i);
    } else {
      NotInRest(name, a, amount, v, i - |name| - 1 - |Word(a)|);
    }
  }

  /** No verb straddles the end of the name. */
  lemma NotAcross(name: string, a: ActionType, amount: int, v: ActionType, i: nat)
    requires i < |name|
    ensures MatchAt(PrintLine(name, a, amount), " " + Word(v), i) ==> MatchAt(name, " " + Word(v), i)
  {
    hide PrintLine, Rest, Word;
    var raw, p := PrintLine(name, a, amount), " " + Word(v);
    var n := |name|;
    CharsOf(name, a, amount);
    if i + |p| > n {
      assert p[n - i] == Word(v)[n - i - 1];
      MatchChar(raw, p, i, n - i);
    } else {
      assert raw[i..i + |p|] == raw[..n][i..i + |p|];
    }
  }

  /** Right after the name only the printed verb is found. */
  lemma OnlyPrinted(name: string, a: ActionType, amount: int, v: ActionType)
    ensures MatchAt(PrintLine(name, a, amount), " " + Word(v), |name|) ==> v == a
  {
    hide PrintLine, Rest, Word;
    var raw, n := PrintLine(name, a, amount), |name|;
    CharsOf(name, a, amount);
    RestChars(a, amount);
    if MatchAt(raw, " " + Word(v), n) {
      AfterTheName(raw, n, a, v, Rest(a, amount));
    }
  }

  /** A word longer than what stands between two blanks is not found there. */
  lemma TooLong(raw: string, n: nat, w: string, x: string, rest: string)
    requires |raw| == n + 1 + |w| + |rest| && raw[n + 1 + |w|..] == rest && (rest != [] ==> rest[0] == ' ')
    requires |x| > |w| && x[|w|] != ' '
    ensures !MatchAt(raw, " " + x, n)
  {
    hide MatchAt;
    MatchChar(raw, " " + x, n, |w| + 1);
    if rest != [] {
      assert raw[n + 1 + |w|] == rest[0];
    }
  }

  lemma AfterTheName(raw: string, n: nat, a: ActionType, v: ActionType, rest: string)
    requires |raw| == n + 1 + |Word(a)| + |rest|
    requires raw[n + 1..n + 1 + |Word(a)|] == Word(a) && raw[n + 1 + |Word(a)|..] == rest
    requires rest != [] ==> rest[0] == ' '
    requires MatchAt(raw, " " + Word(v), n)
    ensures v == a
  {
    hide Word, MatchAt;
    var w, x := Word(a), Word(v);
    forall k | 0 <= k < |x| ensures n + 1 + k < |raw| && raw[n + 1 + k] == x[k] {
      MatchChar(raw, " " + x, n, k + 1);
    }
    if |x| > |w| {
      TooLong(raw, n, w, x, rest);
    }
    forall k | 0 <= k < |x| ensures x[k] == w[k] {
      assert raw[n + 1..n + 1 + |w|][k] == raw[n + 1 + k];
    }
    assert x == w[..|x|];
    WordsDiffer(v, a);
  }

  /** A verb is found in the printed line inside the name, or right after it as the verb
      printed there. */
  lemma FoundWhere(name: string, a: ActionType, amount: int, v: ActionType, i: nat)
    requires MatchAt(PrintLine(name, a, amount), " " + Word(v), i)
    ensures MatchAt(name, " " + Word(v), i) || (i == |name| && v == a)
  {
    hide PrintLine, Word, MatchAt;
    if i < |name| {
      NotAcross(name, a, amount, v, i);
    } else if i == |name| {
      OnlyPrinted(name, a, amount, v);
    }
    assert i <= |name| by {
      if i > |name| {
        NotLater(name, a, amount, v, i);
      }
    }
  }

  lemma PrintedIsFound(name: string, a: ActionType, amount: int)
    ensures MatchAt(PrintLine(name, a, amount), " " + Word(a), |name|)
  {
    hide Word, Rest;
  }

  lemma MentionIsFound(name: string, a: ActionType, amount: int, v: ActionType, i: nat)
    requires MatchAt(name, " " + Word(v), i)
    ensures MatchAt(PrintLine(name, a, amount), " " + Word(v), i)
  {
    hide Word, Rest;
    var p := " " + Word(v);
    assert PrintLine(name, a, amount)[i..i + |p|] == name[i..i + |p|];
  }

  /** Where the parser finds a verb in a printed line: nowhere, exactly if it is neither printed
      nor in the name; right after the name, exactly if it is printed and not in the name. */
  lemma FirstFound(name: string, a: ActionType, amount: int, v: ActionType)
    ensures var idx := FindFrom(PrintLine(name, a, amount), " " + Word(v), 0);
            && (Mentions(name, v) ==> 0 <= idx < |name|)
            && (!Mentions(name, v) ==> idx == if v == a then |name| else -1)
  {
    hide PrintLine, Word, FindFrom;
    var raw := PrintLine(name, a, amount);
    var idx := FindFrom(raw, " " + Word(v), 0);
    PrintedIsFound(name, a, amount);
    if idx >= 0 {
      FoundWhere(name, a, amount, v, idx);
    }
    if Mentions(name, v) {
      var i :| 0 <= i <= |name| && MatchAt(name, " " + Word(v), i);
      MentionIsFound(name, a, amount, v, i);
    }
  }

  /** A printed verb that is found in its place parses back to the amount. */
  lemma ParsedInPlace(name: string, a: ActionType, amount: int)
    requires MatchAt(PrintLine(name, a, amount), " " + Word(a), |name|)
    ensures Parsed(PrintLine(name, a, amount), a, |name|)
         == Step(Trim(name), a, if HasAmount(a) then amount else 0)
  {
    hide PrintLine, Word, Trim, PrintInt, ParseInt;
    CharsOf(name, a, amount);
    if HasAmount(a) {
      TrimNumber(amount);
      IntRoundTrip(amount);
      NumberIsNotEmpty(amount);
    } else {
      NothingToTrim();
    }
  }

  lemma NumberIsNotEmpty(n: int)
    ensures PrintInt(n) != []
  {
  }

  lemma NothingToTrim()
    ensures Trim("") == ""
  {
  }

  function Place(a: ActionType): (k: nat)
    ensures k < 5 && VERBS[k] == a
  {
    match a
    case Fold => 0
    case Check => 1
    case Call => 2
    case Raise => 3
    case AllIn => 4
  }

  lemma {:induction false} SkipEarlier(name: string, a: ActionType, amount: int, k: nat)
    requires k <= Place(a)
    ensures NoEarlierVerb(name, k) ==> ParseFrom(PrintLine(name, a, amount), 0) == ParseFrom(PrintLine(name, a, amount), k)
    ensures !NoEarlierVerb(name, k) ==>
              var r := ParseFrom(PrintLine(name, a, amount), 0);
              r.Some? && r.value.verb != a
  {
    hide PrintLine, Word, FindFrom, Parsed, Mentions;
    if k > 0 {
      SkipEarlier(name, a, amount, k - 1);
      FirstFound(name, a, amount, VERBS[k - 1]);
      ParsedVerbs(PrintLine(name, a, amount), VERBS[k - 1]);
    }
  }

  lemma ParsedVerbs(raw: string, v: ActionType)
    ensures forall idx: nat :: MatchAt(raw, " " + Word(v), idx) ==> Parsed(raw, v, idx).verb == v
  {
    hide Trim, ParseInt, Word;
  }

  lemma ActorIsShort(raw: string, v: ActionType, idx: nat)
    requires MatchAt(raw, " " + Word(v), idx)
    ensures |Parsed(raw, v, idx).actor| <= idx
  {
    hide ParseInt, Word, Trim;
    var i, j := TrimMeans(raw[..idx]);
  }

  /** Parsing a printed line gives back actor, verb and amount exactly when the name has no blank
      at either end and mentions, after a blank, neither the verb nor one searched for before
      it. */
  lemma LineRoundTrip(name: string, a: ActionType, amount: int)
    ensures ParseFrom(PrintLine(name, a, amount), 0) == Some(Step(name, a, if HasAmount(a) then amount else 0))
       <==> Trim(name) == name && NoEarlierVerb(name, Place(a) + 1)
  {
    hide PrintLine, Word, FindFrom, Parsed, Mentions, Trim, VERBS;
    var raw, k := PrintLine(name, a, amount), Place(a);
    SkipEarlier(name, a, amount, k);
    FirstFound(name, a, amount, a);
    var idx := FindFrom(raw, " " + Word(a), 0);
    if NoEarlierVerb(name, k) {
      if Mentions(name, a) {
        ActorIsShort(raw, a, idx);
      } else {
        PrintedIsFound(name, a, amount);
        ParsedInPlace(name, a, amount);
      }
    }
  }

  /** A name the parser misreads. */
  lemma MisreadName()
    ensures ParseFrom(PrintLine("Doc fold", Raise, 50), 0) != Some(Step("Doc fold", Raise, 50))
  {
    hide ParseFrom, PrintLine, Trim, Mentions;
    LineRoundTrip("Doc fold", Raise, 50);
    DocFold();
    assert VERBS[0] == Fold;
  }

  lemma DocFold()
    ensures Mentions("Doc fold", Fold)
  {
    assert " " + Word(Fold) == " fold";
    assert "Doc fold"[3..8] == " fold";
    assert MatchAt("Doc fold", " " + Word(Fold), 3);
  }
}
