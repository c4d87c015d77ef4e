/**
 The summary of a revealed round as a function of the deck and the multiset of
 votes. Every quantity is read off the deck, card by card, so neither the order
 of the clients nor the order in which a vote map is iterated can matter.
 */
module Summaries {
  import opened Wrappers
  import opened Decks

  /** `Unset` is the empty string a hidden room carries. */
  datatype Consensus = Unset | Unavailable | Low | Medium | High

  datatype Summary = Summary(
    result: Option<real>,
    mostAppearing: seq<string>,
    consensus: Consensus,
    lowest: Option<string>,
    highest: Option<string>,
    range: Option<int>,
    spread: Option<int>,
    special: nat)

  const CLEARED: Summary := Summary(None, [], Unset, None, None, None, None, 0)

  // ---- tallies over the ordered cards -------------------------------------

  function Total<T(==)>(cards: seq<T>, m: multiset<T>): nat {
    if cards == [] then 0 else m[cards[0]] + Total(cards[1..], m)
  }

  function Peak<T(==)>(cards: seq<T>, m: multiset<T>): nat {
    if cards == [] then 0
    else
      var rest := Peak(cards[1..], m);
      if m[cards[0]] > rest then m[cards[0]] else rest
  }

  /** The cards of multiplicity `peak`, in deck order. */
  function Modes<T(==)>(cards: seq<T>, m: multiset<T>, peak: nat): seq<T> {
    if cards == [] then []
    else if m[cards[0]] > 0 && m[cards[0]] == peak then [cards[0]] + Modes(cards[1..], m, peak)
    else Modes(cards[1..], m, peak)
  }

  /** The cards somebody voted for, in deck order. */
  function Present<T(==)>(cards: seq<T>, m: multiset<T>): seq<T> {
    if cards == [] then []
    else if m[cards[0]] > 0 then [cards[0]] + Present(cards[1..], m)
    else Present(cards[1..], m)
  }

  function NumericCount(cards: seq<string>, m: multiset<string>): nat {
    if cards == [] then 0
    else (if Atoi(cards[0]).Some? then m[cards[0]] else 0) + NumericCount(cards[1..], m)
  }

  function NumericSum(cards: seq<string>, m: multiset<string>): int {
    if cards == [] then 0
    else (if Atoi(cards[0]).Some? then Atoi(cards[0]).value * m[cards[0]] else 0) + NumericSum(cards[1..], m)
  }

  // ---- the summary ---------------------------------------------------------

  function Mean(sum: int, count: nat): Option<real> {
    if count > 0 then Some(sum as real / count as real) else None
  }

  function Range(lowest: string, highest: string): Option<int> {
    if Atoi(lowest).Some? && Atoi(highest).Some?
    then Some(Atoi(highest).value - Atoi(lowest).value)
    else None
  }

  /** At least two thirds of `n` votes, rounded up. */
  predicate StrongMajority(peak: nat, n: nat) {
    peak >= (2 * n + 2) / 3
  }

  function ConsensusLevel(lowest: string, highest: string, spread: int, strong: bool): Consensus {
    if lowest == highest then High
    else if strong && spread <= 1 then High
    else if spread <= 2 then Medium
    else Low
  }

  function Spread<T(==)>(cards: seq<T>, lowest: T, highest: T): int
    requires lowest in cards && highest in cards
  {
    IndexOf(cards, highest).value - IndexOf(cards, lowest).value
  }

  lemma {:induction false} PresentIsExact<T(!new)>(cards: seq<T>, m: multiset<T>)
    ensures forall c :: c in Present(cards, m) <==> c in cards && m[c] > 0
  {
    if cards != [] {
      PresentIsExact(cards[1..], m);
      assert forall c :: c in cards <==> c == cards[0] || c in cards[1..];
    }
  }

  function SummaryOf(deck: Deck, m: multiset<string>): Summary {
    var cards := Estimates(deck.cards);
    var n := Total(cards, m);
    var present := Present(cards, m);
    var special := if |m| >= n then |m| - n else 0;
    if present == [] then
      Summary(Mean(NumericSum(cards, m), NumericCount(cards, m)), [], Unavailable, None, None, None, None, special)
    else
      PresentIsExact(cards, m);
      var lowest, highest := present[0], present[|present| - 1];
      var spread := Spread(cards, lowest, highest);
      Summary(
        Mean(NumericSum(cards, m), NumericCount(cards, m)),
        Modes(cards, m, Peak(cards, m)),
        ConsensusLevel(lowest, highest, spread, StrongMajority(Peak(cards, m), n)),
        Some(lowest), Some(highest), Range(lowest, highest), Some(spread), special)
  }

  // ---- how one more vote changes the tallies --------------------------------

  lemma {:induction false} AddVote(cards: seq<string>, m: multiset<string>, v: string)
    requires Distinct(cards)
    ensures Total(cards, m + multiset{v}) == Total(cards, m) + (if v in cards then 1 else 0)
    ensures NumericCount(cards, m + multiset{v})
         == NumericCount(cards, m) + (if v in cards && Atoi(v).Some? then 1 else 0)
    ensures NumericSum(cards, m + multiset{v})
         == NumericSum(cards, m) + (if v in cards && Atoi(v).Some? then Atoi(v).value else 0)
  {
    if cards != [] {
      AddVote(cards[1..], m, v);
      var c := cards[0];
      assert c !in cards[1..];
      if c == v && Atoi(c).Some? {
        assert Atoi(c).value * (m[c] + 1) == Atoi(c).value * m[c] + Atoi(c).value;
      }
    }
  }

  lemma {:induction false} NoVotes(cards: seq<string>)
    ensures Total(cards, multiset{}) == 0 && Peak(cards, multiset{}) == 0
    ensures NumericCount(cards, multiset{}) == 0 && NumericSum(cards, multiset{}) == 0
    ensures Present(cards, multiset{}) == []
  {
    if cards != [] {
      NoVotes(cards[1..]);
    }
  }

  // ---- modes ----------------------------------------------------------------

  lemma {:induction false} PeakBounds<T(!new)>(cards: seq<T>, m: multiset<T>)
    ensures forall c :: c in cards ==> m[c] <= Peak(cards, m)
    ensures Peak(cards, m) > 0 ==> exists c :: c in cards && m[c] == Peak(cards, m)
  {
    if cards != [] {
      PeakBounds(cards[1..], m);
      assert forall c :: c in cards <==> c == cards[0] || c in cards[1..];
    }
  }

  lemma {:induction false} ModesAreExact<T(!new)>(cards: seq<T>, m: multiset<T>, peak: nat)
    ensures forall c :: c in Modes(cards, m, peak) <==> c in cards && m[c] == peak && peak > 0
  {
    if cards != [] {
      ModesAreExact(cards[1..], m, peak);
      assert forall c :: c in cards <==> c == cards[0] || c in cards[1..];
    }
  }

  /** The elements of `xs` are cards, each at a later deck position than the one before. */
  ghost predicate Increasing<T(!new)>(cards: seq<T>, xs: seq<T>) {
    && (forall i :: 0 <= i < |xs| ==> xs[i] in cards)
    && (forall i, j :: 0 <= i < j < |xs| ==> IndexOf(cards, xs[i]).value < IndexOf(cards, xs[j]).value)
  }

  lemma IncreasingInTail<T(!new)>(cards: seq<T>, xs: seq<T>)
    requires cards != [] && Distinct(cards) && Increasing(cards[1..], xs)
    ensures Increasing(cards, xs) && Increasing(cards, [cards[0]] + xs)
    ensures cards[0] !in xs
  {
    var tail := cards[1..];
    assert forall c :: c in tail ==> c != cards[0] && c in cards
                                     && IndexOf(cards, c).value == IndexOf(tail, c).value + 1;
    assert IndexOf(cards, cards[0]).value == 0;
    hide IndexOf, Distinct;
    var ys := [cards[0]] + xs;
    forall i, j | 0 <= i < j < |ys|
      ensures IndexOf(cards, ys[i]).value < IndexOf(cards, ys[j]).value
    {
      if i > 0 {
        assert ys[i] == xs[i - 1] && ys[j] == xs[j - 1];
      }
    }
  }

  lemma {:induction false} ModesIncrease<T(!new)>(cards: seq<T>, m: multiset<T>, peak: nat)
    requires Distinct(cards)
    ensures Increasing(cards, Modes(cards, m, peak))
  {
    if cards != [] {
      ModesIncrease(cards[1..], m, peak);
      IncreasingInTail(cards, Modes(cards[1..], m, peak));
    }
  }

  lemma {:induction false} PresentIncreases<T(!new)>(cards: seq<T>, m: multiset<T>)
    requires Distinct(cards)
    ensures Increasing(cards, Present(cards, m))
  {
    if cards != [] {
      PresentIncreases(cards[1..], m);
      IncreasingInTail(cards, Present(cards[1..], m));
    }
  }

  /** A list in deck order is determined by its elements. */
  lemma {:induction false} IncreasingIsUnique<T(!new)>(cards: seq<T>, xs: seq<T>, ys: seq<T>)
    requires Increasing(cards, xs) && Increasing(cards, ys)
    requires forall c :: c in xs <==> c in ys
    ensures xs == ys
  {
    hide Increasing, IndexOf;
    assert forall i :: 0 <= i < |xs| ==> xs[i] in ys;
    assert forall i :: 0 <= i < |ys| ==> ys[i] in xs;
    if xs != [] && ys != [] {
      SameFirst(cards, xs, ys);
      IncreasingTail(cards, xs);
      IncreasingTail(cards, ys);
      IncreasingIsUnique(cards, xs[1..], ys[1..]);
      assert xs == [xs[0]] + xs[1..] && ys == [ys[0]] + ys[1..];
    }
  }

  lemma SameFirst<T(!new)>(cards: seq<T>, xs: seq<T>, ys: seq<T>)
    requires Increasing(cards, xs) && Increasing(cards, ys) && xs != [] && ys != []
    requires xs[0] in ys && ys[0] in xs
    ensures xs[0] == ys[0]
  {
    hide IndexOf;
    var i :| 0 <= i < |xs| && xs[i] == ys[0];
    var j :| 0 <= j < |ys| && ys[j] == xs[0];
  }

  lemma IncreasingTail<T(!new)>(cards: seq<T>, xs: seq<T>)
    requires xs != [] && Increasing(cards, xs)
    ensures Increasing(cards, xs[1..])
    ensures forall c :: c in xs[1..] <==> c in xs && c != xs[0]
  {
    assert xs == [xs[0]] + xs[1..];
    assert xs[0] !in xs[1..];
  }

  // ---- counting --------------------------------------------------------------

  lemma {:induction false} TotalCoversOne<T(!new)>(cards: seq<T>, m: multiset<T>, a: T)
    requires a in cards
    ensures m[a] <= Total(cards, m)
  {
    if a != cards[0] {
      TotalCoversOne(cards[1..], m, a);
    }
  }

  lemma {:induction false} TotalCoversTwo<T(!new)>(cards: seq<T>, m: multiset<T>, a: T, b: T)
    requires a in cards && b in cards && a != b
    ensures m[a] + m[b] <= Total(cards, m)
  {
    if a == cards[0] {
      TotalCoversOne(cards[1..], m, b);
    } else if b == cards[0] {
      TotalCoversOne(cards[1..], m, a);
    } else {
      TotalCoversTwo(cards[1..], m, a, b);
    }
  }

  lemma {:induction false} TotalOfPresent<T(!new)>(cards: seq<T>, m: multiset<T>)
    ensures Total(cards, m) > 0 <==> Present(cards, m) != []
    ensures Total(cards, m) > 0 ==> Peak(cards, m) > 0
  {
    if cards != [] {
      TotalOfPresent(cards[1..], m);
    }
  }

  /** Cards outside the ordered deck only ever add to the size of the multiset. */
  lemma {:induction false} TotalWithinSize<T(!new)>(cards: seq<T>, m: multiset<T>)
    requires Distinct(cards)
    ensures Total(cards, m) <= |m|
  {
    if cards != [] {
      var c := cards[0];
      var rest := m[c := 0];
      TotalWithinSize(cards[1..], rest);
      SameTotal(cards[1..], m, rest);
      assert |m| == |rest| + m[c];
    }
  }

  lemma {:induction false} SameTotal<T(!new)>(cards: seq<T>, m: multiset<T>, m': multiset<T>)
    requires forall c :: c in cards ==> m[c] == m'[c]
    ensures Total(cards, m) == Total(cards, m')
  {
    if cards != [] {
      SameTotal(cards[1..], m, m');
    }
  }

  // ---- main results ------------------------------------------------------------

  /** The integer bound used by the code is exactly "at least two thirds". */
  lemma MajorityBound(peak: nat, n: nat)
    ensures StrongMajority(peak, n) <==> 3 * peak >= 2 * n
  {
  }

  /** A two-thirds majority leaves room for no second mode. */
  lemma StrongMajorityHasOneMode<T(!new)>(cards: seq<T>, m: multiset<T>)
    requires Distinct(cards) && Total(cards, m) > 0
    requires StrongMajority(Peak(cards, m), Total(cards, m))
    ensures |Modes(cards, m, Peak(cards, m))| == 1
  {
    var peak := Peak(cards, m);
    var modes := Modes(cards, m, peak);
    TotalOfPresent(cards, m);
    PeakBounds(cards, m);
    ModesAreExact(cards, m, peak);
    ModesIncrease(cards, m, peak);
    var c :| c in cards && m[c] == peak;
    assert c in modes;
    if |modes| > 1 {
      assert modes[0] in modes && modes[1] in modes && modes[0] != modes[1];
      TotalCoversTwo(cards, m, modes[0], modes[1]);
    }
  }

  lemma OnePresentHasOneMode<T(!new)>(cards: seq<T>, m: multiset<T>)
    requires Distinct(cards) && |Present(cards, m)| == 1
    ensures Modes(cards, m, Peak(cards, m)) == Present(cards, m)
  {
    var peak := Peak(cards, m);
    var present := Present(cards, m);
    TotalOfPresent(cards, m);
    PresentIsExact(cards, m);
    PeakBounds(cards, m);
    ModesAreExact(cards, m, peak);
    ModesIncrease(cards, m, peak);
    PresentIncreases(cards, m);
    var c :| c in cards && m[c] == peak;
    assert c in present && c == present[0];
    forall d
      ensures d in Modes(cards, m, peak) <==> d in present
    {
      if d in present {
        assert d == present[0];
      }
    }
    IncreasingIsUnique(cards, Modes(cards, m, peak), present);
  }

  /**
   The most-appearing list: exactly the cards of greatest multiplicity, in deck order, never empty once someone
   voted.
   */
  lemma MostAppearingIsExact(deck: Deck, m: multiset<string>)
    requires Distinct(Estimates(deck.cards))
    ensures var cards, modes := Estimates(deck.cards), SummaryOf(deck, m).mostAppearing;
            && Increasing(cards, modes)
            && (modes == [] <==> forall c :: c in cards ==> m[c] == 0)
            && (forall c :: c in modes <==> c in cards && m[c] > 0 && forall d :: d in cards ==> m[d] <= m[c])
  {
    var cards := Estimates(deck.cards);
    var peak := Peak(cards, m);
    ModesIncrease(cards, m, peak);
    ModesAreExact(cards, m, peak);
    PeakBounds(cards, m);
    TotalOfPresent(cards, m);
    PresentIsExact(cards, m);
    var modes := SummaryOf(deck, m).mostAppearing;
    assert forall c :: c in cards && m[c] > 0 ==> c in Present(cards, m);
    if Present(cards, m) != [] {
      var c :| c in cards && m[c] == peak;
      assert c in modes;
    }
    forall c
      ensures c in modes <==> c in cards && m[c] > 0 && forall d :: d in cards ==> m[d] <= m[c]
    {
      if c in cards && m[c] > 0 && (forall d :: d in cards ==> m[d] <= m[c]) {
        assert c in Present(cards, m);
        var d :| d in cards && m[d] == peak;
        assert m[c] == peak;
      }
    }
  }

  lemma BetweenExtremes(cards: seq<string>, m: multiset<string>, c: string)
    requires Distinct(cards) && c in cards && m[c] > 0
    ensures var present := Present(cards, m);
            && |present| > 0 && present[0] in cards && present[|present| - 1] in cards
            && IndexOf(cards, present[0]).value <= IndexOf(cards, c).value
            && IndexOf(cards, c).value <= IndexOf(cards, present[|present| - 1]).value
  {
    hide Distinct, Present, IndexOf;
    var present := Present(cards, m);
    PresentIsExact(cards, m);
    PresentIncreases(cards, m);
    assert c in present;
    var i :| 0 <= i < |present| && present[i] == c;
    assert present[0] in present && present[|present| - 1] in present;
  }

  /** Lowest and highest are the extreme voted cards of the deck. */
  lemma ExtremesAreExact(deck: Deck, m: multiset<string>)
    requires Distinct(Estimates(deck.cards))
    ensures var cards, s := Estimates(deck.cards), SummaryOf(deck, m);
            && (s.lowest.Some? <==> exists c :: c in cards && m[c] > 0)
            && s.lowest.Some? == s.highest.Some? == s.spread.Some?
            && (s.lowest.Some? ==>
                  && s.lowest.value in cards && m[s.lowest.value] > 0
                  && s.highest.value in cards && m[s.highest.value] > 0
                  && s.spread.value == IndexOf(cards, s.highest.value).value - IndexOf(cards, s.lowest.value).value
                  && s.spread.value >= 0
                  && forall c :: c in cards && m[c] > 0 ==>
                                   IndexOf(cards, s.lowest.value).value <= IndexOf(cards, c).value
                                   <= IndexOf(cards, s.highest.value).value)
  {
    hide Estimates, Distinct, Present, Modes, Total, Peak, NumericSum, NumericCount, Mean, Range, ConsensusLevel,
         IndexOf;
    var cards := Estimates(deck.cards);
    var present := Present(cards, m);
    PresentIsExact(cards, m);
    if present == [] {
      assert forall c :: c in cards && m[c] > 0 ==> c in present;
    } else {
      assert present[0] in present && present[|present| - 1] in present;
      forall c | c in cards && m[c] > 0
        ensures IndexOf(cards, present[0]).value <= IndexOf(cards, c).value
                <= IndexOf(cards, present[|present| - 1]).value
      {
        BetweenExtremes(cards, m, c);
      }
    }
  }

  /** High consensus implies exactly one most-appearing vote. */
  lemma HighConsensusHasOneMode(deck: Deck, m: multiset<string>)
    requires Distinct(Estimates(deck.cards))
    requires SummaryOf(deck, m).consensus == High
    ensures |SummaryOf(deck, m).mostAppearing| == 1
  {
    var cards := Estimates(deck.cards);
    var present := Present(cards, m);
    PresentIncreases(cards, m);
    TotalOfPresent(cards, m);
    if |present| == 1 {
      OnePresentHasOneMode(cards, m);
    } else {
      assert IndexOf(cards, present[0]).value < IndexOf(cards, present[|present| - 1]).value;
      StrongMajorityHasOneMode(cards, m);
    }
  }

  /** Some card has at least two thirds of the ordered votes. */
  ghost predicate HasMajority(cards: seq<string>, m: multiset<string>) {
    exists c :: c in cards && 3 * m[c] >= 2 * Total(cards, m)
  }

  ghost predicate OneCardVoted(cards: seq<string>, m: multiset<string>) {
    exists c :: c in cards && m[c] > 0 && forall d :: d in cards && m[d] > 0 ==> d == c
  }

  lemma MajorityIsPeak(cards: seq<string>, m: multiset<string>)
    requires cards != []
    ensures HasMajority(cards, m) <==> StrongMajority(Peak(cards, m), Total(cards, m))
  {
    PeakBounds(cards, m);
    MajorityBound(Peak(cards, m), Total(cards, m));
    if Peak(cards, m) > 0 {
      var c :| c in cards && m[c] == Peak(cards, m);
    } else {
      assert cards[0] in cards;
    }
    hide Peak, Total, StrongMajority;
  }

  lemma OneCardIsBothEnds(cards: seq<string>, m: multiset<string>)
    requires Distinct(cards) && Present(cards, m) != []
    ensures var present := Present(cards, m);
            OneCardVoted(cards, m) <==> present[0] == present[|present| - 1]
  {
    var present := Present(cards, m);
    PresentIsExact(cards, m);
    hide Present;
    assert present[0] in present && present[|present| - 1] in present;
    forall c | c in cards && m[c] > 0 && present[0] == present[|present| - 1]
      ensures c == present[0]
    {
      BetweenExtremes(cards, m, c);
    }
  }

  predicate Within(spread: Option<int>, n: int) {
    spread.Some? && spread.value <= n
  }

  ghost predicate SomeCardVoted(cards: seq<string>, m: multiset<string>) {
    exists c :: c in cards && m[c] > 0
  }

  ghost predicate Agree(cards: seq<string>, m: multiset<string>, spread: Option<int>) {
    OneCardVoted(cards, m) || (HasMajority(cards, m) && Within(spread, 1))
  }

  /**
   Main result for the consensus of a reveal: unavailable without an ordered vote; high with a single voted card, or
   with a two-thirds majority and a spread of at most one; otherwise medium up to a spread of two, and low beyond.
   */
  lemma ConsensusIsExact(deck: Deck, m: multiset<string>)
    requires Distinct(Estimates(deck.cards))
    ensures var cards, s := Estimates(deck.cards), SummaryOf(deck, m);
            && (s.spread.Some? <==> SomeCardVoted(cards, m))
            && (s.consensus == Unavailable <==> !SomeCardVoted(cards, m))
            && (s.consensus == High <==> Agree(cards, m, s.spread))
            && (s.consensus == Medium <==>
                  SomeCardVoted(cards, m) && !Agree(cards, m, s.spread) && Within(s.spread, 2))
            && (s.consensus == Low <==>
                  SomeCardVoted(cards, m) && !Agree(cards, m, s.spread) && !Within(s.spread, 2))
  {
    var cards := Estimates(deck.cards);
    hide Estimates;
    VotedIsPresent(cards, m);
    if Present(cards, m) == [] {
      NothingGraded(deck, m);
    } else {
      Graded(deck, m);
    }
    hide SummaryOf, Distinct, Present, SomeCardVoted, OneCardVoted, HasMajority;
  }

  lemma VotedIsPresent(cards: seq<string>, m: multiset<string>)
    ensures SomeCardVoted(cards, m) <==> Present(cards, m) != []
    ensures OneCardVoted(cards, m) ==> SomeCardVoted(cards, m)
  {
    PresentIsExact(cards, m);
    hide Present;
    if Present(cards, m) != [] {
      assert Present(cards, m)[0] in Present(cards, m);
    }
    if c :| c in cards && m[c] > 0 {
      assert c in Present(cards, m);
    }
  }

  lemma NothingGraded(deck: Deck, m: multiset<string>)
    requires Present(Estimates(deck.cards), m) == []
    ensures SummaryOf(deck, m).consensus == Unavailable && SummaryOf(deck, m).spread == None
  {
    hide Estimates, Present, Mean, NumericSum, NumericCount, Total;
  }

  lemma Graded(deck: Deck, m: multiset<string>)
    requires Distinct(Estimates(deck.cards)) && Present(Estimates(deck.cards), m) != []
    ensures var cards, s := Estimates(deck.cards), SummaryOf(deck, m);
            && s.spread.Some?
            && s.consensus == if Agree(cards, m, s.spread) then High
                              else if Within(s.spread, 2) then Medium else Low
  {
    var cards := Estimates(deck.cards);
    hide Estimates, Distinct, Present, Modes, Total, Peak, NumericSum, NumericCount, Mean, Range, IndexOf,
         StrongMajority, HasMajority, OneCardVoted;
    PresentIsExact(cards, m);
    var present := Present(cards, m);
    assert present[0] in present && present[|present| - 1] in present;
    OneCardIsBothEnds(cards, m);
    MajorityIsPeak(cards, m);
  }

  /** The result is the mean of the numeric votes, and the range the distance of numeric ends. */
  lemma ResultAndRangeAreExact(deck: Deck, m: multiset<string>)
    ensures var cards, s := Estimates(deck.cards), SummaryOf(deck, m);
            && (s.result.Some? <==> NumericCount(cards, m) > 0)
            && (s.result.Some? ==> s.result.value * NumericCount(cards, m) as real == NumericSum(cards, m) as real)
            && (s.range.Some? <==>
                  s.lowest.Some? && s.highest.Some? && Atoi(s.lowest.value).Some? && Atoi(s.highest.value).Some?)
            && (s.range.Some? ==> s.range.value == Atoi(s.highest.value).value - Atoi(s.lowest.value).value)
  {
    hide Estimates, Atoi, NumericSum, NumericCount, Present, Modes, Peak, Total, ConsensusLevel;
  }

  /** Ordered votes and special votes together account for every vote. */
  lemma VotesAreAccountedFor(deck: Deck, m: multiset<string>)
    requires Distinct(Estimates(deck.cards))
    ensures Total(Estimates(deck.cards), m) + SummaryOf(deck, m).special == |m|
  {
    TotalWithinSize(Estimates(deck.cards), m);
  }

  // ---- the Fibonacci deck --------------------------------------------------------

  lemma {:induction false} FibonacciGap(i: nat, j: nat)
    requires i <= j < |FIBONACCI_VALUES|
    ensures FIBONACCI_VALUES[j] - FIBONACCI_VALUES[i] >= j - i
    decreases j - i
  {
    if i < j {
      FibonacciGap(i + 1, j);
    }
  }

  lemma AtLeast(k: int, a: nat, rest: nat, value: int, sum: int)
    requires a > 0 ==> k <= value
    requires k * rest <= sum
    ensures k * (a + rest) <= value * a + sum
  {
    assert k * (a + rest) == k * a + k * rest;
    if a > 0 {
      assert k * a <= value * a;
    }
  }

  lemma {:induction false} NumericDeckCounts(cards: seq<string>, m: multiset<string>)
    requires forall c :: c in cards ==> Atoi(c).Some?
    ensures NumericCount(cards, m) == Total(cards, m)
  {
    if cards != [] {
      NumericDeckCounts(cards[1..], m);
    }
  }

  lemma {:induction false} SumAtLeast(cards: seq<string>, m: multiset<string>, low: int)
    requires forall c :: c in cards ==> Atoi(c).Some?
    requires forall c :: c in cards && m[c] > 0 ==> low <= Atoi(c).value
    ensures low * Total(cards, m) <= NumericSum(cards, m)
  {
    if cards != [] {
      SumAtLeast(cards[1..], m, low);
      AtLeast(low, m[cards[0]], Total(cards[1..], m), Atoi(cards[0]).value, NumericSum(cards[1..], m));
    }
  }

  lemma AtMost(k: int, a: nat, rest: nat, value: int, sum: int)
    requires a > 0 ==> value <= k
    requires sum <= k * rest
    ensures value * a + sum <= k * (a + rest)
  {
    assert k * (a + rest) == k * a + k * rest;
    if a > 0 {
      assert value * a <= k * a;
    }
  }

  lemma {:induction false} SumAtMost(cards: seq<string>, m: multiset<string>, high: int)
    requires forall c :: c in cards ==> Atoi(c).Some?
    requires forall c :: c in cards && m[c] > 0 ==> Atoi(c).value <= high
    ensures NumericSum(cards, m) <= high * Total(cards, m)
  {
    if cards != [] {
      SumAtMost(cards[1..], m, high);
      AtMost(high, m[cards[0]], Total(cards[1..], m), Atoi(cards[0]).value, NumericSum(cards[1..], m));
    }
  }

  lemma ScaleStrict(a: real, b: real, n: real)
    requires a < b && n > 0.0
    ensures a * n < b * n
  {
    assert (b - a) * n > 0.0;
  }

  lemma MeanBetween(sum: int, count: nat, low: int, high: int)
    requires count > 0 && low * count <= sum <= high * count
    ensures low as real <= sum as real / count as real <= high as real
  {
    var q := sum as real / count as real;
    assert q * count as real == sum as real;
    assert low as real * count as real == (low * count) as real;
    assert high as real * count as real == (high * count) as real;
    if q < low as real {
      ScaleStrict(q, low as real, count as real);
    }
    if q > high as real {
      ScaleStrict(high as real, q, count as real);
    }
  }

  /**
   On the Fibonacci deck the mean exists with the first ordered vote and lies between the extremes; the range
   dominates the spread.
   */
  lemma FibonacciSummary(m: multiset<string>)
    ensures var s := SummaryOf(FIBONACCI, m);
            && s.result.Some? == s.lowest.Some? == s.range.Some? == s.spread.Some?
            && (s.result.Some? ==>
                  && Atoi(s.lowest.value).Some? && Atoi(s.highest.value).Some?
                  && Atoi(s.lowest.value).value as real <= s.result.value <= Atoi(s.highest.value).value as real
                  && s.range.value >= s.spread.value >= 0)
  {
    FibonacciDeck();
    var cards := FIBONACCI_ESTIMATES;
    var s := SummaryOf(FIBONACCI, m);
    ExtremesAreExact(FIBONACCI, m);
    TotalOfPresent(cards, m);
    forall c | c in cards
      ensures Atoi(c) == Some(FIBONACCI_VALUES[IndexOf(cards, c).value])
    {
    }
    NumericDeckCounts(cards, m);
    if s.lowest.Some? {
      var i, j := IndexOf(cards, s.lowest.value).value, IndexOf(cards, s.highest.value).value;
      var low, high := FIBONACCI_VALUES[i], FIBONACCI_VALUES[j];
      FibonacciGap(i, j);
      forall c | c in cards && m[c] > 0
        ensures low <= Atoi(c).value <= high
      {
        FibonacciGap(i, IndexOf(cards, c).value);
        FibonacciGap(IndexOf(cards, c).value, j);
      }
      SumAtLeast(cards, m, low);
      SumAtMost(cards, m, high);
      MeanBetween(NumericSum(cards, m), NumericCount(cards, m), low, high);
    }
  }
}
