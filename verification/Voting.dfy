/** The loops that compute a summary, proved against the multiset specification of module Summaries. */
module Voting {
  import opened Wrappers
  import opened Decks
  import opened Summaries

  datatype Metrics = Metrics(
    sum: real,
    count: real,
    counts: map<string, nat>,
    ordered: seq<string>,
    specialCount: nat)

  datatype VoteSummary = VoteSummary(
    consensus: Consensus,
    lowest: Option<string>,
    highest: Option<string>,
    range: Option<int>,
    spread: Option<int>)

  predicate IsCard(deck: Deck, vote: string) {
    vote in Estimates(deck.cards)
  }

  /** The count kept for one label: its multiplicity if it is an ordered card. */
  ghost predicate Counted(deck: Deck, metrics: Metrics, m: multiset<string>, c: string) {
    && (c in metrics.counts <==> IsCard(deck, c) && m[c] > 0)
    && (c in metrics.counts ==> metrics.counts[c] == m[c])
    && multiset(metrics.ordered)[c] == if IsCard(deck, c) then m[c] else 0
  }

  /** `metrics` is what counting the votes in `m` must produce, whatever their order. */
  ghost predicate Tallies(deck: Deck, metrics: Metrics, m: multiset<string>) {
    && metrics.sum == NumericSum(Estimates(deck.cards), m) as real
    && metrics.count == NumericCount(Estimates(deck.cards), m) as real
    && |metrics.ordered| == Total(Estimates(deck.cards), m)
    && metrics.specialCount + Total(Estimates(deck.cards), m) == |m|
    && forall c :: Counted(deck, metrics, m, c)
  }

  const NO_METRICS: Metrics := Metrics(0.0, 0.0, map[], [], 0)

  lemma NothingTallied(deck: Deck)
    ensures Tallies(deck, NO_METRICS, multiset{})
  {
    NoVotes(Estimates(deck.cards));
    assert forall c :: Counted(deck, NO_METRICS, multiset{}, c);
  }

  lemma TallySpecial(deck: Deck, metrics: Metrics, m: multiset<string>, vote: string)
    requires Distinct(Estimates(deck.cards)) && Tallies(deck, metrics, m) && !IsCard(deck, vote)
    ensures Tallies(deck, metrics.(specialCount := metrics.specialCount + 1), m + multiset{vote})
  {
    assert IsCard(deck, vote) <==> vote in Estimates(deck.cards);
    AddVote(Estimates(deck.cards), m, vote);
    hide Total, NumericCount, NumericSum, Estimates, Atoi, IsCard;
    var r, m' := metrics.(specialCount := metrics.specialCount + 1), m + multiset{vote};
    forall c
      ensures Counted(deck, r, m', c)
    {
      assert Counted(deck, metrics, m, c);
    }
  }

  lemma TallyOrdered(deck: Deck, metrics: Metrics, m: multiset<string>, vote: string, r: Metrics)
    requires Distinct(Estimates(deck.cards)) && Tallies(deck, metrics, m) && IsCard(deck, vote)
    requires r.sum == metrics.sum + (if Atoi(vote).Some? then Atoi(vote).value as real else 0.0)
    requires r.count == metrics.count + (if Atoi(vote).Some? then 1.0 else 0.0)
    requires r.counts == metrics.counts[vote := (if vote in metrics.counts then metrics.counts[vote] else 0) + 1]
    requires r.ordered == metrics.ordered + [vote] && r.specialCount == metrics.specialCount
    ensures Tallies(deck, r, m + multiset{vote})
  {
    assert IsCard(deck, vote) <==> vote in Estimates(deck.cards);
    AddVote(Estimates(deck.cards), m, vote);
    hide Total, NumericCount, NumericSum, Estimates, Atoi, IsCard;
    assert Counted(deck, metrics, m, vote);
    var m' := m + multiset{vote};
    forall c
      ensures Counted(deck, r, m', c)
    {
      assert Counted(deck, metrics, m, c);
      assert multiset(r.ordered)[c] == multiset(metrics.ordered)[c] + multiset{vote}[c];
    }
  }

  /** One iteration of the collecting loop, for a non-empty vote of an active client. */
  method CountVote(deck: Deck, metrics: Metrics, vote: string, ghost m: multiset<string>) returns (r: Metrics)
    requires Distinct(Estimates(deck.cards)) && Tallies(deck, metrics, m)
    ensures Tallies(deck, r, m + multiset{vote})
  {
    hide Tallies, Estimates, Atoi;
    var position := FindPosition(deck, vote);
    if position.None? {
      TallySpecial(deck, metrics, m, vote);
      return metrics.(specialCount := metrics.specialCount + 1);
    }
    r := metrics;
    match Atoi(vote) {
      case Some(value) => r := r.(sum := r.sum + value as real, count := r.count + 1.0);
      case None =>
    }
    var before := if vote in r.counts then r.counts[vote] else 0;
    r := r.(counts := r.counts[vote := before + 1], ordered := r.ordered + [vote]);
    TallyOrdered(deck, metrics, m, vote, r);
  }

  /** The greatest count in the map; the iteration order is arbitrary. */
  method MostVoteCount(counts: map<string, nat>) returns (most: nat)
    ensures forall v :: v in counts ==> counts[v] <= most
    ensures most > 0 ==> exists v :: v in counts && counts[v] == most
  {
    most := 0;
    var remaining := counts.Keys;
    while remaining != {}
      invariant remaining <= counts.Keys
      invariant forall v :: v in counts && v !in remaining ==> counts[v] <= most
      invariant most > 0 ==> exists v :: v in counts && counts[v] == most
      decreases |remaining|
    {
      var v :| v in remaining;
      if counts[v] > most {
        most := counts[v];
      }
      remaining := remaining - {v};
    }
  }

  function InsertByPosition<T(==)>(cards: seq<T>, xs: seq<T>, v: T): seq<T>
    requires v in cards && forall x :: x in xs ==> x in cards
  {
    if xs == [] then [v]
    else if IndexOf(cards, v).value < IndexOf(cards, xs[0]).value then [v] + xs
    else [xs[0]] + InsertByPosition(cards, xs[1..], v)
  }

  lemma PrependIncreasing<T(!new)>(cards: seq<T>, x: T, xs: seq<T>)
    requires x in cards && Increasing(cards, xs)
    requires forall c :: c in xs ==> IndexOf(cards, x).value < IndexOf(cards, c).value
    ensures Increasing(cards, [x] + xs)
  {
    hide IndexOf;
    var ys := [x] + xs;
    forall i, j | 0 <= i < j < |ys|
      ensures IndexOf(cards, ys[i]).value < IndexOf(cards, ys[j]).value
    {
      assert ys[j] == xs[j - 1] && xs[j - 1] in xs;
      if i > 0 {
        assert ys[i] == xs[i - 1];
      }
    }
  }

  lemma TailIncreasing<T(!new)>(cards: seq<T>, xs: seq<T>)
    requires xs != [] && Increasing(cards, xs)
    ensures Increasing(cards, xs[1..])
    ensures xs[0] in cards
    ensures forall c :: c in xs[1..] ==> c in cards && IndexOf(cards, xs[0]).value < IndexOf(cards, c).value
    ensures forall c :: c in xs <==> c == xs[0] || c in xs[1..]
  {
    hide IndexOf;
    var tail := xs[1..];
    assert xs == [xs[0]] + tail;
    forall c | c in tail
      ensures c in cards && IndexOf(cards, xs[0]).value < IndexOf(cards, c).value
    {
      var i :| 0 <= i < |tail| && tail[i] == c;
      assert xs[i + 1] == c;
    }
  }

  lemma {:induction false} InsertKeepsOrder<T(!new)>(cards: seq<T>, xs: seq<T>, v: T)
    requires v in cards && Increasing(cards, xs) && v !in xs
    ensures Increasing(cards, InsertByPosition(cards, xs, v))
    ensures forall c :: c in InsertByPosition(cards, xs, v) <==> c == v || c in xs
  {
    if xs != [] {
      var x, tail, r := xs[0], xs[1..], InsertByPosition(cards, xs, v);
      TailIncreasing(cards, xs);
      assert cards[IndexOf(cards, v).value] != cards[IndexOf(cards, x).value];
      if IndexOf(cards, v).value < IndexOf(cards, x).value {
        hide IndexOf, Increasing, InsertByPosition;
        PrependIncreasing(cards, v, xs);
      } else {
        var rest := InsertByPosition(cards, tail, v);
        assert r == [x] + rest;
        hide IndexOf, Increasing, InsertByPosition;
        InsertKeepsOrder(cards, tail, v);
        PrependIncreasing(cards, x, rest);
      }
    }
  }

  /** The labels that reach the greatest count, sorted by deck position. */
  method MostAppearingVotes(counts: map<string, nat>, most: nat, deck: Deck) returns (votes: seq<string>)
    requires forall v :: v in counts ==> v in Estimates(deck.cards)
    ensures Increasing(Estimates(deck.cards), votes)
    ensures forall v :: v in votes <==> v in counts && counts[v] == most
  {
    votes := [];
    var remaining := counts.Keys;
    while remaining != {}
      invariant remaining <= counts.Keys
      invariant Increasing(Estimates(deck.cards), votes)
      invariant forall v :: v in votes <==> v in counts && v !in remaining && counts[v] == most
      decreases |remaining|
    {
      var v :| v in remaining;
      if counts[v] == most {
        InsertKeepsOrder(Estimates(deck.cards), votes, v);
        votes := InsertByPosition(Estimates(deck.cards), votes, v);
      }
      remaining := remaining - {v};
    }
  }

  /** `most` is the multiplicity of a most frequent element. */
  ghost predicate GreatestMultiplicity<T(!new)>(m: multiset<T>, most: nat) {
    && (forall v :: m[v] <= most)
    && (most > 0 ==> exists v :: m[v] == most)
  }

  method CountLabels(votes: seq<string>) returns (counts: map<string, nat>)
    ensures forall v :: v in counts <==> v in votes
    ensures forall v :: v in counts ==> counts[v] == multiset(votes)[v]
  {
    counts := map[];
    for i := 0 to |votes|
      invariant forall v :: v in counts <==> v in votes[..i]
      invariant forall v :: v in counts ==> counts[v] == multiset(votes[..i])[v]
    {
      var v := votes[i];
      assert votes[..i + 1] == votes[..i] + [v];
      counts := counts[v := (if v in counts then counts[v] else 0) + 1];
    }
    assert votes[..|votes|] == votes;
  }

  /** The cards of `votes` extend from `lowest` to `highest`. */
  ghost predicate Extremes<T(!new)>(cards: seq<T>, votes: seq<T>, lowest: T, highest: T) {
    && lowest in votes && lowest in cards && highest in votes && highest in cards
    && forall v :: v in votes && v in cards ==>
                     IndexOf(cards, lowest).value <= IndexOf(cards, v).value <= IndexOf(cards, highest).value
  }

  method ExtremeVotes(deck: Deck, votes: seq<string>)
    returns (found: bool, lowest: string, highest: string, spread: int)
    ensures found <==> exists v :: v in votes && v in Estimates(deck.cards)
    ensures found ==> Extremes(Estimates(deck.cards), votes, lowest, highest)
    ensures found ==>
              spread == IndexOf(Estimates(deck.cards), highest).value - IndexOf(Estimates(deck.cards), lowest).value
  {
    ghost var cards := Estimates(deck.cards);
    var minPosition: int, maxPosition: int := -1, -1;
    lowest, highest := "", "";
    for i := 0 to |votes|
      invariant minPosition == -1 <==> maxPosition == -1
      invariant minPosition == -1 <==> forall v :: v in votes[..i] ==> v !in cards
      invariant minPosition != -1 ==>
                  && Extremes(cards, votes[..i], lowest, highest)
                  && minPosition == IndexOf(cards, lowest).value
                  && maxPosition == IndexOf(cards, highest).value
    {
      assert votes[..i + 1] == votes[..i] + [votes[i]];
      var found := FindPosition(deck, votes[i]);
      match found {
        case None =>
        case Some(position) =>
          if minPosition == -1 || position < minPosition {
            minPosition, lowest := position, votes[i];
          }
          if position > maxPosition {
            maxPosition, highest := position, votes[i];
          }
      }
    }
    assert votes[..|votes|] == votes;
    found, spread := minPosition != -1, maxPosition - minPosition;
  }

  /** `s` evaluates `votes` between `lowest` and `highest` with `most` votes on a most frequent label. */
  ghost predicate Evaluates(cards: seq<string>, votes: seq<string>, s: VoteSummary,
                            lowest: string, highest: string, most: nat) {
    && Extremes(cards, votes, lowest, highest)
    && GreatestMultiplicity(multiset(votes), most)
    && var spread := Spread(cards, lowest, highest);
       s == VoteSummary(
         ConsensusLevel(lowest, highest, spread, StrongMajority(most, |votes|)),
         Some(lowest), Some(highest), Range(lowest, highest), Some(spread))
  }

  /** Labels without a position are skipped; with no positioned label there is nothing to evaluate. */
  ghost predicate Consents(cards: seq<string>, votes: seq<string>, s: VoteSummary) {
    if exists v :: v in votes && v in cards
    then exists lowest, highest, most :: Evaluates(cards, votes, s, lowest, highest, most)
    else s == VoteSummary(Unavailable, None, None, None, None)
  }

  lemma CountsAreMultiplicities(votes: seq<string>, counts: map<string, nat>, most: nat)
    requires forall v :: v in counts <==> v in votes
    requires forall v :: v in counts ==> counts[v] == multiset(votes)[v]
    requires forall v :: v in counts ==> counts[v] <= most
    requires most > 0 ==> exists v :: v in counts && counts[v] == most
    ensures GreatestMultiplicity(multiset(votes), most)
  {
    forall v
      ensures multiset(votes)[v] <= most
    {
      if v in votes {
        assert v in counts;
      }
    }
  }

  method Grade(lowest: string, highest: string, spread: int, most: nat, n: nat) returns (consensus: Consensus)
    ensures consensus == ConsensusLevel(lowest, highest, spread, StrongMajority(most, n))
  {
    consensus := Low;
    var strongMajority := most >= (2 * n + 2) / 3;
    if lowest == highest {
      consensus := High;
    } else if strongMajority && spread <= 1 {
      consensus := High;
    } else if spread <= 2 {
      consensus := Medium;
    }
  }

  method CalculateConsensus(deck: Deck, votes: seq<string>) returns (s: VoteSummary)
    ensures Consents(Estimates(deck.cards), votes, s)
  {
    hide GreatestMultiplicity, Estimates, Atoi, IndexOf, StrongMajority;
    s := VoteSummary(Unavailable, None, None, None, None);
    if |votes| == 0 {
      return;
    }
    var counts := CountLabels(votes);
    var found, lowest, highest, spread := ExtremeVotes(deck, votes);
    if !found {
      return;
    }
    var most := MostVoteCount(counts);
    CountsAreMultiplicities(votes, counts, most);
    var consensus := Grade(lowest, highest, spread, most, |votes|);
    s := VoteSummary(consensus, Some(lowest), Some(highest), None, Some(spread));
    if Atoi(lowest).Some? && Atoi(highest).Some? {
      s := s.(range := Some(Atoi(highest).value - Atoi(lowest).value));
    }
    assert Evaluates(Estimates(deck.cards), votes, s, lowest, highest, most);
  }

  // ---- the parts together are the specified summary ----------------------------

  lemma CountsAreCards(deck: Deck, metrics: Metrics, m: multiset<string>)
    requires Tallies(deck, metrics, m)
    ensures forall c :: c in metrics.counts <==> c in Estimates(deck.cards) && m[c] > 0
    ensures forall c :: c in metrics.counts ==> metrics.counts[c] == m[c]
    ensures forall c :: multiset(metrics.ordered)[c] == if c in Estimates(deck.cards) then m[c] else 0
  {
    forall c
      ensures c in metrics.counts <==> c in Estimates(deck.cards) && m[c] > 0
      ensures c in metrics.counts ==> metrics.counts[c] == m[c]
      ensures multiset(metrics.ordered)[c] == if c in Estimates(deck.cards) then m[c] else 0
    {
      assert Counted(deck, metrics, m, c);
    }
  }

  lemma PeakIsMost(deck: Deck, metrics: Metrics, m: multiset<string>, most: nat)
    requires Tallies(deck, metrics, m)
    requires forall v :: v in metrics.counts ==> metrics.counts[v] <= most
    requires most > 0 ==> exists v :: v in metrics.counts && metrics.counts[v] == most
    ensures most == Peak(Estimates(deck.cards), m)
  {
    CountsAreCards(deck, metrics, m);
    hide Counted;
    var cards := Estimates(deck.cards);
    PeakBounds(cards, m);
    if Peak(cards, m) > 0 {
      var c :| c in cards && m[c] == Peak(cards, m);
      assert c in metrics.counts;
    }
  }

  lemma OrderedPeak(deck: Deck, metrics: Metrics, m: multiset<string>, most: nat)
    requires Tallies(deck, metrics, m) && GreatestMultiplicity(multiset(metrics.ordered), most)
    ensures most == Peak(Estimates(deck.cards), m)
  {
    CountsAreCards(deck, metrics, m);
    hide Counted;
    var cards, ordered := Estimates(deck.cards), multiset(metrics.ordered);
    PeakBounds(cards, m);
    if Peak(cards, m) > 0 {
      var c :| c in cards && m[c] == Peak(cards, m);
      assert ordered[c] == Peak(cards, m);
    }
  }

  lemma EndsOfIncreasing<T(!new)>(cards: seq<T>, xs: seq<T>, lowest: T, highest: T)
    requires Increasing(cards, xs) && lowest in xs && highest in xs
    requires IndexOf(cards, lowest).value <= IndexOf(cards, xs[0]).value
    requires IndexOf(cards, xs[|xs| - 1]).value <= IndexOf(cards, highest).value
    ensures xs[0] == lowest && xs[|xs| - 1] == highest
  {
    hide IndexOf;
    var i :| 0 <= i < |xs| && xs[i] == lowest;
    var j :| 0 <= j < |xs| && xs[j] == highest;
  }

  /** The ordered votes are the cards somebody voted for. */
  lemma OrderedArePresent(deck: Deck, metrics: Metrics, m: multiset<string>)
    requires Tallies(deck, metrics, m)
    ensures forall v :: v in metrics.ordered <==> v in Present(Estimates(deck.cards), m)
  {
    PresentIsExact(Estimates(deck.cards), m);
    forall v
      ensures v in metrics.ordered <==> v in Present(Estimates(deck.cards), m)
    {
      assert Counted(deck, metrics, m, v);
      assert v in metrics.ordered <==> multiset(metrics.ordered)[v] > 0;
    }
  }

  lemma ExtremesArePresent<T(!new)>(cards: seq<T>, m: multiset<T>, votes: seq<T>, lowest: T, highest: T)
    requires Distinct(cards)
    requires forall v :: v in votes <==> v in Present(cards, m)
    requires Extremes(cards, votes, lowest, highest)
    ensures var present := Present(cards, m);
            present != [] && present[0] == lowest && present[|present| - 1] == highest
  {
    var present := Present(cards, m);
    PresentIsExact(cards, m);
    PresentIncreases(cards, m);
    hide Present, IndexOf, Increasing;
    assert lowest in present && highest in present;
    var first, last := present[0], present[|present| - 1];
    assert first in present && last in present;
    EndsOfIncreasing(cards, present, lowest, highest);
  }

  /** What a reveal stores, assembled from the three computations. */
  function Assemble(metrics: Metrics, modes: seq<string>, s: VoteSummary): Summary {
    Summary(
      if metrics.count > 0.0 then Some(metrics.sum / metrics.count) else None,
      modes, s.consensus, s.lowest, s.highest, s.range, s.spread, metrics.specialCount)
  }

  lemma ModesMatch(deck: Deck, metrics: Metrics, m: multiset<string>, most: nat, modes: seq<string>)
    requires Distinct(Estimates(deck.cards)) && Tallies(deck, metrics, m)
    requires most == Peak(Estimates(deck.cards), m)
    requires Increasing(Estimates(deck.cards), modes)
    requires forall v :: v in modes <==> v in metrics.counts && metrics.counts[v] == most
    ensures modes == SummaryOf(deck, m).mostAppearing
  {
    CountsAreCards(deck, metrics, m);
    hide Counted;
    var cards := Estimates(deck.cards);
    ModesIncrease(cards, m, most);
    ModesAreExact(cards, m, most);
    IncreasingIsUnique(cards, modes, Modes(cards, m, most));
    PresentIsExact(cards, m);
    TotalOfPresent(cards, m);
    assert forall c :: c in cards && m[c] > 0 ==> c in Present(cards, m);
    if modes != [] {
      assert modes[0] in modes;
      assert modes[0] in Present(cards, m);
    }
  }

  lemma SummaryBetween(deck: Deck, m: multiset<string>)
    requires Present(Estimates(deck.cards), m) != []
    ensures var cards, present := Estimates(deck.cards), Present(Estimates(deck.cards), m);
            var lowest, highest := present[0], present[|present| - 1];
            && lowest in cards && highest in cards
            && var r, spread := SummaryOf(deck, m), Spread(cards, lowest, highest);
               VoteSummary(r.consensus, r.lowest, r.highest, r.range, r.spread) == VoteSummary(
                 ConsensusLevel(lowest, highest, spread, StrongMajority(Peak(cards, m), Total(cards, m))),
                 Some(lowest), Some(highest), Range(lowest, highest), Some(spread))
  {
    PresentIsExact(Estimates(deck.cards), m);
    assert Present(Estimates(deck.cards), m)[0] in Present(Estimates(deck.cards), m);
    hide Total, Peak, Present, Modes, NumericCount, NumericSum, Estimates, Atoi, IndexOf;
  }

  lemma ConsensusMatches(deck: Deck, metrics: Metrics, m: multiset<string>, s: VoteSummary)
    requires Distinct(Estimates(deck.cards)) && Tallies(deck, metrics, m)
    requires Consents(Estimates(deck.cards), metrics.ordered, s)
    ensures var r := SummaryOf(deck, m);
            s == VoteSummary(r.consensus, r.lowest, r.highest, r.range, r.spread)
  {
    var cards, votes := Estimates(deck.cards), metrics.ordered;
    var present := Present(cards, m);
    OrderedArePresent(deck, metrics, m);
    PresentIsExact(cards, m);
    hide Total, Peak, Present, Modes, NumericCount, NumericSum, Estimates, Atoi, IndexOf;
    hide Counted, Extremes, GreatestMultiplicity, Range, Spread, ConsensusLevel, StrongMajority;
    if present != [] {
      hide SummaryOf;
      assert present[0] in present;
      var lowest, highest, most :| Evaluates(cards, votes, s, lowest, highest, most);
      OrderedPeak(deck, metrics, m, most);
      ExtremesArePresent(cards, m, votes, lowest, highest);
      SummaryBetween(deck, m);
    }
  }

  /** A reveal of the votes `m` stores the specified summary, for every deck, client order and iteration order. */
  method Summarize(deck: Deck, metrics: Metrics, ghost m: multiset<string>) returns (modes: seq<string>, s: VoteSummary)
    requires Distinct(Estimates(deck.cards)) && Tallies(deck, metrics, m)
    ensures Assemble(metrics, modes, s) == SummaryOf(deck, m)
  {
    hide Total, Peak, Present, Modes, NumericCount, NumericSum, Estimates, Atoi, IndexOf, GreatestMultiplicity,
           Increasing;
    var most := MostVoteCount(metrics.counts);
    PeakIsMost(deck, metrics, m, most);
    CountsAreCards(deck, metrics, m);
    modes := MostAppearingVotes(metrics.counts, most, deck);
    ModesMatch(deck, metrics, m, most, modes);
    s := CalculateConsensus(deck, metrics.ordered);
    ConsensusMatches(deck, metrics, m, s);
  }
}
