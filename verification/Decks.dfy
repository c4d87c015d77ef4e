/** Voting decks: ordered estimate cards followed by the special cards. */
module Decks {
  import opened Wrappers

  datatype DeckKind = Numeric | Categorical

  datatype Deck = Deck(id: string, name: string, kind: DeckKind, cards: seq<string>)

  const SPECIAL_CARDS: seq<string> := ["?", "\U{2615}"]

  const FIBONACCI: Deck := Deck("fibonacci", "Fibonacci", Numeric,
    ["0", "1", "2", "3", "5", "8", "13", "21", "34", "55", "89"] + SPECIAL_CARDS)

  const T_SHIRT: Deck := Deck("t-shirt", "T-shirt", Categorical,
    ["XS", "S", "M", "L", "XL", "XXL"] + SPECIAL_CARDS)

  function DeckByType(deckType: string): Option<Deck> {
    if deckType == FIBONACCI.id then Some(FIBONACCI)
    else if deckType == T_SHIRT.id then Some(T_SHIRT)
    else None
  }

  /** Unknown deck types resolve to Fibonacci. */
  function DeckForType(deckType: string): Deck {
    match DeckByType(deckType)
    case Some(deck) => deck
    case None => FIBONACCI
  }

  predicate HasCard(deck: Deck, vote: string) {
    vote in deck.cards
  }

  predicate IsSpecial(card: string) {
    card in SPECIAL_CARDS
  }

  /** The cards before the first special card. */
  function Estimates(cards: seq<string>): seq<string> {
    if cards == [] || IsSpecial(cards[0]) then [] else [cards[0]] + Estimates(cards[1..])
  }

  /** The estimate cards are the longest prefix of the deck that holds no special card. */
  lemma {:induction false} EstimatesIsPrefix(cards: seq<string>)
    ensures |Estimates(cards)| <= |cards| && Estimates(cards) == cards[..|Estimates(cards)|]
    ensures forall c :: c in Estimates(cards) ==> !IsSpecial(c)
    ensures |Estimates(cards)| < |cards| ==> IsSpecial(cards[|Estimates(cards)|])
  {
    if cards != [] && !IsSpecial(cards[0]) {
      EstimatesIsPrefix(cards[1..]);
    }
  }

  method EstimateCards(deck: Deck) returns (estimates: seq<string>)
    ensures estimates == Estimates(deck.cards)
  {
    estimates := [];
    for i := 0 to |deck.cards|
      invariant Estimates(deck.cards) == estimates + Estimates(deck.cards[i..])
    {
      var card := deck.cards[i];
      assert deck.cards[i..][1..] == deck.cards[i + 1..];
      if IsSpecial(card) {
        break;
      }
      estimates := estimates + [card];
    }
  }

  /** Position of a vote among the estimate cards. */
  function Position(deck: Deck, vote: string): (position: Option<nat>)
    ensures position.Some? ==>
              position.value < |Estimates(deck.cards)| && Estimates(deck.cards)[position.value] == vote
    ensures position.None? <==> vote !in Estimates(deck.cards)
  {
    IndexOf(Estimates(deck.cards), vote)
  }

  /** The search through the estimate cards. */
  method FindPosition(deck: Deck, vote: string) returns (position: Option<nat>)
    ensures position == Position(deck, vote)
  {
    hide Estimates;
    var cards := EstimateCards(deck);
    for index := 0 to |cards|
      invariant vote !in cards[..index]
    {
      if cards[index] == vote {
        FirstOccurrence(cards, vote, index);
        return Some(index);
      }
      assert cards[..index + 1] == cards[..index] + [cards[index]];
    }
    assert cards[..|cards|] == cards;
    position := None;
  }

  lemma FirstOccurrence(xs: seq<string>, x: string, i: nat)
    requires i < |xs| && xs[i] == x && x !in xs[..i]
    ensures IndexOf(xs, x) == Some(i)
  {
    var k := IndexOf(xs, x).value;
    assert forall j :: 0 <= j < i ==> xs[..i][j] == xs[j];
    assert forall j :: 0 <= j < k ==> xs[..k][j] == xs[j];
  }

  function Digit(c: char): Option<nat> {
    if '0' <= c <= '9' then Some((c - '0') as nat) else None
  }

  function Digits(s: string, acc: nat): Option<nat> {
    if s == "" then Some(acc)
    else
      match Digit(s[0])
      case None => None
      case Some(d) => Digits(s[1..], 10 * acc + d)
  }

  /** Decimal parse of a label: an optional sign and at least one digit. */
  function Atoi(s: string): Option<int> {
    if s == "" then None
    else if s[0] == '-' || s[0] == '+' then
      if |s| == 1 then None
      else
        match Digits(s[1..], 0)
        case None => None
        case Some(n) =>
          var magnitude: int := n;
          Some(if s[0] == '-' then -magnitude else magnitude)
    else
      match Digits(s, 0)
      case None => None
      case Some(n) => Some(n)
  }

  const FIBONACCI_ESTIMATES: seq<string> := ["0", "1", "2", "3", "5", "8", "13", "21", "34", "55", "89"]
  const FIBONACCI_VALUES: seq<int> := [0, 1, 2, 3, 5, 8, 13, 21, 34, 55, 89]
  const T_SHIRT_ESTIMATES: seq<string> := ["XS", "S", "M", "L", "XL", "XXL"]

  lemma {:induction false} EstimatesBeforeSpecials(xs: seq<string>, rest: seq<string>)
    requires forall x :: x in xs ==> !IsSpecial(x)
    requires rest != [] && IsSpecial(rest[0])
    ensures Estimates(xs + rest) == xs
  {
    if xs == [] {
      assert xs + rest == rest;
    } else {
      assert (xs + rest)[1..] == xs[1..] + rest;
      EstimatesBeforeSpecials(xs[1..], rest);
    }
  }

  /** Two-digit labels need two steps of the parser. */
  lemma DigitsOfTwo(a: char, b: char)
    requires '0' <= a <= '9' && '0' <= b <= '9'
    ensures Digits([a], 0) == Some((a - '0') as nat)
    ensures Digits([a, b], 0) == Some(10 * (a - '0') as nat + (b - '0') as nat)
  {
    assert [a][1..] == [];
    assert [a, b][1..] == [b] && [b][1..] == [];
    assert Digits([b], 10 * 0 + (a - '0') as nat) == Some(10 * (a - '0') as nat + (b - '0') as nat);
  }

  lemma FibonacciLabels(i: nat)
    requires i < |FIBONACCI_ESTIMATES|
    ensures Atoi(FIBONACCI_ESTIMATES[i]) == Some(FIBONACCI_VALUES[i])
  {
    var s := FIBONACCI_ESTIMATES[i];
    DigitsOfTwo(s[0], if |s| == 2 then s[1] else '0');
    assert s == if |s| == 2 then [s[0], s[1]] else [s[0]];
  }

  /** The cards of the Fibonacci deck parse to strictly increasing numbers. */
  lemma FibonacciDeck()
    ensures Estimates(FIBONACCI.cards) == FIBONACCI_ESTIMATES
    ensures forall i :: 0 <= i < |FIBONACCI_ESTIMATES| ==>
                          Atoi(FIBONACCI_ESTIMATES[i]) == Some(FIBONACCI_VALUES[i])
    ensures Distinct(FIBONACCI_ESTIMATES)
  {
    EstimatesBeforeSpecials(FIBONACCI_ESTIMATES, SPECIAL_CARDS);
    forall i | 0 <= i < |FIBONACCI_ESTIMATES|
      ensures Atoi(FIBONACCI_ESTIMATES[i]) == Some(FIBONACCI_VALUES[i])
    {
      FibonacciLabels(i);
    }
    assert Distinct(FIBONACCI_VALUES);
  }

  lemma TShirtDeck()
    ensures Estimates(T_SHIRT.cards) == T_SHIRT_ESTIMATES
    ensures Distinct(T_SHIRT_ESTIMATES)
  {
    EstimatesBeforeSpecials(T_SHIRT_ESTIMATES, SPECIAL_CARDS);
    assert Distinct(["XS", "S", "M", "L", "XL", "XXL"]) by {
      assert T_SHIRT_ESTIMATES[0][0] == 'X' && T_SHIRT_ESTIMATES[0][1] == 'S';
      assert T_SHIRT_ESTIMATES[1][0] == 'S';
      assert T_SHIRT_ESTIMATES[2][0] == 'M';
      assert T_SHIRT_ESTIMATES[3][0] == 'L';
      assert T_SHIRT_ESTIMATES[4][0] == 'X' && T_SHIRT_ESTIMATES[4][1] == 'L';
      assert |T_SHIRT_ESTIMATES[5]| == 3;
    }
  }

  /** No room's deck repeats an estimate card. */
  lemma DeckCardsAreDistinct(deckType: string)
    ensures Distinct(Estimates(DeckForType(deckType).cards))
  {
    FibonacciDeck();
    TShirtDeck();
  }
}
