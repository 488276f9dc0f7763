/** The first Twenty-One game (twenty_one/twenty_one.rb): cards with one-letter suits, a
    52-card deck dealt from at random indices, hands scored with the Ace rule, and the
    player and dealer turns of one round. */
module TwentyOne {
  import opened Wrappers
  import opened RubyText
  import opened Tally
  import opened Draws
  import AceRule

  // ---------------------------------------------------------------- cards

  datatype Card = Card(suit: string, face: string)

  const SUITS: seq<string> := ["C", "S", "H", "D"]
  const FACE_CARDS: seq<string> := ["J", "Q", "K", "A"]
  /** `FACE_CARDS + (2..10).to_a.map(&:to_s)` */
  const FACES: seq<string> := FACE_CARDS + ["2", "3", "4", "5", "6", "7", "8", "9", "10"]

  /** `Card#value`, which reads nothing but the face. */
  function FaceValue(face: string): int
  {
    if face == "A" then 11
    else if face in FACE_CARDS then 10
    else ParseLeadingNat(face)
  }

  function Value(c: Card): int
  {
    FaceValue(c.face)
  }

  /** `Card#face_name` */
  function FaceName(face: string): string
  {
    match face
    case "J" => "Jack"
    case "Q" => "Queen"
    case "K" => "King"
    case "A" => "Ace"
    case _ => face
  }

  /** `Card#suit`: `nil` for a code it does not know. */
  function SuitName(suit: string): Option<string>
  {
    match suit
    case "H" => Some("Hearts")
    case "D" => Some("Diamonds")
    case "S" => Some("Spades")
    case "C" => Some("Clubs")
    case _ => None
  }

  /** `Card#to_s`; a `nil` suit interpolates as the empty string. */
  function CardString(c: Card): string
  {
    var suit := match SuitName(c.suit) case Some(name) => name case None => "";
    "The " + FaceName(c.face) + " of " + suit
  }

  lemma ParseTen()
    ensures ParseLeadingNat("10") == 10
  {
    LeadingDigitsOfDigits("10", []);
    assert "10" + [] == "10";
    assert "10"[..1] == "1" && "1"[..0] == [];
    assert DigitsValue("1") == 1;
  }

  /** The face of every card is worth 11 for 'A', 10 for J, Q and K and its number
      otherwise, so between 2 and 11, and 11 only for the Ace. */
  lemma FaceValues()
    ensures |FACES| == 13 && FACES[3] == "A"
    ensures forall i :: 0 <= i < 13 ==> FaceValue(FACES[i]) == [10, 10, 10, 11, 2, 3, 4, 5, 6, 7, 8, 9, 10][i]
    ensures forall f :: f in FACES ==> 2 <= FaceValue(f) <= 11 && (FaceValue(f) == 11 <==> f == "A")
  {
    NumberValues();
  }

  /** The faces "2" to "10" are worth their number. */
  lemma NumberValues()
    ensures forall i :: 4 <= i < 13 ==> FaceValue(FACES[i]) == i - 2
  {
    forall i | 4 <= i < 12
      ensures FaceValue(FACES[i]) == i - 2
    {
      var c := FACES[i][0];
      assert FACES[i] == [c] && c == (i - 2 + '0' as int) as char;
      assert LeadingDigits([c]) == [c];
      assert [c][..0] == [];
    }
    ParseTen();
  }

  lemma FacesDistinct()
    ensures Distinct(FACES)
  {
  }

  lemma FaceNameHasNoBlank(face: string)
    requires face in FACES
    ensures ' ' !in FaceName(face)
  {
  }

  /** Different cards of the deck are described by different strings. */
  lemma CardStringInjective(c1: Card, c2: Card)
    requires c1.suit in SUITS && c1.face in FACES
    requires c2.suit in SUITS && c2.face in FACES
    requires CardString(c1) == CardString(c2)
    ensures c1 == c2
  {
    SuitNameInjective(c1.suit, c2.suit);
    FaceNameHasNoBlank(c1.face);
    FaceNameHasNoBlank(c2.face);
    var f1, s1 := CardStringParts(c1);
    var f2, s2 := CardStringParts(c2);
    SeparatedParts(f1, s1, f2, s2, " of ");
    FaceNameInjective(c1.face, c2.face);
  }

  /** The face name and suit name a card string is made of, past its "The ". */
  lemma CardStringParts(c: Card) returns (f: string, s: string)
    requires SuitName(c.suit).Some?
    ensures f == FaceName(c.face) && SuitName(c.suit) == Some(s)
    ensures CardString(c)[4..] == f + " of " + s
  {
    f, s := FaceName(c.face), SuitName(c.suit).value;
    assert CardString(c) == "The " + (f + " of " + s);
  }

  lemma FaceNameInjective(f1: string, f2: string)
    requires f1 in FACES && f2 in FACES && FaceName(f1) == FaceName(f2)
    ensures f1 == f2
  {
  }

  lemma SuitNameInjective(s1: string, s2: string)
    requires s1 in SUITS && s2 in SUITS
    ensures SuitName(s1).Some? && SuitName(s2).Some?
    ensures SuitName(s1) == SuitName(s2) ==> s1 == s2
  {
  }

  // ---------------------------------------------------------------- the fresh deck

  /** The cards of one suit, one per face, in face order. */
  function Row(suit: string, faces: seq<string>): (r: seq<Card>)
    ensures |r| == |faces|
    ensures forall j :: 0 <= j < |faces| ==> r[j] == Card(suit, faces[j])
  {
    if faces == [] then [] else Row(suit, faces[..|faces| - 1]) + [Card(suit, faces[|faces| - 1])]
  }

  /** The rows of the given suits, one after the other. */
  function Rows(suits: seq<string>, faces: seq<string>): (r: seq<Card>)
    ensures |r| == |faces| * |suits|
  {
    if suits == [] then [] else Rows(suits[..|suits| - 1], faces) + Row(suits[|suits| - 1], faces)
  }

  lemma RowGrows(suit: string, faces: seq<string>, j: nat)
    requires j < |faces|
    ensures Row(suit, faces[..j + 1]) == Row(suit, faces[..j]) + [Card(suit, faces[j])]
  {
    assert faces[..j + 1][..j] == faces[..j];
  }

  lemma RowsGrow(suits: seq<string>, faces: seq<string>, i: nat)
    requires i < |suits|
    ensures Rows(suits[..i + 1], faces) == Rows(suits[..i], faces) + Row(suits[i], faces)
  {
    assert suits[..i + 1][..i] == suits[..i];
  }

  /** The deck as `Deck#initialize` lays it out: suit by suit, face by face. */
  function FreshDeck(): seq<Card>
  {
    Rows(SUITS, FACES)
  }

  lemma {:induction false} RowsMembers(suits: seq<string>, faces: seq<string>)
    ensures forall c :: c in Rows(suits, faces) <==> c.suit in suits && c.face in faces
  {
    if suits != [] {
      var n := |suits| - 1;
      RowsMembers(suits[..n], faces);
      assert suits == suits[..n] + [suits[n]];
      forall c: Card | c.suit in suits && c.face in faces ensures c in Rows(suits, faces) {
        var j :| 0 <= j < |faces| && faces[j] == c.face;
        if c.suit == suits[n] {
          assert Row(suits[n], faces)[j] == c;
        }
      }
    }
  }

  lemma {:induction false} RowsDistinct(suits: seq<string>, faces: seq<string>)
    requires Distinct(suits) && Distinct(faces)
    ensures Distinct(Rows(suits, faces))
  {
    if suits != [] {
      var n := |suits| - 1;
      var front, row := Rows(suits[..n], faces), Row(suits[n], faces);
      RowsDistinct(suits[..n], faces);
      RowsMembers(suits[..n], faces);
      forall i, j | 0 <= i < j < |front + row| ensures (front + row)[i] != (front + row)[j] {
        if j >= |front| && i < |front| {
          assert front[i] in front;
          assert suits[n] !in suits[..n];
        }
      }
    }
  }

  /** A fresh deck holds exactly one card for each suit and face: 52 cards, no two alike. */
  lemma FreshDeckComplete()
    ensures |FreshDeck()| == 52
    ensures forall c :: c in FreshDeck() <==> c.suit in SUITS && c.face in FACES
    ensures Distinct(FreshDeck())
  {
    RowsMembers(SUITS, FACES);
    FacesDistinct();
    RowsDistinct(SUITS, FACES);
  }

  /** Fifty-two cards, each with a face of the deck: all that the arguments about a round
      need to know of the cards in play. */
  ghost predicate FullDeck(full: seq<Card>)
  {
    |full| == 52 && FacesOfTheDeck(full)
  }

  ghost predicate FacesOfTheDeck(cards: seq<Card>)
  {
    cards == [] || (FacesOfTheDeck(cards[..|cards| - 1]) && cards[|cards| - 1].face in FACES)
  }

  lemma {:induction false} FacesOfTheDeckMembers(cards: seq<Card>)
    ensures FacesOfTheDeck(cards) <==> forall c :: c in cards ==> c.face in FACES
  {
    if cards != [] {
      var n := |cards| - 1;
      FacesOfTheDeckMembers(cards[..n]);
      assert cards == cards[..n] + [cards[n]];
    }
  }

  lemma FreshDeckIsFull()
    ensures FullDeck(FreshDeck())
  {
    FreshDeckComplete();
    FacesOfTheDeckMembers(FreshDeck());
  }

  // ---------------------------------------------------------------- scoring

  /** The values of the cards, an Ace counting 11. */
  function Sum(hand: seq<Card>): int
  {
    if hand == [] then 0 else Sum(hand[..|hand| - 1]) + Value(hand[|hand| - 1])
  }

  predicate IsAce(c: Card) { c.face == "A" }

  /** `hand.map(&:face).count('A')` */
  function Aces(hand: seq<Card>): nat
  {
    if hand == [] then 0 else Aces(hand[..|hand| - 1]) + (if IsAce(hand[|hand| - 1]) then 1 else 0)
  }

  lemma {:induction false} SumAndAcesAsTallies(hand: seq<Card>)
    ensures Sum(hand) == SeqSum(hand, Value) && Aces(hand) == Count(hand, IsAce)
  {
    if hand != [] {
      SumAndAcesAsTallies(hand[..|hand| - 1]);
    }
  }

  /** `Hand#total`: the raw sum with as few Aces demoted as it takes to reach 21 or less,
      or all of them. */
  function HandTotal(hand: seq<Card>): int
  {
    AceRule.Normalized(Sum(hand), Aces(hand))
  }

  /** The total depends only on which cards are held, not on the order they came in. */
  lemma TotalIgnoresOrder(a: seq<Card>, b: seq<Card>)
    requires multiset(a) == multiset(b)
    ensures HandTotal(a) == HandTotal(b)
  {
    SumAndAcesAsTallies(a);
    SumAndAcesAsTallies(b);
    SeqSumPermutation(a, b, Value);
    CountPermutation(a, b, IsAce);
  }

  /** Once an Ace has been demoted the total is at least 12, and the total exceeds 21 only
      when every Ace already counts 1. */
  lemma TotalAfterDemotion(hand: seq<Card>)
    ensures AceRule.Demotions(Sum(hand), Aces(hand)) > 0 ==> HandTotal(hand) >= 12
    ensures HandTotal(hand) > 21 ==> AceRule.Demotions(Sum(hand), Aces(hand)) == Aces(hand)
    ensures Sum(hand) - 10 * Aces(hand) <= HandTotal(hand) <= Sum(hand)
  {
    AceRule.NormalizedBounds(Sum(hand), Aces(hand));
  }

  lemma HandOfThree(a: Card, b: Card, c: Card)
    ensures Sum([a, b, c]) == Value(a) + Value(b) + Value(c)
    ensures Aces([a, b, c]) == (if IsAce(a) then 1 else 0) + (if IsAce(b) then 1 else 0) + (if IsAce(c) then 1 else 0)
  {
    HandOfTwo(a, b);
    assert [a, b, c][..2] == [a, b];
  }

  lemma HandOfTwo(a: Card, b: Card)
    ensures Sum([a, b]) == Value(a) + Value(b)
    ensures Aces([a, b]) == (if IsAce(a) then 1 else 0) + (if IsAce(b) then 1 else 0)
  {
    assert [a, b][..1] == [a] && [a][..0] == [];
    assert Sum([a]) == Value(a) && Aces([a]) == (if IsAce(a) then 1 else 0);
  }

  /** {A, A, 9} is 21 (one Ace demoted), {K, Q} is 20 and {A, K} is 21. */
  lemma TotalExamples(s: string)
    ensures HandTotal([Card(s, "A"), Card(s, "A"), Card(s, "9")]) == 21
    ensures HandTotal([Card(s, "K"), Card(s, "Q")]) == 20
    ensures HandTotal([Card(s, "A"), Card(s, "K")]) == 21
  {
    HandOfThree(Card(s, "A"), Card(s, "A"), Card(s, "9"));
    HandOfTwo(Card(s, "K"), Card(s, "Q"));
    HandOfTwo(Card(s, "A"), Card(s, "K"));
  }

  /** No two cards of the deck total more than 21. */
  lemma TwoCardsNotBusted(a: Card, b: Card)
    requires a.face in FACES && b.face in FACES
    ensures HandTotal([a, b]) <= 21
  {
    FaceValues();
    HandOfTwo(a, b);
  }

  /** What a card is worth with an Ace counted as 1. */
  function HardValue(c: Card): int
  {
    Value(c) - (if IsAce(c) then 10 else 0)
  }

  lemma {:induction false} HardSum(hand: seq<Card>)
    ensures SeqSum(hand, HardValue) == Sum(hand) - 10 * Aces(hand)
  {
    if hand != [] {
      HardSum(hand[..|hand| - 1]);
    }
  }

  /** A hand of cards of the deck is worth at least one point per card, however its Aces
      are counted. */
  lemma TotalAtLeastCards(hand: seq<Card>)
    requires forall c :: c in hand ==> c.face in FACES
    ensures HandTotal(hand) >= SeqSum(hand, HardValue) >= |hand|
  {
    FaceValues();
    assert forall i :: 0 <= i < |hand| ==> hand[i] in hand && 1 <= HardValue(hand[i]) <= 10;
    SeqSumBounds(hand, HardValue, 1, 10);
    HardSum(hand);
    TotalAfterDemotion(hand);
  }

  /** Cards that, with some others, make up a full deck have faces of the deck. */
  lemma CardsOfTheDeck(hand: seq<Card>, others: multiset<Card>, full: seq<Card>)
    requires FullDeck(full)
    requires multiset(hand) + others == multiset(full)
    ensures forall c :: c in hand ==> c.face in FACES
  {
    FacesOfTheDeckMembers(full);
    forall c | c in hand ensures c.face in FACES {
      assert c in multiset(hand);
      assert c in multiset(full);
    }
  }

  /** Whatever the other side holds without being over 21, the cards it does not hold
      total at least 21: however they are drawn, a turn ends before the deck is empty. */
  lemma PlentyLeft(mine: seq<Card>, other: seq<Card>, full: seq<Card>)
    requires FullDeck(full)
    requires multiset(mine) + multiset(other) == multiset(full)
    requires HandTotal(other) <= 21
    ensures HandTotal(mine) >= 21
  {
    assert |multiset(mine)| + |multiset(other)| == 52;
    CardsOfTheDeck(mine, multiset(other), full);
    CardsOfTheDeck(other, multiset(mine), full);
    PlentyOfFaces(mine, other);
  }

  /** The same for any 52 cards whose faces are faces of the deck: every card is worth at
      least 1, so 21 or more of them are left when the other side holds 21 points or less. */
  lemma PlentyOfFaces(mine: seq<Card>, other: seq<Card>)
    requires |mine| + |other| == 52
    requires forall c :: c in mine ==> c.face in FACES
    requires forall c :: c in other ==> c.face in FACES
    requires HandTotal(other) <= 21
    ensures HandTotal(mine) >= 21
  {
    TotalAtLeastCards(mine);
    TotalAtLeastCards(other);
  }


  // ---------------------------------------------------------------- deck

  class Deck {
    var cards: seq<Card>

    /** `Deck#initialize`: every suit, and within it every face, appended in order. */
    constructor ()
      ensures cards == FreshDeck()
    {
      cards := [];
      new;
      for i := 0 to |SUITS|
        invariant cards == Rows(SUITS[..i], FACES)
      {
        for j := 0 to |FACES|
          invariant cards == Rows(SUITS[..i], FACES) + Row(SUITS[i], FACES[..j])
        {
          RowGrows(SUITS[i], FACES, j);
          var card := Card(SUITS[i], FACES[j]);
          assert Rows(SUITS[..i], FACES) + Row(SUITS[i], FACES[..j]) + [card] == Rows(SUITS[..i], FACES) + (Row(SUITS[i], FACES[..j]) + [card]);
          cards := cards + [card];
        }
        assert FACES[..|FACES|] == FACES;
        RowsGrow(SUITS, FACES, i);
      }
      assert SUITS[..|SUITS|] == SUITS;
    }

    /** `Deck#deal_one`, with `index` the number `rand(cards.length)` returned. */
    method DealOne(index: nat) returns (card: Card)
      requires index < |cards|
      modifies this
      ensures card == old(cards)[index]
      ensures cards == RemoveAt(old(cards), index)
    {
      card := cards[index];
      cards := cards[..index] + cards[index + 1..];
    }
  }

  // ---------------------------------------------------------------- participants

  /** `Participant` with the `Hand` module mixed in. */
  class Participant {
    const name: string
    var hand: seq<Card>

    constructor (name: string)
      ensures this.name == name && hand == []
    {
      this.name := name;
      hand := [];
    }

    method AddCard(card: Card)
      modifies this
      ensures hand == old(hand) + [card]
    {
      hand := hand + [card];
    }

    /** `Hand#total`: sum the cards, then demote Aces one by one while above 21. */
    method Total() returns (total: int)
      ensures total == HandTotal(hand)
    {
      total := 0;
      for i := 0 to |hand|
        invariant total == Sum(hand[..i])
      {
        assert hand[..i + 1][..i] == hand[..i];
        total := total + Value(hand[i]);
      }
      assert hand[..|hand|] == hand;
      var aces := Aces(hand);
      total := AceRule.Normalize(total, aces);
    }

    method Busted() returns (busted: bool)
      ensures busted <==> HandTotal(hand) > 21
    {
      var total := Total();
      busted := total > 21;
    }

    method Blackjack() returns (blackjack: bool)
      ensures blackjack <==> HandTotal(hand) == 21
    {
      var total := Total();
      blackjack := total == 21;
    }

    method BustedOrBlackjack() returns (over: bool)
      ensures over <==> HandTotal(hand) >= 21
    {
      over := Busted();
      if !over {
        over := Blackjack();
      }
    }
  }

  // ---------------------------------------------------------------- answers

  datatype Decision = Hit | Stay

  /** One answer to "Would you like to (h)it or (s)tay?": anything but "h" or "s" is asked again. */
  function ParseDecision(line: string): (d: Option<Decision>)
    ensures d == Some(Hit) <==> line == "h"
    ensures d == Some(Stay) <==> line == "s"
    ensures d == None <==> line !in ["h", "s"]
  {
    if line == "h" then Some(Hit) else if line == "s" then Some(Stay) else None
  }

  /** A turn that drew no card from an empty deck: with the cards of the deck all in hand
      the turn would already have ended. */
  lemma DeckNotExhausted(hand: seq<Card>, deck: seq<Card>, whole: seq<Card>, stop: int)
    requires multiset(hand) + multiset(deck) == multiset(whole)
    requires HandTotal(whole) >= stop > HandTotal(hand)
    ensures deck != []
  {
    if deck == [] {
      TotalIgnoresOrder(hand, whole);
    }
  }

  /** A turn loop that has not ended draws a card that is there with the next pick, and
      moving it from the deck to the hand loses no card. */
  lemma TurnCanDraw(whole: seq<Card>, n: nat, picks: seq<nat>, hand: seq<Card>, deck: seq<Card>, hits: nat, stop: int)
    requires ValidPicks(n, picks) && |picks| == n && |deck| == n - hits
    requires multiset(hand) + multiset(deck) == multiset(whole)
    requires HandTotal(whole) >= stop > HandTotal(hand)
    ensures hits < |picks| && picks[hits] < |deck|
    ensures multiset(hand + [deck[picks[hits]]]) + multiset(RemoveAt(deck, picks[hits])) == multiset(whole)
  {
    DeckNotExhausted(hand, deck, whole, stop);
    MoveCard(whole, n, picks, hand, deck, hits);
  }

  // ---------------------------------------------------------------- a round, as functions

  /** The cards on the table: the two hands and the deck. */
  datatype Table = Table(player: seq<Card>, dealer: seq<Card>, deck: seq<Card>)

  /** The table after one round of `deal_cards`: a card to the player, then one to the dealer. */
  function DealtOnce(t: Table, i: nat, j: nat): Table
    requires i < |t.deck| && j < |t.deck| - 1
  {
    var rest := RemoveAt(t.deck, i);
    Table(t.player + [t.deck[i]], t.dealer + [rest[j]], RemoveAt(rest, j))
  }

  /** `deal_cards` from round `round` of its two: each round draws a card for the player and
      then one for the dealer, with the next two picks. (A pick out of range, which valid
      picks never hold, ends the deal.) */
  function Deal(t: Table, picks: seq<nat>, round: nat): Table
    decreases 2 - round
  {
    if round >= 2 || |picks| < 2 * round + 2 then t
    else
      var i, j := picks[2 * round], picks[2 * round + 1];
      if i < |t.deck| && j < |t.deck| - 1 then Deal(DealtOnce(t, i, j), picks, round + 1)
      else t
  }

  /** Where a turn leaves the hand and the deck, and how many cards it drew. */
  datatype Turn = Turn(hand: seq<Card>, deck: seq<Card>, hits: nat)

  /** `player_turn` once `hits` cards have been drawn, each after an "h": stop when busted
      or at 21; otherwise read the next answer and draw with the next pick on "h", or stop
      on "s". The second component is how many answers were read. (Running out of picks or
      cards, which PlayerPlaySpec rules out, ends the turn.) */
  function PlayerPlay(hand: seq<Card>, deck: seq<Card>, answers: nat -> Decision, picks: seq<nat>, hits: nat)
    : (r: (Turn, nat))
    ensures hits <= r.0.hits && (hits <= |picks| ==> r.0.hits <= |picks|)
    ensures r.1 == r.0.hits || r.1 == r.0.hits + 1
    decreases |picks| - hits
  {
    if HandTotal(hand) > 21 || HandTotal(hand) == 21 then (Turn(hand, deck, hits), hits)
    else if answers(hits) == Hit && hits < |picks| && picks[hits] < |deck| then
      PlayerPlay(hand + [deck[picks[hits]]], RemoveAt(deck, picks[hits]), answers, picks, hits + 1)
    else (Turn(hand, deck, hits), hits + 1)
  }

  /** `computer_turn` once `hits` cards have been drawn: stop when busted, at 21 or at 17
      or more; otherwise draw with the next pick. */
  function DealerPlay(hand: seq<Card>, deck: seq<Card>, picks: seq<nat>, hits: nat): (t: Turn)
    ensures hits <= t.hits && (hits <= |picks| ==> t.hits <= |picks|)
    decreases |picks| - hits
  {
    if HandTotal(hand) > 21 || HandTotal(hand) == 21 || HandTotal(hand) >= 17 then Turn(hand, deck, hits)
    else if hits < |picks| && picks[hits] < |deck| then
      DealerPlay(hand + [deck[picks[hits]]], RemoveAt(deck, picks[hits]), picks, hits + 1)
    else Turn(hand, deck, hits)
  }

  /** What one round leaves on the table, with the number of answers read, of cards each
      side drew after the deal, and whether the dealer played. */
  datatype RoundEnd = RoundEnd(table: Table, asked: nat, playerHits: nat, dealerHits: nat, dealerPlayed: bool)

  /** `main_game`: the deal takes the first four picks, the player's turn the next ones,
      and the dealer's turn, unless the player is busted or at 21, those after. */
  function PlayRound(t: Table, answers: nat -> Decision, picks: seq<nat>): RoundEnd
    requires |picks| >= 4
  {
    var dealt := Deal(t, picks, 0);
    var rest := picks[4..];
    var played := PlayerPlay(dealt.player, dealt.deck, answers, rest, 0);
    var p, asked := played.0, played.1;
    if HandTotal(p.hand) > 21 || HandTotal(p.hand) == 21 then
      RoundEnd(Table(p.hand, dealt.dealer, p.deck), asked, p.hits, 0, false)
    else
      var d := DealerPlay(dealt.dealer, p.deck, rest[p.hits..], 0);
      RoundEnd(Table(p.hand, d.hand, d.deck), asked, p.hits, d.hits, true)
  }

  // ---------------------------------------------------------------- what a round does

  /** The deal from round `round` on gives each side one card per round left and takes
      two from the deck, and loses no card. */
  lemma {:induction false} DealSpec(t: Table, picks: seq<nat>, round: nat)
    requires round <= 2 && |picks| >= 4
    requires forall k :: 2 * round <= k < 4 ==> picks[k] < |t.deck| - (k - 2 * round)
    ensures var d := Deal(t, picks, round);
      |d.player| == |t.player| + (2 - round) && |d.dealer| == |t.dealer| + (2 - round) &&
      |d.deck| == |t.deck| - 2 * (2 - round) &&
      multiset(d.player) + multiset(d.dealer) + multiset(d.deck)
        == multiset(t.player) + multiset(t.dealer) + multiset(t.deck)
    decreases 2 - round
  {
    if round < 2 {
      var i, j := picks[2 * round], picks[2 * round + 1];
      var next := DealRound(t, i, j);
      assert Deal(t, picks, round) == Deal(next, picks, round + 1);
      DealSpec(next, picks, round + 1);
    }
  }

  /** One round of the deal with picks `i` and `j`: the player's card and then the dealer's
      leave the deck, and no card is lost. */
  lemma DealStep(t: Table, n: nat, picks: seq<nat>, round: nat)
    requires round < 2 && |picks| >= 4 && ValidPicks(n, picks) && |t.deck| == n - 2 * round
    ensures picks[2 * round] < |t.deck| && picks[2 * round + 1] < |t.deck| - 1
    ensures Deal(t, picks, round) == Deal(DealtOnce(t, picks[2 * round], picks[2 * round + 1]), picks, round + 1)
  {
    ValidPicksIndices(n, picks);
  }

  lemma DealRound(t: Table, i: nat, j: nat) returns (next: Table)
    requires i < |t.deck| && j < |t.deck| - 1
    ensures next == DealtOnce(t, i, j)
    ensures |next.player| == |t.player| + 1 && |next.dealer| == |t.dealer| + 1 && |next.deck| == |t.deck| - 2
    ensures multiset(next.player) + multiset(next.dealer) + multiset(next.deck)
      == multiset(t.player) + multiset(t.dealer) + multiset(t.deck)
  {
    var x, rest := t.deck[i], RemoveAt(t.deck, i);
    var y, left := rest[j], RemoveAt(rest, j);
    next := Table(t.player + [x], t.dealer + [y], left);
    RemoveAtMultiset(t.deck, i);
    RemoveAtMultiset(rest, j);
    assert multiset(next.player) == multiset(t.player) + multiset{x};
    assert multiset(next.dealer) == multiset(t.dealer) + multiset{y};
    calc {
      multiset(next.player) + multiset(next.dealer) + multiset(next.deck);
      multiset(t.player) + multiset(t.dealer) + (multiset(left) + multiset{y} + multiset{x});
      multiset(t.player) + multiset(t.dealer) + multiset(t.deck);
    }
  }

  /** `hand` and `deck` are what drawing with the first `t.hits` picks from `cards` onto
      `start` leaves. */
  ghost predicate DrawnSoFar(start: seq<Card>, cards: seq<Card>, picks: seq<nat>, t: Turn)
  {
    t.hits <= |picks| && ValidPicks(|cards|, picks[..t.hits]) &&
    t.hand == start + Drawn(cards, picks[..t.hits]) && t.deck == Remaining(cards, picks[..t.hits])
  }

  /** A turn neither loses nor adds a card. */
  lemma DrawnSoFarConserves(start: seq<Card>, cards: seq<Card>, picks: seq<nat>, t: Turn)
    requires DrawnSoFar(start, cards, picks, t)
    ensures multiset(t.hand) + multiset(t.deck) == multiset(start) + multiset(cards)
    ensures |t.hand| == |start| + t.hits && |t.deck| == |cards| - t.hits
  {
    DrawConserves(cards, picks[..t.hits]);
  }

  /** The hand a turn started from, after each of its first `n` draws but the last,
      totalled below `limit`: the turn drew only while that held. */
  ghost predicate TotalsBelow(start: seq<Card>, cards: seq<Card>, picks: seq<nat>, n: nat, limit: int)
    requires n <= |picks|
  {
    n == 0 || (TotalsBelow(start, cards, picks, n - 1, limit) && HandTotal(start + Drawn(cards, picks[..n - 1])) < limit)
  }

  /** One more draw onto a turn that has drawn `hits` cards so far. */
  lemma DrawnSoFarStep(start: seq<Card>, cards: seq<Card>, picks: seq<nat>, hand: seq<Card>, deck: seq<Card>, hits: nat)
    requires ValidPicks(|cards|, picks) && hits < |picks|
    requires DrawnSoFar(start, cards, picks, Turn(hand, deck, hits))
    ensures picks[hits] < |deck|
    ensures DrawnSoFar(start, cards, picks, Turn(hand + [deck[picks[hits]]], RemoveAt(deck, picks[hits]), hits + 1))
  {
    DrawStep(cards, picks, hits);
    ValidPicksPrefix(|cards|, picks, hits + 1);
    var d := Drawn(cards, picks[..hits]);
    assert start + (d + [deck[picks[hits]]]) == (start + d) + [deck[picks[hits]]];
  }

  /** A turn that has not ended still has a card to draw: with every card of the deck in
      hand the turn would already have ended. */
  lemma CardsLeft(start: seq<Card>, cards: seq<Card>, picks: seq<nat>, t: Turn, limit: int)
    requires |picks| == |cards| && DrawnSoFar(start, cards, picks, t)
    requires HandTotal(start + cards) >= limit > HandTotal(t.hand)
    ensures t.hits < |picks| && t.deck != []
  {
    DrawnSoFarConserves(start, cards, picks, t);
    DeckNotExhausted(t.hand, t.deck, start + cards, limit);
  }

  /** A hand at 21 or more ends the player's turn without a question. */
  lemma PlayerPlayStops(hand: seq<Card>, deck: seq<Card>, answers: nat -> Decision, picks: seq<nat>, hits: nat)
    requires HandTotal(hand) >= 21
    ensures PlayerPlay(hand, deck, answers, picks, hits) == (Turn(hand, deck, hits), hits)
  {
  }

  /** Under 21 an "s" ends the turn after one more answer (and so does running out of
      picks or cards, which a turn from a complete deck never does). */
  lemma PlayerPlayStays(hand: seq<Card>, deck: seq<Card>, answers: nat -> Decision, picks: seq<nat>, hits: nat)
    requires HandTotal(hand) < 21 && (answers(hits) != Hit || hits >= |picks| || picks[hits] >= |deck|)
    ensures PlayerPlay(hand, deck, answers, picks, hits) == (Turn(hand, deck, hits), hits + 1)
  {
  }

  /** Under 21 an "h" draws the card the next pick names and goes on. */
  lemma PlayerPlayHits(hand: seq<Card>, deck: seq<Card>, answers: nat -> Decision, picks: seq<nat>, hits: nat)
    requires HandTotal(hand) < 21 && answers(hits) == Hit && hits < |picks| && picks[hits] < |deck|
    ensures PlayerPlay(hand, deck, answers, picks, hits)
      == PlayerPlay(hand + [deck[picks[hits]]], RemoveAt(deck, picks[hits]), answers, picks, hits + 1)
  {
  }

  lemma TotalsBelowExtend(start: seq<Card>, cards: seq<Card>, picks: seq<nat>, n: nat, limit: int, hand: seq<Card>)
    requires n < |picks| && TotalsBelow(start, cards, picks, n, limit)
    requires hand == start + Drawn(cards, picks[..n]) && HandTotal(hand) < limit
    ensures TotalsBelow(start, cards, picks, n + 1, limit)
  {
  }

  /** The player was answered "h" at each of the first `n` questions. */
  ghost predicate HitUpTo(answers: nat -> Decision, n: nat)
  {
    forall k: nat :: k < n ==> answers(k) == Hit
  }

  lemma HitUpToExtend(answers: nat -> Decision, n: nat)
    requires HitUpTo(answers, n) && answers(n) == Hit
    ensures HitUpTo(answers, n + 1)
  {
    forall k: nat | k < n + 1 ensures answers(k) == Hit {
      if k == n {
        assert answers(k) == answers(n);
      }
    }
  }

  /** Every card the player drew was asked for with "h". */
  lemma {:induction false} PlayerPlayAnswers(answers: nat -> Decision, picks: seq<nat>, hand: seq<Card>, deck: seq<Card>, hits: nat)
    requires HitUpTo(answers, hits)
    ensures HitUpTo(answers, PlayerPlay(hand, deck, answers, picks, hits).0.hits)
    decreases |picks| - hits
  {
    if HandTotal(hand) >= 21 {
      PlayerPlayStops(hand, deck, answers, picks, hits);
    } else if answers(hits) == Hit && hits < |picks| && picks[hits] < |deck| {
      PlayerPlayHits(hand, deck, answers, picks, hits);
      HitUpToExtend(answers, hits);
      PlayerPlayAnswers(answers, picks, hand + [deck[picks[hits]]], RemoveAt(deck, picks[hits]), hits + 1);
    } else {
      PlayerPlayStays(hand, deck, answers, picks, hits);
    }
  }

  /** The turn ends without a further question exactly when the hand reached 21 or more. */
  lemma {:induction false} PlayerPlayEnds(answers: nat -> Decision, picks: seq<nat>, hand: seq<Card>, deck: seq<Card>, hits: nat)
    ensures var r := PlayerPlay(hand, deck, answers, picks, hits);
      r.1 == r.0.hits <==> HandTotal(r.0.hand) >= 21
    decreases |picks| - hits
  {
    if HandTotal(hand) >= 21 {
      PlayerPlayStops(hand, deck, answers, picks, hits);
    } else if answers(hits) == Hit && hits < |picks| && picks[hits] < |deck| {
      PlayerPlayHits(hand, deck, answers, picks, hits);
      PlayerPlayEnds(answers, picks, hand + [deck[picks[hits]]], RemoveAt(deck, picks[hits]), hits + 1);
    } else {
      PlayerPlayStays(hand, deck, answers, picks, hits);
    }
  }

  /** How a player's turn `r` from `start` ends: the cards drawn are the next ones the picks
      give; a turn that ends with an answer ends on "s"; and each hand an answer was asked
      for totalled under 21. */
  ghost predicate PlayerTurnEnds(start: seq<Card>, cards: seq<Card>, answers: nat -> Decision, picks: seq<nat>,
                                 r: (Turn, nat))
  {
    var t, asked := r.0, r.1;
    DrawnSoFar(start, cards, picks, t) &&
    (asked == t.hits + 1 ==> answers(t.hits) == Stay) &&
    asked <= |picks| && TotalsBelow(start, cards, picks, asked, 21)
  }

  /** The player's turn, from a hand that together with the deck totals 21 or more: the
      cards drawn are the next ones the picks give; a turn that ends with an answer ends on
      "s"; and each hand an answer was asked for totalled under 21. */
  lemma {:induction false} PlayerPlaySpec(start: seq<Card>, cards: seq<Card>, answers: nat -> Decision, picks: seq<nat>,
                                          hand: seq<Card>, deck: seq<Card>, hits: nat)
    requires ValidPicks(|cards|, picks) && |picks| == |cards| && HandTotal(start + cards) >= 21
    requires DrawnSoFar(start, cards, picks, Turn(hand, deck, hits))
    requires TotalsBelow(start, cards, picks, hits, 21)
    ensures PlayerTurnEnds(start, cards, answers, picks, PlayerPlay(hand, deck, answers, picks, hits))
    decreases |picks| - hits
  {
    if HandTotal(hand) >= 21 {
      PlayerPlayStops(hand, deck, answers, picks, hits);
    } else {
      CardsLeft(start, cards, picks, Turn(hand, deck, hits), 21);
      TotalsBelowExtend(start, cards, picks, hits, 21, hand);
      var d := answers(hits);
      if d == Hit {
        DrawnSoFarStep(start, cards, picks, hand, deck, hits);
        var hand', deck' := hand + [deck[picks[hits]]], RemoveAt(deck, picks[hits]);
        PlayerPlayHits(hand, deck, answers, picks, hits);
        PlayerPlaySpec(start, cards, answers, picks, hand', deck', hits + 1);
        assert PlayerPlay(hand, deck, answers, picks, hits) == PlayerPlay(hand', deck', answers, picks, hits + 1);
      } else {
        PlayerPlayStays(hand, deck, answers, picks, hits);
      }
    }
  }

  /** A hand at 17 or more ends the dealer's turn. */
  lemma DealerPlayStops(hand: seq<Card>, deck: seq<Card>, picks: seq<nat>, hits: nat)
    requires HandTotal(hand) >= 17
    ensures DealerPlay(hand, deck, picks, hits) == Turn(hand, deck, hits)
  {
  }

  /** Under 17 the dealer draws the card the next pick names and goes on. */
  lemma DealerPlayHits(hand: seq<Card>, deck: seq<Card>, picks: seq<nat>, hits: nat)
    requires HandTotal(hand) < 17 && hits < |picks| && picks[hits] < |deck|
    ensures DealerPlay(hand, deck, picks, hits)
      == DealerPlay(hand + [deck[picks[hits]]], RemoveAt(deck, picks[hits]), picks, hits + 1)
  {
  }

  /** The dealer's turn, from a hand that together with the deck totals 17 or more: the
      cards drawn are the next ones the picks give, the hand ends at 17 or more, and each
      hand the dealer drew to totalled under 17. */
  lemma {:induction false} DealerPlaySpec(start: seq<Card>, cards: seq<Card>, picks: seq<nat>,
                                          hand: seq<Card>, deck: seq<Card>, hits: nat)
    requires ValidPicks(|cards|, picks) && |picks| == |cards| && HandTotal(start + cards) >= 17
    requires DrawnSoFar(start, cards, picks, Turn(hand, deck, hits))
    requires TotalsBelow(start, cards, picks, hits, 17)
    ensures var t := DealerPlay(hand, deck, picks, hits);
      DrawnSoFar(start, cards, picks, t) && HandTotal(t.hand) >= 17 &&
      TotalsBelow(start, cards, picks, t.hits, 17)
    decreases |picks| - hits
  {
    if HandTotal(hand) >= 17 {
      DealerPlayStops(hand, deck, picks, hits);
    } else {
      CardsLeft(start, cards, picks, Turn(hand, deck, hits), 17);
      TotalsBelowExtend(start, cards, picks, hits, 17, hand);
      DrawnSoFarStep(start, cards, picks, hand, deck, hits);
      DealerPlayHits(hand, deck, picks, hits);
      DealerPlaySpec(start, cards, picks, hand + [deck[picks[hits]]], RemoveAt(deck, picks[hits]), hits + 1);
    }
  }

  lemma DrawnSoFarStart(start: seq<Card>, cards: seq<Card>, picks: seq<nat>)
    ensures DrawnSoFar(start, cards, picks, Turn(start, cards, 0))
  {
    assert picks[..0] == [] && start + [] == start;
  }


  /** After the deal from a complete deck: each side holds two cards, 48 are left, all 52
      are there, the dealer is at most 21 and the player's hand with the deck totals at
      least 21. */
  lemma AfterDeal(t: Table, picks: seq<nat>, full: seq<Card>)
    requires FullDeck(full)
    requires t.player == [] && t.dealer == [] && multiset(t.deck) == multiset(full)
    requires |picks| == |t.deck| && ValidPicks(|t.deck|, picks)
    ensures |t.deck| == 52
    ensures var d := Deal(t, picks, 0);
      |d.player| == 2 && |d.dealer| == 2 && |d.deck| == 48 &&
      multiset(d.player) + multiset(d.dealer) + multiset(d.deck) == multiset(full) &&
      HandTotal(d.dealer) <= 21 && HandTotal(d.player + d.deck) >= 21
  {
    assert |t.deck| == |multiset(t.deck)| == |multiset(full)|;
    DealWithValidPicks(t, picks);
    DealtTotals(Deal(t, picks, 0), full);
  }

  /** `deal_cards` with valid picks moves two cards to each hand and loses none. */
  lemma DealWithValidPicks(t: Table, picks: seq<nat>)
    requires |picks| == |t.deck| >= 4 && ValidPicks(|t.deck|, picks)
    ensures var d := Deal(t, picks, 0);
      |d.player| == |t.player| + 2 && |d.dealer| == |t.dealer| + 2 && |d.deck| == |t.deck| - 4 &&
      multiset(d.player) + multiset(d.dealer) + multiset(d.deck)
        == multiset(t.player) + multiset(t.dealer) + multiset(t.deck)
  {
    ValidPicksIndices(|t.deck|, picks);
    DealSpec(t, picks, 0);
  }

  /** Two cards of the 52 total at most 21, and the other 50 at least 21. */
  lemma DealtTotals(d: Table, full: seq<Card>)
    requires FullDeck(full)
    requires |d.dealer| == 2 && multiset(d.player) + multiset(d.dealer) + multiset(d.deck) == multiset(full)
    ensures HandTotal(d.dealer) <= 21 && HandTotal(d.player + d.deck) >= 21
  {
    assert multiset(d.dealer) + (multiset(d.player) + multiset(d.deck)) == multiset(full);
    CardsOfTheDeck(d.dealer, multiset(d.player) + multiset(d.deck), full);
    assert d.dealer == [d.dealer[0], d.dealer[1]];
    TwoCardsNotBusted(d.dealer[0], d.dealer[1]);
    assert multiset(d.player + d.deck) + multiset(d.dealer) == multiset(full);
    PlentyLeft(d.player + d.deck, d.dealer, full);
  }

  /** After the player's turn from the dealt table: the player holds the two dealt cards
      and those drawn, all 52 cards are there, and the picks left fit the deck left. */
  lemma AfterPlayer(d: Table, answers: nat -> Decision, rest: seq<nat>, full: seq<Card>)
    requires |d.player| == 2 && |d.dealer| == 2 && |d.deck| == 48 && |rest| == 48
    requires multiset(d.player) + multiset(d.dealer) + multiset(d.deck) == multiset(full)
    requires HandTotal(d.player + d.deck) >= 21 && ValidPicks(48, rest)
    ensures var p := PlayerPlay(d.player, d.deck, answers, rest, 0).0;
      |p.hand| == 2 + p.hits && |p.deck| == 48 - p.hits &&
      multiset(p.hand) + multiset(d.dealer) + multiset(p.deck) == multiset(full) &&
      ValidPicks(|p.deck|, rest[p.hits..])
  {
    PlayerKeepsCards(d.player, d.deck, answers, rest);
    var p := PlayerPlay(d.player, d.deck, answers, rest, 0).0;
    Regroup(multiset(d.dealer), multiset(d.player), multiset(d.deck), multiset(p.hand), multiset(p.deck));
    ValidPicksSuffix(48, rest, p.hits);
  }

  /** The player's whole turn only moves cards from the deck to the hand. */
  lemma PlayerKeepsCards(start: seq<Card>, cards: seq<Card>, answers: nat -> Decision, picks: seq<nat>)
    requires ValidPicks(|cards|, picks) && |picks| == |cards| && HandTotal(start + cards) >= 21
    ensures var t := PlayerPlay(start, cards, answers, picks, 0).0;
      t.hits <= |picks| && |t.hand| == |start| + t.hits && |t.deck| == |cards| - t.hits &&
      multiset(t.hand) + multiset(t.deck) == multiset(start) + multiset(cards)
  {
    DrawnSoFarStart(start, cards, picks);
    PlayerPlaySpec(start, cards, answers, picks, start, cards, 0);
    DrawnSoFarConserves(start, cards, picks, PlayerPlay(start, cards, answers, picks, 0).0);
  }

  /** When the player stops under 21, the dealer's hand with what is left totals 21 or more. */
  lemma DealerHasEnough(player: seq<Card>, dealer: seq<Card>, deck: seq<Card>, full: seq<Card>)
    requires FullDeck(full)
    requires multiset(player) + multiset(dealer) + multiset(deck) == multiset(full)
    requires HandTotal(player) < 21
    ensures HandTotal(dealer + deck) >= 21
  {
    assert multiset(dealer + deck) + multiset(player) == multiset(player) + multiset(dealer) + multiset(deck);
    PlentyLeft(dealer + deck, player, full);
  }

  /** After the dealer's turn: the dealer holds the two dealt cards and those drawn, all 52
      cards are there, and the dealer ends at 17 or more. */
  lemma AfterDealer(player: seq<Card>, dealer: seq<Card>, deck: seq<Card>, picks: seq<nat>, full: seq<Card>)
    requires multiset(player) + multiset(dealer) + multiset(deck) == multiset(full)
    requires |picks| == |deck| && ValidPicks(|deck|, picks) && HandTotal(dealer + deck) >= 17
    ensures var e := DealerPlay(dealer, deck, picks, 0);
      |e.hand| == |dealer| + e.hits && |e.deck| == |deck| - e.hits &&
      multiset(player) + multiset(e.hand) + multiset(e.deck) == multiset(full) &&
      HandTotal(e.hand) >= 17
  {
    DrawnSoFarStart(dealer, deck, picks);
    DealerPlaySpec(dealer, deck, picks, dealer, deck, 0);
    var e := DealerPlay(dealer, deck, picks, 0);
    DrawnSoFarConserves(dealer, deck, picks, e);
    Regroup(multiset(player), multiset(dealer), multiset(deck), multiset(e.hand), multiset(e.deck));
  }

  /** Neither turn of the round from table `t` runs out of cards. */
  ghost predicate Playable(t: Table, answers: nat -> Decision, picks: seq<nat>)
  {
    DealLeavesEnough(t, picks) && TurnsHaveEnough(t, answers, picks)
  }

  /** The deal leaves 48 cards whose total with the player's hand is at least 21. */
  ghost predicate DealLeavesEnough(t: Table, picks: seq<nat>)
  {
    |picks| == 52 && ValidPicks(48, picks[4..]) &&
    var d := Deal(t, picks, 0);
    |d.deck| == 48 && HandTotal(d.player + d.deck) >= 21
  }

  /** The turns after the deal: see PlayerLeavesEnough. */
  ghost predicate TurnsHaveEnough(t: Table, answers: nat -> Decision, picks: seq<nat>)
  {
    |picks| >= 4 && PlayerLeavesEnough(Deal(t, picks, 0), answers, picks[4..])
  }

  /** After the player's turn from table `d` the picks left fit the deck left, and unless
      the player ends at 21 or more, the cards left total at least 17 with the dealer's
      hand. */
  ghost predicate PlayerLeavesEnough(d: Table, answers: nat -> Decision, rest: seq<nat>)
  {
    var p := PlayerPlay(d.player, d.deck, answers, rest, 0).0;
    |p.deck| == |d.deck| - p.hits && ValidPicks(|p.deck|, rest[p.hits..]) &&
    (HandTotal(p.hand) < 21 ==> HandTotal(d.dealer + p.deck) >= 17)
  }

  /** A round from a full deck and empty hands can be played. */
  lemma RoundCanBePlayed(t: Table, answers: nat -> Decision, picks: seq<nat>, full: seq<Card>)
    requires FullDeck(full)
    requires t.player == [] && t.dealer == [] && multiset(t.deck) == multiset(full)
    requires |picks| == |t.deck| && ValidPicks(|t.deck|, picks)
    ensures Playable(t, answers, picks)
  {
    DealFromFullDeck(t, picks, full);
    TurnsFromFullDeck(t, answers, picks, full);
  }

  lemma DealFromFullDeck(t: Table, picks: seq<nat>, full: seq<Card>)
    requires FullDeck(full)
    requires t.player == [] && t.dealer == [] && multiset(t.deck) == multiset(full)
    requires |picks| == |t.deck| && ValidPicks(|t.deck|, picks)
    ensures DealLeavesEnough(t, picks)
  {
    AfterDeal(t, picks, full);
    ValidPicksSuffix(52, picks, 4);
  }

  lemma TurnsFromFullDeck(t: Table, answers: nat -> Decision, picks: seq<nat>, full: seq<Card>)
    requires FullDeck(full)
    requires t.player == [] && t.dealer == [] && multiset(t.deck) == multiset(full)
    requires |picks| == |t.deck| && ValidPicks(|t.deck|, picks)
    ensures TurnsHaveEnough(t, answers, picks)
  {
    AfterDeal(t, picks, full);
    var d := Deal(t, picks, 0);
    var rest := picks[4..];
    ValidPicksSuffix(|t.deck|, picks, 4);
    AfterPlayer(d, answers, rest, full);
    var p := PlayerPlay(d.player, d.deck, answers, rest, 0).0;
    if HandTotal(p.hand) < 21 {
      DealerHasEnough(p.hand, d.dealer, p.deck, full);
    }
    assert PlayerLeavesEnough(d, answers, rest);
  }

  /** In particular a round from the fresh deck can. */
  lemma FreshRoundCanBePlayed(t: Table, answers: nat -> Decision, picks: seq<nat>)
    requires t.player == [] && t.dealer == [] && multiset(t.deck) == multiset(FreshDeck())
    requires |picks| == |t.deck| && ValidPicks(|t.deck|, picks)
    ensures Playable(t, answers, picks)
  {
    FreshDeckIsFull();
    RoundCanBePlayed(t, answers, picks, FreshDeck());
  }

  /** One round from a complete deck and empty hands: all 52 cards stay on the table; each
      side holds its two dealt cards and those it drew; the dealer plays exactly when the
      player ends under 21, and then ends at 17 or more; the player was asked at most once
      more than they drew. */
  lemma RoundSpec(t: Table, answers: nat -> Decision, picks: seq<nat>, full: seq<Card>)
    requires FullDeck(full)
    requires t.player == [] && t.dealer == [] && multiset(t.deck) == multiset(full)
    requires |picks| == |t.deck| && ValidPicks(|t.deck|, picks)
    ensures |picks| >= 4
    ensures var r := PlayRound(t, answers, picks);
      multiset(r.table.player) + multiset(r.table.dealer) + multiset(r.table.deck) == multiset(full) &&
      |r.table.player| == 2 + r.playerHits && |r.table.dealer| == 2 + r.dealerHits &&
      |r.table.deck| == 52 - 4 - r.playerHits - r.dealerHits &&
      (r.dealerPlayed <==> HandTotal(r.table.player) < 21) &&
      (r.dealerPlayed ==> HandTotal(r.table.dealer) >= 17) &&
      r.asked <= r.playerHits + 1
  {
    AfterDeal(t, picks, full);
    var d := Deal(t, picks, 0);
    var rest := picks[4..];
    ValidPicksSuffix(|t.deck|, picks, 4);
    AfterPlayer(d, answers, rest, full);
    var played := PlayerPlay(d.player, d.deck, answers, rest, 0);
    var p := played.0;
    if HandTotal(p.hand) < 21 {
      DealerHasEnough(p.hand, d.dealer, p.deck, full);
      AfterDealer(p.hand, d.dealer, p.deck, rest[p.hits..], full);
      var e := DealerPlay(d.dealer, p.deck, rest[p.hits..], 0);
      assert PlayRound(t, answers, picks) == RoundEnd(Table(p.hand, e.hand, e.deck), played.1, p.hits, e.hits, true);
    } else {
      assert PlayRound(t, answers, picks) == RoundEnd(Table(p.hand, d.dealer, p.deck), played.1, p.hits, 0, false);
    }
  }

  /** One "h" of `player_turn` in the middle of a turn from a hand that with the deck
      totals 21 or more: there is a card to draw, and drawing it keeps every card in
      place and the rest of the turn unchanged. */
  lemma PlayerHitStep(hand0: seq<Card>, cards0: seq<Card>, answers: nat -> Decision, picks: seq<nat>,
                      hand: seq<Card>, cards: seq<Card>, hits: nat)
    requires |picks| == |cards0| && ValidPicks(|cards0|, picks) && HandTotal(hand0 + cards0) >= 21
    requires |cards| == |cards0| - hits && multiset(hand) + multiset(cards) == multiset(hand0 + cards0)
    requires PlayerPlay(hand, cards, answers, picks, hits) == PlayerPlay(hand0, cards0, answers, picks, 0)
    requires HandTotal(hand) < 21 && answers(hits) == Hit
    ensures hits < |picks| && picks[hits] < |cards|
    ensures var next, left := hand + [cards[picks[hits]]], RemoveAt(cards, picks[hits]);
      multiset(next) + multiset(left) == multiset(hand0 + cards0) &&
      PlayerPlay(next, left, answers, picks, hits + 1) == PlayerPlay(hand0, cards0, answers, picks, 0)
  {
    TurnCanDraw(hand0 + cards0, |cards0|, picks, hand, cards, hits, 21);
    PlayerPlayHits(hand, cards, answers, picks, hits);
  }

  /** One draw of `computer_turn`, as PlayerHitStep with the dealer's limit of 17. */
  lemma DealerHitStep(hand0: seq<Card>, cards0: seq<Card>, picks: seq<nat>,
                      hand: seq<Card>, cards: seq<Card>, hits: nat)
    requires |picks| == |cards0| && ValidPicks(|cards0|, picks) && HandTotal(hand0 + cards0) >= 17
    requires |cards| == |cards0| - hits && multiset(hand) + multiset(cards) == multiset(hand0 + cards0)
    requires DealerPlay(hand, cards, picks, hits) == DealerPlay(hand0, cards0, picks, 0)
    requires HandTotal(hand) < 17
    ensures hits < |picks| && picks[hits] < |cards|
    ensures var next, left := hand + [cards[picks[hits]]], RemoveAt(cards, picks[hits]);
      multiset(next) + multiset(left) == multiset(hand0 + cards0) &&
      DealerPlay(next, left, picks, hits + 1) == DealerPlay(hand0, cards0, picks, 0)
  {
    TurnCanDraw(hand0 + cards0, |cards0|, picks, hand, cards, hits, 17);
    DealerPlayHits(hand, cards, picks, hits);
  }

  // ---------------------------------------------------------------- the game

  class Game {
    var deck: Deck
    const player: Participant
    const dealer: Participant

    ghost predicate Valid()
      reads this
    {
      player != dealer
    }

    ghost function State(): Table
      reads this, deck, player, dealer
    {
      Table(player.hand, dealer.hand, deck.cards)
    }

    /** Within a round every card of the 52 is in the deck or in exactly one hand. */
    ghost predicate RoundInvariant()
      reads this, deck, player, dealer
    {
      multiset(player.hand) + multiset(dealer.hand) + multiset(deck.cards) == multiset(FreshDeck())
    }

    constructor (playerName: string, dealerName: string)
      ensures Valid() && fresh(deck) && fresh(player) && fresh(dealer)
      ensures deck.cards == FreshDeck() && player.hand == [] && dealer.hand == []
      ensures player.name == playerName && dealer.name == dealerName
      ensures RoundInvariant()
    {
      player := new Participant(playerName);
      dealer := new Participant(dealerName);
      deck := new Deck();
    }

    /** `deal_cards`: twice, one card to the player and then one to the dealer. */
    method DealCards(picks: seq<nat>)
      requires Valid()
      requires |picks| >= 4 && ValidPicks(|deck.cards|, picks)
      modifies deck, player, dealer
      ensures State() == Deal(old(State()), picks, 0)
    {
      ghost var t0 := State();
      var round := 0;
      while round < 2
        invariant round <= 2 && |deck.cards| == |t0.deck| - 2 * round
        invariant Deal(State(), picks, round) == Deal(t0, picks, 0)
      {
        ghost var t := State();
        DealStep(t, |t0.deck|, picks, round);
        DealTo(player, picks[2 * round]);
        DealTo(dealer, picks[2 * round + 1]);
        assert State() == DealtOnce(t, picks[2 * round], picks[2 * round + 1]);
        round := round + 1;
      }
    }

    /** `player_turn`: `answers(k)` is the k-th valid answer typed, `picks[k]` the index
        `rand` gives at the k-th draw; PlayerPlaySpec states what the turn does. */
    method PlayerTurn(answers: nat -> Decision, picks: seq<nat>) returns (asked: nat, hits: nat)
      requires |picks| == |deck.cards| && ValidPicks(|deck.cards|, picks)
      requires HandTotal(player.hand + deck.cards) >= 21
      modifies deck, player
      ensures (Turn(player.hand, deck.cards, hits), asked) == PlayerPlay(old(player.hand), old(deck.cards), answers, picks, 0)
    {
      ghost var cards0, hand0 := deck.cards, player.hand;
      ghost var goal := PlayerPlay(hand0, cards0, answers, picks, 0);
      asked, hits := 0, 0;
      while true
        invariant asked == hits <= |picks| && |deck.cards| == |cards0| - hits
        invariant multiset(player.hand) + multiset(deck.cards) == multiset(hand0 + cards0)
        invariant PlayerPlay(player.hand, deck.cards, answers, picks, hits) == goal
        decreases |picks| - hits
      {
        var over := player.BustedOrBlackjack();
        if over {
          PlayerPlayStops(player.hand, deck.cards, answers, picks, hits);
          assert (Turn(player.hand, deck.cards, hits), asked) == goal;
          break;
        }
        var decision := answers(asked);
        asked := asked + 1;
        if decision != Hit {
          PlayerPlayStays(player.hand, deck.cards, answers, picks, hits);
          assert (Turn(player.hand, deck.cards, hits), asked) == goal;
          break;
        }
        PlayerHitStep(hand0, cards0, answers, picks, player.hand, deck.cards, hits);
        DealTo(player, picks[hits]);
        hits := hits + 1;
      }
    }

    /** `participant.add_card(deck.deal_one)`. */
    method DealTo(p: Participant, index: nat)
      requires index < |deck.cards|
      modifies deck, p
      ensures p.hand == old(p.hand) + [old(deck.cards)[index]]
      ensures deck.cards == RemoveAt(old(deck.cards), index)
    {
      var card := deck.DealOne(index);
      p.AddCard(card);
    }

    /** `computer_turn`; DealerPlaySpec states what the turn does. */
    method ComputerTurn(picks: seq<nat>) returns (hits: nat)
      requires |picks| == |deck.cards| && ValidPicks(|deck.cards|, picks)
      requires HandTotal(dealer.hand + deck.cards) >= 17
      modifies deck, dealer
      ensures Turn(dealer.hand, deck.cards, hits) == DealerPlay(old(dealer.hand), old(deck.cards), picks, 0)
    {
      ghost var cards0, hand0 := deck.cards, dealer.hand;
      hits := 0;
      while true
        invariant hits <= |picks| && |deck.cards| == |cards0| - hits
        invariant multiset(dealer.hand) + multiset(deck.cards) == multiset(hand0 + cards0)
        invariant DealerPlay(dealer.hand, deck.cards, picks, hits) == DealerPlay(hand0, cards0, picks, 0)
        decreases |picks| - hits
      {
        var stop := dealer.BustedOrBlackjack();
        if !stop {
          var total := dealer.Total();
          stop := total >= 17;
        }
        if stop {
          DealerPlayStops(dealer.hand, deck.cards, picks, hits);
          break;
        }
        DealerHitStep(hand0, cards0, picks, dealer.hand, deck.cards, hits);
        DealTo(dealer, picks[hits]);
        hits := hits + 1;
      }
    }

    /** `reset`: a new deck and two empty hands. */
    method Reset()
      requires Valid()
      modifies this, player, dealer
      ensures Valid() && fresh(deck)
      ensures deck.cards == FreshDeck() && player.hand == [] && dealer.hand == []
      ensures RoundInvariant()
    {
      deck := new Deck();
      player.hand := [];
      dealer.hand := [];
    }

    /** `main_game` without its output: deal, the player's turn, and the dealer's turn unless
        the player is busted or at 21. `picks` are the indices of every draw of the round;
        RoundSpec states what the round does. */
    method MainGame(answers: nat -> Decision, picks: seq<nat>)
      returns (asked: nat, playerHits: nat, dealerHits: nat, dealerPlayed: bool)
      requires Valid() && RoundInvariant() && player.hand == [] && dealer.hand == []
      requires |picks| == |deck.cards| && ValidPicks(|deck.cards|, picks)
      modifies deck, player, dealer
      ensures |picks| >= 4
      ensures RoundEnd(State(), asked, playerHits, dealerHits, dealerPlayed)
        == PlayRound(Table([], [], old(deck.cards)), answers, picks)
    {
      assert multiset(deck.cards) == multiset(FreshDeck());
      FreshRoundCanBePlayed(State(), answers, picks);
      DealCards(picks);
      var rest := picks[4..];
      asked, playerHits := PlayerTurn(answers, rest);
      var over := player.BustedOrBlackjack();
      dealerPlayed := !over;
      dealerHits := 0;
      if dealerPlayed {
        dealerHits := ComputerTurn(rest[playerHits..]);
      }
    }
  }
}
