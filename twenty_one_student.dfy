/** The student's Twenty-One (twenty_one/twenty_one_student.rb): cards are strings such as
    "Jack of Hearts", the deck is the shuffled key list of a card-to-value hash, hands are
    dealt and hit from the end of the deck, an Ace counts 11 or 1 according to the points
    before it, and the game keeps the winner in a field that a bust sets. */
module TwentyOneStudent {
  import opened Wrappers
  import opened RubyText
  import opened Draws
  import T = TwentyOne

  // ---------------------------------------------------------------- cards and their values

  const SUITS: seq<string> := ["Hearts", "Clubs", "Diamonds", "Spades"]
  const NUMBER_FACES: seq<string> := ["1", "2", "3", "4", "5", "6", "7", "8", "9"]
  /** `%w(1 2 3 4 5 6 7 8 9 Jack Queen King Ace)`, written as the numbers and then the
      pictures. */
  const FACE_CARDS: seq<string> := NUMBER_FACES + ["Jack", "Queen", "King", "Ace"]

  /** `Game::BUSTED`, the most points a hand may hold. */
  const BUSTED := 21
  /** `Dealer::HIT_MAX`: the dealer stays only above this. */
  const HIT_MAX := 17

  /** What `determine_card_value` returns: a number, or the array `[1, 11]` for an Ace. */
  datatype Worth = Points(n: nat) | Choices(low: nat, high: nat)

  predicate StartsWith(s: string, prefix: string)
  {
    prefix <= s
  }

  /** `Deck#determine_card_value`: `[1, 11]` for a string starting with "Ace", the leading
      number when there is one other than 0, and 10 otherwise. */
  function DetermineCardValue(card: string): (w: Worth)
    ensures w.Choices? <==> StartsWith(card, "Ace")
    ensures w.Choices? ==> w == Choices(1, 11)
    ensures w.Points? ==> 1 <= w.n
    ensures !StartsWith(card, "Ace") && ParseLeadingNat(card) != 0 ==> w == Points(ParseLeadingNat(card))
    ensures !StartsWith(card, "Ace") && ParseLeadingNat(card) == 0 ==> w == Points(10)
  {
    if StartsWith(card, "Ace") then Choices(1, 11)
    else if ParseLeadingNat(card) != 0 then Points(ParseLeadingNat(card))
    else Points(10)
  }

  /** `card[0..2]`: the first three characters, or the whole string when it is shorter. */
  function FirstThree(card: string): string
  {
    if |card| >= 3 then card[..3] else card
  }

  /** `card[0..2] == 'Ace'` says the same as `card.start_with?('Ace')`. */
  lemma FirstThreeAce(card: string)
    ensures FirstThree(card) == "Ace" <==> StartsWith(card, "Ace")
  {
    if StartsWith(card, "Ace") {
      assert card[..3] == "Ace";
    }
  }

  /** `Participant#aces`: the first choice, 1, once the running total is above 10, and the
      second, 11, otherwise. */
  function AceValue(total: int, card: string): (v: nat)
    requires StartsWith(card, "Ace")
    ensures v == 11 <==> total <= 10
    ensures v == 1 || v == 11
  {
    var w := DetermineCardValue(card);
    if total > 10 then w.low else w.high
  }

  /** One step of `calculate_point_total`'s `each`: the running total after `card`. */
  function AddCardPoints(total: int, card: string): int
  {
    FirstThreeAce(card);
    if FirstThree(card) != "Ace" then total + DetermineCardValue(card).n
    else total + AceValue(total, card)
  }

  /** The running total after the cards in order, starting from `total`. */
  function PointsFrom(total: int, cards: seq<string>): int
    decreases |cards|
  {
    if cards == [] then total else PointsFrom(AddCardPoints(total, cards[0]), cards[1..])
  }

  /** `Participant#calculate_point_total`, as a value. */
  function PointTotal(cards: seq<string>): int
  {
    PointsFrom(0, cards)
  }

  /** A card added at the end is scored against the points of the cards before it, which
      it never changes: what `update_points` after a hit relies on. */
  lemma {:induction false} PointsFromAppend(total: int, cards: seq<string>, card: string)
    ensures PointsFrom(total, cards + [card]) == AddCardPoints(PointsFrom(total, cards), card)
    decreases |cards|
  {
    if cards != [] {
      assert (cards + [card])[1..] == cards[1..] + [card];
      PointsFromAppend(AddCardPoints(total, cards[0]), cards[1..], card);
    } else {
      assert (cards + [card])[1..] == [];
    }
  }

  lemma PointTotalAppend(cards: seq<string>, card: string)
    ensures PointTotal(cards + [card]) == AddCardPoints(PointTotal(cards), card)
  {
    PointsFromAppend(0, cards, card);
  }

  /** Every card adds at least one point and an Ace adds 11 only to a total of 10 or less,
      so an Ace never takes a hand below 21 above it. */
  lemma AddCardBounds(total: int, card: string)
    ensures AddCardPoints(total, card) >= total + 1
    ensures StartsWith(card, "Ace") && total < BUSTED ==> AddCardPoints(total, card) <= BUSTED
  {
    FirstThreeAce(card);
  }

  /** A hand is worth at least one point per card. */
  lemma {:induction false} PointsAtLeastCards(cards: seq<string>)
    ensures PointTotal(cards) >= |cards|
  {
    if cards != [] {
      var n := |cards| - 1;
      assert cards == cards[..n] + [cards[n]];
      PointsAtLeastCards(cards[..n]);
      PointTotalAppend(cards[..n], cards[n]);
      AddCardBounds(PointTotal(cards[..n]), cards[n]);
    }
  }

  lemma FiveOfClubs()
    ensures ParseLeadingNat("5 of Clubs") == 5
  {
    LeadingDigitsOfDigits("5", " of Clubs");
    assert "5" + " of Clubs" == "5 of Clubs";
    assert "5"[..0] == [];
  }

  lemma PointsOfThree(a: string, b: string, c: string)
    ensures PointTotal([a, b, c]) == AddCardPoints(AddCardPoints(AddCardPoints(0, a), b), c)
  {
    assert [a, b, c][1..] == [b, c] && [b, c][1..] == [c] && [c][1..] == [];
    var x := AddCardPoints(0, a);
    var y := AddCardPoints(x, b);
    assert PointsFrom(y, [c]) == PointsFrom(AddCardPoints(y, c), []);
    assert PointsFrom(x, [b, c]) == PointsFrom(y, [c]);
  }

  /** The Ace rule looks at the cards before the Ace only: Ace, 5, King makes 26 (the Ace
      counted 11 and kept at 11), while 5, King, Ace, the same cards, makes 16. */
  lemma OrderMatters()
    ensures PointTotal(["Ace of Hearts", "5 of Clubs", "King of Spades"]) == 26
    ensures PointTotal(["5 of Clubs", "King of Spades", "Ace of Hearts"]) == 16
    ensures multiset(["Ace of Hearts", "5 of Clubs", "King of Spades"])
      == multiset(["5 of Clubs", "King of Spades", "Ace of Hearts"])
  {
    FiveOfClubs();
    PointsOfThree("Ace of Hearts", "5 of Clubs", "King of Spades");
    PointsOfThree("5 of Clubs", "King of Spades", "Ace of Hearts");
    assert !StartsWith("King of Spades", "Ace") && ParseLeadingNat("King of Spades") == 0;
    assert !StartsWith("5 of Clubs", "Ace") && StartsWith("Ace of Hearts", "Ace");
  }

  // ---------------------------------------------------------------- small helpers

  /** `Participant#point_or_points` */
  function PointOrPoints(points: int): (word: string)
    ensures word == "point" <==> points == 1
    ensures word == "points" <==> points != 1
  {
    if points == 1 then "point" else "points"
  }

  /** `Participant#join_and`. One element is itself, two are joined by " and ", and more
      by ", " with " and " before the last; the empty list, whose last element is `nil`,
      gives " and ". */
  function JoinAnd(arr: seq<string>): (r: string)
    ensures |arr| == 1 ==> r == arr[0]
    ensures |arr| >= 2 ==> r == Join(arr[..|arr| - 1], ", ") + " and " + arr[|arr| - 1]
    ensures arr == [] ==> r == " and "
  {
    if |arr| == 1 then Join(arr, "")
    else if |arr| == 2 then
      assert arr[..1] == [arr[0]];
      arr[0] + " and " + arr[1]
    else
      var first := if arr == [] then [] else arr[..|arr| - 1];
      var last := if arr == [] then "" else arr[|arr| - 1];
      Join(first, ", ") + " and " + last
  }

  /** A list of two or more starts with its first element and ends with " and " and its
      last, and one more element in the middle adds ", " and that element. */
  lemma {:induction false} JoinAndParts(arr: seq<string>)
    requires |arr| >= 2
    ensures arr[0] <= JoinAnd(arr)
    ensures |JoinAnd(arr)| >= |arr[0]| + 5 + |arr[|arr| - 1]|
    ensures JoinAnd(arr)[|JoinAnd(arr)| - |arr[|arr| - 1]| - 5..] == " and " + arr[|arr| - 1]
  {
    var n := |arr| - 1;
    var head := Join(arr[..n], ", ");
    JoinStartsWithFirst(arr[..n], ", ");
    assert JoinAnd(arr) == head + (" and " + arr[n]);
  }

  lemma JoinStartsWithFirst(parts: seq<string>, sep: string)
    requires parts != []
    ensures parts[0] <= Join(parts, sep)
  {
    if |parts| > 1 {
      assert Join(parts, sep) == parts[0] + (sep + Join(parts[1..], sep));
    }
  }

  /** One card is just its name, two are joined by " and " alone; an empty hand, which the
      game never shows, gives the bare " and ". */
  lemma JoinAndExamples()
    ensures JoinAnd(["Ace of Hearts"]) == "Ace of Hearts"
    ensures JoinAnd(["1 of Clubs", "King of Spades"]) == "1 of Clubs and King of Spades"
    ensures JoinAnd([]) == " and "
  {
    var one := ["Ace of Hearts"];
    assert Join(one, "") == one[0];
    var two := ["1 of Clubs", "King of Spades"];
    assert JoinAnd(two) == two[0] + " and " + two[1];
  }

  lemma JoinAndThree()
    ensures JoinAnd(["a", "b", "c"]) == "a, b and c"
  {
    var abc := ["a", "b", "c"];
    assert abc[..2] == ["a", "b"] && ["a", "b"][1..] == ["b"];
  }

  /** The characters of `s` other than blanks, in order (`select { |char| char != ' ' }`). */
  function NonBlanks(s: string): (r: string)
    ensures r == [] <==> forall i :: 0 <= i < |s| ==> s[i] == ' '
  {
    if s == [] then []
    else if s[0] != ' ' then [s[0]] + NonBlanks(s[1..])
    else
      assert forall i :: 1 <= i < |s| ==> s[i] == s[1..][i - 1];
      NonBlanks(s[1..])
  }

  /** `Player#empty_input`: empty, or nothing but blanks. */
  function EmptyInput(s: string): (empty: bool)
    ensures empty <==> forall i :: 0 <= i < |s| ==> s[i] == ' '
  {
    s == [] || NonBlanks(s) == []
  }

  /** `Player#stay?` on one typed line: after `downcase`, "s" or "stay" stays, "h" or "hit"
      hits, and anything else is asked again (`None`). */
  function ParseStay(line: string): (stay: Option<bool>)
    ensures stay == Some(true) <==> Downcase(line) in ["s", "stay"]
    ensures stay == Some(false) <==> Downcase(line) in ["h", "hit"]
    ensures stay == None <==> Downcase(line) !in ["h", "s", "stay", "hit"]
  {
    var answer := Downcase(line);
    if answer in ["h", "s", "stay", "hit"] then Some(answer == "s" || answer == "stay") else None
  }

  lemma {:induction false} DowncaseTwice(s: string)
    ensures Downcase(Downcase(s)) == Downcase(s)
  {
    assert forall i :: 0 <= i < |s| ==> DowncaseChar(DowncaseChar(s[i])) == DowncaseChar(s[i]);
  }

  /** Answers are read case-blind: a line and its lower-case form mean the same. */
  lemma ParseStayCaseBlind(line: string)
    ensures ParseStay(Downcase(line)) == ParseStay(line)
  {
    DowncaseTwice(line);
  }

  /** "STAY" stays and "Hit" hits, while a blank before the letter is asked again. */
  lemma ParseStayExamples()
    ensures ParseStay("STAY") == Some(true) && ParseStay("Hit") == Some(false)
    ensures ParseStay(" s") == None
  {
    assert Downcase("STAY") == "stay";
    assert Downcase("Hit") == "hit";
    assert Downcase(" s") == " s";
  }

  /** `Dealer#stay?`: only above HIT_MAX. */
  predicate DealerStays(points: int)
  {
    points > HIT_MAX
  }

  /** `Dealer#visible_points`: the points of every card but the first, which is hidden,
      written out and followed by " visible"; `to_i` reads the points back. */
  function VisiblePoints(hand: seq<string>): (shown: string)
    requires hand != []
    ensures PointTotal(hand[1..]) >= 0 && ParseLeadingNat(shown) == PointTotal(hand[1..])
    ensures |shown| >= 9 && shown[|shown| - 8..] == " visible"
    ensures PointTotal(hand[1..]) >= 0 && shown[..|shown| - 8] == NatToString(PointTotal(hand[1..]))
  {
    PointsAtLeastCards(hand[1..]);
    ParseNatToString(PointTotal(hand[1..]), " visible");
    IntToString(PointTotal(hand[1..])) + " visible"
  }

  /** The hidden card can make the visible points the larger: 9, 2, Ace is worth 12 (the
      Ace comes after 11 points), while the 2 and the Ace on their own show 13. */
  lemma VisibleAboveTotal()
    ensures PointTotal(["9 of Hearts", "2 of Clubs", "Ace of Spades"]) == 12
    ensures PointTotal(["9 of Hearts", "2 of Clubs", "Ace of Spades"][1..]) == 13
  {
    var hand := ["9 of Hearts", "2 of Clubs", "Ace of Spades"];
    PointsOfThree(hand[0], hand[1], hand[2]);
    assert hand[1..] == [hand[1], hand[2]] && [hand[2]][1..] == [] && [hand[1], hand[2]][1..] == [hand[2]];
    LeadingDigitsOfDigits("9", " of Hearts");
    LeadingDigitsOfDigits("2", " of Clubs");
    assert "9" + " of Hearts" == hand[0] && "2" + " of Clubs" == hand[1];
    assert "9"[..0] == [] && "2"[..0] == [];
    assert !StartsWith(hand[0], "Ace") && !StartsWith(hand[1], "Ace") && StartsWith(hand[2], "Ace");
  }

  // ---------------------------------------------------------------- the deck

  /** A card's key in the value hash, `"#{card} of #{suit}"`; the pair it is built from is
      a TwentyOne.Card. */
  function Key(p: T.Card): string
  {
    p.face + " of " + p.suit
  }

  /** The keys of the pairs, in order. */
  function KeysOf(pairs: seq<T.Card>): (keys: seq<string>)
    ensures |keys| == |pairs|
    ensures forall i :: 0 <= i < |pairs| ==> keys[i] == Key(pairs[i])
  {
    if pairs == [] then [] else KeysOf(pairs[..|pairs| - 1]) + [Key(pairs[|pairs| - 1])]
  }

  /** The hash after storing `determine_card_value(face)` under each pair's key, in order. */
  function ValuesOf(pairs: seq<T.Card>): map<string, Worth>
  {
    if pairs == [] then map[]
    else ValuesOf(pairs[..|pairs| - 1])[Key(pairs[|pairs| - 1]) := DetermineCardValue(pairs[|pairs| - 1].face)]
  }

  /** The keys of the hash in the order Ruby keeps them: a key takes its place when it is
      first stored, and storing it again leaves it where it was. */
  function InsertionOrder(pairs: seq<T.Card>): seq<string>
  {
    if pairs == [] then []
    else
      var keys := InsertionOrder(pairs[..|pairs| - 1]);
      var k := Key(pairs[|pairs| - 1]);
      if k in keys then keys else keys + [k]
  }

  /** The order lists every key of the hash, each once, and nothing else. */
  lemma {:induction false} InsertionOrderKeys(pairs: seq<T.Card>)
    ensures forall k :: k in InsertionOrder(pairs) <==> k in ValuesOf(pairs)
    ensures Distinct(InsertionOrder(pairs))
  {
    if pairs != [] {
      InsertionOrderKeys(pairs[..|pairs| - 1]);
    }
  }

  /** When no key is stored twice, the hash keeps the keys in the order they were built. */
  lemma {:induction false} InsertionOrderOfDistinct(pairs: seq<T.Card>)
    requires Distinct(KeysOf(pairs))
    ensures InsertionOrder(pairs) == KeysOf(pairs)
  {
    if pairs != [] {
      var n := |pairs| - 1;
      var keys := KeysOf(pairs);
      assert KeysOf(pairs[..n]) == keys[..n];
      InsertionOrderOfDistinct(pairs[..n]);
      assert Key(pairs[n]) == keys[n];
      assert Key(pairs[n]) !in keys[..n];
    }
  }

  /** The (suit, face) pairs in the order the nested `each` visits them. */
  function Pairs(): seq<T.Card>
  {
    T.Rows(SUITS, FACE_CARDS)
  }

  /** The keys of `card_values` in insertion order, which `each_key` follows. */
  function Keys(): seq<string>
  {
    KeysOf(Pairs())
  }

  /** `deck.shuffle`, with the reordering supplied by the caller: the cards drawn one by one
      at the indices `picks` (every order of the cards is one such draw). */
  function Shuffle(cards: seq<string>, picks: seq<nat>): seq<string>
  {
    Drawn(cards, picks)
  }

  /** Shuffling keeps every card and adds none. */
  lemma ShuffleIsPermutation(cards: seq<string>, picks: seq<nat>)
    requires |picks| == |cards| && ValidPicks(|cards|, picks)
    ensures |Shuffle(cards, picks)| == |cards|
    ensures multiset(Shuffle(cards, picks)) == multiset(cards)
  {
    DrawConserves(cards, picks);
    assert Remaining(cards, picks) == [];
  }

  /** Shuffling keeps a deck free of duplicates. */
  lemma ShuffleKeepsDistinct(cards: seq<string>, picks: seq<nat>)
    requires |picks| == |cards| && ValidPicks(|cards|, picks) && Distinct(cards)
    ensures Distinct(Shuffle(cards, picks))
  {
    DrawDistinct(cards, picks);
    DrawConserves(cards, picks);
    assert Remaining(cards, picks) == [];
    assert Drawn(cards, picks) + [] == Drawn(cards, picks);
  }

  /** One store into the hash: the value goes under the key, and the key joins the end of
      the order only when it was not stored before. */
  lemma KeysOfGrow(pairs: seq<T.Card>, p: T.Card)
    ensures KeysOf(pairs + [p]) == KeysOf(pairs) + [Key(p)]
    ensures ValuesOf(pairs + [p]) == ValuesOf(pairs)[Key(p) := DetermineCardValue(p.face)]
    ensures Key(p) in ValuesOf(pairs) ==> InsertionOrder(pairs + [p]) == InsertionOrder(pairs)
    ensures Key(p) !in ValuesOf(pairs) ==> InsertionOrder(pairs + [p]) == InsertionOrder(pairs) + [Key(p)]
  {
    InsertionOrderKeys(pairs);
    assert (pairs + [p])[..|pairs|] == pairs;
  }

  /** A card stored twice keeps one place in the hash, while the loops visit its key
      twice. */
  lemma RepeatedKeyStoredOnce(c: T.Card)
    ensures KeysOf([c, c]) == [Key(c), Key(c)]
    ensures InsertionOrder([c, c]) == [Key(c)]
  {
    assert [c, c][..1] == [c] && [c][..0] == [];
    assert InsertionOrder([c]) == [] + [Key(c)];
  }

  /** One pass of the inner `each`, in terms of the hash and its order before it. */
  lemma StoreStep(pairs: seq<T.Card>, p: T.Card, order: seq<string>, values: map<string, Worth>)
    requires order == InsertionOrder(pairs) && values == ValuesOf(pairs)
    ensures (if Key(p) in values then order else order + [Key(p)]) == InsertionOrder(pairs + [p])
    ensures values[Key(p) := DetermineCardValue(p.face)] == ValuesOf(pairs + [p])
  {
    KeysOfGrow(pairs, p);
  }

  /** The worth of each face: its number for "1" to "9", 10 for Jack, Queen and King, and
      `[1, 11]` for the Ace; no face is worth its number 10. */
  lemma FaceWorths()
    ensures |FACE_CARDS| == 13
    ensures forall i :: 0 <= i < 9 ==> DetermineCardValue(FACE_CARDS[i]) == Points(i + 1)
    ensures forall i :: 9 <= i < 12 ==> DetermineCardValue(FACE_CARDS[i]) == Points(10) && ParseLeadingNat(FACE_CARDS[i]) == 0
    ensures DetermineCardValue(FACE_CARDS[12]) == Choices(1, 11)
  {
    forall i | 0 <= i < 9
      ensures DetermineCardValue(FACE_CARDS[i]) == Points(i + 1)
    {
      var c := FACE_CARDS[i][0];
      assert FACE_CARDS[i] == [c] && c == (i + 1 + '0' as int) as char;
      assert LeadingDigits([c]) == [c];
      assert [c][..0] == [];
    }
    assert FACE_CARDS[9..] == ["Jack", "Queen", "King", "Ace"];
    forall i | 9 <= i < 12
      ensures DetermineCardValue(FACE_CARDS[i]) == Points(10) && ParseLeadingNat(FACE_CARDS[i]) == 0
    {
      assert FACE_CARDS[i] == FACE_CARDS[9..][i - 9];
      PictureWorth(FACE_CARDS[i]);
    }
    assert FACE_CARDS[12] == FACE_CARDS[9..][3];
  }

  lemma PictureWorth(face: string)
    requires face == "Jack" || face == "Queen" || face == "King"
    ensures DetermineCardValue(face) == Points(10) && ParseLeadingNat(face) == 0
  {
    assert !IsDigit(face[0]) && face[0] != 'A';
    assert LeadingDigits(face) == [];
    assert !StartsWith(face, "Ace");
  }

  /** Scoring a card from its key gives what the hash stored for its face: the rest of the
      key, " of " and the suit, changes neither the leading number nor the "Ace" prefix. */
  lemma KeyWorth(face: string, suit: string)
    requires face in FACE_CARDS
    ensures DetermineCardValue(Key(T.Card(suit, face))) == DetermineCardValue(face)
  {
    var key := Key(T.Card(suit, face));
    assert key == face + (" of " + suit);
    if face[0] == 'J' || face[0] == 'Q' || face[0] == 'K' || face[0] == 'A' {
      assert key[0] == face[0];
    } else {
      LeadingDigitsOfDigits(face, " of " + suit);
      LeadingDigitsOfDigits(face, []);
      assert face + [] == face;
    }
  }

  lemma {:induction false} KeysOfDistinct(pairs: seq<T.Card>)
    requires Distinct(pairs)
    requires forall i :: 0 <= i < |pairs| ==> ' ' !in pairs[i].face
    ensures Distinct(KeysOf(pairs))
  {
    var keys := KeysOf(pairs);
    forall i, j | 0 <= i < j < |keys| ensures keys[i] != keys[j] {
      KeyInjective(pairs[i], pairs[j]);
    }
  }

  lemma KeyInjective(p1: T.Card, p2: T.Card)
    requires ' ' !in p1.face && ' ' !in p2.face
    ensures Key(p1) == Key(p2) ==> p1 == p2
  {
    if Key(p1) == Key(p2) {
      SeparatedParts(p1.face, p1.suit, p2.face, p2.suit, " of ");
    }
  }

  lemma {:induction false} KeysInValues(pairs: seq<T.Card>)
    ensures forall i :: 0 <= i < |pairs| ==> Key(pairs[i]) in ValuesOf(pairs)
  {
    if pairs != [] {
      var n := |pairs| - 1;
      KeysInValues(pairs[..n]);
      forall i | 0 <= i < n ensures Key(pairs[i]) in ValuesOf(pairs) {
        assert pairs[i] == pairs[..n][i];
      }
    }
  }

  lemma {:induction false} ValuesOfLookup(pairs: seq<T.Card>)
    requires forall i :: 0 <= i < |pairs| ==> pairs[i].face in FACE_CARDS
    ensures forall k :: k in ValuesOf(pairs) ==> ValuesOf(pairs)[k] == DetermineCardValue(k)
  {
    if pairs != [] {
      var n := |pairs| - 1;
      assert forall i :: 0 <= i < n ==> pairs[..n][i] == pairs[i];
      ValuesOfLookup(pairs[..n]);
      KeyWorth(pairs[n].face, pairs[n].suit);
    }
  }

  /** `generate_card_values_hash` and `each_key` give 52 cards, four suits of 13 faces. */
  lemma KeysCount()
    ensures |Pairs()| == 52 && |Keys()| == 52
  {
    FaceWorths();
  }

  /** The suits and the faces are all different, and no face holds a blank. */
  lemma FacesApart()
    ensures Distinct(SUITS) && Distinct(FACE_CARDS)
    ensures forall f :: f in FACE_CARDS ==> ' ' !in f
  {
    FaceWorths();
    assert FACE_CARDS[9..] == ["Jack", "Queen", "King", "Ace"];
    assert forall i :: 0 <= i < 9 ==> FACE_CARDS[i] == [(i + 1 + '0' as int) as char];
  }

  /** The 52 cards are all different. */
  lemma DeckKeys()
    ensures |Keys()| == 52 && Distinct(Keys())
  {
    KeysCount();
    FacesApart();
    T.RowsMembers(SUITS, FACE_CARDS);
    T.RowsDistinct(SUITS, FACE_CARDS);
    var pairs := Pairs();
    assert forall i :: 0 <= i < |pairs| ==> pairs[i] in pairs;
    KeysOfDistinct(pairs);
  }

  /** Every card is a key of the hash, and the value stored for it is the one scoring
      reads from the card itself. */
  lemma DeckValues()
    ensures forall i :: 0 <= i < |Keys()| ==> Keys()[i] in ValuesOf(Pairs())
    ensures forall k :: k in ValuesOf(Pairs()) ==> ValuesOf(Pairs())[k] == DetermineCardValue(k)
  {
    T.RowsMembers(SUITS, FACE_CARDS);
    var pairs := Pairs();
    assert forall i :: 0 <= i < |pairs| ==> pairs[i] in pairs;
    KeysInValues(pairs);
    ValuesOfLookup(pairs);
  }

  class Deck {
    /** `card_values`, a Ruby hash: the map and the order its keys were inserted in. */
    var cardValues: map<string, Worth>
    var cardOrder: seq<string>
    var currentCards: seq<string>

    /** `Deck#initialize`, with `shuffle` the order `shuffle` picks. */
    constructor (shuffle: seq<nat>)
      requires |shuffle| == 52 && ValidPicks(52, shuffle)
      ensures cardValues == ValuesOf(Pairs()) && cardOrder == Keys()
      ensures currentCards == Shuffle(Keys(), shuffle)
    {
      new;
      cardValues, cardOrder := GenerateCardValuesHash(SUITS, FACE_CARDS);
      DeckKeys();
      InsertionOrderOfDistinct(Pairs());
      currentCards := InitializeDeck(shuffle);
    }

    /** `Deck#generate_card_values_hash`: for every suit and then every face, the value of
        the face stored under the card's key. */
    method GenerateCardValuesHash(suits: seq<string>, faces: seq<string>)
      returns (values: map<string, Worth>, order: seq<string>)
      ensures order == InsertionOrder(T.Rows(suits, faces)) && values == ValuesOf(T.Rows(suits, faces))
    {
      values, order := map[], [];
      for i := 0 to |suits|
        invariant order == InsertionOrder(T.Rows(suits[..i], faces)) && values == ValuesOf(T.Rows(suits[..i], faces))
      {
        values, order := AddSuit(suits[i], faces, values, order, T.Rows(suits[..i], faces));
        T.RowsGrow(suits, faces, i);
      }
      assert suits[..|suits|] == suits;
    }

    /** The inner `each` of `generate_card_values_hash`: every face of one suit, stored after
        the cards `done` already in the hash. */
    static method AddSuit(suit: string, faces: seq<string>, values: map<string, Worth>, order: seq<string>,
                          ghost done: seq<T.Card>)
      returns (values': map<string, Worth>, order': seq<string>)
      requires order == InsertionOrder(done) && values == ValuesOf(done)
      ensures order' == InsertionOrder(done + T.Row(suit, faces)) && values' == ValuesOf(done + T.Row(suit, faces))
    {
      values', order' := values, order;
      ghost var sofar := done;
      assert done + T.Row(suit, faces[..0]) == done;
      for j := 0 to |faces|
        invariant sofar == done + T.Row(suit, faces[..j])
        invariant order' == InsertionOrder(sofar) && values' == ValuesOf(sofar)
      {
        var face := faces[j];
        var key := face + " of " + suit;
        StoreStep(sofar, T.Card(suit, face), order', values');
        T.RowGrows(suit, faces, j);
        sofar := sofar + [T.Card(suit, face)];
        order' := if key in values' then order' else order' + [key];
        values' := values'[key := DetermineCardValue(face)];
      }
      assert faces[..|faces|] == faces;
    }

    method InitializeDeck(shuffle: seq<nat>) returns (deck: seq<string>)
      requires |shuffle| == |cardOrder| && ValidPicks(|cardOrder|, shuffle)
      ensures deck == Shuffle(cardOrder, shuffle)
    {
      deck := [];
      for i := 0 to |cardOrder|
        invariant deck == cardOrder[..i]
      {
        deck := deck + [cardOrder[i]];
      }
      assert cardOrder[..|cardOrder|] == cardOrder;
      deck := Shuffle(deck, shuffle);
    }
  }

  /** The two cards a deck key can add to a score of 0 make at most 21. */
  lemma KeyPoints(i: nat, total: int)
    requires i < 52
    ensures Keys()[i] == Key(Pairs()[i]) && Pairs()[i].face in FACE_CARDS
    ensures AddCardPoints(total, Keys()[i]) <= total + 11
    ensures !StartsWith(Keys()[i], "Ace") ==> AddCardPoints(total, Keys()[i]) <= total + 10
  {
    T.RowsMembers(SUITS, FACE_CARDS);
    var p := Pairs()[i];
    assert p in Pairs();
    KeyWorth(p.face, p.suit);
    FaceWorths();
    FirstThreeAce(Keys()[i]);
  }

  /** No two cards of the deck are worth more than 21: an Ace after an Ace counts 1, and
      every other card at most 10. */
  lemma TwoKeysNotBusted(i: nat, j: nat)
    requires i < 52 && j < 52
    ensures PointTotal([Keys()[i], Keys()[j]]) <= BUSTED
  {
    var a, b := Keys()[i], Keys()[j];
    assert [a, b][1..] == [b] && [b][1..] == [];
    assert PointTotal([a, b]) == PointsFrom(AddCardPoints(0, a), [b]);
    assert PointsFrom(AddCardPoints(0, a), [b]) == AddCardPoints(AddCardPoints(0, a), b);
    KeyPoints(i, 0);
    KeyPoints(j, AddCardPoints(0, a));
    FirstThreeAce(a);
    FirstThreeAce(b);
  }

  // ---------------------------------------------------------------- participants

  /** The last `k` cards of `deck` in the order repeated `pop`s take them: the last first. */
  function Popped(deck: seq<string>, k: nat): (r: seq<string>)
    requires k <= |deck|
    ensures |r| == k
  {
    if k == 0 then [] else [deck[|deck| - 1]] + Popped(deck[..|deck| - 1], k - 1)
  }

  /** `Participant`, the common part of `Player` and `Dealer`. */
  class Participant {
    const name: string
    var hand: seq<string>
    var points: int

    /** `points` is kept equal to the score of the hand by every operation but `add_card`. */
    ghost predicate Valid()
      reads this
    {
      points == PointTotal(hand)
    }

    /** `Participant#initialize`: two cards from the end of the deck, then their points;
        `name` is what `choose_name` settled on. */
    constructor (deck: Deck, name: string)
      requires |deck.currentCards| >= 2
      modifies deck
      ensures this.name == name && Valid()
      ensures var n := |old(deck.currentCards)|;
        hand == old(deck.currentCards)[n - 2..] && deck.currentCards == old(deck.currentCards)[..n - 2]
    {
      this.name := name;
      new;
      hand := Deal(deck);
      points := CalculatePointTotal(hand);
    }

    /** `Participant#deal`: `pop(2)`, the last two cards in their order. */
    method Deal(deck: Deck) returns (cards: seq<string>)
      requires |deck.currentCards| >= 2
      modifies deck
      ensures var n := |old(deck.currentCards)|;
        cards == old(deck.currentCards)[n - 2..] && deck.currentCards == old(deck.currentCards)[..n - 2]
    {
      var n := |deck.currentCards|;
      cards := deck.currentCards[n - 2..];
      deck.currentCards := deck.currentCards[..n - 2];
    }

    /** `Participant#add_card`: the last card of the deck to the end of the hand. */
    method AddCard(deck: Deck)
      requires deck.currentCards != []
      modifies this, deck
      ensures var n := |old(deck.currentCards)|;
        hand == old(hand) + [old(deck.currentCards)[n - 1]] && deck.currentCards == old(deck.currentCards)[..n - 1]
      ensures points == old(points)
    {
      var n := |deck.currentCards|;
      hand := hand + [deck.currentCards[n - 1]];
      deck.currentCards := deck.currentCards[..n - 1];
    }

    /** `Participant#calculate_point_total` */
    method CalculatePointTotal(cards: seq<string>) returns (total: int)
      ensures total == PointTotal(cards)
    {
      total := 0;
      for i := 0 to |cards|
        invariant total == PointTotal(cards[..i])
      {
        var card := cards[i];
        assert cards[..i + 1] == cards[..i] + [card];
        PointTotalAppend(cards[..i], card);
        FirstThreeAce(card);
        if FirstThree(card) != "Ace" {
          total := total + DetermineCardValue(card).n;
        } else {
          total := total + AceValue(total, card);
        }
      }
      assert cards[..|cards|] == cards;
    }

    /** `Participant#update_points` */
    method UpdatePoints()
      modifies this
      ensures hand == old(hand) && Valid()
    {
      points := CalculatePointTotal(hand);
    }

    /** `Participant#hit_play` without its screens: one card, then the points again. The new
        card is scored against the points before it. */
    method HitPlay(deck: Deck)
      requires deck.currentCards != []
      modifies this, deck
      ensures var n := |old(deck.currentCards)|;
        hand == old(hand) + [old(deck.currentCards)[n - 1]] && deck.currentCards == old(deck.currentCards)[..n - 1]
      ensures Valid()
      ensures old(Valid()) ==> points == AddCardPoints(old(points), old(deck.currentCards)[|old(deck.currentCards)| - 1])
    {
      ghost var card := deck.currentCards[|deck.currentCards| - 1];
      AddCard(deck);
      UpdatePoints();
      PointTotalAppend(old(hand), card);
    }

    /** `Participant#reset`: a new hand of two from the end of `deck`, and its points. */
    method Reset(deck: Deck)
      requires |deck.currentCards| >= 2
      modifies this, deck
      ensures Valid()
      ensures var n := |old(deck.currentCards)|;
        hand == old(deck.currentCards)[n - 2..] && deck.currentCards == old(deck.currentCards)[..n - 2]
    {
      hand := Deal(deck);
      points := CalculatePointTotal(hand);
    }
  }

  // ---------------------------------------------------------------- turns, as functions

  /** Where a turn leaves the hand and the deck, how many times `stay?` was asked, and
      whether the turn ended with a bust (which hands the game to the other side). */
  datatype Turn = Turn(hand: seq<string>, deck: seq<string>, asked: nat, bust: bool)

  /** `Game#player_turn` once `asked` answers were read, `stays(k)` being what the k-th
      `Player#stay?` returned once its re-prompt loop accepted a line (see ParseStay): stop
      on a stay; otherwise take the last card, and stop if that busts. (An empty deck, where
      `pop` gives `nil`, ends the turn; PlayerPlayAnswers shows it cannot happen while the
      hand and the deck hold more than 21 cards between them.) */
  function PlayerPlay(hand: seq<string>, deck: seq<string>, stays: nat -> bool, asked: nat): (t: Turn)
    ensures |t.hand| >= |hand| && |t.hand| + |t.deck| == |hand| + |deck|
    decreases |deck|
  {
    if stays(asked) || deck == [] then Turn(hand, deck, asked + 1, false)
    else
      var hand', deck' := hand + [deck[|deck| - 1]], deck[..|deck| - 1];
      if PointTotal(hand') > BUSTED then Turn(hand', deck', asked + 1, true)
      else PlayerPlay(hand', deck', stays, asked + 1)
  }

  /** `Game#dealer_turn`: stay above HIT_MAX; otherwise take the last card, and stop if that
      busts. (An empty deck ends the turn; DealerPlayEnds shows it cannot happen.) */
  function DealerPlay(hand: seq<string>, deck: seq<string>): (t: Turn)
    ensures |t.hand| >= |hand| && |t.hand| + |t.deck| == |hand| + |deck| && t.asked == 0
    decreases |deck|
  {
    if DealerStays(PointTotal(hand)) || deck == [] then Turn(hand, deck, 0, false)
    else
      var hand', deck' := hand + [deck[|deck| - 1]], deck[..|deck| - 1];
      if PointTotal(hand') > BUSTED then Turn(hand', deck', 0, true)
      else DealerPlay(hand', deck')
  }

  /** Every answer from `from` up to `to` was a hit. */
  ghost predicate AllHits(stays: nat -> bool, from: nat, to: nat)
    decreases to - from
  {
    to <= from || (!stays(from) && AllHits(stays, from + 1, to))
  }

  /** Each of the next `k` cards was taken while the hand was worth `limit` or less. */
  ghost predicate HitsAtMost(hand: seq<string>, deck: seq<string>, k: nat, limit: int)
    requires k <= |deck|
    decreases k
  {
    k == 0 || (PointTotal(hand) <= limit && HitsAtMost(hand + [deck[|deck| - 1]], deck[..|deck| - 1], k - 1, limit))
  }

  /** The turn took its cards from the end of the deck, one at a time. */
  ghost predicate TookFromEnd(hand: seq<string>, deck: seq<string>, t: Turn)
  {
    var hits := |t.hand| - |hand|;
    0 <= hits <= |deck| && t.hand == hand + Popped(deck, hits) && t.deck == deck[..|deck| - hits]
  }

  lemma PlayerStep(hand: seq<string>, deck: seq<string>, stays: nat -> bool, asked: nat)
    requires deck != []
    ensures var hand', deck' := hand + [deck[|deck| - 1]], deck[..|deck| - 1];
      PlayerPlay(hand, deck, stays, asked) ==
        if stays(asked) then Turn(hand, deck, asked + 1, false)
        else if PointTotal(hand') > BUSTED then Turn(hand', deck', asked + 1, true)
        else PlayerPlay(hand', deck', stays, asked + 1)
  {
  }

  lemma DealerStep(hand: seq<string>, deck: seq<string>)
    ensures DealerPlay(hand, deck) ==
      if DealerStays(PointTotal(hand)) || deck == [] then Turn(hand, deck, 0, false)
      else
        var hand', deck' := hand + [deck[|deck| - 1]], deck[..|deck| - 1];
        if PointTotal(hand') > BUSTED then Turn(hand', deck', 0, true)
        else DealerPlay(hand', deck')
  {
  }

  lemma TookNone(hand: seq<string>, deck: seq<string>, t: Turn)
    requires t.hand == hand && t.deck == deck
    ensures TookFromEnd(hand, deck, t)
  {
    assert hand + [] == hand && deck[..|deck|] == deck;
  }

  lemma TookOneMore(hand: seq<string>, deck: seq<string>, t: Turn)
    requires deck != []
    requires TookFromEnd(hand + [deck[|deck| - 1]], deck[..|deck| - 1], t)
    ensures TookFromEnd(hand, deck, t)
  {
    var n, hits := |deck| - 1, |t.hand| - |hand| - 1;
    assert deck[..n][..n - hits] == deck[..|deck| - (hits + 1)];
  }

  /** The player's turn takes its cards one at a time from the end of the deck. */
  lemma {:induction false} PlayerPlayTakes(hand: seq<string>, deck: seq<string>, stays: nat -> bool, asked: nat)
    ensures TookFromEnd(hand, deck, PlayerPlay(hand, deck, stays, asked))
    decreases |deck|
  {
    var t := PlayerPlay(hand, deck, stays, asked);
    if stays(asked) || deck == [] {
      TookNone(hand, deck, t);
    } else {
      var hand', deck' := hand + [deck[|deck| - 1]], deck[..|deck| - 1];
      if PointTotal(hand') > BUSTED {
        TookNone(hand', deck', t);
      } else {
        PlayerPlayTakes(hand', deck', stays, asked + 1);
      }
      TookOneMore(hand, deck, t);
    }
  }

  /** Every answer but the last was a hit and took a card; the turn ends on a stay, or on
      the hit that went above 21, one answer after the last hit. */
  lemma {:induction false} PlayerPlayAnswers(hand: seq<string>, deck: seq<string>, stays: nat -> bool, asked: nat)
    requires |hand| <= BUSTED && |hand| + |deck| > BUSTED
    ensures var t := PlayerPlay(hand, deck, stays, asked);
      var hits := |t.hand| - |hand|;
      AllHits(stays, asked, asked + hits) &&
      (t.bust ==> hits >= 1 && t.asked == asked + hits) &&
      (!t.bust ==> t.asked == asked + hits + 1 && stays(asked + hits))
    decreases |deck|
  {
    if !stays(asked) {
      var hand', deck' := hand + [deck[|deck| - 1]], deck[..|deck| - 1];
      if PointTotal(hand') <= BUSTED {
        PointsAtLeastCards(hand');
        PlayerPlayAnswers(hand', deck', stays, asked + 1);
      }
    }
  }

  /** Starting at 21 or less, the player hits only at 21 or less, and the turn ends with a
      bust exactly when the hand ends above 21. */
  lemma {:induction false} PlayerPlayBust(hand: seq<string>, deck: seq<string>, stays: nat -> bool, asked: nat)
    requires PointTotal(hand) <= BUSTED
    ensures var t := PlayerPlay(hand, deck, stays, asked);
      |t.hand| - |hand| <= |deck| && HitsAtMost(hand, deck, |t.hand| - |hand|, BUSTED) &&
      (t.bust <==> PointTotal(t.hand) > BUSTED)
    decreases |deck|
  {
    if !stays(asked) && deck != [] {
      var hand', deck' := hand + [deck[|deck| - 1]], deck[..|deck| - 1];
      if PointTotal(hand') <= BUSTED {
        PlayerPlayBust(hand', deck', stays, asked + 1);
      }
    }
  }

  /** The dealer's turn takes its cards one at a time from the end of the deck. */
  lemma {:induction false} DealerPlayTakes(hand: seq<string>, deck: seq<string>)
    ensures TookFromEnd(hand, deck, DealerPlay(hand, deck))
    decreases |deck|
  {
    var t := DealerPlay(hand, deck);
    if DealerStays(PointTotal(hand)) || deck == [] {
      TookNone(hand, deck, t);
    } else {
      var hand', deck' := hand + [deck[|deck| - 1]], deck[..|deck| - 1];
      if PointTotal(hand') > BUSTED {
        TookNone(hand', deck', t);
      } else {
        DealerPlayTakes(hand', deck');
      }
      TookOneMore(hand, deck, t);
    }
  }

  /** With more than 17 cards between hand and deck the deck never runs out: the dealer
      takes cards while at 17 or less and ends above 17, by staying or by the hit that
      went above 21, which is exactly when the turn ends with a bust. */
  lemma {:induction false} DealerPlayEnds(hand: seq<string>, deck: seq<string>)
    requires |hand| + |deck| > HIT_MAX
    ensures var t := DealerPlay(hand, deck);
      |t.hand| - |hand| <= |deck| && HitsAtMost(hand, deck, |t.hand| - |hand|, HIT_MAX) &&
      PointTotal(t.hand) > HIT_MAX &&
      (t.bust <==> |t.hand| > |hand| && PointTotal(t.hand) > BUSTED)
    decreases |deck|
  {
    var t := DealerPlay(hand, deck);
    PointsAtLeastCards(hand);
    if !DealerStays(PointTotal(hand)) {
      var hand', deck' := hand + [deck[|deck| - 1]], deck[..|deck| - 1];
      if PointTotal(hand') <= BUSTED {
        DealerPlayEnds(hand', deck');
        if |t.hand| == |hand'| {
          DealerPlayTakes(hand', deck');
          assert t.hand == hand' + [] == hand';
        }
      }
    }
  }

  /** Taking cards from the end of the deck loses none and adds none. */
  lemma {:induction false} TookFromEndConserves(hand: seq<string>, deck: seq<string>, t: Turn)
    requires TookFromEnd(hand, deck, t)
    ensures multiset(t.hand) + multiset(t.deck) == multiset(hand) + multiset(deck)
    decreases |t.hand| - |hand|
  {
    if |t.hand| > |hand| {
      var n := |deck| - 1;
      var hits := |t.hand| - |hand|;
      assert deck == deck[..n] + [deck[n]];
      assert t.hand == (hand + [deck[n]]) + Popped(deck[..n], hits - 1);
      assert deck[..n][..|deck[..n]| - (hits - 1)] == t.deck;
      TookFromEndConserves(hand + [deck[n]], deck[..n], t);
    } else {
      assert hand + [] == hand && deck[..|deck|] == deck;
    }
  }

  // ---------------------------------------------------------------- the winner and a round

  /** Who holds `@winner`: the player, the dealer, or nobody (`nil`, a tie). */
  datatype Side = PlayerSide | DealerSide

  /** `Game#determine_winner` as a value: a winner already set by a bust stands; otherwise
      the higher points win, and equal points leave no winner. */
  function Decide(winner: Option<Side>, playerPoints: int, dealerPoints: int): (w: Option<Side>)
    ensures winner.Some? ==> w == winner
    ensures winner == None ==> (w == Some(PlayerSide) <==> playerPoints > dealerPoints)
    ensures winner == None ==> (w == Some(DealerSide) <==> dealerPoints > playerPoints)
  {
    if winner.Some? then winner
    else if playerPoints > dealerPoints then Some(PlayerSide)
    else if dealerPoints > playerPoints then Some(DealerSide)
    else None
  }

  function OtherSide(side: Option<Side>): Option<Side>
  {
    match side
    case Some(PlayerSide) => Some(DealerSide)
    case Some(DealerSide) => Some(PlayerSide)
    case None => None
  }

  /** The comparison treats the two sides alike: exchanging the points exchanges the
      winner, and a tie is a tie either way. */
  lemma DecideSymmetric(p: int, d: int)
    ensures Decide(None, p, d) == OtherSide(Decide(None, d, p))
    ensures Decide(None, p, d) == None <==> p == d
  {
  }

  /** What a round leaves: the player's turn, the dealer's (untouched when the player
      busted), and the winner `determine_winner` settles on. */
  datatype RoundEnd = RoundEnd(player: Turn, dealer: Turn, winner: Option<Side>)

  /** One pass of `main_game`'s loop up to `game_results`: `player_turn`,
      `dealer_turn_unless_player_busted`, `determine_winner`. */
  function PlayRound(player: seq<string>, dealer: seq<string>, deck: seq<string>, stays: nat -> bool,
                     winner: Option<Side>): RoundEnd
  {
    var p := PlayerPlay(player, deck, stays, 0);
    var afterPlayer := if p.bust then Some(DealerSide) else winner;
    var d := if PointTotal(p.hand) > BUSTED then Turn(dealer, p.deck, 0, false) else DealerPlay(dealer, p.deck);
    var afterDealer := if d.bust then Some(PlayerSide) else afterPlayer;
    RoundEnd(p, d, Decide(afterDealer, PointTotal(p.hand), PointTotal(d.hand)))
  }

  /** A round loses no card and creates none: the two hands and what is left of the deck
      hold the cards the round started with. */
  lemma RoundKeepsCards(player: seq<string>, dealer: seq<string>, deck: seq<string>, stays: nat -> bool,
                        winner: Option<Side>)
    ensures var r := PlayRound(player, dealer, deck, stays, winner);
      multiset(r.player.hand) + multiset(r.dealer.hand) + multiset(r.dealer.deck)
        == multiset(player) + multiset(dealer) + multiset(deck)
  {
    var r := PlayRound(player, dealer, deck, stays, winner);
    var p, d := r.player, r.dealer;
    assert p == PlayerPlay(player, deck, stays, 0);
    PlayerPlayTakes(player, deck, stays, 0);
    TookFromEndConserves(player, deck, p);
    if PointTotal(p.hand) <= BUSTED {
      assert d == DealerPlay(dealer, p.deck);
      DealerPlayTakes(dealer, p.deck);
      TookFromEndConserves(dealer, p.deck, d);
    } else {
      assert d.hand == dealer && d.deck == p.deck;
    }
    ConservedTwice(player, deck, p, dealer, d);
  }

  lemma ConservedTwice(player: seq<string>, deck: seq<string>, p: Turn, dealer: seq<string>, d: Turn)
    requires multiset(p.hand) + multiset(p.deck) == multiset(player) + multiset(deck)
    requires multiset(d.hand) + multiset(d.deck) == multiset(dealer) + multiset(p.deck)
    ensures multiset(p.hand) + multiset(d.hand) + multiset(d.deck) == multiset(player) + multiset(dealer) + multiset(deck)
  {
    calc {
      multiset(p.hand) + multiset(d.hand) + multiset(d.deck);
      multiset(p.hand) + (multiset(dealer) + multiset(p.deck));
      (multiset(p.hand) + multiset(p.deck)) + multiset(dealer);
    }
  }

  /** A round that starts with nobody busted and no winner, with enough cards between the
      hands and the deck (52 always are): the player busting gives the game to the dealer,
      who then does not play; otherwise the dealer ends above 17, busting gives the game to
      the player, and else the higher points win. */
  lemma RoundWinner(player: seq<string>, dealer: seq<string>, deck: seq<string>, stays: nat -> bool)
    requires PointTotal(player) <= BUSTED && PointTotal(dealer) <= BUSTED
    requires |player| + |dealer| + |deck| > BUSTED + HIT_MAX
    ensures var r := PlayRound(player, dealer, deck, stays, None);
      var pp, dp := PointTotal(r.player.hand), PointTotal(r.dealer.hand);
      (pp > BUSTED ==> r.dealer.hand == dealer && r.winner == Some(DealerSide)) &&
      (pp <= BUSTED ==> dp > HIT_MAX) &&
      (pp <= BUSTED && dp > BUSTED ==> r.winner == Some(PlayerSide)) &&
      (pp <= BUSTED && dp <= BUSTED ==> r.winner == Decide(None, pp, dp))
  {
    PlayerPlayBust(player, deck, stays, 0);
    var p := PlayerPlay(player, deck, stays, 0);
    if PointTotal(p.hand) <= BUSTED {
      PointsAtLeastCards(p.hand);
      DealerPlayEnds(dealer, p.deck);
    }
  }

  /** A new deck shuffled and dealt: 52 cards, the player's two from the end, the
      dealer's two before them and the rest in the deck, together exactly the 52 keys. */
  lemma FreshDeal(shuffle: seq<nat>)
    requires |shuffle| == 52 && ValidPicks(52, shuffle)
    ensures var cards := Shuffle(Keys(), shuffle);
      |cards| == 52 &&
      multiset(cards[50..]) + multiset(cards[48..50]) + multiset(cards[..48]) == multiset(Keys())
  {
    KeysCount();
    var cards := Shuffle(Keys(), shuffle);
    ShuffleIsPermutation(Keys(), shuffle);
    assert cards == cards[..48] + cards[48..50] + cards[50..];
  }

  /** Two cards of the deck are never a bust (two Aces make 12), so a round starts with
      nobody busted. */
  lemma FreshHands(shuffle: seq<nat>)
    requires |shuffle| == 52 && ValidPicks(52, shuffle)
    ensures var cards := Shuffle(Keys(), shuffle);
      |cards| == 52 && PointTotal(cards[50..]) <= BUSTED && PointTotal(cards[48..50]) <= BUSTED
  {
    KeysCount();
    var cards := Shuffle(Keys(), shuffle);
    ShuffleIsPermutation(Keys(), shuffle);
    HandOfKeys(cards, 50);
    HandOfKeys(cards, 48);
    assert cards[48..50] == [cards[48], cards[49]] && cards[50..] == [cards[50], cards[51]];
  }

  /** The second two-card deal from the end comes from the two cards before the first. */
  lemma DealtFromEnd(cards: seq<string>)
    requires |cards| == 52
    ensures cards[..50][48..] == cards[48..50] && cards[..50][..48] == cards[..48]
  {
    assert cards[..50][48..] == cards[48..50];
  }

  lemma HandOfKeys(cards: seq<string>, k: nat)
    requires |cards| == 52 && multiset(cards) == multiset(Keys()) && k <= 50
    ensures PointTotal([cards[k], cards[k + 1]]) <= BUSTED
  {
    assert cards[k] in multiset(Keys()) && cards[k + 1] in multiset(Keys());
    var i :| 0 <= i < |Keys()| && Keys()[i] == cards[k];
    var j :| 0 <= j < |Keys()| && Keys()[j] == cards[k + 1];
    KeysCount();
    TwoKeysNotBusted(i, j);
  }

  /** A next round dealt while the old deck is kept, with cards taken from it in the
      previous round: the cards in play are no longer the 52. */
  lemma StaleDeckLosesCards(player: seq<string>, dealer: seq<string>, stale: seq<string>,
                            player': seq<string>, dealer': seq<string>)
    requires multiset(player) + multiset(dealer) + multiset(stale) == multiset(Keys())
    requires |player| + |dealer| > 4 && |player'| == 2 && |dealer'| == 2
    ensures multiset(player') + multiset(dealer') + multiset(stale) != multiset(Keys())
  {
    KeysCount();
    assert |multiset(Keys())| == 52;
  }

  // ---------------------------------------------------------------- the game

  /** The names `Dealer#choose_name` samples from, `%w(Dwight_Schrute Ron_Swanson Mr_Robot
      TechnoBot)`, written in two halves. */
  const COMPUTER_NAMES: seq<string> := ["Dwight_Schrute", "Ron_Swanson"] + ["Mr_Robot", "TechnoBot"]

  /** What `Dealer#choose_name` settles on: one of the computer names that is not the
      player's name, whatever the case. */
  predicate DealerNameFor(name: string, other: string)
  {
    name in COMPUTER_NAMES && Downcase(name) != Downcase(other)
  }

  class Game {
    var deck: Deck
    const player: Participant
    const dealer: Participant
    var winner: Option<Side>

    ghost predicate Valid()
      reads this, player, dealer
    {
      player != dealer && player.Valid() && dealer.Valid()
    }

    /** Within a round every card of the 52 is in the deck or in exactly one hand. */
    ghost predicate RoundInvariant()
      reads this, deck, player, dealer
    {
      multiset(player.hand) + multiset(dealer.hand) + multiset(deck.currentCards) == multiset(Keys())
    }

    /** `Game#initialize`. `shuffle` is the order `shuffle` picks; `playerName` is a line
        `choose_name` accepts (not only blanks) and `dealerName` one of the computer names
        that differs from it whatever the case. */
    constructor (shuffle: seq<nat>, playerName: string, dealerName: string)
      requires |shuffle| == 52 && ValidPicks(52, shuffle)
      requires !EmptyInput(playerName)
      requires DealerNameFor(dealerName, playerName)
      ensures Valid() && RoundInvariant() && winner == None
      ensures player.name == playerName && dealer.name == dealerName
      ensures var cards := Shuffle(Keys(), shuffle);
        player.hand == cards[50..] && dealer.hand == cards[48..50] && deck.currentCards == cards[..48]
    {
      var d := new Deck(shuffle);
      ghost var cards := d.currentCards;
      FreshDeal(shuffle);
      FreshHands(shuffle);
      var p := new Participant(d, playerName);
      var q := new Participant(d, dealerName);
      deck, player, dealer, winner := d, p, q, None;
      DealtFromEnd(cards);
    }

    /** `Game#busted?` */
    method Busted(p: Participant) returns (busted: bool)
      ensures busted <==> p.points > BUSTED
    {
      busted := p.points > BUSTED;
    }

    /** `Game#bust`, which hands the game to the other side. */
    method Bust(other: Side)
      modifies this
      ensures winner == Some(other) && deck == old(deck)
    {
      winner := Some(other);
    }

    /** `Game#player_turn`: `stays(k)` is what the k-th `stay?` returned. */
    method PlayerTurn(stays: nat -> bool) returns (asked: nat)
      requires Valid() && |player.hand| <= BUSTED && |player.hand| + |deck.currentCards| > BUSTED
      modifies this, player, deck
      ensures Valid() && deck == old(deck)
      ensures var t := PlayerPlay(old(player.hand), old(deck.currentCards), stays, 0);
        player.hand == t.hand && deck.currentCards == t.deck && asked == t.asked &&
        winner == (if t.bust then Some(DealerSide) else old(winner))
    {
      ghost var goal := PlayerPlay(player.hand, deck.currentCards, stays, 0);
      ghost var size := |player.hand| + |deck.currentCards|;
      asked := 0;
      while true
        invariant Valid() && deck == old(deck) && winner == old(winner)
        invariant |player.hand| <= BUSTED && |player.hand| + |deck.currentCards| == size
        invariant PlayerPlay(player.hand, deck.currentCards, stays, asked) == goal
        decreases |deck.currentCards|
      {
        var stop := PlayerAnswer(stays, asked);
        asked := asked + 1;
        if stop {
          break;
        }
      }
    }

    /** One pass of `player_turn`'s loop: the `asked`-th answer, and the hit it asks for. */
    method PlayerAnswer(stays: nat -> bool, asked: nat) returns (stop: bool)
      requires Valid() && |player.hand| <= BUSTED && |player.hand| + |deck.currentCards| > BUSTED
      modifies this, player, deck
      ensures Valid() && deck == old(deck)
      ensures var t := PlayerPlay(old(player.hand), old(deck.currentCards), stays, asked);
        if stop then
          player.hand == t.hand && deck.currentCards == t.deck && t.asked == asked + 1 &&
          winner == (if t.bust then Some(DealerSide) else old(winner))
        else
          winner == old(winner) && |player.hand| <= BUSTED &&
          |player.hand| + |deck.currentCards| == old(|player.hand| + |deck.currentCards|) &&
          |deck.currentCards| < old(|deck.currentCards|) &&
          PlayerPlay(player.hand, deck.currentCards, stays, asked + 1) == t
    {
      ghost var hand, cards := player.hand, deck.currentCards;
      PlayerStep(hand, cards, stays, asked);
      if stays(asked) {
        return true;
      }
      player.HitPlay(deck);
      assert player.hand == hand + [cards[|cards| - 1]] && deck.currentCards == cards[..|cards| - 1];
      var busted := Busted(player);
      if busted {
        assert PlayerPlay(hand, cards, stays, asked) == Turn(player.hand, deck.currentCards, asked + 1, true);
        Bust(DealerSide);
        return true;
      }
      PointsAtLeastCards(player.hand);
      return false;
    }

    /** `Game#dealer_turn` */
    method DealerTurn()
      requires Valid() && |dealer.hand| + |deck.currentCards| > HIT_MAX
      modifies this, dealer, deck
      ensures Valid() && deck == old(deck)
      ensures var t := DealerPlay(old(dealer.hand), old(deck.currentCards));
        dealer.hand == t.hand && deck.currentCards == t.deck &&
        winner == (if t.bust then Some(PlayerSide) else old(winner))
    {
      ghost var goal := DealerPlay(dealer.hand, deck.currentCards);
      ghost var size := |dealer.hand| + |deck.currentCards|;
      while true
        invariant Valid() && deck == old(deck) && winner == old(winner)
        invariant |dealer.hand| + |deck.currentCards| == size
        invariant DealerPlay(dealer.hand, deck.currentCards) == goal
        decreases |deck.currentCards|
      {
        var stop := DealerMove();
        if stop {
          break;
        }
      }
    }

    /** One pass of `dealer_turn`'s loop: stay above HIT_MAX, or hit. */
    method DealerMove() returns (stop: bool)
      requires Valid() && |dealer.hand| + |deck.currentCards| > HIT_MAX
      modifies this, dealer, deck
      ensures Valid() && deck == old(deck)
      ensures var t := DealerPlay(old(dealer.hand), old(deck.currentCards));
        if stop then
          dealer.hand == t.hand && deck.currentCards == t.deck &&
          winner == (if t.bust then Some(PlayerSide) else old(winner))
        else
          winner == old(winner) &&
          |dealer.hand| + |deck.currentCards| == old(|dealer.hand| + |deck.currentCards|) &&
          |deck.currentCards| < old(|deck.currentCards|) &&
          DealerPlay(dealer.hand, deck.currentCards) == t
    {
      ghost var hand, cards := dealer.hand, deck.currentCards;
      PointsAtLeastCards(hand);
      DealerStep(hand, cards);
      if DealerStays(dealer.points) {
        assert DealerPlay(hand, cards) == Turn(hand, cards, 0, false);
        return true;
      }
      dealer.HitPlay(deck);
      assert dealer.hand == hand + [cards[|cards| - 1]] && deck.currentCards == cards[..|cards| - 1];
      var busted := Busted(dealer);
      if busted {
        assert DealerPlay(hand, cards) == Turn(dealer.hand, deck.currentCards, 0, true);
        Bust(PlayerSide);
        return true;
      }
      return false;
    }

    /** `Game#dealer_turn_unless_player_busted` */
    method DealerTurnUnlessPlayerBusted()
      requires Valid() && (player.points <= BUSTED ==> |dealer.hand| + |deck.currentCards| > HIT_MAX)
      modifies this, dealer, deck
      ensures Valid() && deck == old(deck)
      ensures old(player.points) > BUSTED ==>
        dealer.hand == old(dealer.hand) && deck.currentCards == old(deck.currentCards) && winner == old(winner)
      ensures old(player.points) <= BUSTED ==>
        var t := DealerPlay(old(dealer.hand), old(deck.currentCards));
        dealer.hand == t.hand && deck.currentCards == t.deck &&
        winner == (if t.bust then Some(PlayerSide) else old(winner))
    {
      var busted := Busted(player);
      if busted == false {
        DealerTurn();
      }
    }

    /** `Game#determine_winner` */
    method DetermineWinner() returns (w: Option<Side>)
      modifies this
      ensures winner == Decide(old(winner), player.points, dealer.points) && w == winner
      ensures deck == old(deck)
    {
      if winner.Some? {
        return winner;
      }
      if player.points > dealer.points {
        winner := Some(PlayerSide);
      } else if dealer.points > player.points {
        winner := Some(DealerSide);
      } else {
        winner := None;
      }
      w := winner;
    }

    /** `main_game`'s round without its screens: the player's turn, the dealer's unless the
        player busted, and the winner. RoundKeepsCards and RoundWinner state what the round
        does. */
    method Round(stays: nat -> bool) returns (asked: nat)
      requires Valid() && PointTotal(player.hand) <= BUSTED && PointTotal(dealer.hand) <= BUSTED
      requires |player.hand| + |deck.currentCards| > BUSTED
      requires |player.hand| + |dealer.hand| + |deck.currentCards| > BUSTED + HIT_MAX
      modifies this, player, dealer, deck
      ensures Valid() && deck == old(deck)
      ensures var r := PlayRound(old(player.hand), old(dealer.hand), old(deck.currentCards), stays, old(winner));
        player.hand == r.player.hand && dealer.hand == r.dealer.hand && deck.currentCards == r.dealer.deck &&
        asked == r.player.asked && winner == r.winner
    {
      PointsAtLeastCards(player.hand);
      asked := PlayerTurn(stays);
      PointsAtLeastCards(player.hand);
      DealerTurnUnlessPlayerBusted();
      var _ := DetermineWinner();
    }

    /** `Game#reset(player, dealer, deck)`: both hands dealt afresh from `next`, and no
        winner. The game's own deck is whatever it was. */
    method Reset(next: Deck)
      requires Valid() && |next.currentCards| >= 4
      modifies this, player, dealer, next
      ensures Valid() && winner == None && deck == old(deck)
      ensures var n := |old(next.currentCards)|;
        player.hand == old(next.currentCards)[n - 2..] && dealer.hand == old(next.currentCards)[n - 4..n - 2] &&
        next.currentCards == old(next.currentCards)[..n - 4]
    {
      ghost var cards := next.currentCards;
      player.Reset(next);
      dealer.Reset(next);
      winner := None;
      assert cards[..|cards| - 2][|cards| - 4..] == cards[|cards| - 4..|cards| - 2];
      assert cards[..|cards| - 2][..|cards| - 4] == cards[..|cards| - 4];
    }

    /** `deck = Deck.new` and `reset(player, dealer, deck)` as `main_game` has them: the new
        deck is a local, so the hands come from it while the game keeps drawing from the
        old deck; once the last round drew any card, the cards in play are not the 52. */
    method NextRoundAsWritten(shuffle: seq<nat>)
      requires Valid() && |shuffle| == 52 && ValidPicks(52, shuffle)
      modifies this, player, dealer
      ensures Valid() && winner == None
      ensures deck == old(deck) && deck.currentCards == old(deck.currentCards)
      ensures var cards := Shuffle(Keys(), shuffle); player.hand == cards[50..] && dealer.hand == cards[48..50]
      ensures old(RoundInvariant()) && old(|player.hand| + |dealer.hand|) > 4 ==> !RoundInvariant()
    {
      var deck := new Deck(shuffle);
      ghost var cards := deck.currentCards;
      FreshDeal(shuffle);
      FreshHands(shuffle);
      Reset(deck);
      if old(RoundInvariant()) && old(|player.hand| + |dealer.hand|) > 4 {
        StaleDeckLosesCards(old(player.hand), old(dealer.hand), this.deck.currentCards, player.hand, dealer.hand);
      }
    }

    /** The next round as intended: the game's deck replaced by a new one, from which both
        hands are dealt, so the next round starts like the first. */
    method NextRound(shuffle: seq<nat>)
      requires Valid() && |shuffle| == 52 && ValidPicks(52, shuffle)
      modifies this, player, dealer
      ensures Valid() && RoundInvariant() && winner == None
      ensures var cards := Shuffle(Keys(), shuffle);
        player.hand == cards[50..] && dealer.hand == cards[48..50] && deck.currentCards == cards[..48]
    {
      deck := new Deck(shuffle);
      FreshDeal(shuffle);
      FreshHands(shuffle);
      Reset(deck);
    }
  }
}
