/** The reviewed Twenty-One game (twenty_one/twenty_one_code_review.rb): the round of the
    first game with suits spelled out, faces listed numbers first, a card's value read with
    `to_i`, and a result that compares the totals. Its cards are those of TwentyOne, and
    its rounds are stated with TwentyOne's round functions: on every card of its deck its
    scoring agrees with TwentyOne's (TotalAgrees). */
module TwentyOneReview {
  import opened RubyText
  import opened Draws
  import AceRule
  import T = TwentyOne

  type Card = T.Card

  // ---------------------------------------------------------------- cards

  const SUITS: seq<string> := ["Clubs", "Spades", "Hearts", "Diamonds"]
  /** `(2..10).to_a.map(&:to_s)` */
  const NUMBERS: seq<string> := ["2", "3", "4", "5", "6", "7", "8", "9", "10"]
  const FACES: seq<string> := NUMBERS + ["J", "Q", "K", "A"]

  /** `Card#value`: 11 for an Ace, 10 when `to_i` finds no number, the number otherwise. */
  function FaceValue(face: string): int
  {
    if face == "A" then 11
    else if ParseLeadingNat(face) == 0 then 10
    else ParseLeadingNat(face)
  }

  /** The cards `Deck#initialize` makes: a face of FACES. */
  type DeckCard = c: Card | c.face in FACES witness T.Card("Clubs", "2")

  function Value(c: Card): int
  {
    FaceValue(c.face)
  }

  /** The two games use the same thirteen faces, in another order. */
  lemma SameFaces()
    ensures |FACES| == 13 && Distinct(FACES)
    ensures forall f :: f in FACES <==> f in T.FACES
  {
  }

  /** On every face of the deck `to_i` tells the numbers from the pictures, so the value
      is the one of the first game. */
  lemma FaceValueAgrees(face: string)
    requires face in FACES
    ensures FaceValue(face) == T.FaceValue(face)
  {
    T.NumberValues();
    if face in T.FACE_CARDS && face != "A" {
      assert LeadingDigits(face) == [];
    } else if face != "A" {
      SameFaces();
      var i :| 0 <= i < 13 && T.FACES[i] == face;
      assert 4 <= i;
    }
  }

  /** Thirteen faces: the numbers 2 to 10, worth their number, then J, Q and K, worth 10,
      and the Ace, worth 11. */
  lemma FaceValues()
    ensures |FACES| == 13 && FACES[12] == "A"
    ensures forall i :: 0 <= i < 9 ==> FaceValue(FACES[i]) == i + 2
    ensures forall i :: 9 <= i < 12 ==> FaceValue(FACES[i]) == 10
    ensures forall f :: f in FACES ==> 2 <= FaceValue(f) <= 11 && (FaceValue(f) == 11 <==> f == "A")
  {
    T.FaceValues();
    forall f | f in FACES
      ensures FaceValue(f) == T.FaceValue(f)
    {
      FaceValueAgrees(f);
    }
    assert forall i :: 0 <= i < 9 ==> FACES[i] == T.FACES[i + 4];
  }

  // ---------------------------------------------------------------- the fresh deck

  /** The deck as `Deck#initialize` lays it out: suit by suit, face by face. */
  function FreshDeck(): seq<Card>
  {
    T.Rows(SUITS, FACES)
  }

  /** A fresh deck holds exactly one card for each suit and face: 52 cards, no two alike. */
  lemma FreshDeckComplete()
    ensures |FreshDeck()| == 52
    ensures forall c :: c in FreshDeck() <==> c.suit in SUITS && c.face in FACES
    ensures Distinct(FreshDeck())
  {
    SameFaces();
    T.RowsMembers(SUITS, FACES);
    T.RowsDistinct(SUITS, FACES);
  }

  /** Its faces are faces of the first game's deck. */
  lemma FreshDeckIsFull()
    ensures T.FullDeck(FreshDeck())
  {
    FreshDeckComplete();
    SameFaces();
    T.FacesOfTheDeckMembers(FreshDeck());
  }

  /** Clubs come first, from the 2 up. */
  lemma FreshDeckStart()
    ensures |FreshDeck()| == 52
    ensures forall j :: 0 <= j < |FACES| ==> FreshDeck()[j] == T.Card("Clubs", FACES[j])
  {
    RowsFront(SUITS, FACES);
    forall j | 0 <= j < |FACES| ensures FreshDeck()[j] == T.Card("Clubs", FACES[j]) {
      assert FreshDeck()[j] == FreshDeck()[..|FACES|][j];
    }
  }

  lemma {:induction false} RowsFront(suits: seq<string>, faces: seq<string>)
    requires |suits| > 0
    ensures |T.Rows(suits, faces)| >= |faces|
    ensures T.Rows(suits, faces)[..|faces|] == T.Row(suits[0], faces)
  {
    var n := |suits| - 1;
    if n == 0 {
      assert T.Rows(suits[..n], faces) == [];
    } else {
      RowsFront(suits[..n], faces);
      assert suits[..n][0] == suits[0];
    }
  }

  // ---------------------------------------------------------------- scoring

  /** The values of the cards, an Ace counting 11. */
  function Sum(hand: seq<Card>): int
  {
    if hand == [] then 0 else Sum(hand[..|hand| - 1]) + Value(hand[|hand| - 1])
  }

  /** `Hand#total`: the raw sum with as few Aces demoted as it takes to reach 21 or less,
      or all of them. */
  function HandTotal(hand: seq<Card>): int
  {
    AceRule.Normalized(Sum(hand), T.Aces(hand))
  }

  lemma {:induction false} SumAgrees(hand: seq<DeckCard>)
    ensures Sum(hand) == T.Sum(hand)
  {
    if hand != [] {
      SumAgrees(hand[..|hand| - 1]);
      FaceValueAgrees(hand[|hand| - 1].face);
    }
  }

  /** On cards of the deck both games total a hand alike. */
  lemma TotalAgrees(hand: seq<DeckCard>)
    ensures HandTotal(hand) == T.HandTotal(hand)
  {
    SumAgrees(hand);
  }

  /** The total is the raw sum less 10 for each of the fewest Aces whose demotion brings it
      to 21 or less, or for every Ace when there are not enough; it is over 21 only once
      every Ace counts 1. */
  lemma TotalClosedForm(hand: seq<Card>)
    ensures var raw, aces := Sum(hand), T.Aces(hand);
      HandTotal(hand) == if raw <= 21 then raw else raw - 10 * AceRule.Min(aces, (raw - 12) / 10)
    ensures HandTotal(hand) > 21 ==> AceRule.Demotions(Sum(hand), T.Aces(hand)) == T.Aces(hand)
  {
    AceRule.DemotionsClosedForm(Sum(hand), T.Aces(hand));
    AceRule.NormalizedBounds(Sum(hand), T.Aces(hand));
  }

  /** {K, Q} is 20, {A, K} is 21 and {A, A, 9} is 21. */
  lemma TotalExamples(s: string)
    ensures HandTotal([T.Card(s, "K"), T.Card(s, "Q")]) == 20
    ensures HandTotal([T.Card(s, "A"), T.Card(s, "K")]) == 21
    ensures HandTotal([T.Card(s, "A"), T.Card(s, "A"), T.Card(s, "9")]) == 21
  {
    T.TotalExamples(s);
    var kq: seq<DeckCard> := [T.Card(s, "K"), T.Card(s, "Q")];
    var ak: seq<DeckCard> := [T.Card(s, "A"), T.Card(s, "K")];
    var aa9: seq<DeckCard> := [T.Card(s, "A"), T.Card(s, "A"), T.Card(s, "9")];
    TotalAgrees(kq);
    TotalAgrees(ak);
    TotalAgrees(aa9);
  }

  // ---------------------------------------------------------------- the result

  datatype Side = Player | Dealer

  datatype Outcome = Wins(side: Side) | Push

  /** `evaluate_winner`: the higher total wins; equal totals are a push. */
  function EvaluateWinner(playerTotal: int, dealerTotal: int): (o: Outcome)
  {
    if playerTotal > dealerTotal then Wins(Player)
    else if dealerTotal > playerTotal then Wins(Dealer)
    else Push
  }

  function Other(side: Side): Side
  {
    if side == Player then Dealer else Player
  }

  function Swapped(o: Outcome): Outcome
  {
    match o
    case Wins(side) => Wins(Other(side))
    case Push => Push
  }

  /** A side wins exactly when its total is strictly higher, a push is exactly a tie, and
      exchanging the totals exchanges the winner. */
  lemma EvaluateWinnerSpec(playerTotal: int, dealerTotal: int)
    ensures EvaluateWinner(playerTotal, dealerTotal) == Wins(Player) <==> playerTotal > dealerTotal
    ensures EvaluateWinner(playerTotal, dealerTotal) == Wins(Dealer) <==> dealerTotal > playerTotal
    ensures EvaluateWinner(playerTotal, dealerTotal) == Push <==> playerTotal == dealerTotal
    ensures EvaluateWinner(dealerTotal, playerTotal) == Swapped(EvaluateWinner(playerTotal, dealerTotal))
  {
  }

  /** The line `evaluate_winner` returns. */
  function Announcement(o: Outcome, playerName: string, dealerName: string): string
  {
    match o
    case Wins(Player) => playerName + " wins!"
    case Wins(Dealer) => dealerName + " wins!"
    case Push => "It's a push!"
  }

  /** The announcement tells the outcomes apart whatever the names: a push never reads
      like a win, a win starts with the winner's name, and with two different names the
      two wins read differently. */
  lemma AnnouncementTellsApart(o: Outcome, playerName: string, dealerName: string)
    ensures o.Wins? ==> Announcement(o, playerName, dealerName)
                        == (if o.side == Player then playerName else dealerName) + " wins!"
    ensures Announcement(Push, playerName, dealerName) != Announcement(Wins(Player), playerName, dealerName)
    ensures Announcement(Push, playerName, dealerName) != Announcement(Wins(Dealer), playerName, dealerName)
    ensures playerName != dealerName ==>
              Announcement(Wins(Player), playerName, dealerName) != Announcement(Wins(Dealer), playerName, dealerName)
  {
    PushIsNoWin(playerName);
    PushIsNoWin(dealerName);
    if playerName != dealerName {
      WinsInjective(playerName, dealerName);
    }
  }

  lemma PushIsNoWin(name: string)
    ensures "It's a push!" != name + " wins!"
  {
    var win := name + " wins!";
    if |win| == 12 {
      assert win[10] == 's' && "It's a push!"[10] == 'h';
    }
  }

  lemma WinsInjective(a: string, b: string)
    requires a != b
    ensures a + " wins!" != b + " wins!"
  {
    if |a| == |b| {
      assert (a + " wins!")[..|a|] == a && (b + " wins!")[..|b|] == b;
    }
  }

  /** What `show_result` reports after the hands: a side busted or at 21 (by
      `display_busted_blackjack`), or the verdict of `evaluate_winner`. */
  datatype Shown = Busted(side: Side) | GotTwentyOne(side: Side) | Verdict(outcome: Outcome)

  /** `show_result`: the player's bust or 21 first, then the dealer's, and only otherwise
      the comparison. */
  function ShowResult(playerTotal: int, dealerTotal: int): (r: Shown)
  {
    if playerTotal > 21 then Busted(Player)
    else if playerTotal == 21 then GotTwentyOne(Player)
    else if dealerTotal > 21 then Busted(Dealer)
    else if dealerTotal == 21 then GotTwentyOne(Dealer)
    else Verdict(EvaluateWinner(playerTotal, dealerTotal))
  }

  /** The player's status is reported whenever the player is busted or at 21, whatever the
      dealer holds; the dealer's only when the player is under 21; the comparison only when
      both are under 21. */
  lemma ShowResultOrder(playerTotal: int, dealerTotal: int)
    ensures playerTotal >= 21 ==> ShowResult(playerTotal, dealerTotal) in {Busted(Player), GotTwentyOne(Player)}
    ensures ShowResult(playerTotal, dealerTotal) in {Busted(Dealer), GotTwentyOne(Dealer)}
      <==> playerTotal < 21 && dealerTotal >= 21
    ensures ShowResult(playerTotal, dealerTotal).Verdict? <==> playerTotal < 21 && dealerTotal < 21
    ensures ShowResult(playerTotal, dealerTotal).Verdict? ==>
      ShowResult(playerTotal, dealerTotal).outcome == EvaluateWinner(playerTotal, dealerTotal)
  {
  }

  /** In a round from a complete deck the comparison is reached only after the dealer has
      played, with the dealer on 17 to 20 and the player under 21. */
  lemma VerdictAfterDealer(t: T.Table, answers: nat -> T.Decision, picks: seq<nat>)
    requires t.player == [] && t.dealer == [] && multiset(t.deck) == multiset(FreshDeck())
    requires |picks| == |t.deck| && ValidPicks(|t.deck|, picks)
    ensures |picks| >= 4
    ensures var r := T.PlayRound(t, answers, picks);
      ShowResult(T.HandTotal(r.table.player), T.HandTotal(r.table.dealer)).Verdict? ==>
        r.dealerPlayed && 17 <= T.HandTotal(r.table.dealer) <= 20 && T.HandTotal(r.table.player) < 21
  {
    FreshDeckIsFull();
    T.RoundSpec(t, answers, picks, FreshDeck());
  }

  // ---------------------------------------------------------------- the round as written

  /** How `main_game` ends: with the round played out, or with an exception. */
  datatype Run = Finished(round: T.RoundEnd) | Raised(error: string)

  /** `computer_turn` as written: its first statement is the bare name `display_dealer_turn`,
      which is neither a local variable nor a method of any class (the method is
      `dealer_turn_display`), so Ruby raises `NameError`. */
  function ComputerTurnAsWritten(): (run: Run)
  {
    Raised("NameError: undefined local variable or method `display_dealer_turn'")
  }

  /** `main_game` as written: deal, the player's turn, then `computer_turn` unless the
      player is busted or at 21. */
  function MainGameAsWritten(t: T.Table, answers: nat -> T.Decision, picks: seq<nat>): (run: Run)
    requires |picks| >= 4
  {
    var dealt := T.Deal(t, picks, 0);
    var played := T.PlayerPlay(dealt.player, dealt.deck, answers, picks[4..], 0);
    var p := played.0;
    if T.HandTotal(p.hand) >= 21 then
      Finished(T.RoundEnd(T.Table(p.hand, dealt.dealer, p.deck), played.1, p.hits, 0, false))
    else
      ComputerTurnAsWritten()
  }

  /** As written, a round raises exactly when the dealer would have had to play, and
      otherwise ends as the intended round does. */
  lemma MainGameAsWrittenRaises(t: T.Table, answers: nat -> T.Decision, picks: seq<nat>)
    requires |picks| >= 4
    ensures MainGameAsWritten(t, answers, picks).Raised? <==> T.PlayRound(t, answers, picks).dealerPlayed
    ensures MainGameAsWritten(t, answers, picks).Finished? ==>
      MainGameAsWritten(t, answers, picks).round == T.PlayRound(t, answers, picks)
  {
  }

  /** For instance: from a fresh deck, always drawing the top card, the player holds the
      2 and the 4 of Clubs, stays on 6, and the round raises. */
  lemma StayingOnSixRaises(picks: seq<nat>)
    requires |picks| == 52 && forall k :: 0 <= k < 52 ==> picks[k] == 0
    ensures ValidPicks(52, picks)
    ensures MainGameAsWritten(T.Table([], [], FreshDeck()), _ => T.Stay, picks).Raised?
  {
    TopPicksValid(picks);
    FreshDeckStart();
    FirstFaces();
    RaisesFromTheTop(FreshDeck(), picks);
  }

  /** Always drawing the top card is a valid way to draw. */
  lemma TopPicksValid(picks: seq<nat>)
    requires |picks| == 52 && forall k :: 0 <= k < 52 ==> picks[k] == 0
    ensures ValidPicks(52, picks)
  {
    ValidPicksIndices(52, picks);
  }

  lemma FirstFaces()
    ensures |FACES| == 13 && FACES[0] == "2" && FACES[2] == "4"
  {
    assert FACES[0] == NUMBERS[0] && FACES[2] == NUMBERS[2];
  }

  /** A deck whose first and third cards are the 2 and the 4 of Clubs: drawing from the top,
      the player stays on 6 and the round raises. */
  lemma RaisesFromTheTop(deck: seq<Card>, picks: seq<nat>)
    requires |deck| == 52 && deck[0] == T.Card("Clubs", "2") && deck[2] == T.Card("Clubs", "4")
    requires |picks| == 52 && forall k :: 0 <= k < 52 ==> picks[k] == 0
    ensures MainGameAsWritten(T.Table([], [], deck), _ => T.Stay, picks).Raised?
  {
    TopCardsDealt(deck, picks);
    TwoAndFour();
    var dealt := T.Deal(T.Table([], [], deck), picks, 0);
    T.PlayerPlayStays(dealt.player, dealt.deck, _ => T.Stay, picks[4..], 0);
  }

  /** Drawing the top card every time deals the player the first and the third card. */
  lemma TopCardsDealt(deck: seq<Card>, picks: seq<nat>)
    requires |deck| == 52 && |picks| == 52 && forall k :: 0 <= k < 52 ==> picks[k] == 0
    ensures T.Deal(T.Table([], [], deck), picks, 0).player == [deck[0], deck[2]]
  {
    var t := T.Table([], [], deck);
    assert RemoveAt(deck, 0) == deck[1..];
    var once := T.DealtOnce(t, 0, 0);
    assert once == T.Table([deck[0]], [deck[1]], deck[2..]);
    assert RemoveAt(deck[2..], 0) == deck[3..];
    var dealt := T.DealtOnce(once, 0, 0);
    assert dealt.player == [deck[0], deck[2]];
    assert T.Deal(t, picks, 0) == T.Deal(once, picks, 1) == dealt;
  }

  /** The 2 and the 4 total 6. */
  lemma TwoAndFour()
    ensures T.HandTotal([T.Card("Clubs", "2"), T.Card("Clubs", "4")]) == 6
  {
    T.HandOfTwo(T.Card("Clubs", "2"), T.Card("Clubs", "4"));
    T.NumberValues();
    assert T.FACES[4] == "2" && T.FACES[6] == "4";
  }

  // ---------------------------------------------------------------- deck

  class Deck {
    var cards: seq<DeckCard>

    /** `Deck#initialize`: every suit, and within it every face, appended in order. */
    constructor ()
      ensures cards == FreshDeck()
    {
      cards := [];
      new;
      for i := 0 to |SUITS|
        invariant cards == T.Rows(SUITS[..i], FACES)
      {
        for j := 0 to |FACES|
          invariant cards == T.Rows(SUITS[..i], FACES) + T.Row(SUITS[i], FACES[..j])
        {
          T.RowGrows(SUITS[i], FACES, j);
          var card := T.Card(SUITS[i], FACES[j]);
          assert T.Rows(SUITS[..i], FACES) + T.Row(SUITS[i], FACES[..j]) + [card]
            == T.Rows(SUITS[..i], FACES) + (T.Row(SUITS[i], FACES[..j]) + [card]);
          cards := cards + [card];
        }
        assert FACES[..|FACES|] == FACES;
        T.RowsGrow(SUITS, FACES, i);
      }
      assert SUITS[..|SUITS|] == SUITS;
    }

    /** `Deck#deal_one`, with `index` the number `rand(cards.length)` returned. */
    method DealOne(index: nat) returns (card: DeckCard)
      requires index < |cards|
      modifies this
      ensures card == old(cards)[index]
      ensures cards == RemoveAt(old(cards), index)
    {
      card := cards[index];
      cards := cards[..index] + cards[index + 1..];
    }
  }

  // ---------------------------------------------------------------- participants

  /** `Participant` with the `Hand` module mixed in; `name` is set by `Player#set_name` or
      drawn from the dealer names, both outside this model. */
  class Participant {
    var name: string
    var hand: seq<DeckCard>

    constructor (name: string)
      ensures this.name == name && hand == []
    {
      this.name := name;
      hand := [];
    }

    method AddCard(card: DeckCard)
      modifies this
      ensures hand == old(hand) + [card]
    {
      hand := hand + [card];
    }

    /** `Hand#total`: sum the cards, then for each Ace stop at 21 or less, or take 10 off. */
    method Total() returns (total: int)
      ensures total == HandTotal(hand)
    {
      total := 0;
      for i := 0 to |hand|
        invariant total == Sum(hand[..i])
      {
        assert hand[..i + 1][..i] == hand[..i];
        total := total + Value(hand[i]);
      }
      assert hand[..|hand|] == hand;
      var aces := T.Aces(hand);
      total := AceRule.Normalize(total, aces);
    }

    method Busted() returns (busted: bool)
      ensures busted <==> HandTotal(hand) > 21
    {
      var total := Total();
      busted := total > 21;
    }

    method Blackjack() returns (blackjack: bool)
      ensures blackjack <==> HandTotal(hand) == 21
    {
      var total := Total();
      blackjack := total == 21;
    }

    method BustedOrBlackjack() returns (over: bool)
      ensures over <==> HandTotal(hand) > 21 || HandTotal(hand) == 21
    {
      over := Busted();
      if !over {
        over := Blackjack();
      }
    }
  }

  // ---------------------------------------------------------------- the game

  class Game {
    var deck: Deck
    const player: Participant
    const dealer: Participant

    ghost predicate Valid()
      reads this
    {
      player != dealer
    }

    ghost function State(): T.Table
      reads this, deck, player, dealer
    {
      T.Table(player.hand, dealer.hand, deck.cards)
    }

    /** Within a round every card of the full deck is in the deck or in exactly one hand. */
    ghost predicate RoundInvariant(full: seq<Card>)
      reads this, deck, player, dealer
    {
      multiset(player.hand) + multiset(dealer.hand) + multiset(deck.cards) == multiset(full)
    }

    constructor (playerName: string, dealerName: string)
      ensures Valid() && fresh(deck) && fresh(player) && fresh(dealer)
      ensures deck.cards == FreshDeck() && player.hand == [] && dealer.hand == []
      ensures player.name == playerName && dealer.name == dealerName
      ensures RoundInvariant(FreshDeck())
    {
      player := new Participant(playerName);
      dealer := new Participant(dealerName);
      deck := new Deck();
    }

    /** `participant.add_card(deck.deal_one)` */
    method DealTo(p: Participant, index: nat)
      requires index < |deck.cards|
      modifies deck, p
      ensures p.hand == old(p.hand) + [old(deck.cards)[index]]
      ensures deck.cards == RemoveAt(old(deck.cards), index)
    {
      var card := deck.DealOne(index);
      p.AddCard(card);
    }

    /** `deal_cards`: twice, one card to the player and then one to the dealer. */
    method DealCards(picks: seq<nat>)
      requires Valid()
      requires |picks| >= 4 && ValidPicks(|deck.cards|, picks)
      modifies deck, player, dealer
      ensures State() == T.Deal(old(State()), picks, 0)
    {
      ghost var t0 := State();
      var round := 0;
      while round < 2
        invariant round <= 2 && |deck.cards| == |t0.deck| - 2 * round
        invariant T.Deal(State(), picks, round) == T.Deal(t0, picks, 0)
        invariant multiset(State().player) + multiset(State().dealer) + multiset(State().deck)
          == multiset(t0.player) + multiset(t0.dealer) + multiset(t0.deck)
      {
        ghost var t := State();
        T.DealStep(t, |t0.deck|, picks, round);
        DealTo(player, picks[2 * round]);
        DealTo(dealer, picks[2 * round + 1]);
        ghost var next := T.DealRound(t, picks[2 * round], picks[2 * round + 1]);
        assert State() == next;
        round := round + 1;
      }
    }

    /** `player_turn`: `answers(k)` is the k-th answer of `player_decision`, `picks[k]` the
        index `rand` gives at the k-th hit; TwentyOne.PlayerPlaySpec states what the turn
        does. */
    method PlayerTurn(answers: nat -> T.Decision, picks: seq<nat>) returns (asked: nat, hits: nat)
      requires |picks| == |deck.cards| && ValidPicks(|deck.cards|, picks)
      requires T.HandTotal(player.hand + deck.cards) >= 21
      modifies deck, player
      ensures (T.Turn(player.hand, deck.cards, hits), asked)
        == T.PlayerPlay(old(player.hand), old(deck.cards), answers, picks, 0)
    {
      ghost var cards0, hand0 := deck.cards, player.hand;
      ghost var goal := T.PlayerPlay(hand0, cards0, answers, picks, 0);
      asked, hits := 0, 0;
      while true
        invariant asked == hits <= |picks| && |deck.cards| == |cards0| - hits
        invariant multiset(player.hand) + multiset(deck.cards) == multiset(hand0 + cards0)
        invariant T.PlayerPlay(player.hand, deck.cards, answers, picks, hits) == goal
        decreases |picks| - hits
      {
        var over := player.BustedOrBlackjack();
        TotalAgrees(player.hand);
        if over {
          T.PlayerPlayStops(player.hand, deck.cards, answers, picks, hits);
          assert (T.Turn(player.hand, deck.cards, hits), asked) == goal;
          break;
        }
        var decision := answers(asked);
        asked := asked + 1;
        if decision != T.Hit {
          T.PlayerPlayStays(player.hand, deck.cards, answers, picks, hits);
          assert (T.Turn(player.hand, deck.cards, hits), asked) == goal;
          break;
        }
        T.PlayerHitStep(hand0, cards0, answers, picks, player.hand, deck.cards, hits);
        DealTo(player, picks[hits]);
        hits := hits + 1;
      }
    }

    /** `computer_turn` as intended, with its display left out; TwentyOne.DealerPlaySpec
        states what the turn does. */
    method ComputerTurn(picks: seq<nat>) returns (hits: nat)
      requires |picks| == |deck.cards| && ValidPicks(|deck.cards|, picks)
      requires T.HandTotal(dealer.hand + deck.cards) >= 17
      modifies deck, dealer
      ensures T.Turn(dealer.hand, deck.cards, hits) == T.DealerPlay(old(dealer.hand), old(deck.cards), picks, 0)
    {
      ghost var cards0, hand0 := deck.cards, dealer.hand;
      hits := 0;
      while true
        invariant hits <= |picks| && |deck.cards| == |cards0| - hits
        invariant multiset(dealer.hand) + multiset(deck.cards) == multiset(hand0 + cards0)
        invariant T.DealerPlay(dealer.hand, deck.cards, picks, hits) == T.DealerPlay(hand0, cards0, picks, 0)
        decreases |picks| - hits
      {
        var over := dealer.BustedOrBlackjack();
        var total := dealer.Total();
        TotalAgrees(dealer.hand);
        if over || total >= 17 {
          T.DealerPlayStops(dealer.hand, deck.cards, picks, hits);
          break;
        }
        T.DealerHitStep(hand0, cards0, picks, dealer.hand, deck.cards, hits);
        DealTo(dealer, picks[hits]);
        hits := hits + 1;
      }
    }

    /** `show_result` without the display of the hands. */
    method ShowResultOf() returns (shown: Shown)
      ensures shown == ShowResult(HandTotal(player.hand), HandTotal(dealer.hand))
    {
      var playerOver := player.BustedOrBlackjack();
      var dealerOver := dealer.BustedOrBlackjack();
      var playerTotal := player.Total();
      var dealerTotal := dealer.Total();
      if playerOver {
        var busted := player.Busted();
        shown := if busted then Busted(Player) else GotTwentyOne(Player);
      } else if dealerOver {
        var busted := dealer.Busted();
        shown := if busted then Busted(Dealer) else GotTwentyOne(Dealer);
      } else {
        shown := Verdict(EvaluateWinner(playerTotal, dealerTotal));
      }
    }

    /** `reset`: a new deck and two empty hands. */
    method Reset()
      requires Valid()
      modifies this, player, dealer
      ensures Valid() && fresh(deck)
      ensures deck.cards == FreshDeck() && player.hand == [] && dealer.hand == []
      ensures RoundInvariant(FreshDeck())
    {
      deck := new Deck();
      player.hand := [];
      dealer.hand := [];
    }

    /** `main_game` as intended: deal, the player's turn, the dealer's turn unless the
        player is busted or at 21, and the result. `picks` are the indices of every draw
        of the round; `full` is a deck of 52 cards the round starts from, in any order (the
        constructor and Reset give FreshDeck(), which FreshDeckIsFull shows is one). */
    method MainGame(answers: nat -> T.Decision, picks: seq<nat>, ghost full: seq<Card>)
      returns (asked: nat, playerHits: nat, dealerHits: nat, dealerPlayed: bool, shown: Shown)
      requires Valid() && player.hand == [] && dealer.hand == []
      requires T.FullDeck(full) && RoundInvariant(full)
      requires |picks| == |deck.cards| && ValidPicks(|deck.cards|, picks)
      modifies deck, player, dealer
      ensures |picks| >= 4
      ensures T.RoundEnd(State(), asked, playerHits, dealerHits, dealerPlayed)
        == T.PlayRound(T.Table([], [], old(deck.cards)), answers, picks)
      ensures shown == ShowResult(HandTotal(player.hand), HandTotal(dealer.hand))
      ensures RoundInvariant(full)
    {
      T.RoundCanBePlayed(State(), answers, picks, full);
      T.RoundSpec(State(), answers, picks, full);
      DealCards(picks);
      var rest := picks[4..];
      asked, playerHits := PlayerTurn(answers, rest);
      TotalAgrees(player.hand);
      var over := player.BustedOrBlackjack();
      dealerPlayed := !over;
      dealerHits := 0;
      if dealerPlayed {
        dealerHits := ComputerTurn(rest[playerHits..]);
      }
      shown := ShowResultOf();
    }
  }
}
