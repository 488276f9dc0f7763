# Twenty-One, vehicles and banners in Dafny

This project models three object-oriented Ruby exercises and proves properties of the model.

- **Twenty-One**, a simplified blackjack, in three versions:
  - `twenty_one/twenty_one.rb`: cards with a face and a suit letter, a 52-card deck dealt at random, the `Hand#total` Ace rule, the player's and the dealer's turns, and one round of `main_game`.
  - `twenty_one/twenty_one_code_review.rb`: the same game with full suit names, a different `Card#value`, the result display and `evaluate_winner`.
  - `twenty_one/twenty_one_student.rb`: a separate design with cards as strings ("Ace of Hearts"), a card-value hash, hands popped from the end of a shuffled deck, points kept next to the hand, a left-to-right Ace rule, `join_and`, case-blind answers, busting and `determine_winner`.
- **Vehicles** (`OOP_Book/my_car.rb`): a `Vehicle` class with a class-wide vehicle counter, speed changes, a paint job, the `Towable` weight limit and the text of a `MyCar`.
- **Banner** (`exercises/easy_one.rb/banner.rb`): a message framed in a five-line box.

Modules:

- `Wrappers`: the `Option` type.
- `RubyText`: the Ruby string operations the programs rely on. It covers `to_i` on leading digits, integer interpolation, `downcase`, `join`, `*` on strings and `split`.
- `Tally`: sums and counts over sequences.
- `Draws`: `delete_at(rand(n))`, repeated.
- `AceRule`: the Ace demotion loop that both `Hand#total`s share.
- `TwentyOne`, `TwentyOneReview`, `TwentyOneStudent`, `Vehicles` and `Banners`: one module per source file.

Inputs the programs read from outside become parameters:

- **Random numbers.** Every `rand(cards.length)` is a caller-supplied index in `picks`. `ValidPicks` requires each index to be below the number of cards left at that draw. `shuffle` is such a sequence of draws.
- **Typed answers.** The answers a player gives are a function from the question number to the answer that the re-prompt loop accepted. `ParseDecision` and `ParseStay` model that loop's validation of one typed line.

Objects whose fields the Ruby code updates are Dafny classes with `modifies` clauses:

- decks, participants and games;
- `Vehicle` and the vehicle counter.

Each turn loop is a method proved equal to a recursive function of the old state. Lemmas state what those functions promise.

## Model

| member | source | states |
|---|---|---|
| AceRule.Normalize | twenty_one/twenty_one.rb:15-18 | the demotion loop, run once per Ace, returns the raw sum less 10 for each demotion `Demotions` counts |
| AceRule.DemotionsStepwise | twenty_one/twenty_one.rb:15-18 | every demotion but the last leaves the sum above 21; the loop stops at 21 or below, or when the Aces run out |
| AceRule.DemotionsClosedForm | twenty_one/twenty_one.rb:15-18 | the number of demotions is 0 at 21 or less, and otherwise the fewest that bring the sum to 21 or less, capped at the number of Aces |
| AceRule.NormalizedBounds | twenty_one/twenty_one.rb:11-20 | the total lies between the all-Aces-as-1 sum and the raw sum; it is above 21 only when every Ace counts 1; after a demotion it is at least 12 |
| AceRule.NormalizedWithinLimit | twenty_one/twenty_one.rb:15-18 | no total above 21 keeps an Ace at 11 |
| Draws.RemoveAtMultiset | twenty_one/twenty_one.rb:136 | `delete_at` loses the card at the index and nothing else |
| Draws.RemoveAtElements | twenty_one/twenty_one.rb:136 | the cards before the index keep their places, and those after it move down by one |
| Draws.DrawConserves | twenty_one/twenty_one.rb:135-137 | the cards dealt plus the cards left are exactly the cards of the deck |
| Draws.DrawDistinct | twenty_one/twenty_one.rb:135-137 | dealing from a deck without duplicates creates none |
| RubyText.ParseNatToString | OOP_Book/my_car.rb:67 | an integer interpolated into a string reads back with `to_i` when the text after it does not start with a digit |
| TwentyOne.FaceValues | twenty_one/twenty_one.rb:112-120 | `FaceValue` (`Card#value`): 'A' is worth 11, J, Q and K are worth 10, and every other face of the deck is worth its number; every value is between 2 and 11, and 11 only for the Ace |
| TwentyOne.NumberValues | twenty_one/twenty_one.rb:79 | the faces "2" to "10" are worth their number |
| TwentyOne.CardStringInjective | twenty_one/twenty_one.rb:88-110 | `CardString` (`Card#to_s`): two different cards of the deck have different texts |
| TwentyOne.CardStringParts | twenty_one/twenty_one.rb:88-90 | `CardString`: a card's text is "The ", the face name, " of " and the suit name |
| TwentyOne.FreshDeckComplete | twenty_one/twenty_one.rb:126-133 | a new deck has 52 cards, holds a card exactly when its suit and face are among the deck's, and has no two alike |
| TwentyOne.TotalIgnoresOrder | twenty_one/twenty_one.rb:11-20 | `HandTotal` (`total`) depends only on the multiset of cards in the hand |
| TwentyOne.TotalAfterDemotion | twenty_one/twenty_one.rb:11-20 | after a demotion the total is at least 12; a total above 21 counts every Ace as 1 |
| TwentyOne.TotalExamples | twenty_one/twenty_one.rb:11-20 | {A, A, 9} totals 21, {K, Q} 20 and {A, K} 21 |
| TwentyOne.TwoCardsNotBusted | twenty_one/twenty_one.rb:11-20 | no two cards of the deck total more than 21 |
| TwentyOne.TotalAtLeastCards | twenty_one/twenty_one.rb:11-20 | a hand of deck cards totals at least one point per card |
| TwentyOne.PlentyLeft | twenty_one/twenty_one.rb:185-198 | whatever one side holds without going over 21, the rest of the 52 cards totals at least 21, so a turn never empties the deck |
| TwentyOne.Deck.constructor | twenty_one/twenty_one.rb:126-133 | the cards are laid out suit by suit and face by face |
| TwentyOne.Deck.DealOne | twenty_one/twenty_one.rb:135-137 | returns the card at the drawn index and removes exactly that card |
| TwentyOne.Participant.constructor | twenty_one/twenty_one.rb:36-38 | starts with an empty hand |
| TwentyOne.Participant.AddCard | twenty_one/twenty_one.rb:40-42 | the card is appended to the hand |
| TwentyOne.Participant.Total | twenty_one/twenty_one.rb:11-20 | the summing loop and the demotion loop return `HandTotal` of the hand |
| TwentyOne.Participant.Busted | twenty_one/twenty_one.rb:22-24 | true exactly when the total is above 21 |
| TwentyOne.Participant.Blackjack | twenty_one/twenty_one.rb:26-28 | true exactly when the total is 21 |
| TwentyOne.Participant.BustedOrBlackjack | twenty_one/twenty_one.rb:44-46 | true exactly when the total is 21 or more |
| TwentyOne.ParseDecision | twenty_one/twenty_one.rb:175-183 | "h" hits, "s" stays, and exactly every other line is asked again |
| TwentyOne.PlayerPlay | twenty_one/twenty_one.rb:185-191 | the turn never gives back a draw, and it ends with at most one question after its last draw |
| TwentyOne.DealerPlay | twenty_one/twenty_one.rb:193-199 | the turn never gives back a draw, and it draws at most one card per pick |
| TwentyOne.DealSpec | twenty_one/twenty_one.rb:150-155 | `Deal` (`deal_cards`): each remaining round of the deal gives one card to each side and takes two from the deck, losing no card |
| TwentyOne.DealStep | twenty_one/twenty_one.rb:151-154 | one round of the deal gives the player the card at the first pick, then the dealer the card at the second |
| TwentyOne.DealWithValidPicks | twenty_one/twenty_one.rb:150-155 | the deal moves two cards to each hand and loses none |
| TwentyOne.DrawnSoFarConserves | twenty_one/twenty_one.rb:135-137 | a turn's hand and deck together hold the cards the turn started with |
| TwentyOne.PlayerPlayStops | twenty_one/twenty_one.rb:187 | at 21 or more the player's turn ends with no question |
| TwentyOne.PlayerPlayStays | twenty_one/twenty_one.rb:188 | under 21 an "s" ends the turn after that answer |
| TwentyOne.PlayerPlayHits | twenty_one/twenty_one.rb:188 | under 21 an "h" draws the card at the next pick, and the turn goes on |
| TwentyOne.PlayerPlayAnswers | twenty_one/twenty_one.rb:185-191 | the player answered "h" for every card drawn |
| TwentyOne.PlayerPlayEnds | twenty_one/twenty_one.rb:185-191 | the turn ends without a further question exactly when the hand has reached 21 or more |
| TwentyOne.PlayerPlaySpec | twenty_one/twenty_one.rb:185-191 | the cards drawn are those the picks name; a turn ending on an answer ends on "s"; every hand asked about was under 21 |
| TwentyOne.DealerPlayStops | twenty_one/twenty_one.rb:195 | at 17 or more the dealer's turn ends |
| TwentyOne.DealerPlayHits | twenty_one/twenty_one.rb:196 | under 17 the dealer draws the card at the next pick, and the turn goes on |
| TwentyOne.DealerPlaySpec | twenty_one/twenty_one.rb:193-199 | the cards drawn are those the picks name; the dealer draws only under 17 and ends at 17 or more |
| TwentyOne.AfterDeal | twenty_one/twenty_one.rb:150-155 | after the deal from a full deck each side holds two cards, 48 are left, and all 52 cards are in play |
| TwentyOne.DealtTotals | twenty_one/twenty_one.rb:150-155 | the dealer's two cards total at most 21, and the player's hand with the deck totals at least 21 |
| TwentyOne.AfterPlayer | twenty_one/twenty_one.rb:185-191 | after the player's turn the player holds the dealt cards and those drawn, and all 52 cards are in play |
| TwentyOne.PlayerKeepsCards | twenty_one/twenty_one.rb:185-191 | the player's turn only moves cards from the deck to the hand |
| TwentyOne.DealerHasEnough | twenty_one/twenty_one.rb:193-198 | when the player stops under 21, the dealer's hand with the deck totals at least 21 |
| TwentyOne.AfterDealer | twenty_one/twenty_one.rb:193-198 | after the dealer's turn all 52 cards are in play and the dealer is at 17 or more |
| TwentyOne.RoundCanBePlayed | twenty_one/twenty_one.rb:222-228 | no turn of a round from a full deck runs out of cards |
| TwentyOne.FreshRoundCanBePlayed | twenty_one/twenty_one.rb:222-228 | so a round from a new deck can be played |
| TwentyOne.RoundSpec | twenty_one/twenty_one.rb:222-228 | `PlayRound` (one round of `main_game`): a round keeps all 52 cards; each side holds its dealt and drawn cards; the dealer plays exactly when the player ends under 21, and then ends at 17 or more |
| TwentyOne.PlayerHitStep | twenty_one/twenty_one.rb:188 | an "h" in the middle of a turn has a card to draw, and drawing it keeps every card in play |
| TwentyOne.DealerHitStep | twenty_one/twenty_one.rb:196 | the same for a dealer's draw |
| TwentyOne.Game.constructor | twenty_one/twenty_one.rb:144-148 | a new deck of 52 cards and two empty hands |
| TwentyOne.Game.DealCards | twenty_one/twenty_one.rb:150-155 | the table afterwards is `Deal` of the table before |
| TwentyOne.Game.DealTo | twenty_one/twenty_one.rb:152 | the card at the index moves from the deck to the end of the hand |
| TwentyOne.Game.PlayerTurn | twenty_one/twenty_one.rb:185-191 | the hand, the deck and the number of questions asked are those `PlayerPlay` gives |
| TwentyOne.Game.ComputerTurn | twenty_one/twenty_one.rb:193-199 | the dealer's hand and the deck are those `DealerPlay` gives |
| TwentyOne.Game.Reset | twenty_one/twenty_one.rb:216-220 | a new full deck and two empty hands |
| TwentyOne.Game.MainGame | twenty_one/twenty_one.rb:222-228 | the table, the questions asked and the cards drawn are those `PlayRound` gives for the round |
| TwentyOneReview.SameFaces | twenty_one/twenty_one_code_review.rb:14 | thirteen distinct faces, the same as in the first version |
| TwentyOneReview.FaceValueAgrees | twenty_one/twenty_one_code_review.rb:27-35 | on every face of the deck, this version's `value` (using `to_i == 0`) agrees with the first version's |
| TwentyOneReview.FaceValues | twenty_one/twenty_one_code_review.rb:27-35 | the faces "2" to "10" are worth their number, J, Q and K 10, and "A" 11 |
| TwentyOneReview.FreshDeckComplete | twenty_one/twenty_one_code_review.rb:41-48 | 52 cards, one per suit and face, none repeated |
| TwentyOneReview.FreshDeckIsFull | twenty_one/twenty_one_code_review.rb:41-48 | the new deck is a full deck in the first version's sense |
| TwentyOneReview.FreshDeckStart | twenty_one/twenty_one_code_review.rb:13-14 | the deck opens with the Clubs, from the 2 up |
| TwentyOneReview.TotalAgrees | twenty_one/twenty_one_code_review.rb:63-72 | `total` agrees with the first version's on every hand of deck cards |
| TwentyOneReview.TotalClosedForm | twenty_one/twenty_one_code_review.rb:63-72 | the total is the raw sum less 10 for each Ace the closed form demotes; a total above 21 counts every Ace as 1 |
| TwentyOneReview.TotalExamples | twenty_one/twenty_one_code_review.rb:63-72 | {K, Q} totals 20, {A, K} 21 and {A, A, 9} 21 |
| TwentyOneReview.EvaluateWinnerSpec | twenty_one/twenty_one_code_review.rb:214-222 | `EvaluateWinner` (`evaluate_winner`): a side wins exactly when its total is strictly higher, a push is exactly a tie, and swapping the totals swaps the outcome |
| TwentyOneReview.AnnouncementTellsApart | twenty_one/twenty_one_code_review.rb:214-222 | `Announcement` (the line `evaluate_winner` returns): a win reads as the winner's name and " wins!", a push never reads like a win, and with two different names the two wins read differently |
| TwentyOneReview.ShowResultOrder | twenty_one/twenty_one_code_review.rb:224-235 | `ShowResult` (`show_result`): the player's bust or 21 is shown first; the dealer's is shown only when the player is under 21; the comparison is shown exactly when both are under 21 |
| TwentyOneReview.VerdictAfterDealer | twenty_one/twenty_one_code_review.rb:255-261 | in a round from a new deck, the comparison is shown only after the dealer has played, with the dealer on 17 to 20 and the player under 21 |
| TwentyOneReview.MainGameAsWrittenRaises | twenty_one/twenty_one_code_review.rb:204-205 | as written, a round raises exactly when the dealer would have had to play, and otherwise ends as the intended round does |
| TwentyOneReview.StayingOnSixRaises | twenty_one/twenty_one_code_review.rb:204-205 | from a new deck, always drawing the top card and always staying, the round raises |
| TwentyOneReview.RaisesFromTheTop | twenty_one/twenty_one_code_review.rb:204-205 | any deck whose first and third cards are the 2 and the 4 makes a player who stays raise |
| TwentyOneReview.TopCardsDealt | twenty_one/twenty_one_code_review.rb:155-160 | drawing the top card each time deals the player the first and the third card |
| TwentyOneReview.Deck.constructor | twenty_one/twenty_one_code_review.rb:41-48 | the cards are laid out suit by suit and face by face |
| TwentyOneReview.Deck.DealOne | twenty_one/twenty_one_code_review.rb:50-52 | returns the card at the drawn index and removes exactly that card |
| TwentyOneReview.Participant.constructor | twenty_one/twenty_one_code_review.rb:88-90 | starts with an empty hand |
| TwentyOneReview.Participant.AddCard | twenty_one/twenty_one_code_review.rb:92-94 | the card is appended to the hand |
| TwentyOneReview.Participant.Total | twenty_one/twenty_one_code_review.rb:63-72 | the two loops return `HandTotal` of the hand |
| TwentyOneReview.Participant.Busted | twenty_one/twenty_one_code_review.rb:74-76 | true exactly when the total is above 21 |
| TwentyOneReview.Participant.Blackjack | twenty_one/twenty_one_code_review.rb:78-80 | true exactly when the total is 21 |
| TwentyOneReview.Participant.BustedOrBlackjack | twenty_one/twenty_one_code_review.rb:103-105 | true exactly when the total is above 21 or equal to it |
| TwentyOneReview.Game.constructor | twenty_one/twenty_one_code_review.rb:149-153 | a new deck and two empty hands, with all 52 cards in play |
| TwentyOneReview.Game.DealTo | twenty_one/twenty_one_code_review.rb:157-158 | the card at the index moves from the deck to the end of the hand |
| TwentyOneReview.Game.DealCards | twenty_one/twenty_one_code_review.rb:155-160 | the table afterwards is the deal of the table before |
| TwentyOneReview.Game.PlayerTurn | twenty_one/twenty_one_code_review.rb:196-202 | the hand, the deck and the number of questions asked are those of the first version's player turn |
| TwentyOneReview.Game.ComputerTurn | twenty_one/twenty_one_code_review.rb:204-212 | the intended dealer's turn: hand and deck as the first version's dealer turn gives them |
| TwentyOneReview.Game.ShowResultOf | twenty_one/twenty_one_code_review.rb:224-235 | what is shown is `ShowResult` of the two totals |
| TwentyOneReview.Game.Reset | twenty_one/twenty_one_code_review.rb:248-253 | a new deck and two empty hands, all 52 cards in play |
| TwentyOneReview.Game.MainGame | twenty_one/twenty_one_code_review.rb:255-261 | the intended round: the table is the one the round function gives, all 52 cards are kept, and the result shown is that of the final totals |
| TwentyOneStudent.DetermineCardValue | twenty_one/twenty_one_student.rb:217-225 | `[1, 11]` exactly for strings starting "Ace"; any other string is worth its leading number when that is not 0, and 10 when it has no leading number or it is 0 |
| TwentyOneStudent.FirstThreeAce | twenty_one/twenty_one_student.rb:77-79 | `card[0..2] == 'Ace'` holds exactly when the card starts with "Ace" |
| TwentyOneStudent.AceValue | twenty_one/twenty_one_student.rb:66-72 | an Ace is worth 11 exactly when the running total is 10 or less, and 1 otherwise |
| TwentyOneStudent.PointsFromAppend | twenty_one/twenty_one_student.rb:74-85 | `PointTotal`/`AddCardPoints` (`calculate_point_total`): a card added at the end is scored against the points of the cards before it, which it does not change |
| TwentyOneStudent.PointTotalAppend | twenty_one/twenty_one_student.rb:91-93 | the points after a hit are the old points plus the new card's worth |
| TwentyOneStudent.AddCardBounds | twenty_one/twenty_one_student.rb:66-85 | every card adds at least 1; an Ace never takes a total under 21 above 21 |
| TwentyOneStudent.PointsAtLeastCards | twenty_one/twenty_one_student.rb:74-85 | a hand is worth at least one point per card |
| TwentyOneStudent.OrderMatters | twenty_one/twenty_one_student.rb:74-85 | the same three cards make 26 or 16 depending on where the Ace comes |
| TwentyOneStudent.PointOrPoints | twenty_one/twenty_one_student.rb:87-89 | "point" exactly for 1, "points" for every other number |
| TwentyOneStudent.JoinAnd | twenty_one/twenty_one_student.rb:95-105 | one element is itself; two or more are the first ones joined by ", ", then " and " and the last |
| TwentyOneStudent.JoinAndParts | twenty_one/twenty_one_student.rb:95-105 | a list of two or more starts with its first element and ends with " and " and its last |
| TwentyOneStudent.JoinAndExamples | twenty_one/twenty_one_student.rb:95-105 | one card is its own name; two are joined by " and "; the empty list gives " and " |
| TwentyOneStudent.JoinAndThree | twenty_one/twenty_one_student.rb:102-103 | ["a", "b", "c"] gives "a, b and c" |
| TwentyOneStudent.NonBlanks | twenty_one/twenty_one_student.rb:127 | the selection is empty exactly when every character is a blank |
| TwentyOneStudent.EmptyInput | twenty_one/twenty_one_student.rb:126-128 | true exactly for a line of nothing but blanks, the empty line included |
| TwentyOneStudent.ParseStay | twenty_one/twenty_one_student.rb:143-155 | after `downcase`, "s" and "stay" stay, "h" and "hit" hit, and exactly every other line is asked again |
| TwentyOneStudent.ParseStayCaseBlind | twenty_one/twenty_one_student.rb:148 | a line and its lower-case form are read alike |
| TwentyOneStudent.ParseStayExamples | twenty_one/twenty_one_student.rb:148-149 | "STAY" stays, "Hit" hits, and " s" is asked again |
| TwentyOneStudent.VisiblePoints | twenty_one/twenty_one_student.rb:181-183 | the text is the points of every card but the hidden first one, written out, followed by " visible"; `to_i` reads those points back |
| TwentyOneStudent.VisibleAboveTotal | twenty_one/twenty_one_student.rb:181-183 | the visible points can exceed the hand's points: 9, 2, Ace is worth 12, while 2 and Ace alone show 13 |
| TwentyOneStudent.ShuffleIsPermutation | twenty_one/twenty_one_student.rb:242 | `shuffle` keeps every card and adds none |
| TwentyOneStudent.ShuffleKeepsDistinct | twenty_one/twenty_one_student.rb:242 | a shuffled deck without duplicates has none |
| TwentyOneStudent.KeysOfGrow | twenty_one/twenty_one_student.rb:230-234 | each inner step visits one more key and stores its face's value under it; the key joins the end of the hash's order only when it was not stored before, and otherwise the order stays |
| TwentyOneStudent.InsertionOrderKeys | twenty_one/twenty_one_student.rb:228-236 | `InsertionOrder` (a Ruby hash's key order): it lists exactly the keys of the hash, each once |
| TwentyOneStudent.InsertionOrderOfDistinct | twenty_one/twenty_one_student.rb:230-234 | when the loops never build the same key twice, the hash's order is the order the keys were built in |
| TwentyOneStudent.RepeatedKeyStoredOnce | twenty_one/twenty_one_student.rb:232 | a card stored twice is visited twice but keeps one place in the hash |
| TwentyOneStudent.FaceWorths | twenty_one/twenty_one_student.rb:207 | "1" to "9" are worth their number, Jack, Queen and King 10, and Ace `[1, 11]` |
| TwentyOneStudent.PictureWorth | twenty_one/twenty_one_student.rb:220-224 | Jack, Queen and King have no leading number and are worth 10 |
| TwentyOneStudent.KeyWorth | twenty_one/twenty_one_student.rb:232 | valuing a card from its key gives the value the hash stored for its face |
| TwentyOneStudent.KeysOfDistinct | twenty_one/twenty_one_student.rb:230-234 | distinct pairs whose faces have no blank give distinct keys |
| TwentyOneStudent.KeyInjective | twenty_one/twenty_one_student.rb:232 | two keys are equal only for the same suit and face |
| TwentyOneStudent.KeysInValues | twenty_one/twenty_one_student.rb:227-237 | every card built is a key of the hash |
| TwentyOneStudent.ValuesOfLookup | twenty_one/twenty_one_student.rb:227-237 | the value stored under each key is `determine_card_value` of the key itself |
| TwentyOneStudent.KeysCount | twenty_one/twenty_one_student.rb:206-207 | four suits of 13 faces make 52 cards |
| TwentyOneStudent.FacesApart | twenty_one/twenty_one_student.rb:206-207 | the suits and faces are distinct, and no face holds a blank |
| TwentyOneStudent.DeckKeys | twenty_one/twenty_one_student.rb:239-243 | the deck has 52 cards, all different |
| TwentyOneStudent.DeckValues | twenty_one/twenty_one_student.rb:212-237 | every card of the deck is in the hash, with the value scoring reads from the card itself |
| TwentyOneStudent.Deck.constructor | twenty_one/twenty_one_student.rb:212-215 | the hash of 52 cards, and the cards in the order `shuffle` picks |
| TwentyOneStudent.Deck.GenerateCardValuesHash | twenty_one/twenty_one_student.rb:227-237 | the hash is the value of each face stored under its key in suit-then-face order, and its key order is `InsertionOrder` of those keys, a repeated key keeping its first place |
| TwentyOneStudent.Deck.AddSuit | twenty_one/twenty_one_student.rb:231-233 | the inner loop stores one suit's cards after those already stored, adding to the key order only the keys not yet in the hash |
| TwentyOneStudent.Deck.InitializeDeck | twenty_one/twenty_one_student.rb:239-243 | the hash's keys in insertion order, shuffled |
| TwentyOneStudent.KeyPoints | twenty_one/twenty_one_student.rb:217-225 | a card of the deck adds at most 11 points, and at most 10 unless it is an Ace |
| TwentyOneStudent.TwoKeysNotBusted | twenty_one/twenty_one_student.rb:74-85 | no two cards of the deck are worth more than 21 together |
| TwentyOneStudent.Participant.constructor | twenty_one/twenty_one_student.rb:42-47 | the last two cards of the deck leave it for the hand, and the points are their score |
| TwentyOneStudent.Participant.Deal | twenty_one/twenty_one_student.rb:49-51 | returns the last two cards in their order and removes them from the deck |
| TwentyOneStudent.Participant.AddCard | twenty_one/twenty_one_student.rb:53-55 | the last card of the deck moves to the end of the hand; the points stay as they were |
| TwentyOneStudent.Participant.CalculatePointTotal | twenty_one/twenty_one_student.rb:74-85 | the loop returns `PointTotal` of the cards |
| TwentyOneStudent.Participant.UpdatePoints | twenty_one/twenty_one_student.rb:91-93 | the points become the score of the hand |
| TwentyOneStudent.Participant.HitPlay | twenty_one/twenty_one_student.rb:57-64 | one card from the end of the deck, with the points raised by that card's worth against the old points |
| TwentyOneStudent.Participant.Reset | twenty_one/twenty_one_student.rb:119-122 | a new hand of the last two cards of the deck, and its score |
| TwentyOneStudent.PlayerPlay | twenty_one/twenty_one_student.rb:334-345 | the turn only adds cards to the hand, and it keeps the total number of cards |
| TwentyOneStudent.DealerPlay | twenty_one/twenty_one_student.rb:369-380 | the turn only adds cards to the hand, keeps the total number of cards, and asks no question |
| TwentyOneStudent.PlayerStep | twenty_one/twenty_one_student.rb:335-344 | one pass of the loop: a stay ends the turn; a hit takes the last card and ends the turn only on a bust |
| TwentyOneStudent.DealerStep | twenty_one/twenty_one_student.rb:370-379 | one pass of the loop: above 17 the dealer stays; otherwise the dealer takes the last card and ends the turn only on a bust |
| TwentyOneStudent.PlayerPlayTakes | twenty_one/twenty_one_student.rb:334-345 | the player's cards come one at a time from the end of the deck |
| TwentyOneStudent.PlayerPlayAnswers | twenty_one/twenty_one_student.rb:334-345 | every answer but the last was a hit and took a card; the turn ends on a stay, or on the hit that busted |
| TwentyOneStudent.PlayerPlayBust | twenty_one/twenty_one_student.rb:311-313 | the player hits only at 21 or less, and the turn ends in a bust exactly when the hand ends above 21 |
| TwentyOneStudent.DealerPlayTakes | twenty_one/twenty_one_student.rb:369-380 | the dealer's cards come one at a time from the end of the deck |
| TwentyOneStudent.DealerPlayEnds | twenty_one/twenty_one_student.rb:191-198 | `DealerStays`/`DealerPlay`: the dealer takes cards only at 17 or less and ends above 17; the turn ends in a bust exactly when a drawn card took the hand above 21 |
| TwentyOneStudent.TookFromEndConserves | twenty_one/twenty_one_student.rb:53-55 | taking cards from the end of the deck loses none and adds none |
| TwentyOneStudent.Decide | twenty_one/twenty_one_student.rb:382-390 | a winner set by a bust stands; otherwise the side with more points wins, and equal points leave no winner |
| TwentyOneStudent.DecideSymmetric | twenty_one/twenty_one_student.rb:385-389 | swapping the points swaps the winner; there is no winner exactly when the points are equal |
| TwentyOneStudent.RoundKeepsCards | twenty_one/twenty_one_student.rb:267-271 | a round loses no card and creates none |
| TwentyOneStudent.RoundWinner | twenty_one/twenty_one_student.rb:267-271 | a player who busts hands the game to the dealer; otherwise a dealer who busts hands it to the player; otherwise the higher points win |
| TwentyOneStudent.FreshDeal | twenty_one/twenty_one_student.rb:252-257 | a new game's player holds the last two of the 52 shuffled cards and the dealer the two before them; together with the deck they are exactly the 52 cards |
| TwentyOneStudent.FreshHands | twenty_one/twenty_one_student.rb:252-257 | both first hands are worth 21 or less |
| TwentyOneStudent.StaleDeckLosesCards | twenty_one/twenty_one_student.rb:273-274 | when the new hands come from a new deck while the old deck stays in play, the cards in play are no longer the 52 |
| TwentyOneStudent.Game.constructor | twenty_one/twenty_one_student.rb:252-257 | a shuffled deck, each side dealt two cards from its end, all 52 cards in play and no winner |
| TwentyOneStudent.Game.Busted | twenty_one/twenty_one_student.rb:311-313 | true exactly when the points are above 21 |
| TwentyOneStudent.Game.Bust | twenty_one/twenty_one_student.rb:319-322 | the winner becomes the other side |
| TwentyOneStudent.Game.PlayerTurn | twenty_one/twenty_one_student.rb:334-345 | the hand, the deck, the number of answers and the winner are those `PlayerPlay` gives |
| TwentyOneStudent.Game.PlayerAnswer | twenty_one/twenty_one_student.rb:335-344 | one pass of the loop leaves the game in the state the rest of `PlayerPlay` continues from |
| TwentyOneStudent.Game.DealerTurn | twenty_one/twenty_one_student.rb:369-380 | the hand, the deck and the winner are those `DealerPlay` gives |
| TwentyOneStudent.Game.DealerMove | twenty_one/twenty_one_student.rb:370-379 | one pass of the loop leaves the game in the state the rest of `DealerPlay` continues from |
| TwentyOneStudent.Game.DealerTurnUnlessPlayerBusted | twenty_one/twenty_one_student.rb:347-351 | nothing happens when the player is busted; otherwise the dealer's turn runs |
| TwentyOneStudent.Game.DetermineWinner | twenty_one/twenty_one_student.rb:382-390 | the winner becomes `Decide` of the old winner and the two point totals |
| TwentyOneStudent.Game.Round | twenty_one/twenty_one_student.rb:267-271 | the hands, the deck, the answers read and the winner are those `PlayRound` gives |
| TwentyOneStudent.Game.Reset | twenty_one/twenty_one_student.rb:427-432 | both hands are dealt afresh from the given deck and the winner is cleared; the game's own deck is not replaced |
| TwentyOneStudent.Game.NextRoundAsWritten | twenty_one/twenty_one_student.rb:273-274 | the new hands come from a new shuffled deck, the game keeps drawing from its old deck, and the 52 cards are no longer the cards in play |
| TwentyOneStudent.Game.NextRound | twenty_one/twenty_one_student.rb:273-274 | the corrected next round: a new deck that deals both hands, with all 52 cards in play and no winner |
| Vehicles.TowLimit | OOP_Book/my_car.rb:1-5 | `CanTow` (`can_tow?`): up to 1999 pounds can be towed, 2000 and more cannot, and anything lighter than a towable load is towable |
| Vehicles.VehicleCount.constructor | OOP_Book/my_car.rb:10 | the counter starts at 0 |
| Vehicles.Vehicle.constructor | OOP_Book/my_car.rb:16-22 | year, model and color as given, speed 0, and one more vehicle counted |
| Vehicles.Vehicle.SpeedUp | OOP_Book/my_car.rb:28-31 | the speed rises by exactly the number; nothing else changes |
| Vehicles.Vehicle.Brake | OOP_Book/my_car.rb:33-36 | the speed falls by exactly the number, with no floor; nothing else changes |
| Vehicles.Vehicle.ShutDown | OOP_Book/my_car.rb:42-45 | the speed becomes 0; nothing else changes |
| Vehicles.Vehicle.SprayPaint | OOP_Book/my_car.rb:47-50 | the color changes and nothing else |
| Vehicles.Vehicle.ToS | OOP_Book/my_car.rb:66-68 | the text is "My car is a ", the color, ", ", the year, ", ", the model and "!"; a year that is not negative reads back with `to_i` |
| Vehicles.CarTextParts | OOP_Book/my_car.rb:66-68 | `CarText` (the text of `to_s`): for any color, year and model, the text is "My car is a ", the color, ", ", the year as interpolation writes it, ", ", the model and "!"; a year that is not negative reads back with `to_i` |
| Vehicles.LuminaText | OOP_Book/my_car.rb:77 | the white 1997 chevy lumina reads "My car is a white, 1997, chevy lumina!" |
| Banners.Banner.HorizontalRule | exercises/easy_one.rb/banner.rb:12-14 | four columns wider than the message, '+' at both ends and '-' in between |
| Banners.Banner.EmptyLine | exercises/easy_one.rb/banner.rb:16-18 | four columns wider than the message, '\|' at both ends and blanks in between |
| Banners.Banner.MessageLine | exercises/easy_one.rb/banner.rb:20-22 | "\| ", the message and " \|" |
| Banners.Banner.ToS | exercises/easy_one.rb/banner.rb:6-8 | for a message without newlines, splitting the text at newlines gives back the five lines |
| Banners.LinesHaveNoNewline | exercises/easy_one.rb/banner.rb:12-22 | no line holds a newline when the message holds none |
| Banners.SameWidth | exercises/easy_one.rb/banner.rb:6-22 | the box has five lines, all four columns wider than the message |
| Banners.EmptyBanner | exercises/easy_one.rb/banner.rb:28 | the empty message gives "+--+", three lines of "\|  \|", and "+--+" |

## Left out

- Screen output and input are not modelled: `puts`, `clear`, `sleep`, `hit_enter`, `show_hand`, `show_flop`, the YAML messages and the display methods. Only the decisions and state changes they sit between are.
- `start`, `begin_game`, `play_again?`, `display_rules?` and the loop of rounds they drive are left out, because they only read and print. One round (`main_game`) is modelled in each version; for the student version, so is the step to the next round.
- Random numbers are parameters: each `rand` is a pick, `shuffle` is a sequence of picks, and `DEALER_NAMES.sample` / `COMPUTER_NAMES.sample` are a given name.
- Typed answers are parameters. The answers are a function from the question number to the line the re-prompt loop accepted. `ParseDecision` and `ParseStay` model the acceptance of one line.
- TwentyOneStudent.ParseStay: `downcase` is modelled on ASCII letters only (`RubyText.Downcase`), not Ruby's full Unicode case mapping; the accepted answers h, s, hit and stay are unaffected, but a line with other non-ASCII capitals is compared as typed. TwentyOneStudent.DealerNameFor compares names the same way.
- TwentyOne.Game.constructor: the dealer's name is a parameter and is not checked against `DEALER_NAMES`, because `sample` is randomness.
- TwentyOneReview.Game.constructor: the dealer's name is a parameter, for the same reason.
- TwentyOneStudent.Game.constructor: the repeated `sample` of `Dealer#choose_name` is replaced by a requirement. The name must be one of `COMPUTER_NAMES` that differs, case-blind, from the player's.
- TwentyOneStudent.Game.constructor: `Player#choose_name`'s loop is replaced by the requirement that the name is not blank.
- TwentyOne.Game.PlayerTurn: requires enough cards in the deck to end the turn; `delete_at` on an empty deck is not modelled. RoundCanBePlayed proves that every round from a full deck meets this.
- TwentyOne.Game.ComputerTurn: the same requirement for the dealer's turn.
- TwentyOneReview.Game.PlayerTurn: the same requirement, for the same reason.
- TwentyOneReview.Game.ComputerTurn: the same requirement, for the same reason.
- TwentyOneStudent.Game.PlayerTurn: requires more than 21 cards between the hand and the deck, so `pop` on an empty deck (which gives `nil`) is not modelled. A round from 52 cards always meets this (RoundWinner).
- TwentyOneStudent.Game.DealerTurn: requires more than 17 cards between the hand and the deck, for the same reason.
- `Card#to_s` of the code-review version and `Dealer#visible_cards` are left out: they only build display text.
- `Participant#all_cards` is covered by JoinAnd, which it calls.
- `Participant#aces` is modelled by AceValue.
- `to_i` is modelled only on what these programs give it: a run of leading digits, and 0 when there is none. Signs, underscores and leading blanks are not modelled, because no card or year here has them.
- The `show_result` of `twenty_one.rb` only prints a placeholder line and is left out.
- `Vehicle#age`, `years_old` (which read the clock) and `Vehicle.miles_per_gallon` (which only prints) are left out.
- `Vehicle.number_of_vehicles` and `Vehicle#current_speed` only print; the counter and the speed they print are modelled as fields.
- The `attr_accessor` setters other than the `color=` that `spray_paint` uses are plain field assignments, with no method of their own.
- `NUMBER_OF_DOORS` is modelled as two constants with no behaviour attached.
- `exercises/easy_one.rb/banner.rb` line 18 reads `endxs`, so as written the `end` on line 23 closes `empty_line` instead, `class Banner` is left open, and the file ends one `end` short and does not parse. The model reads that line as the `end` it evidently stands for; a file that does not parse has no behaviour to model.
- `Banner#initialize` is the datatype's constructor and has no contract of its own.

## Findings

| source | as written | input that shows it | evidently intended | confidence | as-written member | corrected member |
|---|---|---|---|---|---|---|
| twenty_one/twenty_one_code_review.rb:205 | `computer_turn` first evaluates the bare name `display_dealer_turn`, which is neither a local variable nor a method of any class (the display method is `dealer_turn_display`, line 173), so Ruby raises `NameError` whenever the dealer has to play | a new deck, every draw taking the top card, and a player who stays: the player holds the 2 and the 4 of Clubs, stays on 6, and the round raises | call `dealer_turn_display`, then let the dealer play to 17 or more | high, not executed | TwentyOneReview.MainGameAsWrittenRaises, TwentyOneReview.StayingOnSixRaises | TwentyOneReview.Game.MainGame |
| twenty_one/twenty_one_student.rb:273 | `deck = Deck.new` assigns a local variable, so `reset` deals the new hands from the new deck, while `@deck` stays the old deck and supplies every later hit | a round in which someone took a card, followed by another round: the cards in play are no longer the 52 | replace the game's own deck (`self.deck = Deck.new`) and deal both hands from it | high, not executed | TwentyOneStudent.Game.NextRoundAsWritten, TwentyOneStudent.StaleDeckLosesCards | TwentyOneStudent.Game.NextRound |
