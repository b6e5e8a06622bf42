# Belote play validation, modelled in Dafny

This project models the core of `belote_libre_backend`, a Belote card-game
engine for four players. It covers the card values and their string
shortcuts, a player's hand, the trick in progress (the "fold"), the ordered
32-card deck and its cut, and the rule that decides whether a card may be
played. Most of the work is in that rule: `DefaultRule`'s trump-following
decision tree under a single trump suit ("atout").

Modules, one per source file:

- `Outcomes` (`outcomes.dfy`): `Option` and `Result`, standing in for Rust's.
- `Cards` (`card.dfy`): `Suit`, `Symbol` and `Card`. `Card::new` is the
  datatype constructor. The module also holds the declaration order on
  symbols, the two shortcut tables and the `card!` macro.
- `Rules` (`rules.dfy`): the pure validator. A fold is the sequence of its
  cards, and its main suit is the suit of element 0. A hand is the sequence
  of its cards, and `contains` and `contains_suit` are plain membership.
  Besides the decision tree, the module states the policy declaratively
  (`FollowsTrumpPolicy`) and proves that, once a card has been led, the
  tree decides exactly that policy.
- `Hands` (`hand.dfy`): class `Hand`. Its `cards` field is reassigned by
  `Push` and by the swap-remove of `PlayACard`.
- `Folds` (`fold.dfy`): class `Fold` with capacity 4. It holds an abstract
  rule, taking (card, last card, context), that gates each append.
- `Decks` (`deck.dfy`): class `Deck`. It has the ordered deck, built by a
  nested loop in suit-major order, and the cut at a given index.

Behaviour reproduced as the code has it:

- `Hand::play_a_card` and `get_a_card` test `0 < id`, so every positive id
  is rejected with "card id can't be negative". Only id 0 on a nonempty
  hand succeeds.
- The trump-raise check compares the candidate with the lowest trump
  already in the fold, not the highest. `RaiseComparesWithLowestTrump`
  exhibits this.
- `is_partner_master_of_the_fold` is a stub that always says yes, so a
  player who can trump may always discard instead. It is modelled as
  `IsPartnerMasterOfTheFold`, which is always true.
- Under `Atout`, a held card on an empty fold reaches
  `get_main_suit().unwrap()`, which panics. The model returns
  `Err(EmptyFold)` there. A card the hand does not hold is rejected first,
  with `Ok(false)`, as in the test `default_rule_empty_hand`.
- In Belote the leader may play any card, and a trump must beat the
  highest trump already played. The code instead panics via `unwrap` when a
  held card is led under `Atout` (rules.rs:79), and compares with the lowest
  trump (rules.rs:66-67). The model follows the code.

Where the source files disagree:

- `Symbol` derives only `PartialEq`, yet `rules.rs` compares symbols with
  `min` and `>=`. The model orders symbols by declaration:
  Seven < Height < Nine < Ten < Jack < Queen < King < Ace. `Height` is the
  source's own spelling of the eight.
- `fold.rs` consults `allow_card_to_be_played(card, last_card, context)`,
  which is not the `Rule` trait method of `rules.rs`. The fold's rule is
  therefore an abstract function value of that shape.

## Model

| member | source | states |
|---|---|---|
| Cards.Rank | belote_libre_backend/src/card.rs:14-24 | each symbol's rank is its position in declaration order |
| Cards.SuitIndex | belote_libre_backend/src/card.rs:6-12 | each suit's index is its position in declaration order |
| Cards.SymbolOrderIsTotal | belote_libre_backend/src/card.rs:14-24 | the order used by `min` and `>=` on symbols is reflexive, total, antisymmetric and transitive |
| Cards.SuitShortcut | belote_libre_backend/src/card.rs:44-51 | the suit table has exactly the keys H, D, C, S and takes every one of the four suits as a value |
| Cards.SymbolShortcut | belote_libre_backend/src/card.rs:53-64 | the symbol table has exactly the keys 7, 8, 9, 10, J, Q, K, A and takes every one of the eight symbols as a value |
| Cards.SuitCode | belote_libre_backend/src/card.rs:44-51 | every suit has a key in the suit table that maps back to it |
| Cards.SymbolCode | belote_libre_backend/src/card.rs:53-64 | every symbol has a key in the symbol table that maps back to it |
| Cards.SuitShortcutIsBijection | belote_libre_backend/src/card.rs:44-51 | the suit table's keys are exactly H, D, C, S, and it is a bijection onto the four suits |
| Cards.SymbolShortcutIsBijection | belote_libre_backend/src/card.rs:53-64 | the symbol table's keys are exactly 7, 8, 9, 10, J, Q, K, A, and it is a bijection onto the eight symbols |
| Cards.CardMacro | belote_libre_backend/src/card.rs:66-74 | `card!(a, b)` needs both keys present and builds the card whose suit and symbol codes are `a` and `b` |
| Cards.CardMacroRoundTrip | belote_libre_backend/src/card.rs:66-74 | `card!` applied to a card's codes gives back that card |
| Cards.InitCardMacro | belote_libre_backend/src/card.rs:88-94 | `card!("H", "7")` equals `Card::new(Heart, Seven)` |
| Rules.Contains | belote_libre_backend/src/rules.rs:78 | `hand.contains(card)` holds iff some position of the hand holds that card |
| Rules.ContainsSuit | belote_libre_backend/src/rules.rs:81-92 | `hand.contains_suit(suit)` holds iff some position of the hand holds a card of that suit |
| Rules.MainSuit | belote_libre_backend/src/rules.rs:79 | the main suit is absent exactly on an empty fold, and is otherwise the suit of the first card |
| Rules.MainSuitStable | belote_libre_backend/src/rules.rs:79 | playing a card onto a led fold leaves its main suit unchanged; the first card played sets it |
| Rules.PlayedTrumps | belote_libre_backend/src/rules.rs:58-64 | a symbol is among the played trumps iff the trump card of that symbol is in the fold |
| Rules.MinSymbol | belote_libre_backend/src/rules.rs:66 | the minimum is one of the symbols and is at most every symbol in the list |
| Rules.IsPlayValidSuitAtout | belote_libre_backend/src/rules.rs:50-70 | a trump may be played iff the fold holds no trump, or some trump in it is at most the candidate's symbol |
| Rules.IsPartnerMasterOfTheFold | belote_libre_backend/src/rules.rs:72-75 | the stub says yes for every fold |
| Rules.IsPlayValidAtout | belote_libre_backend/src/rules.rs:77-105 | the tree fails (the `unwrap` panic) exactly when the card is held and the fold is empty |
| Rules.IsPlayValid | belote_libre_backend/src/rules.rs:24-47 | `NoRule` always accepts; `DefaultRule` accepts everything outside `Atout` |
| Rules.SuitAtoutIsRaise | belote_libre_backend/src/rules.rs:58-69 | the filter/map/min raise check is equivalent to the declarative `RaisesTrump` over fold positions |
| Rules.DefaultRuleIsTrumpPolicy | belote_libre_backend/src/rules.rs:77-105 | on a nonempty fold under `Atout`, the tree accepts iff the card is held, follows the led suit when the hand can, and raises when it is a trump |
| Rules.NoRuleAcceptsAll | belote_libre_backend/src/rules.rs:24-34 | `NoRule` returns true for every input, even a card not in the hand |
| Rules.DefaultRuleWithoutSingleTrump | belote_libre_backend/src/rules.rs:41-45 | under `SansAtout` and `ToutAtout` every card is valid, with no membership check |
| Rules.CardNotHeldIsRejected | belote_libre_backend/src/rules.rs:77-104 | under `Atout` a card not in the hand is rejected on any fold, empty or not |
| Rules.LeadingUnderAtoutFails | belote_libre_backend/src/rules.rs:78-79 | under `Atout` a held card on an empty fold fails with the main-suit error |
| Rules.MustFollowSuit | belote_libre_backend/src/rules.rs:81-90 | when the hand holds the led suit: another suit is rejected; the led non-trump suit is accepted; a led trump must pass the raise check |
| Rules.TrumpingIn | belote_libre_backend/src/rules.rs:91-97 | when the hand lacks the led suit but holds trump: a non-trump is accepted (partner stub); a trump must pass the raise check |
| Rules.FreeDiscard | belote_libre_backend/src/rules.rs:98-100 | when the hand holds neither the led suit nor trump, any held card is accepted |
| Rules.RaiseComparesWithLowestTrump | belote_libre_backend/src/rules.rs:66-69 | over trumps King and Eight, a Nine of trump passes and a Seven does not: the comparison is with the minimum |
| Rules.DefaultRuleEmptyFold | belote_libre_backend/src/rules.rs:114-122 | test: a held Heart Seven on an empty fold under `SansAtout` is valid |
| Rules.DefaultRuleEmptyHand | belote_libre_backend/src/rules.rs:124-132 | test: with an empty hand and fold under `Atout(Diamond)`, Heart Seven is invalid |
| Rules.UpAtout | belote_libre_backend/src/rules.rs:134-147 | test: fold [D8], trump Diamond, hand {S7, DJ, D7}: D7 is invalid and DJ is valid |
| Hands.SwapRemove | belote_libre_backend/src/hand.rs:35 | `Vec::swap_remove(i)` drops one slot, moves the last card into position i, and keeps every other position |
| Hands.SwapRemoveKeepsCards | belote_libre_backend/src/hand.rs:35 | what swap-remove leaves, plus the removed card, is the multiset of cards before |
| Hands.Hand.constructor | belote_libre_backend/src/hand.rs:12-14 | `Hand::new(cards)` holds exactly `cards` |
| Hands.Hand.NewEmpty | belote_libre_backend/src/hand.rs:16-19 | the new hand is empty and has length 0 |
| Hands.Hand.Len | belote_libre_backend/src/hand.rs:25-27 | `len` is the number of cards held, and is zero exactly on an empty hand |
| Hands.Hand.Push | belote_libre_backend/src/hand.rs:21-23 | the card is appended at the end and the length grows by one |
| Hands.Hand.GetACard | belote_libre_backend/src/hand.rs:39-47 | succeeds iff id is 0 and the hand is nonempty, returning the first card; a positive id gives "card id can't be negative", id 0 on an empty hand gives "id out of scope" |
| Hands.Hand.PlayACard | belote_libre_backend/src/hand.rs:29-37 | returns what `GetACard` would; on an error the hand is unchanged; on success the card is swap-removed |
| Hands.PlayOnlyCard | belote_libre_backend/src/hand.rs:74-83 | test: push one card, play id 0, get that card back and length 0 |
| Folds.LastCard | belote_libre_backend/src/fold.rs:31-34 | the last card is absent iff the fold is empty, and is otherwise the most recently pushed card |
| Folds.LastCardAfterPush | belote_libre_backend/src/fold.rs:31-34 | after a card is pushed, the last card is that card |
| Folds.Play | belote_libre_backend/src/fold.rs:26-45 | a play succeeds iff the fold is not over and the rule accepts; it appends exactly that card on success, changes nothing otherwise, and never goes past four cards |
| Folds.AcceptingRuleKeepsFirstFour | belote_libre_backend/src/fold.rs:22-29 | with a rule that always accepts, any run of plays leaves exactly the first four cards played |
| Folds.Fold.constructor | belote_libre_backend/src/fold.rs:13-20 | a new fold is empty and carries the given context and rule |
| Folds.Fold.IsOver | belote_libre_backend/src/fold.rs:22-24 | the fold is over iff it holds at least four cards; on a valid fold, iff it holds exactly four |
| Folds.Fold.PlayACard | belote_libre_backend/src/fold.rs:26-45 | an over fold refuses whatever the rule says; otherwise the rule gets the card, the last card and the fold's context, and the card is appended iff it accepts; at most four cards are kept |
| Folds.PlayTooMuchCard | belote_libre_backend/src/fold.rs:66-78 | test: four plays succeed and the fifth returns false, leaving four cards |
| Decks.ProductLength | belote_libre_backend/src/deck.rs:34-36 | the suit-by-symbol product has one card per pair |
| Decks.ProductAt | belote_libre_backend/src/deck.rs:34-36 | position `w * i + j` of the product holds the i-th suit with the j-th symbol |
| Decks.OrderedCardsLayout | belote_libre_backend/src/deck.rs:31-38 | the ordered deck has 32 cards, and position k holds suit k / 8 with symbol k % 8 |
| Decks.OrderedCardIndex | belote_libre_backend/src/deck.rs:34-36 | the card at each position k of the ordered deck has index k |
| Decks.OrderedCardsAreDistinct | belote_libre_backend/src/deck.rs:34-36 | no card appears twice in the ordered deck |
| Decks.OrderedCardsAreComplete | belote_libre_backend/src/deck.rs:34-36 | every (suit, symbol) pair is in the ordered deck, at its index |
| Decks.EnumerateCards | belote_libre_backend/src/deck.rs:31-38 | the nested walk over suits, then symbols, yields exactly the ordered deck |
| Decks.AppendRow | belote_libre_backend/src/deck.rs:34-36 | the inner walk of `iproduct!` appends one card of the suit per symbol, in declaration order |
| Decks.CutIndexExists | belote_libre_backend/src/deck.rs:46-48 | a cut index in `1..(len - 2)` exists iff the deck has at least four cards |
| Decks.CutIsRotation | belote_libre_backend/src/deck.rs:50-53 | `split_off(k)` followed by `append` is the left rotation by k, and it keeps the multiset of cards |
| Decks.Deck.NewEmpty | belote_libre_backend/src/deck.rs:21-25 | a new empty deck has no cards |
| Decks.Deck.NewOrdered | belote_libre_backend/src/deck.rs:31-38 | the new deck holds the ordered 32 cards |
| Decks.Deck.ShuffleCut | belote_libre_backend/src/deck.rs:44-54 | with an allowed index k, the deck becomes `cards[k..] ++ cards[..k]`: a rotation with the same multiset |
| Decks.DeckCut | belote_libre_backend/src/deck.rs:82-88 | test: cutting the ordered deck keeps its 32 cards |

## Left out

- `Deck::shuffle` (deck.rs:40-42) needs an operating-system random generator and is not modelled.
- Decks.Deck.ShuffleCut: the random draw of the cut index is replaced by a parameter. The requirement `1 <= k < len - 2` stands for the draw's range. The panic on decks of fewer than four cards is a precondition, not a modelled error; `CutIndexExists` shows that exactly those decks have no index to draw.
- Rules.IsPartnerMasterOfTheFold: modelled as the source's stub, which always says yes. No trick-winner or seating logic is invented.
- `Fold`'s rule is an abstract function of (card, last card, context). The `allow_card_to_be_played` that `fold.rs` calls is defined in none of the source files, so no rule from `rules.rs` is plugged into it.
- `Box<dyn Rule>` dynamic dispatch is modelled as the datatype `Rule` and a `match`.
- The `Display` impls of `Card` and `Hand` and the `println!` calls in tests depend on Rust's `Debug` formatting and are not modelled.
- Hands.Hand.GetACard: the source's `get_a_card(self, id)` takes the hand by value, so the call uses the hand up. The model only reads the hand, which stays usable afterwards.
- `Vec` capacities (`MAX_HAND_CARD`, `MAX_CARDS_DECK`) have no observable effect and are not modelled.
- `game.rs` and `player.rs` are not part of this model. They are driver code and call functions that the other files do not define.
- `Fold::new_empty`, `Fold::push` and `Hand::contains`/`contains_suit` appear only as calls in `rules.rs`. The rules read the fold and hand as sequences of cards instead.
