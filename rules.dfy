/** The play validator of rules.rs. A fold is seen as the sequence of its
    cards (the main suit is the suit of element 0) and a hand as the
    sequence of its cards; nothing here changes state. */
module Rules {
  import opened Outcomes
  import opened Cards

  /** The trump regime of a deal. */
  datatype GameContext = ToutAtout | SansAtout | Atout(trump: Suit)

  /** The two rule policies behind `Box<dyn Rule>`. */
  datatype Rule = NoRule | DefaultRule

  /** `fold.get_main_suit().unwrap()` on a fold with no card panics. */
  datatype RuleError = EmptyFold

  /** `hand.contains(card)`: the card is at some position of the hand. */
  predicate Contains(hand: seq<Card>, card: Card): (r: bool)
    ensures r <==> exists i :: 0 <= i < |hand| && hand[i] == card
  {
    card in hand
  }

  /** `hand.contains_suit(suit)`: some position of the hand holds a card of
      that suit. */
  predicate ContainsSuit(hand: seq<Card>, suit: Suit): (r: bool)
    ensures r <==> exists i :: 0 <= i < |hand| && hand[i].suit == suit
  {
    exists c :: c in hand && c.suit == suit
  }

  /** `fold.get_main_suit()`: the suit of the first card played. */
  function MainSuit(fold: seq<Card>): (r: Option<Suit>)
    ensures r.None? <==> fold == []
    ensures r.Some? ==> r.value == fold[0].suit
  {
    if fold == [] then None else Some(fold[0].suit)
  }

  /** The led suit stays fixed as the fold fills. */
  lemma MainSuitStable(fold: seq<Card>, card: Card)
    ensures fold != [] ==> MainSuit(fold + [card]) == MainSuit(fold)
    ensures fold == [] ==> MainSuit(fold + [card]) == Some(card.suit)
  {
  }

  /** The symbols of the trump cards of the fold, in fold order
      (`filter` on the suit, then `map` to the symbol). */
  function PlayedTrumps(fold: seq<Card>, trump: Suit): (r: seq<Symbol>)
    ensures |r| <= |fold|
    ensures forall y :: y in r <==> Card(trump, y) in fold
  {
    if fold == [] then []
    else
      var rest := PlayedTrumps(fold[1..], trump);
      assert forall c :: c in fold <==> c == fold[0] || c in fold[1..];
      if fold[0].suit == trump then [fold[0].symbol] + rest else rest
  }

  /** `played_atout.iter().min()` on a nonempty list of symbols. */
  function MinSymbol(s: seq<Symbol>): (m: Symbol)
    requires s != []
    ensures m in s
    ensures forall y :: y in s ==> SymbolLe(m, y)
  {
    if |s| == 1 then s[0]
    else
      var m' := MinSymbol(s[1..]);
      assert forall y :: y in s ==> y == s[0] || y in s[1..];
      if SymbolLe(s[0], m') then s[0] else m'
  }

  /** `is_play_valid_suit_atout`: a trump of symbol `symbol` may be played
      iff no trump is in the fold yet or `symbol` is at least the LOWEST trump
      already in the fold (the source takes the minimum, not the maximum). */
  function IsPlayValidSuitAtout(trump: Suit, symbol: Symbol, fold: seq<Card>): (ok: bool)
    ensures ok <==> (forall y :: Card(trump, y) !in fold)
                    || (exists y :: Card(trump, y) in fold && SymbolLe(y, symbol))
  {
    var played := PlayedTrumps(fold, trump);
    if played == [] then
      true
    else
      var m := MinSymbol(played);
      assert Card(trump, m) in fold;
      forall y | Card(trump, y) in fold && SymbolLe(y, symbol)
        ensures SymbolLe(m, symbol)
      {
        SymbolOrderIsTotal(m, y, symbol);
      }
      SymbolLe(m, symbol)
  }

  /** `is_partner_master_of_the_fold`: a stub in the source that accepts
      every fold. */
  predicate IsPartnerMasterOfTheFold(fold: seq<Card>): (master: bool)
    ensures master
  {
    true
  }

  /** `is_play_valid_atout`: the decision tree under a single trump suit. */
  function IsPlayValidAtout(trump: Suit, card: Card, fold: seq<Card>, hand: seq<Card>): (r: Result<bool, RuleError>)
    ensures r.Err? <==> Contains(hand, card) && fold == []
  {
    if Contains(hand, card) then
      match MainSuit(fold)
      case None => Err(EmptyFold)
      case Some(foldSuit) =>
        if ContainsSuit(hand, foldSuit) then
          if card.suit == foldSuit then
            if foldSuit == trump then Ok(IsPlayValidSuitAtout(trump, card.symbol, fold))
            else Ok(true)
          else Ok(false)
        else if ContainsSuit(hand, trump) then
          if card.suit != trump then Ok(IsPartnerMasterOfTheFold(fold))
          else Ok(IsPlayValidSuitAtout(trump, card.symbol, fold))
        else Ok(true)
    else Ok(false)
  }

  /** `Rule::is_play_valid`, dispatched on the policy. */
  function IsPlayValid(rule: Rule, context: GameContext, card: Card, fold: seq<Card>, hand: seq<Card>): (r: Result<bool, RuleError>)
    ensures rule.NoRule? ==> r == Ok(true)
    ensures rule.DefaultRule? && !context.Atout? ==> r == Ok(true)
  {
    match rule
    case NoRule => Ok(true)
    case DefaultRule =>
      match context
      case Atout(suit) => IsPlayValidAtout(suit, card, fold, hand)
      case SansAtout => Ok(true)
      case ToutAtout => Ok(true)
  }

  // ---------------------------------------------------------------------
  // A declarative statement of the trump-following policy, and its proof.

  /** The trump-raise condition, stated over the fold's cards. */
  predicate RaisesTrump(trump: Suit, symbol: Symbol, fold: seq<Card>) {
    (forall i :: 0 <= i < |fold| ==> fold[i].suit != trump)
    || (exists i :: 0 <= i < |fold| && fold[i].suit == trump && SymbolLe(fold[i].symbol, symbol))
  }

  /** What `DefaultRule` accepts under `Atout(trump)` once a card has been
      led: a held card that follows the led suit whenever the hand can, and
      that, if it is a trump, raises over the trumps of the fold. */
  predicate FollowsTrumpPolicy(trump: Suit, card: Card, fold: seq<Card>, hand: seq<Card>)
    requires fold != []
  {
    && card in hand
    && ((exists c :: c in hand && c.suit == fold[0].suit) ==> card.suit == fold[0].suit)
    && (card.suit == trump ==> RaisesTrump(trump, card.symbol, fold))
  }

  /** The trump-raise check of the source is `RaisesTrump`. */
  lemma SuitAtoutIsRaise(trump: Suit, symbol: Symbol, fold: seq<Card>)
    ensures IsPlayValidSuitAtout(trump, symbol, fold) <==> RaisesTrump(trump, symbol, fold)
  {
  }

  /** Once a card has been led, `DefaultRule` under `Atout(trump)` decides
      exactly the declarative policy. */
  lemma DefaultRuleIsTrumpPolicy(trump: Suit, card: Card, fold: seq<Card>, hand: seq<Card>)
    requires fold != []
    ensures IsPlayValid(DefaultRule, Atout(trump), card, fold, hand) == Ok(FollowsTrumpPolicy(trump, card, fold, hand))
  {
    var led := fold[0].suit;
    assert ContainsSuit(hand, led) <==> exists c :: c in hand && c.suit == led;
    if card !in hand {
      CardNotHeldIsRejected(trump, card, fold, hand);
    } else if ContainsSuit(hand, led) {
      MustFollowSuit(trump, card, fold, hand);
    } else if ContainsSuit(hand, trump) {
      TrumpingIn(trump, card, fold, hand);
    } else {
      FreeDiscard(trump, card, fold, hand);
    }
  }

  // ---------------------------------------------------------------------
  // The branches of the decision tree, one by one.

  /** `NoRule` accepts everything, even a card the hand does not hold. */
  lemma NoRuleAcceptsAll(context: GameContext, card: Card, fold: seq<Card>, hand: seq<Card>)
    ensures IsPlayValid(NoRule, context, card, fold, hand) == Ok(true)
  {
  }

  /** Under `SansAtout` and `ToutAtout`, `DefaultRule` accepts every card,
      with no hand-membership check. */
  lemma DefaultRuleWithoutSingleTrump(card: Card, fold: seq<Card>, hand: seq<Card>)
    ensures IsPlayValid(DefaultRule, SansAtout, card, fold, hand) == Ok(true)
    ensures IsPlayValid(DefaultRule, ToutAtout, card, fold, hand) == Ok(true)
  {
  }

  /** Under `Atout`, a card that is not in the hand is rejected, on any fold. */
  lemma CardNotHeldIsRejected(trump: Suit, card: Card, fold: seq<Card>, hand: seq<Card>)
    requires card !in hand
    ensures IsPlayValid(DefaultRule, Atout(trump), card, fold, hand) == Ok(false)
  {
  }

  /** Under `Atout`, a held card on an empty fold reaches the `unwrap` of
      the main suit, which fails. */
  lemma LeadingUnderAtoutFails(trump: Suit, card: Card, hand: seq<Card>)
    requires card in hand
    ensures IsPlayValid(DefaultRule, Atout(trump), card, [], hand) == Err(EmptyFold)
  {
  }

  /** When the hand holds the led suit: a card of another suit is rejected;
      a card of the led suit is accepted when the led suit is not trump, and
      is subject to the raise check when it is. */
  lemma MustFollowSuit(trump: Suit, card: Card, fold: seq<Card>, hand: seq<Card>)
    requires card in hand && fold != [] && ContainsSuit(hand, fold[0].suit)
    ensures card.suit != fold[0].suit ==> IsPlayValid(DefaultRule, Atout(trump), card, fold, hand) == Ok(false)
    ensures card.suit == fold[0].suit != trump ==> IsPlayValid(DefaultRule, Atout(trump), card, fold, hand) == Ok(true)
    ensures card.suit == fold[0].suit == trump ==>
      IsPlayValid(DefaultRule, Atout(trump), card, fold, hand) == Ok(RaisesTrump(trump, card.symbol, fold))
  {
  }

  /** When the hand lacks the led suit but holds trump: a non-trump card is
      accepted (the partner-master stub says yes) and a trump is subject to
      the raise check. */
  lemma TrumpingIn(trump: Suit, card: Card, fold: seq<Card>, hand: seq<Card>)
    requires card in hand && fold != [] && !ContainsSuit(hand, fold[0].suit) && ContainsSuit(hand, trump)
    ensures card.suit != trump ==> IsPlayValid(DefaultRule, Atout(trump), card, fold, hand) == Ok(true)
    ensures card.suit == trump ==>
      IsPlayValid(DefaultRule, Atout(trump), card, fold, hand) == Ok(RaisesTrump(trump, card.symbol, fold))
  {
  }

  /** When the hand holds neither the led suit nor trump, any held card is
      accepted. */
  lemma FreeDiscard(trump: Suit, card: Card, fold: seq<Card>, hand: seq<Card>)
    requires card in hand && fold != [] && !ContainsSuit(hand, fold[0].suit) && !ContainsSuit(hand, trump)
    ensures IsPlayValid(DefaultRule, Atout(trump), card, fold, hand) == Ok(true)
  {
  }

  /** The raise check compares with the lowest trump of the fold: over a
      King and an Eight of trump, a Nine of trump is accepted. */
  lemma RaiseComparesWithLowestTrump()
    ensures IsPlayValidSuitAtout(Diamond, Nine, [Card(Diamond, King), Card(Diamond, Height)])
    ensures !IsPlayValidSuitAtout(Diamond, Seven, [Card(Diamond, King), Card(Diamond, Height)])
  {
  }

  // ---------------------------------------------------------------------
  // The unit tests of rules.rs.

  /** Test `default_rule_empty_fold`. */
  lemma DefaultRuleEmptyFold()
    ensures IsPlayValid(DefaultRule, SansAtout, Card(Heart, Seven), [], [Card(Heart, Seven)]) == Ok(true)
  {
  }

  /** Test `default_rule_empty_hand`. */
  lemma DefaultRuleEmptyHand()
    ensures IsPlayValid(DefaultRule, Atout(Diamond), Card(Heart, Seven), [], []) == Ok(false)
  {
  }

  /** Test `up_atout`: over a led Eight of trump, the Seven of trump is
      refused and the Jack of trump accepted. */
  lemma UpAtout()
    ensures var fold := [CardMacro("D", "8")];
            var hand := [CardMacro("S", "7"), CardMacro("D", "J"), CardMacro("D", "7")];
            && IsPlayValid(DefaultRule, Atout(Diamond), CardMacro("D", "7"), fold, hand) == Ok(false)
            && IsPlayValid(DefaultRule, Atout(Diamond), CardMacro("D", "J"), fold, hand) == Ok(true)
  {
  }
}
