/** The trick in progress (fold.rs): at most four cards, each admitted by
    the fold's rule. */
module Folds {
  import opened Outcomes
  import opened Cards
  import opened Rules

  const MaxCardsFold: nat := 4

  /** `rule.allow_card_to_be_played(card, last_card, context)`: the rule as
      fold.rs consults it, left abstract. */
  type CardRule = (Card, Option<Card>, GameContext) -> bool

  /** The most recently played card, if any. */
  function LastCard(cards: seq<Card>): (r: Option<Card>)
    ensures r.None? <==> cards == []
    ensures r.Some? ==> r.value == cards[|cards| - 1]
  {
    if |cards| == 0 then None else Some(cards[|cards| - 1])
  }

  /** After a card is pushed, it is the last card. */
  lemma LastCardAfterPush(cards: seq<Card>, card: Card)
    ensures LastCard(cards + [card]) == Some(card)
  {
  }

  /** One call of `play_a_card` on the fold's cards: the new cards and the
      returned flag. A play succeeds iff the fold is not over and the rule
      accepts the card after the last one; it appends exactly that card on
      success and changes nothing otherwise; a fold never holds more than
      four cards. */
  function Play(cards: seq<Card>, card: Card, context: GameContext, rule: CardRule): (r: (seq<Card>, bool))
    ensures r.1 <==> |cards| < MaxCardsFold && rule(card, LastCard(cards), context)
    ensures r.0 == if r.1 then cards + [card] else cards
    ensures |cards| <= MaxCardsFold ==> |r.0| <= MaxCardsFold
  {
    if |cards| >= MaxCardsFold then (cards, false)
    else if rule(card, LastCard(cards), context) then (cards + [card], true)
    else (cards, false)
  }

  /** The cards of a fold after playing `plays` in order. */
  function PlayAll(cards: seq<Card>, plays: seq<Card>, context: GameContext, rule: CardRule): seq<Card>
    decreases |plays|
  {
    if plays == [] then cards
    else PlayAll(Play(cards, plays[0], context, rule).0, plays[1..], context, rule)
  }

  /** With a rule that accepts everything, the fold keeps exactly the first
      four cards played, whatever follows. */
  lemma {:induction false} AcceptingRuleKeepsFirstFour(cards: seq<Card>, plays: seq<Card>, context: GameContext)
    requires |cards| <= MaxCardsFold
    ensures var all := cards + plays;
            PlayAll(cards, plays, context, (c, l, g) => true)
              == all[..if |all| < MaxCardsFold then |all| else MaxCardsFold]
    decreases |plays|
  {
    var rule: CardRule := (c, l, g) => true;
    if plays != [] {
      var next := Play(cards, plays[0], context, rule).0;
      if |cards| < MaxCardsFold {
        assert next == cards + [plays[0]];
        assert cards + plays == next + plays[1..];
      } else {
        assert next == cards;
        AcceptingRuleKeepsFirstFour(next, plays[1..], context);
        var all := cards + plays;
        assert all[..MaxCardsFold] == cards;
        assert (cards + plays[1..])[..MaxCardsFold] == cards;
        return;
      }
      AcceptingRuleKeepsFirstFour(next, plays[1..], context);
    }
  }

  class Fold {
    var cards: seq<Card>
    const context: GameContext
    const rule: CardRule

    ghost predicate Valid()
      reads this
    {
      |cards| <= MaxCardsFold
    }

    /** `Fold::new(context, rule)`: an empty fold carrying them. */
    constructor (context: GameContext, rule: CardRule)
      ensures Valid() && cards == []
      ensures this.context == context && this.rule == rule
    {
      this.cards := [];
      this.context := context;
      this.rule := rule;
    }

    /** `is_over`: four cards have been played. */
    function IsOver(): (over: bool)
      reads this
      ensures over <==> |cards| >= MaxCardsFold
      ensures Valid() ==> (over <==> |cards| == MaxCardsFold)
    {
      |cards| >= MaxCardsFold
    }

    /** `play_a_card`: refuses on a fold that is over without asking the
        rule; otherwise asks the rule about the card, the last card and the
        fold's context, and appends the card iff the rule accepts. */
    method PlayACard(card: Card) returns (ok: bool)
      requires Valid()
      modifies this`cards
      ensures Valid()
      ensures (cards, ok) == Play(old(cards), card, context, rule)
      ensures ok <==> !old(IsOver()) && rule(card, LastCard(old(cards)), context)
      ensures cards == if ok then old(cards) + [card] else old(cards)
    {
      if IsOver() {
        return false;
      }
      var lastCard := match |cards| case 0 => None case n => Some(cards[n - 1]);
      if rule(card, lastCard, context) {
        cards := cards + [card];
        ok := true;
      } else {
        ok := false;
      }
    }
  }

  /** Tests `play_a_card` and `play_too_much_card`: under `ToutAtout` with a
      rule that accepts everything, four Tens of Diamond go in and the fifth
      is refused. */
  method PlayTooMuchCard() returns (results: seq<bool>, count: nat)
    ensures results == [true, true, true, true, false] && count == MaxCardsFold
  {
    var fold := new Fold(ToutAtout, (c, l, g) => true);
    var card := Card(Diamond, Ten);
    results := [];
    var i := 0;
    while i < MaxCardsFold
      invariant 0 <= i <= MaxCardsFold
      invariant fold.Valid() && |fold.cards| == i
      invariant results == seq(i, _ => true)
      invariant fold.rule == (c, l, g) => true
    {
      var ok := fold.PlayACard(card);
      results := results + [ok];
      i := i + 1;
    }
    var ok := fold.PlayACard(card);
    results := results + [ok];
    count := |fold.cards|;
  }
}
