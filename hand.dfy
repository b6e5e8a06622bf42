/** A player's hand (hand.rs): a vector of cards that grows with `push`
    and shrinks with the swap-remove of `play_a_card`. */
module Hands {
  import opened Outcomes
  import opened Cards

  const NegativeIdError: string := "card id can't be negative"
  const OutOfScopeError: string := "id out of scope"

  /** `Vec::swap_remove(i)` on the vector's contents: the last element
      takes the place of element `i`, and the vector loses its last slot;
      every other position keeps its card. */
  function SwapRemove(s: seq<Card>, i: nat): (r: seq<Card>)
    requires i < |s|
    ensures |r| == |s| - 1
    ensures i < |s| - 1 ==> r[i] == s[|s| - 1]
    ensures forall j :: 0 <= j < |s| - 1 && j != i ==> r[j] == s[j]
  {
    if i == |s| - 1 then s[..i] else s[..i] + [s[|s| - 1]] + s[i + 1..|s| - 1]
  }

  /** Swap-remove loses exactly the removed card: what is left, plus that
      card, is the multiset of cards before. */
  lemma SwapRemoveKeepsCards(s: seq<Card>, i: nat)
    requires i < |s|
    ensures multiset(SwapRemove(s, i)) + multiset{s[i]} == multiset(s)
  {
    var n := |s|;
    if i == n - 1 {
      SplitLast(s);
    } else {
      SplitAround(s, i);
    }
  }

  lemma SplitLast(s: seq<Card>)
    requires s != []
    ensures multiset(s[..|s| - 1]) + multiset{s[|s| - 1]} == multiset(s)
  {
    assert s == s[..|s| - 1] + [s[|s| - 1]];
  }

  lemma SplitAround(s: seq<Card>, i: nat)
    requires i < |s| - 1
    ensures multiset(s[..i] + [s[|s| - 1]] + s[i + 1..|s| - 1]) + multiset{s[i]} == multiset(s)
  {
    var n := |s|;
    assert s == s[..i] + [s[i]] + s[i + 1..n - 1] + [s[n - 1]];
  }

  class Hand {
    var cards: seq<Card>

    /** `Hand::new(cards)`. */
    constructor (cards: seq<Card>)
      ensures this.cards == cards
    {
      this.cards := cards;
    }

    /** `Hand::new_empty()`. */
    constructor NewEmpty()
      ensures cards == [] && Len() == 0
    {
      cards := [];
    }

    /** `push`: appends at the end, with no duplicate check. */
    method Push(card: Card)
      modifies this
      ensures cards == old(cards) + [card]
      ensures Len() == old(Len()) + 1
    {
      cards := cards + [card];
    }

    /** `len`: the number of cards held; zero exactly on an empty hand. */
    function Len(): (n: nat)
      reads this
      ensures n == 0 <==> cards == []
      ensures n == |cards|
    {
      |cards|
    }

    /** `get_a_card`: the card at `id`, by the same (inverted) checks as
        `play_a_card`. The source takes the hand by value, so the call uses
        the hand up; the model only reads it and the hand stays usable. */
    function GetACard(id: nat): (r: Result<Card, string>)
      reads this
      ensures r.Ok? <==> id == 0 && cards != []
      ensures r.Ok? ==> r.value == cards[0]
      ensures 0 < id ==> r == Err(NegativeIdError)
      ensures id == 0 && cards == [] ==> r == Err(OutOfScopeError)
    {
      if 0 < id then Err(NegativeIdError)
      else if id >= Len() then Err(OutOfScopeError)
      else Ok(cards[id])
    }

    /** `play_a_card`: the guard `0 < id` rejects every positive id, so only
        id 0 on a nonempty hand succeeds. On success the card at `id` is
        returned and swap-removed; on an error the hand is unchanged. */
    method PlayACard(id: nat) returns (r: Result<Card, string>)
      modifies this
      ensures r == old(GetACard(id))
      ensures r.Err? ==> cards == old(cards)
      ensures r.Ok? ==> id < |old(cards)| && cards == SwapRemove(old(cards), id)
    {
      if 0 < id {
        r := Err(NegativeIdError);
      } else if id >= Len() {
        r := Err(OutOfScopeError);
      } else {
        var card := cards[id];
        cards := SwapRemove(cards, id);
        r := Ok(card);
      }
    }
  }

  /** Test `play_a_card`: push one card, play id 0, get the card back and
      an empty hand. */
  method PlayOnlyCard(card: Card) returns (played: Result<Card, string>, lenAfter: nat)
    ensures played == Ok(card) && lenAfter == 0
  {
    var hand := new Hand.NewEmpty();
    hand.Push(card);
    assert hand.cards == [card];
    played := hand.PlayACard(0);
    lenAfter := hand.Len();
  }
}
