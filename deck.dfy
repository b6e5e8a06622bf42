/** The deck (deck.rs): the ordered 32-card deck and the cut. */
module Decks {
  import opened Cards

  /** The cards of one suit, one per symbol of `symbols`, in order. */
  function Row(suit: Suit, symbols: seq<Symbol>): (r: seq<Card>)
    ensures |r| == |symbols|
    ensures forall j :: 0 <= j < |symbols| ==> r[j] == Card(suit, symbols[j])
  {
    seq(|symbols|, j requires 0 <= j < |symbols| => Card(suit, symbols[j]))
  }

  /** `iproduct!(suits, symbols)` mapped to cards: suit-major order. */
  function Product(suits: seq<Suit>, symbols: seq<Symbol>): seq<Card>
  {
    if suits == [] then [] else Row(suits[0], symbols) + Product(suits[1..], symbols)
  }

  /** The cards of `Deck::new_ordered`. */
  function OrderedCards(): seq<Card> {
    Product(AllSuits, AllSymbols)
  }

  /** Position `|symbols| * i + j` of the product holds the i-th suit with
      the j-th symbol. */
  lemma {:induction false} ProductAt(suits: seq<Suit>, symbols: seq<Symbol>, i: nat, j: nat)
    requires i < |suits| && j < |symbols|
    ensures |symbols| * i + j < |Product(suits, symbols)|
    ensures Product(suits, symbols)[|symbols| * i + j] == Card(suits[i], symbols[j])
  {
    var w := |symbols|;
    var rest := Product(suits[1..], symbols);
    assert Product(suits, symbols) == Row(suits[0], symbols) + rest;
    if i > 0 {
      ProductAt(suits[1..], symbols, i - 1, j);
      MulStep(w, i);
      assert suits[1..][i - 1] == suits[i];
    }
  }

  lemma MulStep(w: nat, i: nat)
    requires i > 0
    ensures w * i == w + w * (i - 1)
  {
  }

  lemma {:induction false} ProductLength(suits: seq<Suit>, symbols: seq<Symbol>)
    ensures |Product(suits, symbols)| == |symbols| * |suits|
  {
    if suits != [] {
      ProductLength(suits[1..], symbols);
      MulStep(|symbols|, |suits|);
    }
  }

  /** Extending the suits by one extends the product by that suit's row. */
  lemma {:induction false} ProductSnoc(suits: seq<Suit>, suit: Suit, symbols: seq<Symbol>)
    ensures Product(suits + [suit], symbols) == Product(suits, symbols) + Row(suit, symbols)
  {
    if suits == [] {
      assert [suit][1..] == [];
    } else {
      assert (suits + [suit])[1..] == suits[1..] + [suit];
      ProductSnoc(suits[1..], suit, symbols);
    }
  }

  /** The ordered deck has 32 cards, position 8 * i + j holds the i-th suit
      with the j-th symbol, and every position is of that form. */
  lemma OrderedCardsLayout()
    ensures |OrderedCards()| == 32
    ensures forall k :: 0 <= k < 32 ==> OrderedCards()[k] == Card(AllSuits[k / 8], AllSymbols[k % 8])
  {
  }

  /** The position of a card in the ordered deck. */
  function CardIndex(c: Card): nat {
    8 * SuitIndex(c.suit) + Rank(c.symbol)
  }

  /** Every position of the ordered deck holds the card whose index it is. */
  lemma OrderedCardIndex()
    ensures |OrderedCards()| == 32
    ensures forall k :: 0 <= k < 32 ==> CardIndex(OrderedCards()[k]) == k
  {
    ProductLength(AllSuits, AllSymbols);
    forall k | 0 <= k < 32 ensures CardIndex(OrderedCards()[k]) == k {
      CardIndexAt(k);
    }
  }

  lemma CardIndexAt(k: nat)
    requires k < 32
    ensures k < |OrderedCards()| && CardIndex(OrderedCards()[k]) == k
  {
    var i, j := k / 8, k % 8;
    assert k == 8 * i + j;
    ProductAt(AllSuits, AllSymbols, i, j);
    var c := Card(AllSuits[i], AllSymbols[j]);
    assert SuitIndex(c.suit) == i && Rank(c.symbol) == j;
  }

  /** The ordered deck has no duplicates: all its positions differ. */
  lemma OrderedCardsAreDistinct()
    ensures forall p, q :: 0 <= p < q < |OrderedCards()| ==> OrderedCards()[p] != OrderedCards()[q]
  {
    OrderedCardIndex();
  }

  /** The ordered deck holds every (suit, symbol) pair, at its index. */
  lemma OrderedCardsAreComplete()
    ensures forall c: Card :: CardIndex(c) < |OrderedCards()| && OrderedCards()[CardIndex(c)] == c
  {
  }

  /** The list `new_ordered` extends the empty deck with, built by walking
      suits then symbols as `iproduct!` does. */
  method EnumerateCards() returns (cards: seq<Card>)
    ensures cards == OrderedCards()
  {
    cards := [];
    var i := 0;
    while i < |AllSuits|
      invariant 0 <= i <= |AllSuits|
      invariant cards == Product(AllSuits[..i], AllSymbols)
    {
      cards := AppendRow(cards, AllSuits[i]);
      ProductSnoc(AllSuits[..i], AllSuits[i], AllSymbols);
      assert AllSuits[..i + 1] == AllSuits[..i] + [AllSuits[i]];
      i := i + 1;
    }
    assert AllSuits[..i] == AllSuits;
  }

  /** The inner walk of `iproduct!`: one card of `suit` per symbol, in
      declaration order, after `cards`. */
  method AppendRow(cards: seq<Card>, suit: Suit) returns (extended: seq<Card>)
    ensures extended == cards + Row(suit, AllSymbols)
  {
    extended := cards;
    var j := 0;
    while j < |AllSymbols|
      invariant 0 <= j <= |AllSymbols|
      invariant extended == cards + Row(suit, AllSymbols[..j])
    {
      assert Row(suit, AllSymbols[..j + 1]) == Row(suit, AllSymbols[..j]) + [Card(suit, AllSymbols[j])];
      extended := extended + [Card(suit, AllSymbols[j])];
      j := j + 1;
    }
    assert AllSymbols[..j] == AllSymbols;
  }

  /** The range `1..(len - 2)` the cut index is drawn from: neither the
      first nor the last position. */
  predicate CutIndexAllowed(len: nat, k: nat) {
    1 <= k < len - 2
  }

  /** The draw of the cut index has something to draw from iff the deck
      has at least four cards (shorter decks panic on an empty range). */
  lemma CutIndexExists(len: nat)
    ensures (exists k: nat :: CutIndexAllowed(len, k)) <==> len >= 4
  {
    if len >= 4 {
      assert CutIndexAllowed(len, 1);
    }
  }

  /** The reference rotation: position i holds the card k places further,
      wrapping round. */
  function RotatedLeft(s: seq<Card>, k: nat): (r: seq<Card>)
    requires k <= |s|
    ensures |r| == |s|
  {
    seq(|s|, i requires 0 <= i < |s| => s[(i + k) % |s|])
  }

  /** Cutting at `k` (`split_off` then `append`) is the rotation by `k`,
      and so keeps the deck's length and its multiset of cards. */
  lemma CutIsRotation(s: seq<Card>, k: nat)
    requires k <= |s|
    ensures s[k..] + s[..k] == RotatedLeft(s, k)
    ensures multiset(s[k..] + s[..k]) == multiset(s)
  {
    var n := |s|;
    var r := s[k..] + s[..k];
    forall i | 0 <= i < n ensures r[i] == RotatedLeft(s, k)[i] {
      if i < n - k {
        ModBelow(i + k, n);
      } else {
        ModWrapOnce(i + k, n);
      }
    }
    assert s == s[..k] + s[k..];
  }

  lemma ModBelow(a: nat, n: nat)
    requires a < n
    ensures a % n == a
  {
  }

  lemma ModWrapOnce(a: nat, n: nat)
    requires 0 < n <= a < 2 * n
    ensures a % n == a - n
  {
  }

  class Deck {
    var cards: seq<Card>

    /** `Deck::new_empty()`. */
    constructor NewEmpty()
      ensures cards == []
    {
      cards := [];
    }

    /** `Deck::new_ordered()`: the 32 cards in suit-major order. */
    constructor NewOrdered()
      ensures cards == OrderedCards()
    {
      var ordered := EnumerateCards();
      cards := ordered;
    }

    /** `shuffle_cut` with the drawn index `k` as a parameter: the cards from
        `k` on are moved in front of the first `k`. */
    method ShuffleCut(k: nat)
      requires CutIndexAllowed(|cards|, k)
      modifies this
      ensures cards == old(cards)[k..] + old(cards)[..k]
      ensures cards == RotatedLeft(old(cards), k)
      ensures multiset(cards) == multiset(old(cards))
    {
      CutIsRotation(cards, k);
      var topDeck := cards[k..];
      cards := cards[..k];
      topDeck := topDeck + cards;
      cards := topDeck;
    }
  }

  /** Test `deck_cut`: cutting the ordered deck keeps its 32 cards. */
  method DeckCut(k: nat) returns (before: nat, after: nat)
    requires CutIndexAllowed(32, k)
    ensures before == 32 && after == 32
  {
    OrderedCardsLayout();
    var deck := new Deck.NewOrdered();
    before := |deck.cards|;
    deck.ShuffleCut(k);
    after := |deck.cards|;
  }
}
