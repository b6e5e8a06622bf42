/** Cards of the 32-card Belote deck (card.rs): suits, symbols, the card
    value and the string shortcut tables behind the `card!` macro. */
module Cards {

  datatype Suit = Heart | Diamond | Club | Spade

  /** `Height` is the source's own spelling of the eight. */
  datatype Symbol = Seven | Height | Nine | Ten | Jack | Queen | King | Ace

  /** `Card::new(suit, symbol)` is this datatype's constructor; equality is
      structural, as `#[derive(PartialEq)]` makes it. */
  datatype Card = Card(suit: Suit, symbol: Symbol)

  /** Every suit and every symbol, in declaration order (the order in which
      `EnumIter` lists them). */
  const AllSuits: seq<Suit> := [Heart, Diamond, Club, Spade]
  const AllSymbols: seq<Symbol> := [Seven, Height, Nine, Ten, Jack, Queen, King, Ace]

  /** Position of a symbol in declaration order; the rules compare symbols
      by this rank. */
  function Rank(y: Symbol): (r: nat)
    ensures r < |AllSymbols| && AllSymbols[r] == y
  {
    match y
    case Seven => 0
    case Height => 1
    case Nine => 2
    case Ten => 3
    case Jack => 4
    case Queen => 5
    case King => 6
    case Ace => 7
  }

  /** Position of a suit in declaration order. */
  function SuitIndex(s: Suit): (r: nat)
    ensures r < |AllSuits| && AllSuits[r] == s
  {
    match s
    case Heart => 0
    case Diamond => 1
    case Club => 2
    case Spade => 3
  }

  /** `a <= b` in the declaration order Seven < Height < ... < Ace. */
  predicate SymbolLe(a: Symbol, b: Symbol) {
    Rank(a) <= Rank(b)
  }

  /** The declaration order on symbols is a total order. */
  lemma SymbolOrderIsTotal(a: Symbol, b: Symbol, c: Symbol)
    ensures SymbolLe(a, a)
    ensures SymbolLe(a, b) || SymbolLe(b, a)
    ensures SymbolLe(a, b) && SymbolLe(b, a) ==> a == b
    ensures SymbolLe(a, b) && SymbolLe(b, c) ==> SymbolLe(a, c)
  {
  }

  /** The table of `get_suit_shortcut`. */
  function SuitShortcut(): (m: map<string, Suit>)
    ensures m.Keys == {"H", "D", "C", "S"}
    ensures m.Values == {Heart, Diamond, Club, Spade}
  {
    map["H" := Heart, "D" := Diamond, "C" := Club, "S" := Spade]
  }

  /** The table of `get_symbol_shortcut`. */
  function SymbolShortcut(): (m: map<string, Symbol>)
    ensures m.Keys == {"7", "8", "9", "10", "J", "Q", "K", "A"}
    ensures m.Values == {Seven, Height, Nine, Ten, Jack, Queen, King, Ace}
  {
    map["7" := Seven, "8" := Height, "9" := Nine, "10" := Ten,
        "J" := Jack, "Q" := Queen, "K" := King, "A" := Ace]
  }

  /** The shortcut that names a suit in the suit table. */
  function SuitCode(s: Suit): (k: string)
    ensures k in SuitShortcut() && SuitShortcut()[k] == s
  {
    match s
    case Heart => "H"
    case Diamond => "D"
    case Club => "C"
    case Spade => "S"
  }

  /** The shortcut that names a symbol in the symbol table. */
  function SymbolCode(y: Symbol): (k: string)
    ensures k in SymbolShortcut() && SymbolShortcut()[k] == y
  {
    match y
    case Seven => "7"
    case Height => "8"
    case Nine => "9"
    case Ten => "10"
    case Jack => "J"
    case Queen => "Q"
    case King => "K"
    case Ace => "A"
  }

  /** The suit table has exactly the keys H, D, C, S, and it is a bijection
      onto the suits: every key is the code of the suit it maps to. */
  lemma SuitShortcutIsBijection()
    ensures SuitShortcut().Keys == {"H", "D", "C", "S"}
    ensures forall k :: k in SuitShortcut() ==> SuitCode(SuitShortcut()[k]) == k
    ensures forall s: Suit :: SuitCode(s) in SuitShortcut() && SuitShortcut()[SuitCode(s)] == s
  {
  }

  /** The symbol table has exactly the keys 7, 8, 9, 10, J, Q, K, A, and it
      is a bijection onto the symbols. */
  lemma SymbolShortcutIsBijection()
    ensures SymbolShortcut().Keys == {"7", "8", "9", "10", "J", "Q", "K", "A"}
    ensures forall k :: k in SymbolShortcut() ==> SymbolCode(SymbolShortcut()[k]) == k
    ensures forall y: Symbol :: SymbolCode(y) in SymbolShortcut() && SymbolShortcut()[SymbolCode(y)] == y
  {
  }

  /** `card!(a, b)`: looks both shortcuts up; indexing a `HashMap` with a
      missing key panics, so both keys must be present. */
  function CardMacro(a: string, b: string): (c: Card)
    requires a in SuitShortcut() && b in SymbolShortcut()
    ensures SuitCode(c.suit) == a && SymbolCode(c.symbol) == b
  {
    SuitShortcutIsBijection();
    SymbolShortcutIsBijection();
    Card(SuitShortcut()[a], SymbolShortcut()[b])
  }

  /** `card!` inverts the shortcut codes of any card. */
  lemma CardMacroRoundTrip(c: Card)
    ensures CardMacro(SuitCode(c.suit), SymbolCode(c.symbol)) == c
  {
  }

  /** Test `init_card_macro`: `card!("H", "7") == Card::new(Heart, Seven)`. */
  lemma InitCardMacro()
    ensures CardMacro("H", "7") == Card(Heart, Seven)
  {
  }
}
