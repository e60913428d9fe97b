/** The standard 52-card deck in its fixed order: spades, hearts, diamonds,
    clubs, and within each suit ace down to deuce. Position i holds the rank
    at i % 13 and the suit at i / 13. */
module Deck {
  import opened CardNumber

  const DECK_SIZE: nat := 52

  /** The rank at a position within a suit: 0 is the ace, 12 the deuce. */
  function RankAt(k: nat): CardRank
    requires k < 13
  {
    if k == 0 then CardRank.ACE
    else if k == 1 then CardRank.KING
    else if k == 2 then CardRank.QUEEN
    else if k == 3 then CardRank.JACK
    else if k == 4 then CardRank.TEN
    else if k == 5 then CardRank.NINE
    else if k == 6 then CardRank.EIGHT
    else if k == 7 then CardRank.SEVEN
    else if k == 8 then CardRank.SIX
    else if k == 9 then CardRank.FIVE
    else if k == 10 then CardRank.FOUR
    else if k == 11 then CardRank.THREE
    else CardRank.TWO
  }

  /** The position of a rank within a suit. */
  function RankIndex(r: CardRank): (k: nat)
    requires r != CardRank.BLANK
    ensures k < 13 && RankAt(k) == r
  {
    match r
    case ACE => 0
    case KING => 1
    case QUEEN => 2
    case JACK => 3
    case TEN => 4
    case NINE => 5
    case EIGHT => 6
    case SEVEN => 7
    case SIX => 8
    case FIVE => 9
    case FOUR => 10
    case THREE => 11
    case TWO => 12
  }

  /** The suit of a block of thirteen: 0 is spades, 3 clubs. */
  function SuitAt(k: nat): CardSuit
    requires k < 4
  {
    if k == 0 then CardSuit.SPADES
    else if k == 1 then CardSuit.HEARTS
    else if k == 2 then CardSuit.DIAMONDS
    else CardSuit.CLUBS
  }

  /** The position of a suit's block of thirteen. */
  function SuitIndex(s: CardSuit): (k: nat)
    requires s != CardSuit.BLANK
    ensures k < 4 && SuitAt(k) == s
  {
    match s
    case SPADES => 0
    case HEARTS => 1
    case DIAMONDS => 2
    case CLUBS => 3
  }

  /** The card at a position of the deck. */
  function DeckCard(i: nat): (c: CKCNumber)
    requires i < DECK_SIZE
    ensures IsLegal(c)
    ensures GetCardRank(c) == RankAt(i % 13) && GetCardSuit(c) == SuitAt(i / 13)
  {
    CardOf(RankAt(i % 13), SuitAt(i / 13))
  }

  /** The position of a legal card in the deck. */
  function IndexOf(c: CKCNumber): (i: nat)
    requires IsLegal(c)
    ensures i < DECK_SIZE && DeckCard(i) == c
  {
    var k, q := RankIndex(GetCardRank(c)), SuitIndex(GetCardSuit(c));
    DivModThirteen(q, k);
    13 * q + k
  }

  lemma DivModThirteen(q: nat, k: nat)
    requires k < 13
    ensures (13 * q + k) % 13 == k && (13 * q + k) / 13 == q
  {
  }

  /** The deck, position by position. */
  function PokerDeck(): (d: seq<CKCNumber>)
    ensures |d| == DECK_SIZE
  {
    seq(DECK_SIZE, i requires 0 <= i < DECK_SIZE => CardOf(RankAt(i % 13), SuitAt(i / 13)))
  }

  /** The card at a position, BLANK past the end of the deck. */
  function Get(i: nat): CKCNumber {
    if i < Len() then PokerDeck()[i] else BLANK_CARD
  }

  /** The number of cards in the deck. */
  function Len(): (n: nat)
    ensures n == |PokerDeck()|
  {
    DECK_SIZE
  }

  /** Inside the deck Get reads the deck, and every card it returns is
      legal and passes the filter unchanged; past the end it is BLANK. */
  lemma GetReadsDeck(i: nat)
    ensures i < Len() ==> Get(i) == PokerDeck()[i] && IsLegal(Get(i)) && Filter(Get(i)) == Get(i)
    ensures i >= Len() ==> Get(i) == BLANK_CARD
  {
  }

  /** The deck holds 52 different cards. */
  lemma DeckDistinct(i: nat, j: nat)
    requires i < DECK_SIZE && j < DECK_SIZE && i != j
    ensures PokerDeck()[i] != PokerDeck()[j]
  {
    assert PokerDeck()[i] == DeckCard(i) && PokerDeck()[j] == DeckCard(j);
    if DeckCard(i) == DeckCard(j) {
      RankAtInjective(i % 13, j % 13);
      SuitAtInjective(i / 13, j / 13);
      assert false;
    }
  }

  /** Different positions hold different cards. */
  lemma DeckCardInjective(i: nat, j: nat)
    requires i < DECK_SIZE && j < DECK_SIZE && DeckCard(i) == DeckCard(j)
    ensures i == j
  {
    RankAtInjective(i % 13, j % 13);
    SuitAtInjective(i / 13, j / 13);
  }

  /** Every legal card is somewhere in the deck. */
  lemma DeckCoversLegal(c: CKCNumber)
    requires IsLegal(c)
    ensures IndexOf(c) < Len() && PokerDeck()[IndexOf(c)] == c
  {
  }

  lemma RankAtInjective(k: nat, k': nat)
    requires k < 13 && k' < 13 && RankAt(k) == RankAt(k')
    ensures k == k'
  {
  }

  lemma SuitAtInjective(k: nat, k': nat)
    requires k < 4 && k' < 4 && SuitAt(k) == SuitAt(k')
    ensures k == k'
  {
  }

  //
  // The deck agrees, position by position, with the named card constants
  //

  lemma DeckHoldsAceSpades()
    ensures PokerDeck()[0] == ACE_SPADES
  {
  }

  lemma DeckHoldsKingSpades()
    ensures PokerDeck()[1] == KING_SPADES
  {
  }

  lemma DeckHoldsQueenSpades()
    ensures PokerDeck()[2] == QUEEN_SPADES
  {
  }

  lemma DeckHoldsJackSpades()
    ensures PokerDeck()[3] == JACK_SPADES
  {
  }

  lemma DeckHoldsTenSpades()
    ensures PokerDeck()[4] == TEN_SPADES
  {
  }

  lemma DeckHoldsNineSpades()
    ensures PokerDeck()[5] == NINE_SPADES
  {
  }

  lemma DeckHoldsEightSpades()
    ensures PokerDeck()[6] == EIGHT_SPADES
  {
  }

  lemma DeckHoldsSevenSpades()
    ensures PokerDeck()[7] == SEVEN_SPADES
  {
  }

  lemma DeckHoldsSixSpades()
    ensures PokerDeck()[8] == SIX_SPADES
  {
  }

  lemma DeckHoldsFiveSpades()
    ensures PokerDeck()[9] == FIVE_SPADES
  {
  }

  lemma DeckHoldsFourSpades()
    ensures PokerDeck()[10] == FOUR_SPADES
  {
  }

  lemma DeckHoldsTreySpades()
    ensures PokerDeck()[11] == TREY_SPADES
  {
  }

  lemma DeckHoldsDeuceSpades()
    ensures PokerDeck()[12] == DEUCE_SPADES
  {
  }

  lemma DeckHoldsAceHearts()
    ensures PokerDeck()[13] == ACE_HEARTS
  {
  }

  lemma DeckHoldsKingHearts()
    ensures PokerDeck()[14] == KING_HEARTS
  {
  }

  lemma DeckHoldsQueenHearts()
    ensures PokerDeck()[15] == QUEEN_HEARTS
  {
  }

  lemma DeckHoldsJackHearts()
    ensures PokerDeck()[16] == JACK_HEARTS
  {
  }

  lemma DeckHoldsTenHearts()
    ensures PokerDeck()[17] == TEN_HEARTS
  {
  }

  lemma DeckHoldsNineHearts()
    ensures PokerDeck()[18] == NINE_HEARTS
  {
  }

  lemma DeckHoldsEightHearts()
    ensures PokerDeck()[19] == EIGHT_HEARTS
  {
  }

  lemma DeckHoldsSevenHearts()
    ensures PokerDeck()[20] == SEVEN_HEARTS
  {
  }

  lemma DeckHoldsSixHearts()
    ensures PokerDeck()[21] == SIX_HEARTS
  {
  }

  lemma DeckHoldsFiveHearts()
    ensures PokerDeck()[22] == FIVE_HEARTS
  {
  }

  lemma DeckHoldsFourHearts()
    ensures PokerDeck()[23] == FOUR_HEARTS
  {
  }

  lemma DeckHoldsTreyHearts()
    ensures PokerDeck()[24] == TREY_HEARTS
  {
  }

  lemma DeckHoldsDeuceHearts()
    ensures PokerDeck()[25] == DEUCE_HEARTS
  {
  }

  lemma DeckHoldsAceDiamonds()
    ensures PokerDeck()[26] == ACE_DIAMONDS
  {
  }

  lemma DeckHoldsKingDiamonds()
    ensures PokerDeck()[27] == KING_DIAMONDS
  {
  }

  lemma DeckHoldsQueenDiamonds()
    ensures PokerDeck()[28] == QUEEN_DIAMONDS
  {
  }

  lemma DeckHoldsJackDiamonds()
    ensures PokerDeck()[29] == JACK_DIAMONDS
  {
  }

  lemma DeckHoldsTenDiamonds()
    ensures PokerDeck()[30] == TEN_DIAMONDS
  {
  }

  lemma DeckHoldsNineDiamonds()
    ensures PokerDeck()[31] == NINE_DIAMONDS
  {
  }

  lemma DeckHoldsEightDiamonds()
    ensures PokerDeck()[32] == EIGHT_DIAMONDS
  {
  }

  lemma DeckHoldsSevenDiamonds()
    ensures PokerDeck()[33] == SEVEN_DIAMONDS
  {
  }

  lemma DeckHoldsSixDiamonds()
    ensures PokerDeck()[34] == SIX_DIAMONDS
  {
  }

  lemma DeckHoldsFiveDiamonds()
    ensures PokerDeck()[35] == FIVE_DIAMONDS
  {
  }

  lemma DeckHoldsFourDiamonds()
    ensures PokerDeck()[36] == FOUR_DIAMONDS
  {
  }

  lemma DeckHoldsTreyDiamonds()
    ensures PokerDeck()[37] == TREY_DIAMONDS
  {
  }

  lemma DeckHoldsDeuceDiamonds()
    ensures PokerDeck()[38] == DEUCE_DIAMONDS
  {
  }

  lemma DeckHoldsAceClubs()
    ensures PokerDeck()[39] == ACE_CLUBS
  {
  }

  lemma DeckHoldsKingClubs()
    ensures PokerDeck()[40] == KING_CLUBS
  {
  }

  lemma DeckHoldsQueenClubs()
    ensures PokerDeck()[41] == QUEEN_CLUBS
  {
  }

  lemma DeckHoldsJackClubs()
    ensures PokerDeck()[42] == JACK_CLUBS
  {
  }

  lemma DeckHoldsTenClubs()
    ensures PokerDeck()[43] == TEN_CLUBS
  {
  }

  lemma DeckHoldsNineClubs()
    ensures PokerDeck()[44] == NINE_CLUBS
  {
  }

  lemma DeckHoldsEightClubs()
    ensures PokerDeck()[45] == EIGHT_CLUBS
  {
  }

  lemma DeckHoldsSevenClubs()
    ensures PokerDeck()[46] == SEVEN_CLUBS
  {
  }

  lemma DeckHoldsSixClubs()
    ensures PokerDeck()[47] == SIX_CLUBS
  {
  }

  lemma DeckHoldsFiveClubs()
    ensures PokerDeck()[48] == FIVE_CLUBS
  {
  }

  lemma DeckHoldsFourClubs()
    ensures PokerDeck()[49] == FOUR_CLUBS
  {
  }

  lemma DeckHoldsTreyClubs()
    ensures PokerDeck()[50] == TREY_CLUBS
  {
  }

  lemma DeckHoldsDeuceClubs()
    ensures PokerDeck()[51] == DEUCE_CLUBS
  {
  }
}
