/** The 52-bit card set: one bit per card of the deck, from the ace of spades
    in bit 51 down to the deuce of clubs in bit 0, so that deck order is
    descending bit order. The twelve bits above the deck are not cards. */
module BinaryCards {
  import CN = CardNumber
  import D = Deck
  import opened BitCount

  type BinaryCard = bv64

  const ACE_SPADES: BinaryCard := 0x8_0000_0000_0000
  const KING_SPADES: BinaryCard := 0x4_0000_0000_0000
  const QUEEN_SPADES: BinaryCard := 0x2_0000_0000_0000
  const JACK_SPADES: BinaryCard := 0x1_0000_0000_0000
  const TEN_SPADES: BinaryCard := 0x8000_0000_0000
  const NINE_SPADES: BinaryCard := 0x4000_0000_0000
  const EIGHT_SPADES: BinaryCard := 0x2000_0000_0000
  const SEVEN_SPADES: BinaryCard := 0x1000_0000_0000
  const SIX_SPADES: BinaryCard := 0x800_0000_0000
  const FIVE_SPADES: BinaryCard := 0x400_0000_0000
  const FOUR_SPADES: BinaryCard := 0x200_0000_0000
  const TREY_SPADES: BinaryCard := 0x100_0000_0000
  const DEUCE_SPADES: BinaryCard := 0x80_0000_0000
  const ACE_HEARTS: BinaryCard := 0x40_0000_0000
  const KING_HEARTS: BinaryCard := 0x20_0000_0000
  const QUEEN_HEARTS: BinaryCard := 0x10_0000_0000
  const JACK_HEARTS: BinaryCard := 0x8_0000_0000
  const TEN_HEARTS: BinaryCard := 0x4_0000_0000
  const NINE_HEARTS: BinaryCard := 0x2_0000_0000
  const EIGHT_HEARTS: BinaryCard := 0x1_0000_0000
  const SEVEN_HEARTS: BinaryCard := 0x8000_0000
  const SIX_HEARTS: BinaryCard := 0x4000_0000
  const FIVE_HEARTS: BinaryCard := 0x2000_0000
  const FOUR_HEARTS: BinaryCard := 0x1000_0000
  const TREY_HEARTS: BinaryCard := 0x800_0000
  const DEUCE_HEARTS: BinaryCard := 0x400_0000
  const ACE_DIAMONDS: BinaryCard := 0x200_0000
  const KING_DIAMONDS: BinaryCard := 0x100_0000
  const QUEEN_DIAMONDS: BinaryCard := 0x80_0000
  const JACK_DIAMONDS: BinaryCard := 0x40_0000
  const TEN_DIAMONDS: BinaryCard := 0x20_0000
  const NINE_DIAMONDS: BinaryCard := 0x10_0000
  const EIGHT_DIAMONDS: BinaryCard := 0x8_0000
  const SEVEN_DIAMONDS: BinaryCard := 0x4_0000
  const SIX_DIAMONDS: BinaryCard := 0x2_0000
  const FIVE_DIAMONDS: BinaryCard := 0x1_0000
  const FOUR_DIAMONDS: BinaryCard := 0x8000
  const TREY_DIAMONDS: BinaryCard := 0x4000
  const DEUCE_DIAMONDS: BinaryCard := 0x2000
  const ACE_CLUBS: BinaryCard := 0x1000
  const KING_CLUBS: BinaryCard := 0x800
  const QUEEN_CLUBS: BinaryCard := 0x400
  const JACK_CLUBS: BinaryCard := 0x200
  const TEN_CLUBS: BinaryCard := 0x100
  const NINE_CLUBS: BinaryCard := 0x80
  const EIGHT_CLUBS: BinaryCard := 0x40
  const SEVEN_CLUBS: BinaryCard := 0x20
  const SIX_CLUBS: BinaryCard := 0x10
  const FIVE_CLUBS: BinaryCard := 0x8
  const FOUR_CLUBS: BinaryCard := 0x4
  const TREY_CLUBS: BinaryCard := 0x2
  const DEUCE_CLUBS: BinaryCard := 0x1
  const BLANK: BinaryCard := 0

  /** Every card of the deck. */
  const ALL: BinaryCard := 0xF_FFFF_FFFF_FFFF
  /** The twelve bits that no card uses. */
  const OVERFLOW: BinaryCard := 0xFFF0_0000_0000_0000

  //
  // The four cards of each rank
  //

  const ACES: BinaryCard := ACE_SPADES | ACE_HEARTS | ACE_DIAMONDS | ACE_CLUBS
  const KINGS: BinaryCard := KING_SPADES | KING_HEARTS | KING_DIAMONDS | KING_CLUBS
  const QUEENS: BinaryCard := QUEEN_SPADES | QUEEN_HEARTS | QUEEN_DIAMONDS | QUEEN_CLUBS
  const JACKS: BinaryCard := JACK_SPADES | JACK_HEARTS | JACK_DIAMONDS | JACK_CLUBS
  const TENS: BinaryCard := TEN_SPADES | TEN_HEARTS | TEN_DIAMONDS | TEN_CLUBS
  const NINES: BinaryCard := NINE_SPADES | NINE_HEARTS | NINE_DIAMONDS | NINE_CLUBS
  const EIGHTS: BinaryCard := EIGHT_SPADES | EIGHT_HEARTS | EIGHT_DIAMONDS | EIGHT_CLUBS
  const SEVENS: BinaryCard := SEVEN_SPADES | SEVEN_HEARTS | SEVEN_DIAMONDS | SEVEN_CLUBS
  const SIXES: BinaryCard := SIX_SPADES | SIX_HEARTS | SIX_DIAMONDS | SIX_CLUBS
  const FIVES: BinaryCard := FIVE_SPADES | FIVE_HEARTS | FIVE_DIAMONDS | FIVE_CLUBS
  const FOURS: BinaryCard := FOUR_SPADES | FOUR_HEARTS | FOUR_DIAMONDS | FOUR_CLUBS
  const TREYS: BinaryCard := TREY_SPADES | TREY_HEARTS | TREY_DIAMONDS | TREY_CLUBS
  const DEUCES: BinaryCard := DEUCE_SPADES | DEUCE_HEARTS | DEUCE_DIAMONDS | DEUCE_CLUBS

  //
  // Positions
  //

  /** The single-card set of the card at deck position k. */
  function CardBit(k: bv8): BinaryCard
    requires k < 52
  {
    (1 as bv64) << (51 - k)
  }

  /** The deck as single-card sets, in deck order. */
  function BinaryDeck(): (d: seq<BinaryCard>)
    ensures |d| == D.DECK_SIZE
  {
    seq(D.DECK_SIZE, i requires 0 <= i < D.DECK_SIZE => CardBit(i as bv8))
  }

  /** The place of a rank within a suit's thirteen positions, ace first, as
      in Deck.RankAt. */
  function RankOffset(r: CN.CardRank): (k: bv8)
    requires r != CN.CardRank.BLANK
    ensures k < 13
  {
    match r
    case ACE => 0
    case KING => 1
    case QUEEN => 2
    case JACK => 3
    case TEN => 4
    case NINE => 5
    case EIGHT => 6
    case SEVEN => 7
    case SIX => 8
    case FIVE => 9
    case FOUR => 10
    case THREE => 11
    case TWO => 12
  }

  function RankOfOffset(k: bv8): (r: CN.CardRank)
    requires k < 13
    ensures r != CN.CardRank.BLANK && RankOffset(r) == k
  {
    if k == 0 then CN.CardRank.ACE
    else if k == 1 then CN.CardRank.KING
    else if k == 2 then CN.CardRank.QUEEN
    else if k == 3 then CN.CardRank.JACK
    else if k == 4 then CN.CardRank.TEN
    else if k == 5 then CN.CardRank.NINE
    else if k == 6 then CN.CardRank.EIGHT
    else if k == 7 then CN.CardRank.SEVEN
    else if k == 8 then CN.CardRank.SIX
    else if k == 9 then CN.CardRank.FIVE
    else if k == 10 then CN.CardRank.FOUR
    else if k == 11 then CN.CardRank.THREE
    else CN.CardRank.TWO
  }

  /** The place of a suit's block of thirteen positions, spades first, as in
      Deck.SuitAt. */
  function SuitOffset(s: CN.CardSuit): (k: bv8)
    requires s != CN.CardSuit.BLANK
    ensures k < 4
  {
    match s
    case SPADES => 0
    case HEARTS => 1
    case DIAMONDS => 2
    case CLUBS => 3
  }

  function SuitOfOffset(k: bv8): (s: CN.CardSuit)
    requires k < 4
    ensures s != CN.CardSuit.BLANK && SuitOffset(s) == k
  {
    if k == 0 then CN.CardSuit.SPADES
    else if k == 1 then CN.CardSuit.HEARTS
    else if k == 2 then CN.CardSuit.DIAMONDS
    else CN.CardSuit.CLUBS
  }

  /** The deck position of the card of a rank and a suit. */
  function Position(r: CN.CardRank, s: CN.CardSuit): (k: bv8)
    requires r != CN.CardRank.BLANK && s != CN.CardSuit.BLANK
    ensures k < 52
  {
    13 * SuitOffset(s) + RankOffset(r)
  }

  /** The packed card at a deck position. */
  function CardAt(k: bv8): (c: CN.CKCNumber)
    requires k < 52
    ensures CN.IsLegal(c)
  {
    CN.CardOf(RankOfOffset(k % 13), SuitOfOffset(k / 13))
  }

  /** The first deck position at or after k whose single-card set is b, or 52
      when there is none. */
  function PositionFrom(b: BinaryCard, k: bv8): (p: bv8)
    requires k <= 52
    ensures k <= p <= 52
    ensures p < 52 ==> b == CardBit(p)
    decreases 52 - k
  {
    if k == 52 then 52
    else if b == CardBit(k) then k
    else PositionFrom(b, k + 1)
  }

  //
  // Conversions between packed cards and card sets
  //

  /** The single-card set of a legal packed card: the bit at the card's deck
      position. Anything else is BLANK. */
  function FromCkc(c: CN.CKCNumber): BinaryCard {
    if CN.IsLegal(c) then CardBit(Position(CN.GetCardRank(c), CN.GetCardSuit(c))) else BLANK
  }

  /** The packed card a single-card set stands for; BLANK_CARD for a set that
      is not exactly one card of the deck. */
  function FromBinaryCard(b: BinaryCard): CN.CKCNumber {
    var p := PositionFrom(b, 0);
    if p < 52 then CardAt(p) else CN.BLANK_CARD
  }

  //
  // Set operations
  //

  /** The union of two sets. */
  function FoldIn(a: BinaryCard, b: BinaryCard): BinaryCard {
    a | b
  }

  /** Whether every card of c is in s. */
  predicate Has(s: BinaryCard, c: BinaryCard) {
    s & c == c
  }

  function NumberOfCards(s: BinaryCard): nat {
    CountOnes(s)
  }

  predicate IsSingleCard(s: BinaryCard) {
    NumberOfCards(s) == 1
  }

  /** Not empty, and no bit outside the deck. */
  predicate IsValid(s: BinaryCard) {
    s != BLANK && NumberOfCards(s & OVERFLOW) < 1
  }

  //
  // Bit facts
  //

  lemma PositionSplits(k: bv8)
    requires k < 52
    ensures k % 13 < 13 && k / 13 < 4 && k == 13 * (k / 13) + k % 13
  {
  }

  lemma PositionJoins(q: bv8, r: bv8)
    requires q < 4 && r < 13
    ensures (13 * q + r) / 13 == q && (13 * q + r) % 13 == r
  {
  }

  lemma CardBitInjective(i: bv8, j: bv8)
    requires i < 52 && j < 52 && CardBit(i) == CardBit(j)
    ensures i == j
  {
  }

  /** A card's bit is one bit of the deck. */
  lemma CardBitInDeck(k: bv8)
    requires k < 52
    ensures CardBit(k) != BLANK && CardBit(k) & OVERFLOW == 0 && CardBit(k) & ALL == CardBit(k)
  {
  }

  /** A single bit outside the overflow bits is a card's bit. */
  lemma SingleBitInDeck(j: bv8)
    requires j < 64 && ((1 as bv64) << j) & OVERFLOW == 0
    ensures j < 52 && CardBit(51 - j) == (1 as bv64) << j
  {
  }

  //
  // Scanning
  //

  /** The scan finds the position of a card's bit. */
  lemma {:induction false} PositionFromFinds(b: BinaryCard, k: bv8, q: bv8)
    requires k <= q < 52 && b == CardBit(q)
    ensures PositionFrom(b, k) == q
    decreases 52 - k
  {
    if b != CardBit(k) {
      PositionFromFinds(b, k + 1, q);
    } else {
      CardBitInjective(k, q);
    }
  }

  //
  // Round trips
  //

  lemma RankOffsetInverse(r: CN.CardRank)
    requires r != CN.CardRank.BLANK
    ensures RankOfOffset(RankOffset(r)) == r
  {
    match r
    case ACE =>
    case KING =>
    case QUEEN =>
    case JACK =>
    case TEN =>
    case NINE =>
    case EIGHT =>
    case SEVEN =>
    case SIX =>
    case FIVE =>
    case FOUR =>
    case THREE =>
    case TWO =>
  }

  lemma SuitOffsetInverse(s: CN.CardSuit)
    requires s != CN.CardSuit.BLANK
    ensures SuitOfOffset(SuitOffset(s)) == s
  {
  }

  /** A deck position names the card of the rank and suit it was made
      from. */
  lemma CardAtPosition(r: CN.CardRank, s: CN.CardSuit)
    requires r != CN.CardRank.BLANK && s != CN.CardSuit.BLANK
    ensures CardAt(Position(r, s)) == CN.CardOf(r, s)
  {
    PositionJoins(SuitOffset(s), RankOffset(r));
    RankOffsetInverse(r);
    SuitOffsetInverse(s);
  }

  /** The position of the card at a deck position is that position. */
  lemma PositionOfCardAt(k: bv8)
    requires k < 52
    ensures Position(CN.GetCardRank(CardAt(k)), CN.GetCardSuit(CardAt(k))) == k
  {
    PositionSplits(k);
  }

  //
  // The arms of the conversion, card by card: each packed constant goes to
  // the single-card constant of the same name, which sits at the same place
  // of the deck
  //

  /** A card made from a rank and a suit goes to the bit at that rank and
      suit's deck position. */
  lemma FromCkcCardOf(r: CN.CardRank, s: CN.CardSuit)
    requires r != CN.CardRank.BLANK && s != CN.CardSuit.BLANK
    ensures FromCkc(CN.CardOf(r, s)) == CardBit(Position(r, s))
  {
    CardAtPosition(r, s);
  }

  lemma FromCkcAceSpades()
    ensures FromCkc(CN.ACE_SPADES) == ACE_SPADES == CardBit(0) == BinaryDeck()[0]
  {
    assert CN.CardOf(CN.CardRank.ACE, CN.CardSuit.SPADES) == CN.ACE_SPADES;
    assert Position(CN.CardRank.ACE, CN.CardSuit.SPADES) == 0;
    FromCkcCardOf(CN.CardRank.ACE, CN.CardSuit.SPADES);
  }

  lemma FromCkcKingSpades()
    ensures FromCkc(CN.KING_SPADES) == KING_SPADES == CardBit(1) == BinaryDeck()[1]
  {
    assert CN.CardOf(CN.CardRank.KING, CN.CardSuit.SPADES) == CN.KING_SPADES;
    assert Position(CN.CardRank.KING, CN.CardSuit.SPADES) == 1;
    FromCkcCardOf(CN.CardRank.KING, CN.CardSuit.SPADES);
  }

  lemma FromCkcQueenSpades()
    ensures FromCkc(CN.QUEEN_SPADES) == QUEEN_SPADES == CardBit(2) == BinaryDeck()[2]
  {
    assert CN.CardOf(CN.CardRank.QUEEN, CN.CardSuit.SPADES) == CN.QUEEN_SPADES;
    assert Position(CN.CardRank.QUEEN, CN.CardSuit.SPADES) == 2;
    FromCkcCardOf(CN.CardRank.QUEEN, CN.CardSuit.SPADES);
  }

  lemma FromCkcJackSpades()
    ensures FromCkc(CN.JACK_SPADES) == JACK_SPADES == CardBit(3) == BinaryDeck()[3]
  {
    assert CN.CardOf(CN.CardRank.JACK, CN.CardSuit.SPADES) == CN.JACK_SPADES;
    assert Position(CN.CardRank.JACK, CN.CardSuit.SPADES) == 3;
    FromCkcCardOf(CN.CardRank.JACK, CN.CardSuit.SPADES);
  }

  lemma FromCkcTenSpades()
    ensures FromCkc(CN.TEN_SPADES) == TEN_SPADES == CardBit(4) == BinaryDeck()[4]
  {
    assert CN.CardOf(CN.CardRank.TEN, CN.CardSuit.SPADES) == CN.TEN_SPADES;
    assert Position(CN.CardRank.TEN, CN.CardSuit.SPADES) == 4;
    FromCkcCardOf(CN.CardRank.TEN, CN.CardSuit.SPADES);
  }

  lemma FromCkcNineSpades()
    ensures FromCkc(CN.NINE_SPADES) == NINE_SPADES == CardBit(5) == BinaryDeck()[5]
  {
    assert CN.CardOf(CN.CardRank.NINE, CN.CardSuit.SPADES) == CN.NINE_SPADES;
    assert Position(CN.CardRank.NINE, CN.CardSuit.SPADES) == 5;
    FromCkcCardOf(CN.CardRank.NINE, CN.CardSuit.SPADES);
  }

  lemma FromCkcEightSpades()
    ensures FromCkc(CN.EIGHT_SPADES) == EIGHT_SPADES == CardBit(6) == BinaryDeck()[6]
  {
    assert CN.CardOf(CN.CardRank.EIGHT, CN.CardSuit.SPADES) == CN.EIGHT_SPADES;
    assert Position(CN.CardRank.EIGHT, CN.CardSuit.SPADES) == 6;
    FromCkcCardOf(CN.CardRank.EIGHT, CN.CardSuit.SPADES);
  }

  lemma FromCkcSevenSpades()
    ensures FromCkc(CN.SEVEN_SPADES) == SEVEN_SPADES == CardBit(7) == BinaryDeck()[7]
  {
    assert CN.CardOf(CN.CardRank.SEVEN, CN.CardSuit.SPADES) == CN.SEVEN_SPADES;
    assert Position(CN.CardRank.SEVEN, CN.CardSuit.SPADES) == 7;
    FromCkcCardOf(CN.CardRank.SEVEN, CN.CardSuit.SPADES);
  }

  lemma FromCkcSixSpades()
    ensures FromCkc(CN.SIX_SPADES) == SIX_SPADES == CardBit(8) == BinaryDeck()[8]
  {
    assert CN.CardOf(CN.CardRank.SIX, CN.CardSuit.SPADES) == CN.SIX_SPADES;
    assert Position(CN.CardRank.SIX, CN.CardSuit.SPADES) == 8;
    FromCkcCardOf(CN.CardRank.SIX, CN.CardSuit.SPADES);
  }

  lemma FromCkcFiveSpades()
    ensures FromCkc(CN.FIVE_SPADES) == FIVE_SPADES == CardBit(9) == BinaryDeck()[9]
  {
    assert CN.CardOf(CN.CardRank.FIVE, CN.CardSuit.SPADES) == CN.FIVE_SPADES;
    assert Position(CN.CardRank.FIVE, CN.CardSuit.SPADES) == 9;
    FromCkcCardOf(CN.CardRank.FIVE, CN.CardSuit.SPADES);
  }

  lemma FromCkcFourSpades()
    ensures FromCkc(CN.FOUR_SPADES) == FOUR_SPADES == CardBit(10) == BinaryDeck()[10]
  {
    assert CN.CardOf(CN.CardRank.FOUR, CN.CardSuit.SPADES) == CN.FOUR_SPADES;
    assert Position(CN.CardRank.FOUR, CN.CardSuit.SPADES) == 10;
    FromCkcCardOf(CN.CardRank.FOUR, CN.CardSuit.SPADES);
  }

  lemma FromCkcTreySpades()
    ensures FromCkc(CN.TREY_SPADES) == TREY_SPADES == CardBit(11) == BinaryDeck()[11]
  {
    assert CN.CardOf(CN.CardRank.THREE, CN.CardSuit.SPADES) == CN.TREY_SPADES;
    assert Position(CN.CardRank.THREE, CN.CardSuit.SPADES) == 11;
    FromCkcCardOf(CN.CardRank.THREE, CN.CardSuit.SPADES);
  }

  lemma FromCkcDeuceSpades()
    ensures FromCkc(CN.DEUCE_SPADES) == DEUCE_SPADES == CardBit(12) == BinaryDeck()[12]
  {
    assert CN.CardOf(CN.CardRank.TWO, CN.CardSuit.SPADES) == CN.DEUCE_SPADES;
    assert Position(CN.CardRank.TWO, CN.CardSuit.SPADES) == 12;
    FromCkcCardOf(CN.CardRank.TWO, CN.CardSuit.SPADES);
  }

  lemma FromCkcAceHearts()
    ensures FromCkc(CN.ACE_HEARTS) == ACE_HEARTS == CardBit(13) == BinaryDeck()[13]
  {
    assert CN.CardOf(CN.CardRank.ACE, CN.CardSuit.HEARTS) == CN.ACE_HEARTS;
    assert Position(CN.CardRank.ACE, CN.CardSuit.HEARTS) == 13;
    FromCkcCardOf(CN.CardRank.ACE, CN.CardSuit.HEARTS);
  }

  lemma FromCkcKingHearts()
    ensures FromCkc(CN.KING_HEARTS) == KING_HEARTS == CardBit(14) == BinaryDeck()[14]
  {
    assert CN.CardOf(CN.CardRank.KING, CN.CardSuit.HEARTS) == CN.KING_HEARTS;
    assert Position(CN.CardRank.KING, CN.CardSuit.HEARTS) == 14;
    FromCkcCardOf(CN.CardRank.KING, CN.CardSuit.HEARTS);
  }

  lemma FromCkcQueenHearts()
    ensures FromCkc(CN.QUEEN_HEARTS) == QUEEN_HEARTS == CardBit(15) == BinaryDeck()[15]
  {
    assert CN.CardOf(CN.CardRank.QUEEN, CN.CardSuit.HEARTS) == CN.QUEEN_HEARTS;
    assert Position(CN.CardRank.QUEEN, CN.CardSuit.HEARTS) == 15;
    FromCkcCardOf(CN.CardRank.QUEEN, CN.CardSuit.HEARTS);
  }

  lemma FromCkcJackHearts()
    ensures FromCkc(CN.JACK_HEARTS) == JACK_HEARTS == CardBit(16) == BinaryDeck()[16]
  {
    assert CN.CardOf(CN.CardRank.JACK, CN.CardSuit.HEARTS) == CN.JACK_HEARTS;
    assert Position(CN.CardRank.JACK, CN.CardSuit.HEARTS) == 16;
    FromCkcCardOf(CN.CardRank.JACK, CN.CardSuit.HEARTS);
  }

  lemma FromCkcTenHearts()
    ensures FromCkc(CN.TEN_HEARTS) == TEN_HEARTS == CardBit(17) == BinaryDeck()[17]
  {
    assert CN.CardOf(CN.CardRank.TEN, CN.CardSuit.HEARTS) == CN.TEN_HEARTS;
    assert Position(CN.CardRank.TEN, CN.CardSuit.HEARTS) == 17;
    FromCkcCardOf(CN.CardRank.TEN, CN.CardSuit.HEARTS);
  }

  lemma FromCkcNineHearts()
    ensures FromCkc(CN.NINE_HEARTS) == NINE_HEARTS == CardBit(18) == BinaryDeck()[18]
  {
    assert CN.CardOf(CN.CardRank.NINE, CN.CardSuit.HEARTS) == CN.NINE_HEARTS;
    assert Position(CN.CardRank.NINE, CN.CardSuit.HEARTS) == 18;
    FromCkcCardOf(CN.CardRank.NINE, CN.CardSuit.HEARTS);
  }

  lemma FromCkcEightHearts()
    ensures FromCkc(CN.EIGHT_HEARTS) == EIGHT_HEARTS == CardBit(19) == BinaryDeck()[19]
  {
    assert CN.CardOf(CN.CardRank.EIGHT, CN.CardSuit.HEARTS) == CN.EIGHT_HEARTS;
    assert Position(CN.CardRank.EIGHT, CN.CardSuit.HEARTS) == 19;
    FromCkcCardOf(CN.CardRank.EIGHT, CN.CardSuit.HEARTS);
  }

  lemma FromCkcSevenHearts()
    ensures FromCkc(CN.SEVEN_HEARTS) == SEVEN_HEARTS == CardBit(20) == BinaryDeck()[20]
  {
    assert CN.CardOf(CN.CardRank.SEVEN, CN.CardSuit.HEARTS) == CN.SEVEN_HEARTS;
    assert Position(CN.CardRank.SEVEN, CN.CardSuit.HEARTS) == 20;
    FromCkcCardOf(CN.CardRank.SEVEN, CN.CardSuit.HEARTS);
  }

  lemma FromCkcSixHearts()
    ensures FromCkc(CN.SIX_HEARTS) == SIX_HEARTS == CardBit(21) == BinaryDeck()[21]
  {
    assert CN.CardOf(CN.CardRank.SIX, CN.CardSuit.HEARTS) == CN.SIX_HEARTS;
    assert Position(CN.CardRank.SIX, CN.CardSuit.HEARTS) == 21;
    FromCkcCardOf(CN.CardRank.SIX, CN.CardSuit.HEARTS);
  }

  lemma FromCkcFiveHearts()
    ensures FromCkc(CN.FIVE_HEARTS) == FIVE_HEARTS == CardBit(22) == BinaryDeck()[22]
  {
    assert CN.CardOf(CN.CardRank.FIVE, CN.CardSuit.HEARTS) == CN.FIVE_HEARTS;
    assert Position(CN.CardRank.FIVE, CN.CardSuit.HEARTS) == 22;
    FromCkcCardOf(CN.CardRank.FIVE, CN.CardSuit.HEARTS);
  }

  lemma FromCkcFourHearts()
    ensures FromCkc(CN.FOUR_HEARTS) == FOUR_HEARTS == CardBit(23) == BinaryDeck()[23]
  {
    assert CN.CardOf(CN.CardRank.FOUR, CN.CardSuit.HEARTS) == CN.FOUR_HEARTS;
    assert Position(CN.CardRank.FOUR, CN.CardSuit.HEARTS) == 23;
    FromCkcCardOf(CN.CardRank.FOUR, CN.CardSuit.HEARTS);
  }

  lemma FromCkcTreyHearts()
    ensures FromCkc(CN.TREY_HEARTS) == TREY_HEARTS == CardBit(24) == BinaryDeck()[24]
  {
    assert CN.CardOf(CN.CardRank.THREE, CN.CardSuit.HEARTS) == CN.TREY_HEARTS;
    assert Position(CN.CardRank.THREE, CN.CardSuit.HEARTS) == 24;
    FromCkcCardOf(CN.CardRank.THREE, CN.CardSuit.HEARTS);
  }

  lemma FromCkcDeuceHearts()
    ensures FromCkc(CN.DEUCE_HEARTS) == DEUCE_HEARTS == CardBit(25) == BinaryDeck()[25]
  {
    assert CN.CardOf(CN.CardRank.TWO, CN.CardSuit.HEARTS) == CN.DEUCE_HEARTS;
    assert Position(CN.CardRank.TWO, CN.CardSuit.HEARTS) == 25;
    FromCkcCardOf(CN.CardRank.TWO, CN.CardSuit.HEARTS);
  }

  lemma FromCkcAceDiamonds()
    ensures FromCkc(CN.ACE_DIAMONDS) == ACE_DIAMONDS == CardBit(26) == BinaryDeck()[26]
  {
    assert CN.CardOf(CN.CardRank.ACE, CN.CardSuit.DIAMONDS) == CN.ACE_DIAMONDS;
    assert Position(CN.CardRank.ACE, CN.CardSuit.DIAMONDS) == 26;
    FromCkcCardOf(CN.CardRank.ACE, CN.CardSuit.DIAMONDS);
  }

  lemma FromCkcKingDiamonds()
    ensures FromCkc(CN.KING_DIAMONDS) == KING_DIAMONDS == CardBit(27) == BinaryDeck()[27]
  {
    assert CN.CardOf(CN.CardRank.KING, CN.CardSuit.DIAMONDS) == CN.KING_DIAMONDS;
    assert Position(CN.CardRank.KING, CN.CardSuit.DIAMONDS) == 27;
    FromCkcCardOf(CN.CardRank.KING, CN.CardSuit.DIAMONDS);
  }

  lemma FromCkcQueenDiamonds()
    ensures FromCkc(CN.QUEEN_DIAMONDS) == QUEEN_DIAMONDS == CardBit(28) == BinaryDeck()[28]
  {
    assert CN.CardOf(CN.CardRank.QUEEN, CN.CardSuit.DIAMONDS) == CN.QUEEN_DIAMONDS;
    assert Position(CN.CardRank.QUEEN, CN.CardSuit.DIAMONDS) == 28;
    FromCkcCardOf(CN.CardRank.QUEEN, CN.CardSuit.DIAMONDS);
  }

  lemma FromCkcJackDiamonds()
    ensures FromCkc(CN.JACK_DIAMONDS) == JACK_DIAMONDS == CardBit(29) == BinaryDeck()[29]
  {
    assert CN.CardOf(CN.CardRank.JACK, CN.CardSuit.DIAMONDS) == CN.JACK_DIAMONDS;
    assert Position(CN.CardRank.JACK, CN.CardSuit.DIAMONDS) == 29;
    FromCkcCardOf(CN.CardRank.JACK, CN.CardSuit.DIAMONDS);
  }

  lemma FromCkcTenDiamonds()
    ensures FromCkc(CN.TEN_DIAMONDS) == TEN_DIAMONDS == CardBit(30) == BinaryDeck()[30]
  {
    assert CN.CardOf(CN.CardRank.TEN, CN.CardSuit.DIAMONDS) == CN.TEN_DIAMONDS;
    assert Position(CN.CardRank.TEN, CN.CardSuit.DIAMONDS) == 30;
    FromCkcCardOf(CN.CardRank.TEN, CN.CardSuit.DIAMONDS);
  }

  lemma FromCkcNineDiamonds()
    ensures FromCkc(CN.NINE_DIAMONDS) == NINE_DIAMONDS == CardBit(31) == BinaryDeck()[31]
  {
    assert CN.CardOf(CN.CardRank.NINE, CN.CardSuit.DIAMONDS) == CN.NINE_DIAMONDS;
    assert Position(CN.CardRank.NINE, CN.CardSuit.DIAMONDS) == 31;
    FromCkcCardOf(CN.CardRank.NINE, CN.CardSuit.DIAMONDS);
  }

  lemma FromCkcEightDiamonds()
    ensures FromCkc(CN.EIGHT_DIAMONDS) == EIGHT_DIAMONDS == CardBit(32) == BinaryDeck()[32]
  {
    assert CN.CardOf(CN.CardRank.EIGHT, CN.CardSuit.DIAMONDS) == CN.EIGHT_DIAMONDS;
    assert Position(CN.CardRank.EIGHT, CN.CardSuit.DIAMONDS) == 32;
    FromCkcCardOf(CN.CardRank.EIGHT, CN.CardSuit.DIAMONDS);
  }

  lemma FromCkcSevenDiamonds()
    ensures FromCkc(CN.SEVEN_DIAMONDS) == SEVEN_DIAMONDS == CardBit(33) == BinaryDeck()[33]
  {
    assert CN.CardOf(CN.CardRank.SEVEN, CN.CardSuit.DIAMONDS) == CN.SEVEN_DIAMONDS;
    assert Position(CN.CardRank.SEVEN, CN.CardSuit.DIAMONDS) == 33;
    FromCkcCardOf(CN.CardRank.SEVEN, CN.CardSuit.DIAMONDS);
  }

  lemma FromCkcSixDiamonds()
    ensures FromCkc(CN.SIX_DIAMONDS) == SIX_DIAMONDS == CardBit(34) == BinaryDeck()[34]
  {
    assert CN.CardOf(CN.CardRank.SIX, CN.CardSuit.DIAMONDS) == CN.SIX_DIAMONDS;
    assert Position(CN.CardRank.SIX, CN.CardSuit.DIAMONDS) == 34;
    FromCkcCardOf(CN.CardRank.SIX, CN.CardSuit.DIAMONDS);
  }

  lemma FromCkcFiveDiamonds()
    ensures FromCkc(CN.FIVE_DIAMONDS) == FIVE_DIAMONDS == CardBit(35) == BinaryDeck()[35]
  {
    assert CN.CardOf(CN.CardRank.FIVE, CN.CardSuit.DIAMONDS) == CN.FIVE_DIAMONDS;
    assert Position(CN.CardRank.FIVE, CN.CardSuit.DIAMONDS) == 35;
    FromCkcCardOf(CN.CardRank.FIVE, CN.CardSuit.DIAMONDS);
  }

  lemma FromCkcFourDiamonds()
    ensures FromCkc(CN.FOUR_DIAMONDS) == FOUR_DIAMONDS == CardBit(36) == BinaryDeck()[36]
  {
    assert CN.CardOf(CN.CardRank.FOUR, CN.CardSuit.DIAMONDS) == CN.FOUR_DIAMONDS;
    assert Position(CN.CardRank.FOUR, CN.CardSuit.DIAMONDS) == 36;
    FromCkcCardOf(CN.CardRank.FOUR, CN.CardSuit.DIAMONDS);
  }

  lemma FromCkcTreyDiamonds()
    ensures FromCkc(CN.TREY_DIAMONDS) == TREY_DIAMONDS == CardBit(37) == BinaryDeck()[37]
  {
    assert CN.CardOf(CN.CardRank.THREE, CN.CardSuit.DIAMONDS) == CN.TREY_DIAMONDS;
    assert Position(CN.CardRank.THREE, CN.CardSuit.DIAMONDS) == 37;
    FromCkcCardOf(CN.CardRank.THREE, CN.CardSuit.DIAMONDS);
  }

  lemma FromCkcDeuceDiamonds()
    ensures FromCkc(CN.DEUCE_DIAMONDS) == DEUCE_DIAMONDS == CardBit(38) == BinaryDeck()[38]
  {
    assert CN.CardOf(CN.CardRank.TWO, CN.CardSuit.DIAMONDS) == CN.DEUCE_DIAMONDS;
    assert Position(CN.CardRank.TWO, CN.CardSuit.DIAMONDS) == 38;
    FromCkcCardOf(CN.CardRank.TWO, CN.CardSuit.DIAMONDS);
  }

  lemma FromCkcAceClubs()
    ensures FromCkc(CN.ACE_CLUBS) == ACE_CLUBS == CardBit(39) == BinaryDeck()[39]
  {
    assert CN.CardOf(CN.CardRank.ACE, CN.CardSuit.CLUBS) == CN.ACE_CLUBS;
    assert Position(CN.CardRank.ACE, CN.CardSuit.CLUBS) == 39;
    FromCkcCardOf(CN.CardRank.ACE, CN.CardSuit.CLUBS);
  }

  lemma FromCkcKingClubs()
    ensures FromCkc(CN.KING_CLUBS) == KING_CLUBS == CardBit(40) == BinaryDeck()[40]
  {
    assert CN.CardOf(CN.CardRank.KING, CN.CardSuit.CLUBS) == CN.KING_CLUBS;
    assert Position(CN.CardRank.KING, CN.CardSuit.CLUBS) == 40;
    FromCkcCardOf(CN.CardRank.KING, CN.CardSuit.CLUBS);
  }

  lemma FromCkcQueenClubs()
    ensures FromCkc(CN.QUEEN_CLUBS) == QUEEN_CLUBS == CardBit(41) == BinaryDeck()[41]
  {
    assert CN.CardOf(CN.CardRank.QUEEN, CN.CardSuit.CLUBS) == CN.QUEEN_CLUBS;
    assert Position(CN.CardRank.QUEEN, CN.CardSuit.CLUBS) == 41;
    FromCkcCardOf(CN.CardRank.QUEEN, CN.CardSuit.CLUBS);
  }

  lemma FromCkcJackClubs()
    ensures FromCkc(CN.JACK_CLUBS) == JACK_CLUBS == CardBit(42) == BinaryDeck()[42]
  {
    assert CN.CardOf(CN.CardRank.JACK, CN.CardSuit.CLUBS) == CN.JACK_CLUBS;
    assert Position(CN.CardRank.JACK, CN.CardSuit.CLUBS) == 42;
    FromCkcCardOf(CN.CardRank.JACK, CN.CardSuit.CLUBS);
  }

  lemma FromCkcTenClubs()
    ensures FromCkc(CN.TEN_CLUBS) == TEN_CLUBS == CardBit(43) == BinaryDeck()[43]
  {
    assert CN.CardOf(CN.CardRank.TEN, CN.CardSuit.CLUBS) == CN.TEN_CLUBS;
    assert Position(CN.CardRank.TEN, CN.CardSuit.CLUBS) == 43;
    FromCkcCardOf(CN.CardRank.TEN, CN.CardSuit.CLUBS);
  }

  lemma FromCkcNineClubs()
    ensures FromCkc(CN.NINE_CLUBS) == NINE_CLUBS == CardBit(44) == BinaryDeck()[44]
  {
    assert CN.CardOf(CN.CardRank.NINE, CN.CardSuit.CLUBS) == CN.NINE_CLUBS;
    assert Position(CN.CardRank.NINE, CN.CardSuit.CLUBS) == 44;
    FromCkcCardOf(CN.CardRank.NINE, CN.CardSuit.CLUBS);
  }

  lemma FromCkcEightClubs()
    ensures FromCkc(CN.EIGHT_CLUBS) == EIGHT_CLUBS == CardBit(45) == BinaryDeck()[45]
  {
    assert CN.CardOf(CN.CardRank.EIGHT, CN.CardSuit.CLUBS) == CN.EIGHT_CLUBS;
    assert Position(CN.CardRank.EIGHT, CN.CardSuit.CLUBS) == 45;
    FromCkcCardOf(CN.CardRank.EIGHT, CN.CardSuit.CLUBS);
  }

  lemma FromCkcSevenClubs()
    ensures FromCkc(CN.SEVEN_CLUBS) == SEVEN_CLUBS == CardBit(46) == BinaryDeck()[46]
  {
    assert CN.CardOf(CN.CardRank.SEVEN, CN.CardSuit.CLUBS) == CN.SEVEN_CLUBS;
    assert Position(CN.CardRank.SEVEN, CN.CardSuit.CLUBS) == 46;
    FromCkcCardOf(CN.CardRank.SEVEN, CN.CardSuit.CLUBS);
  }

  lemma FromCkcSixClubs()
    ensures FromCkc(CN.SIX_CLUBS) == SIX_CLUBS == CardBit(47) == BinaryDeck()[47]
  {
    assert CN.CardOf(CN.CardRank.SIX, CN.CardSuit.CLUBS) == CN.SIX_CLUBS;
    assert Position(CN.CardRank.SIX, CN.CardSuit.CLUBS) == 47;
    FromCkcCardOf(CN.CardRank.SIX, CN.CardSuit.CLUBS);
  }

  lemma FromCkcFiveClubs()
    ensures FromCkc(CN.FIVE_CLUBS) == FIVE_CLUBS == CardBit(48) == BinaryDeck()[48]
  {
    assert CN.CardOf(CN.CardRank.FIVE, CN.CardSuit.CLUBS) == CN.FIVE_CLUBS;
    assert Position(CN.CardRank.FIVE, CN.CardSuit.CLUBS) == 48;
    FromCkcCardOf(CN.CardRank.FIVE, CN.CardSuit.CLUBS);
  }

  lemma FromCkcFourClubs()
    ensures FromCkc(CN.FOUR_CLUBS) == FOUR_CLUBS == CardBit(49) == BinaryDeck()[49]
  {
    assert CN.CardOf(CN.CardRank.FOUR, CN.CardSuit.CLUBS) == CN.FOUR_CLUBS;
    assert Position(CN.CardRank.FOUR, CN.CardSuit.CLUBS) == 49;
    FromCkcCardOf(CN.CardRank.FOUR, CN.CardSuit.CLUBS);
  }

  lemma FromCkcTreyClubs()
    ensures FromCkc(CN.TREY_CLUBS) == TREY_CLUBS == CardBit(50) == BinaryDeck()[50]
  {
    assert CN.CardOf(CN.CardRank.THREE, CN.CardSuit.CLUBS) == CN.TREY_CLUBS;
    assert Position(CN.CardRank.THREE, CN.CardSuit.CLUBS) == 50;
    FromCkcCardOf(CN.CardRank.THREE, CN.CardSuit.CLUBS);
  }

  lemma FromCkcDeuceClubs()
    ensures FromCkc(CN.DEUCE_CLUBS) == DEUCE_CLUBS == CardBit(51) == BinaryDeck()[51]
  {
    assert CN.CardOf(CN.CardRank.TWO, CN.CardSuit.CLUBS) == CN.DEUCE_CLUBS;
    assert Position(CN.CardRank.TWO, CN.CardSuit.CLUBS) == 51;
    FromCkcCardOf(CN.CardRank.TWO, CN.CardSuit.CLUBS);
  }

  /** A legal card comes back from its single-card set. */
  lemma FromBinaryCardRoundTrip(c: CN.CKCNumber)
    requires CN.IsLegal(c)
    ensures FromBinaryCard(FromCkc(c)) == c
  {
    var r, s := CN.GetCardRank(c), CN.GetCardSuit(c);
    PositionFromFinds(FromCkc(c), 0, Position(r, s));
    CardAtPosition(r, s);
  }

  /** A set of exactly one card of the deck comes back from its packed
      card. */
  lemma FromCkcRoundTrip(b: BinaryCard)
    requires IsSingleCard(b) && b & OVERFLOW == 0
    ensures FromCkc(FromBinaryCard(b)) == b
  {
    var j := CountOnesOne(b);
    SingleBitInDeck(j);
    var k := 51 - j;
    PositionFromFinds(b, 0, k);
    PositionOfCardAt(k);
  }

  /** Every legal card goes to exactly one bit of the deck; everything else
      goes to BLANK. */
  lemma FromCkcSingle(c: CN.CKCNumber)
    ensures CN.IsLegal(c) ==> IsSingleCard(FromCkc(c)) && FromCkc(c) & OVERFLOW == 0
    ensures !CN.IsLegal(c) ==> FromCkc(c) == BLANK
  {
    if CN.IsLegal(c) {
      var k := Position(CN.GetCardRank(c), CN.GetCardSuit(c));
      CountSingle(51 - k, 64);
      CardBitInDeck(k);
    }
  }

  /** Different legal cards go to different bits. */
  lemma FromCkcInjective(c: CN.CKCNumber, d: CN.CKCNumber)
    requires CN.IsLegal(c) && CN.IsLegal(d) && FromCkc(c) == FromCkc(d)
    ensures c == d
  {
    FromBinaryCardRoundTrip(c);
    FromBinaryCardRoundTrip(d);
  }

  /** A set converts to a legal card exactly when it is one card of the deck,
      and to BLANK_CARD otherwise. */
  lemma FromBinaryCardBlank(b: BinaryCard)
    ensures CN.IsLegal(FromBinaryCard(b)) || FromBinaryCard(b) == CN.BLANK_CARD
    ensures FromBinaryCard(b) == CN.BLANK_CARD <==> !(IsSingleCard(b) && b & OVERFLOW == 0)
  {
    assert !CN.IsLegal(CN.BLANK_CARD);
    if IsSingleCard(b) && b & OVERFLOW == 0 {
      FromBinaryCardOfCard(b);
    } else {
      FromBinaryCardOfOther(b);
    }
  }

  lemma FromBinaryCardOfCard(b: BinaryCard)
    requires IsSingleCard(b) && b & OVERFLOW == 0
    ensures CN.IsLegal(FromBinaryCard(b))
  {
    FromCkcRoundTrip(b);
    CountOnesZero(b);
  }

  lemma FromBinaryCardOfOther(b: BinaryCard)
    requires !(IsSingleCard(b) && b & OVERFLOW == 0)
    ensures FromBinaryCard(b) == CN.BLANK_CARD
  {
    var p := PositionFrom(b, 0);
    if p < 52 {
      CountSingle(51 - p, 64);
      CardBitInDeck(p);
      assert false;
    }
  }

  /** The packed deck and the binary deck list the same cards in the same
      order. */
  lemma DecksAgree(i: nat)
    requires i < D.DECK_SIZE
    ensures FromCkc(D.PokerDeck()[i]) == BinaryDeck()[i]
  {
    if i == 0 {
      D.DeckHoldsAceSpades();
      FromCkcAceSpades();
    } else if i == 1 {
      D.DeckHoldsKingSpades();
      FromCkcKingSpades();
    } else if i == 2 {
      D.DeckHoldsQueenSpades();
      FromCkcQueenSpades();
    } else if i == 3 {
      D.DeckHoldsJackSpades();
      FromCkcJackSpades();
    } else if i == 4 {
      D.DeckHoldsTenSpades();
      FromCkcTenSpades();
    } else if i == 5 {
      D.DeckHoldsNineSpades();
      FromCkcNineSpades();
    } else if i == 6 {
      D.DeckHoldsEightSpades();
      FromCkcEightSpades();
    } else if i == 7 {
      D.DeckHoldsSevenSpades();
      FromCkcSevenSpades();
    } else if i == 8 {
      D.DeckHoldsSixSpades();
      FromCkcSixSpades();
    } else if i == 9 {
      D.DeckHoldsFiveSpades();
      FromCkcFiveSpades();
    } else if i == 10 {
      D.DeckHoldsFourSpades();
      FromCkcFourSpades();
    } else if i == 11 {
      D.DeckHoldsTreySpades();
      FromCkcTreySpades();
    } else if i == 12 {
      D.DeckHoldsDeuceSpades();
      FromCkcDeuceSpades();
    } else if i == 13 {
      D.DeckHoldsAceHearts();
      FromCkcAceHearts();
    } else if i == 14 {
      D.DeckHoldsKingHearts();
      FromCkcKingHearts();
    } else if i == 15 {
      D.DeckHoldsQueenHearts();
      FromCkcQueenHearts();
    } else if i == 16 {
      D.DeckHoldsJackHearts();
      FromCkcJackHearts();
    } else if i == 17 {
      D.DeckHoldsTenHearts();
      FromCkcTenHearts();
    } else if i == 18 {
      D.DeckHoldsNineHearts();
      FromCkcNineHearts();
    } else if i == 19 {
      D.DeckHoldsEightHearts();
      FromCkcEightHearts();
    } else if i == 20 {
      D.DeckHoldsSevenHearts();
      FromCkcSevenHearts();
    } else if i == 21 {
      D.DeckHoldsSixHearts();
      FromCkcSixHearts();
    } else if i == 22 {
      D.DeckHoldsFiveHearts();
      FromCkcFiveHearts();
    } else if i == 23 {
      D.DeckHoldsFourHearts();
      FromCkcFourHearts();
    } else if i == 24 {
      D.DeckHoldsTreyHearts();
      FromCkcTreyHearts();
    } else if i == 25 {
      D.DeckHoldsDeuceHearts();
      FromCkcDeuceHearts();
    } else if i == 26 {
      D.DeckHoldsAceDiamonds();
      FromCkcAceDiamonds();
    } else if i == 27 {
      D.DeckHoldsKingDiamonds();
      FromCkcKingDiamonds();
    } else if i == 28 {
      D.DeckHoldsQueenDiamonds();
      FromCkcQueenDiamonds();
    } else if i == 29 {
      D.DeckHoldsJackDiamonds();
      FromCkcJackDiamonds();
    } else if i == 30 {
      D.DeckHoldsTenDiamonds();
      FromCkcTenDiamonds();
    } else if i == 31 {
      D.DeckHoldsNineDiamonds();
      FromCkcNineDiamonds();
    } else if i == 32 {
      D.DeckHoldsEightDiamonds();
      FromCkcEightDiamonds();
    } else if i == 33 {
      D.DeckHoldsSevenDiamonds();
      FromCkcSevenDiamonds();
    } else if i == 34 {
      D.DeckHoldsSixDiamonds();
      FromCkcSixDiamonds();
    } else if i == 35 {
      D.DeckHoldsFiveDiamonds();
      FromCkcFiveDiamonds();
    } else if i == 36 {
      D.DeckHoldsFourDiamonds();
      FromCkcFourDiamonds();
    } else if i == 37 {
      D.DeckHoldsTreyDiamonds();
      FromCkcTreyDiamonds();
    } else if i == 38 {
      D.DeckHoldsDeuceDiamonds();
      FromCkcDeuceDiamonds();
    } else if i == 39 {
      D.DeckHoldsAceClubs();
      FromCkcAceClubs();
    } else if i == 40 {
      D.DeckHoldsKingClubs();
      FromCkcKingClubs();
    } else if i == 41 {
      D.DeckHoldsQueenClubs();
      FromCkcQueenClubs();
    } else if i == 42 {
      D.DeckHoldsJackClubs();
      FromCkcJackClubs();
    } else if i == 43 {
      D.DeckHoldsTenClubs();
      FromCkcTenClubs();
    } else if i == 44 {
      D.DeckHoldsNineClubs();
      FromCkcNineClubs();
    } else if i == 45 {
      D.DeckHoldsEightClubs();
      FromCkcEightClubs();
    } else if i == 46 {
      D.DeckHoldsSevenClubs();
      FromCkcSevenClubs();
    } else if i == 47 {
      D.DeckHoldsSixClubs();
      FromCkcSixClubs();
    } else if i == 48 {
      D.DeckHoldsFiveClubs();
      FromCkcFiveClubs();
    } else if i == 49 {
      D.DeckHoldsFourClubs();
      FromCkcFourClubs();
    } else if i == 50 {
      D.DeckHoldsTreyClubs();
      FromCkcTreyClubs();
    } else if i == 51 {
      D.DeckHoldsDeuceClubs();
      FromCkcDeuceClubs();
    }
  }

  //
  // Union, membership, validity
  //

  /** Union is commutative, associative and idempotent, and holds both of
      its operands. */
  lemma FoldInLaws(a: BinaryCard, b: BinaryCard, c: BinaryCard)
    ensures FoldIn(a, b) == FoldIn(b, a)
    ensures FoldIn(FoldIn(a, b), c) == FoldIn(a, FoldIn(b, c))
    ensures FoldIn(a, a) == a
    ensures Has(FoldIn(a, b), a) && Has(FoldIn(a, b), b)
  {
    FoldInCommutes(a, b);
    FoldInAssociates(a, b, c);
    FoldInIdempotent(a);
    FoldInHolds(a, b);
  }

  lemma FoldInCommutes(a: BinaryCard, b: BinaryCard)
    ensures FoldIn(a, b) == FoldIn(b, a)
  {
    OrCommutes(a, b);
  }

  lemma FoldInAssociates(a: BinaryCard, b: BinaryCard, c: BinaryCard)
    ensures FoldIn(FoldIn(a, b), c) == FoldIn(a, FoldIn(b, c))
  {
    OrAssociates(a, b, c);
  }

  lemma FoldInIdempotent(a: BinaryCard)
    ensures FoldIn(a, a) == a
  {
    OrIdempotent(a);
  }

  lemma FoldInHolds(a: BinaryCard, b: BinaryCard)
    ensures Has(FoldIn(a, b), a) && Has(FoldIn(a, b), b)
  {
    OrHolds(a, b);
  }

  lemma OrCommutes(a: BinaryCard, b: BinaryCard)
    ensures a | b == b | a
  {
  }

  lemma OrAssociates(a: BinaryCard, b: BinaryCard, c: BinaryCard)
    ensures (a | b) | c == a | (b | c)
  {
  }

  lemma OrIdempotent(a: BinaryCard)
    ensures a | a == a
  {
  }

  lemma OrHolds(a: BinaryCard, b: BinaryCard)
    ensures (a | b) & a == a && (a | b) & b == b
  {
  }

  /** A set is valid exactly when it is not empty and uses no bit outside the
      deck. */
  lemma IsValidIff(s: BinaryCard)
    ensures IsValid(s) <==> s != BLANK && s & OVERFLOW == 0
  {
    CountOnesZero(s & OVERFLOW);
  }

  /** The whole deck and the four aces are valid sets; the empty set and the
      overflow bits are not. */
  lemma ValidExamples()
    ensures IsValid(ALL) && IsValid(ACES) && !IsValid(BLANK) && !IsValid(OVERFLOW)
  {
    IsValidIff(ALL);
    IsValidIff(ACES);
    IsValidIff(BLANK);
    IsValidIff(OVERFLOW);
  }
}
