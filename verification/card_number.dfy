/** The packed card ("CKC" number): a 32-bit word in a variant of Cactus Kev's
    layout, with the suit bits in the order S, H, D, C.

      +--------+--------+--------+--------+
      |mmmbbbbb|bbbbbbbb|SHDCrrrr|xxpppppp|
      +--------+--------+--------+--------+

    b = one bit per rank (deuce = bit 16 ... ace = bit 28), SHDC = one bit per
    suit, r = rank number (deuce = 0 ... ace = 12), p = the rank's prime, and
    m = the pair/trips/quads flags that give sorting priority to multiples.
    The only validity gate is Filter: it lets the 52 card constants through and
    turns every other word into BLANK. */
module CardNumber {

  type CKCNumber = bv32

  const RANK_FLAG_FILTER: bv32 := 0x1FFF_0000
  const RANK_FLAG_SHIFT: bv32 := 16
  const RANK_PRIME_FILTER: bv32 := 0x3F
  const SUIT_FILTER: bv32 := 0xF000
  const SUIT_SHORT_MASK: bv32 := 0xF
  const SUIT_SHIFT: bv32 := 12

  /** Flags that mark a card as part of a pair, trips or quads. */
  const PAIR: bv32 := 0x2000_0000
  const TRIPS: bv32 := 0x4000_0000
  const QUADS: bv32 := 0x8000_0000
  const MULTIPLES_FILTER: bv32 := 0x1FFF_FFFF

  const ACE_SPADES: CKCNumber := 0x10008C29
  const KING_SPADES: CKCNumber := 0x08008B25
  const QUEEN_SPADES: CKCNumber := 0x04008A1F
  const JACK_SPADES: CKCNumber := 0x0200891D
  const TEN_SPADES: CKCNumber := 0x01008817
  const NINE_SPADES: CKCNumber := 0x00808713
  const EIGHT_SPADES: CKCNumber := 0x00408611
  const SEVEN_SPADES: CKCNumber := 0x0020850D
  const SIX_SPADES: CKCNumber := 0x0010840B
  const FIVE_SPADES: CKCNumber := 0x00088307
  const FOUR_SPADES: CKCNumber := 0x00048205
  const TREY_SPADES: CKCNumber := 0x00028103
  const DEUCE_SPADES: CKCNumber := 0x00018002
  const ACE_HEARTS: CKCNumber := 0x10004C29
  const KING_HEARTS: CKCNumber := 0x08004B25
  const QUEEN_HEARTS: CKCNumber := 0x04004A1F
  const JACK_HEARTS: CKCNumber := 0x0200491D
  const TEN_HEARTS: CKCNumber := 0x01004817
  const NINE_HEARTS: CKCNumber := 0x00804713
  const EIGHT_HEARTS: CKCNumber := 0x00404611
  const SEVEN_HEARTS: CKCNumber := 0x0020450D
  const SIX_HEARTS: CKCNumber := 0x0010440B
  const FIVE_HEARTS: CKCNumber := 0x00084307
  const FOUR_HEARTS: CKCNumber := 0x00044205
  const TREY_HEARTS: CKCNumber := 0x00024103
  const DEUCE_HEARTS: CKCNumber := 0x00014002
  const ACE_DIAMONDS: CKCNumber := 0x10002C29
  const KING_DIAMONDS: CKCNumber := 0x08002B25
  const QUEEN_DIAMONDS: CKCNumber := 0x04002A1F
  const JACK_DIAMONDS: CKCNumber := 0x0200291D
  const TEN_DIAMONDS: CKCNumber := 0x01002817
  const NINE_DIAMONDS: CKCNumber := 0x00802713
  const EIGHT_DIAMONDS: CKCNumber := 0x00402611
  const SEVEN_DIAMONDS: CKCNumber := 0x0020250D
  const SIX_DIAMONDS: CKCNumber := 0x0010240B
  const FIVE_DIAMONDS: CKCNumber := 0x00082307
  const FOUR_DIAMONDS: CKCNumber := 0x00042205
  const TREY_DIAMONDS: CKCNumber := 0x00022103
  const DEUCE_DIAMONDS: CKCNumber := 0x00012002
  const ACE_CLUBS: CKCNumber := 0x10001C29
  const KING_CLUBS: CKCNumber := 0x08001B25
  const QUEEN_CLUBS: CKCNumber := 0x04001A1F
  const JACK_CLUBS: CKCNumber := 0x0200191D
  const TEN_CLUBS: CKCNumber := 0x01001817
  const NINE_CLUBS: CKCNumber := 0x00801713
  const EIGHT_CLUBS: CKCNumber := 0x00401611
  const SEVEN_CLUBS: CKCNumber := 0x0020150D
  const SIX_CLUBS: CKCNumber := 0x0010140B
  const FIVE_CLUBS: CKCNumber := 0x00081307
  const FOUR_CLUBS: CKCNumber := 0x00041205
  const TREY_CLUBS: CKCNumber := 0x00021103
  const DEUCE_CLUBS: CKCNumber := 0x00011002
  const BLANK_CARD: CKCNumber := 0

  datatype CardRank = ACE | KING | QUEEN | JACK | TEN | NINE | EIGHT | SEVEN | SIX | FIVE | FOUR | THREE | TWO | BLANK
  datatype CardSuit = SPADES | HEARTS | DIAMONDS | CLUBS | BLANK

  /** The errors a hand constructor can report. */
  datatype HandError =
    | BlankCard
    | DuplicateCard
    | Incomplete
    | InvalidBinaryFormat
    | InvalidCard
    | InvalidCardCount
    | InvalidIndex
    | NotEnoughCards
    | TooManyCards

  /** The characters that name a rank: upper and lower case letters, '0' as
      an alternative for ten, and the digits 9 down to 2. */
  const RANK_CHARS: string := "AaKkQqJjTt098765432"

  /** The characters that name a suit: the white and the black suit symbols
      and upper and lower case letters. */
  const SUIT_CHARS: string := "\U{2664}\U{2660}Ss\U{2661}\U{2665}Hh\U{2662}\U{2666}Dd\U{2667}\U{2663}Cc"

  /** The rank a character names; every other character names BLANK (see
      RankFromCharTotal). */
  function RankFromChar(ch: char): CardRank
  {
    match ch
    case 'A' => CardRank.ACE
    case 'a' => CardRank.ACE
    case 'K' => CardRank.KING
    case 'k' => CardRank.KING
    case 'Q' => CardRank.QUEEN
    case 'q' => CardRank.QUEEN
    case 'J' => CardRank.JACK
    case 'j' => CardRank.JACK
    case 'T' => CardRank.TEN
    case 't' => CardRank.TEN
    case '0' => CardRank.TEN
    case '9' => CardRank.NINE
    case '8' => CardRank.EIGHT
    case '7' => CardRank.SEVEN
    case '6' => CardRank.SIX
    case '5' => CardRank.FIVE
    case '4' => CardRank.FOUR
    case '3' => CardRank.THREE
    case '2' => CardRank.TWO
    case _ => CardRank.BLANK
  }

  /** The suit a character names; every other character names BLANK (see
      SuitFromCharTotal). */
  function SuitFromChar(ch: char): CardSuit
  {
    match ch
    case '\U{2664}' => CardSuit.SPADES
    case '\U{2660}' => CardSuit.SPADES
    case 'S' => CardSuit.SPADES
    case 's' => CardSuit.SPADES
    case '\U{2661}' => CardSuit.HEARTS
    case '\U{2665}' => CardSuit.HEARTS
    case 'H' => CardSuit.HEARTS
    case 'h' => CardSuit.HEARTS
    case '\U{2662}' => CardSuit.DIAMONDS
    case '\U{2666}' => CardSuit.DIAMONDS
    case 'D' => CardSuit.DIAMONDS
    case 'd' => CardSuit.DIAMONDS
    case '\U{2667}' => CardSuit.CLUBS
    case '\U{2663}' => CardSuit.CLUBS
    case 'C' => CardSuit.CLUBS
    case 'c' => CardSuit.CLUBS
    case _ => CardSuit.BLANK
  }

  /** The upper-case letter or digit naming a card's rank, '_' when the rank
      bits name no single rank. */
  function GetRankChar(c: CKCNumber): char {
    var b := GetRankBit(c);
    if b == 4096 then 'A'
    else if b == 2048 then 'K'
    else if b == 1024 then 'Q'
    else if b == 512 then 'J'
    else if b == 256 then 'T'
    else if b == 128 then '9'
    else if b == 64 then '8'
    else if b == 32 then '7'
    else if b == 16 then '6'
    else if b == 8 then '5'
    else if b == 4 then '4'
    else if b == 2 then '3'
    else if b == 1 then '2'
    else '_'
  }

  /** The upper-case letter naming a card's suit, '_' when the suit bits name
      no single suit. */
  function GetSuitLetter(c: CKCNumber): char {
    var b := GetSuitBit(c);
    if b == 8 then 'S'
    else if b == 4 then 'H'
    else if b == 2 then 'D'
    else if b == 1 then 'C'
    else '_'
  }

  /** The rank number: deuce 0 up to ace 12; BLANK shares the deuce's 0. */
  function Number(r: CardRank): bv32 {
    match r
    case ACE => 12
    case KING => 11
    case QUEEN => 10
    case JACK => 9
    case TEN => 8
    case NINE => 7
    case EIGHT => 6
    case SEVEN => 5
    case SIX => 4
    case FIVE => 3
    case FOUR => 2
    case THREE => 1
    case _ => 0
  }

  function Prime(r: CardRank): bv32 {
    match r
    case ACE => 41
    case KING => 37
    case QUEEN => 31
    case JACK => 29
    case TEN => 23
    case NINE => 19
    case EIGHT => 17
    case SEVEN => 13
    case SIX => 11
    case FIVE => 7
    case FOUR => 5
    case THREE => 3
    case TWO => 2
    case BLANK => 0
  }

  function Bits(r: CardRank): bv32 {
    (1 as bv32) << (16 + Number(r))
  }

  function Shift8(r: CardRank): bv32 {
    Number(r) << 8
  }

  function BinarySignature(s: CardSuit): bv32 {
    match s
    case SPADES => 0x8000
    case HEARTS => 0x4000
    case DIAMONDS => 0x2000
    case CLUBS => 0x1000
    case BLANK => 0
  }

  /** A legal card is the table entry for the rank and suit it decodes to.
      LegalIffListed shows these are exactly the 52 card constants. */
  predicate IsLegal(c: CKCNumber) {
    && GetCardRank(c) != CardRank.BLANK
    && GetCardSuit(c) != CardSuit.BLANK
    && CardOf(GetCardRank(c), GetCardSuit(c)) == c
  }

  /** The card constant for a rank and a suit, as the 52 named constants lay
      it out; BLANK_CARD when either part is BLANK. */
  function CardOf(r: CardRank, s: CardSuit): (c: CKCNumber)
    ensures r != CardRank.BLANK && s != CardSuit.BLANK ==> GetCardRank(c) == r && GetCardSuit(c) == s
    ensures r == CardRank.BLANK || s == CardSuit.BLANK ==> c == BLANK_CARD
  {
    match s
    case SPADES => SpadesCard(r)
    case HEARTS => HeartsCard(r)
    case DIAMONDS => DiamondsCard(r)
    case CLUBS => ClubsCard(r)
    case BLANK => BLANK_CARD
  }

  function SpadesCard(r: CardRank): (c: CKCNumber)
    ensures r != CardRank.BLANK ==> GetCardRank(c) == r
    ensures r != CardRank.BLANK ==> GetCardSuit(c) == CardSuit.SPADES
  {
    match r
    case ACE => 0x1000_8C29
    case KING => 0x0800_8B25
    case QUEEN => 0x0400_8A1F
    case JACK => 0x0200_891D
    case TEN => 0x0100_8817
    case NINE => 0x0080_8713
    case EIGHT => 0x0040_8611
    case SEVEN => 0x0020_850D
    case SIX => 0x0010_840B
    case FIVE => 0x0008_8307
    case FOUR => 0x0004_8205
    case THREE => 0x0002_8103
    case TWO => 0x0001_8002
    case BLANK => BLANK_CARD
  }

  function HeartsCard(r: CardRank): (c: CKCNumber)
    ensures r != CardRank.BLANK ==> GetCardRank(c) == r
    ensures r != CardRank.BLANK ==> GetCardSuit(c) == CardSuit.HEARTS
  {
    match r
    case ACE => 0x1000_4C29
    case KING => 0x0800_4B25
    case QUEEN => 0x0400_4A1F
    case JACK => 0x0200_491D
    case TEN => 0x0100_4817
    case NINE => 0x0080_4713
    case EIGHT => 0x0040_4611
    case SEVEN => 0x0020_450D
    case SIX => 0x0010_440B
    case FIVE => 0x0008_4307
    case FOUR => 0x0004_4205
    case THREE => 0x0002_4103
    case TWO => 0x0001_4002
    case BLANK => BLANK_CARD
  }

  function DiamondsCard(r: CardRank): (c: CKCNumber)
    ensures r != CardRank.BLANK ==> GetCardRank(c) == r
    ensures r != CardRank.BLANK ==> GetCardSuit(c) == CardSuit.DIAMONDS
  {
    match r
    case ACE => 0x1000_2C29
    case KING => 0x0800_2B25
    case QUEEN => 0x0400_2A1F
    case JACK => 0x0200_291D
    case TEN => 0x0100_2817
    case NINE => 0x0080_2713
    case EIGHT => 0x0040_2611
    case SEVEN => 0x0020_250D
    case SIX => 0x0010_240B
    case FIVE => 0x0008_2307
    case FOUR => 0x0004_2205
    case THREE => 0x0002_2103
    case TWO => 0x0001_2002
    case BLANK => BLANK_CARD
  }

  function ClubsCard(r: CardRank): (c: CKCNumber)
    ensures r != CardRank.BLANK ==> GetCardRank(c) == r
    ensures r != CardRank.BLANK ==> GetCardSuit(c) == CardSuit.CLUBS
  {
    match r
    case ACE => 0x1000_1C29
    case KING => 0x0800_1B25
    case QUEEN => 0x0400_1A1F
    case JACK => 0x0200_191D
    case TEN => 0x0100_1817
    case NINE => 0x0080_1713
    case EIGHT => 0x0040_1611
    case SEVEN => 0x0020_150D
    case SIX => 0x0010_140B
    case FIVE => 0x0008_1307
    case FOUR => 0x0004_1205
    case THREE => 0x0002_1103
    case TWO => 0x0001_1002
    case BLANK => BLANK_CARD
  }

  /** Every one of the 52 constants passes unchanged; every other word,
      flagged cards and stray bits included, becomes BLANK. */
  function Filter(c: CKCNumber): (r: CKCNumber)
    ensures r == BLANK_CARD || IsLegal(r)
    ensures r == c <==> IsLegal(c) || c == BLANK_CARD
    ensures !IsLegal(c) ==> r == BLANK_CARD
    ensures r == (if Listed(c) then c else BLANK_CARD)
  {
    LegalIffListed(c);
    if IsLegal(c) then c else BLANK_CARD
  }

  function Create(r: CardRank, s: CardSuit): (c: CKCNumber)
    ensures c == CardOf(r, s)
  {
    CreateMatchesTable(r, s);
    Filter(Bits(r) | Prime(r) | Shift8(r) | BinarySignature(s))
  }

  function GetRankFlag(c: CKCNumber): bv32 {
    c & RANK_FLAG_FILTER
  }

  function GetRankBit(c: CKCNumber): bv32 {
    GetRankFlag(c) >> RANK_FLAG_SHIFT
  }

  function GetRankPrime(c: CKCNumber): bv32 {
    c & RANK_PRIME_FILTER
  }

  function GetSuitFlag(c: CKCNumber): bv32 {
    c & SUIT_FILTER
  }

  function GetSuitBit(c: CKCNumber): bv32 {
    GetSuitFlag(c) >> SUIT_SHIFT
  }

  /** Decodes the rank from the rank bit; anything but exactly one rank's bit
      decodes as BLANK (see RankDecodesFlag). */
  function GetCardRank(c: CKCNumber): (r: CardRank)
  {
    var b := GetRankBit(c);
    if b == 4096 then CardRank.ACE
    else if b == 2048 then CardRank.KING
    else if b == 1024 then CardRank.QUEEN
    else if b == 512 then CardRank.JACK
    else if b == 256 then CardRank.TEN
    else if b == 128 then CardRank.NINE
    else if b == 64 then CardRank.EIGHT
    else if b == 32 then CardRank.SEVEN
    else if b == 16 then CardRank.SIX
    else if b == 8 then CardRank.FIVE
    else if b == 4 then CardRank.FOUR
    else if b == 2 then CardRank.THREE
    else if b == 1 then CardRank.TWO
    else CardRank.BLANK
  }

  /** Decodes the suit from the suit bit; anything but exactly one suit's bit
      decodes as BLANK (see SuitDecodesFlag). */
  function GetCardSuit(c: CKCNumber): (s: CardSuit)
  {
    var b := GetSuitBit(c);
    if b == 8 then CardSuit.SPADES
    else if b == 4 then CardSuit.HEARTS
    else if b == 2 then CardSuit.DIAMONDS
    else if b == 1 then CardSuit.CLUBS
    else CardSuit.BLANK
  }

  predicate IsBlank(c: CKCNumber) {
    c == BLANK_CARD
  }

  function FlagAsPair(c: CKCNumber): CKCNumber {
    c | PAIR
  }

  function FlagAsTrips(c: CKCNumber): CKCNumber {
    c | TRIPS
  }

  function FlagAsQuads(c: CKCNumber): CKCNumber {
    c | QUADS
  }

  function StripMultiplesFlags(c: CKCNumber): CKCNumber {
    MULTIPLES_FILTER & c
  }

  /** The suit a card moves to when it is shifted: S, H, D, C and round. */
  function NextSuit(c: CKCNumber): (s: CardSuit)
    ensures s == CardSuit.BLANK <==> GetCardSuit(c) == CardSuit.BLANK
  {
    SuitAfter(GetCardSuit(c))
  }

  function SuitAfter(s: CardSuit): CardSuit {
    match s
    case SPADES => CardSuit.HEARTS
    case HEARTS => CardSuit.DIAMONDS
    case DIAMONDS => CardSuit.CLUBS
    case CLUBS => CardSuit.SPADES
    case BLANK => CardSuit.BLANK
  }

  /** The same rank in the next suit. */
  function ShiftSuit(c: CKCNumber): (r: CKCNumber)
    ensures r == BLANK_CARD || IsLegal(r)
    ensures GetCardSuit(c) == CardSuit.BLANK || GetCardRank(c) == CardRank.BLANK ==> r == BLANK_CARD
  {
    Create(GetCardRank(c), NextSuit(c))
  }

  /** True when the five cards share a suit bit (the suit flags of all five,
      ANDed together, are not zero). */
  predicate IsFlush(five: seq<CKCNumber>)
    requires |five| == 5
  {
    five[0] & five[1] & five[2] & five[3] & five[4] & SUIT_FILTER != 0
  }

  lemma CreateMatchesTable(r: CardRank, s: CardSuit)
    ensures Filter(Bits(r) | Prime(r) | Shift8(r) | BinarySignature(s)) == CardOf(r, s)
  {
    match s
    case SPADES => SpadesCreate(r, s);
    case HEARTS => HeartsCreate(r, s);
    case DIAMONDS => DiamondsCreate(r, s);
    case CLUBS => ClubsCreate(r, s);
    case BLANK => BlankSuitCreate(r, s);
  }

  lemma SpadesCreate(r: CardRank, s: CardSuit)
    requires s == CardSuit.SPADES
    ensures Filter(Bits(r) | Prime(r) | Shift8(r) | BinarySignature(s)) == SpadesCard(r)
  {
  }

  lemma SpadesListed(r: CardRank)
    ensures SpadesCard(r) == BLANK_CARD
         || SpadesCard(r) == ACE_SPADES
         || SpadesCard(r) == KING_SPADES
         || SpadesCard(r) == QUEEN_SPADES
         || SpadesCard(r) == JACK_SPADES
         || SpadesCard(r) == TEN_SPADES
         || SpadesCard(r) == NINE_SPADES
         || SpadesCard(r) == EIGHT_SPADES
         || SpadesCard(r) == SEVEN_SPADES
         || SpadesCard(r) == SIX_SPADES
         || SpadesCard(r) == FIVE_SPADES
         || SpadesCard(r) == FOUR_SPADES
         || SpadesCard(r) == TREY_SPADES
         || SpadesCard(r) == DEUCE_SPADES
  {
  }

  lemma SpadesListedLegal(r: CardRank)
    requires r != CardRank.BLANK
    ensures IsLegal(SpadesCard(r))
  {
  }

  lemma SpadesLayout(r: CardRank)
    requires r != CardRank.BLANK
    ensures GetRankFlag(SpadesCard(r)) == Bits(r)
    ensures GetSuitFlag(SpadesCard(r)) == BinarySignature(CardSuit.SPADES)
    ensures GetRankPrime(SpadesCard(r)) == Prime(r)
    ensures StripMultiplesFlags(SpadesCard(r)) == SpadesCard(r)
  {
  }

  lemma HeartsCreate(r: CardRank, s: CardSuit)
    requires s == CardSuit.HEARTS
    ensures Filter(Bits(r) | Prime(r) | Shift8(r) | BinarySignature(s)) == HeartsCard(r)
  {
  }

  lemma HeartsListed(r: CardRank)
    ensures HeartsCard(r) == BLANK_CARD
         || HeartsCard(r) == ACE_HEARTS
         || HeartsCard(r) == KING_HEARTS
         || HeartsCard(r) == QUEEN_HEARTS
         || HeartsCard(r) == JACK_HEARTS
         || HeartsCard(r) == TEN_HEARTS
         || HeartsCard(r) == NINE_HEARTS
         || HeartsCard(r) == EIGHT_HEARTS
         || HeartsCard(r) == SEVEN_HEARTS
         || HeartsCard(r) == SIX_HEARTS
         || HeartsCard(r) == FIVE_HEARTS
         || HeartsCard(r) == FOUR_HEARTS
         || HeartsCard(r) == TREY_HEARTS
         || HeartsCard(r) == DEUCE_HEARTS
  {
  }

  lemma HeartsListedLegal(r: CardRank)
    requires r != CardRank.BLANK
    ensures IsLegal(HeartsCard(r))
  {
  }

  lemma HeartsLayout(r: CardRank)
    requires r != CardRank.BLANK
    ensures GetRankFlag(HeartsCard(r)) == Bits(r)
    ensures GetSuitFlag(HeartsCard(r)) == BinarySignature(CardSuit.HEARTS)
    ensures GetRankPrime(HeartsCard(r)) == Prime(r)
    ensures StripMultiplesFlags(HeartsCard(r)) == HeartsCard(r)
  {
  }

  lemma DiamondsCreate(r: CardRank, s: CardSuit)
    requires s == CardSuit.DIAMONDS
    ensures Filter(Bits(r) | Prime(r) | Shift8(r) | BinarySignature(s)) == DiamondsCard(r)
  {
  }

  lemma DiamondsListed(r: CardRank)
    ensures DiamondsCard(r) == BLANK_CARD
         || DiamondsCard(r) == ACE_DIAMONDS
         || DiamondsCard(r) == KING_DIAMONDS
         || DiamondsCard(r) == QUEEN_DIAMONDS
         || DiamondsCard(r) == JACK_DIAMONDS
         || DiamondsCard(r) == TEN_DIAMONDS
         || DiamondsCard(r) == NINE_DIAMONDS
         || DiamondsCard(r) == EIGHT_DIAMONDS
         || DiamondsCard(r) == SEVEN_DIAMONDS
         || DiamondsCard(r) == SIX_DIAMONDS
         || DiamondsCard(r) == FIVE_DIAMONDS
         || DiamondsCard(r) == FOUR_DIAMONDS
         || DiamondsCard(r) == TREY_DIAMONDS
         || DiamondsCard(r) == DEUCE_DIAMONDS
  {
  }

  lemma DiamondsListedLegal(r: CardRank)
    requires r != CardRank.BLANK
    ensures IsLegal(DiamondsCard(r))
  {
  }

  lemma DiamondsLayout(r: CardRank)
    requires r != CardRank.BLANK
    ensures GetRankFlag(DiamondsCard(r)) == Bits(r)
    ensures GetSuitFlag(DiamondsCard(r)) == BinarySignature(CardSuit.DIAMONDS)
    ensures GetRankPrime(DiamondsCard(r)) == Prime(r)
    ensures StripMultiplesFlags(DiamondsCard(r)) == DiamondsCard(r)
  {
  }

  lemma ClubsCreate(r: CardRank, s: CardSuit)
    requires s == CardSuit.CLUBS
    ensures Filter(Bits(r) | Prime(r) | Shift8(r) | BinarySignature(s)) == ClubsCard(r)
  {
  }

  lemma ClubsListed(r: CardRank)
    ensures ClubsCard(r) == BLANK_CARD
         || ClubsCard(r) == ACE_CLUBS
         || ClubsCard(r) == KING_CLUBS
         || ClubsCard(r) == QUEEN_CLUBS
         || ClubsCard(r) == JACK_CLUBS
         || ClubsCard(r) == TEN_CLUBS
         || ClubsCard(r) == NINE_CLUBS
         || ClubsCard(r) == EIGHT_CLUBS
         || ClubsCard(r) == SEVEN_CLUBS
         || ClubsCard(r) == SIX_CLUBS
         || ClubsCard(r) == FIVE_CLUBS
         || ClubsCard(r) == FOUR_CLUBS
         || ClubsCard(r) == TREY_CLUBS
         || ClubsCard(r) == DEUCE_CLUBS
  {
  }

  lemma ClubsListedLegal(r: CardRank)
    requires r != CardRank.BLANK
    ensures IsLegal(ClubsCard(r))
  {
  }

  lemma ClubsLayout(r: CardRank)
    requires r != CardRank.BLANK
    ensures GetRankFlag(ClubsCard(r)) == Bits(r)
    ensures GetSuitFlag(ClubsCard(r)) == BinarySignature(CardSuit.CLUBS)
    ensures GetRankPrime(ClubsCard(r)) == Prime(r)
    ensures StripMultiplesFlags(ClubsCard(r)) == ClubsCard(r)
  {
  }

  lemma BlankSuitCreate(r: CardRank, s: CardSuit)
    requires s == CardSuit.BLANK
    ensures Filter(Bits(r) | Prime(r) | Shift8(r) | BinarySignature(s)) == BLANK_CARD
  {
  }

  lemma SpadesListedIsLegal(c: CKCNumber)
    requires c == ACE_SPADES
          || c == KING_SPADES
          || c == QUEEN_SPADES
          || c == JACK_SPADES
          || c == TEN_SPADES
          || c == NINE_SPADES
          || c == EIGHT_SPADES
          || c == SEVEN_SPADES
          || c == SIX_SPADES
          || c == FIVE_SPADES
          || c == FOUR_SPADES
          || c == TREY_SPADES
          || c == DEUCE_SPADES
    ensures IsLegal(c)
  {
    if c == ACE_SPADES {
      SpadesListedLegal(CardRank.ACE);
    } else if c == KING_SPADES {
      SpadesListedLegal(CardRank.KING);
    } else if c == QUEEN_SPADES {
      SpadesListedLegal(CardRank.QUEEN);
    } else if c == JACK_SPADES {
      SpadesListedLegal(CardRank.JACK);
    } else if c == TEN_SPADES {
      SpadesListedLegal(CardRank.TEN);
    } else if c == NINE_SPADES {
      SpadesListedLegal(CardRank.NINE);
    } else if c == EIGHT_SPADES {
      SpadesListedLegal(CardRank.EIGHT);
    } else if c == SEVEN_SPADES {
      SpadesListedLegal(CardRank.SEVEN);
    } else if c == SIX_SPADES {
      SpadesListedLegal(CardRank.SIX);
    } else if c == FIVE_SPADES {
      SpadesListedLegal(CardRank.FIVE);
    } else if c == FOUR_SPADES {
      SpadesListedLegal(CardRank.FOUR);
    } else if c == TREY_SPADES {
      SpadesListedLegal(CardRank.THREE);
    } else if c == DEUCE_SPADES {
      SpadesListedLegal(CardRank.TWO);
    }
  }

  lemma HeartsListedIsLegal(c: CKCNumber)
    requires c == ACE_HEARTS
          || c == KING_HEARTS
          || c == QUEEN_HEARTS
          || c == JACK_HEARTS
          || c == TEN_HEARTS
          || c == NINE_HEARTS
          || c == EIGHT_HEARTS
          || c == SEVEN_HEARTS
          || c == SIX_HEARTS
          || c == FIVE_HEARTS
          || c == FOUR_HEARTS
          || c == TREY_HEARTS
          || c == DEUCE_HEARTS
    ensures IsLegal(c)
  {
    if c == ACE_HEARTS {
      HeartsListedLegal(CardRank.ACE);
    } else if c == KING_HEARTS {
      HeartsListedLegal(CardRank.KING);
    } else if c == QUEEN_HEARTS {
      HeartsListedLegal(CardRank.QUEEN);
    } else if c == JACK_HEARTS {
      HeartsListedLegal(CardRank.JACK);
    } else if c == TEN_HEARTS {
      HeartsListedLegal(CardRank.TEN);
    } else if c == NINE_HEARTS {
      HeartsListedLegal(CardRank.NINE);
    } else if c == EIGHT_HEARTS {
      HeartsListedLegal(CardRank.EIGHT);
    } else if c == SEVEN_HEARTS {
      HeartsListedLegal(CardRank.SEVEN);
    } else if c == SIX_HEARTS {
      HeartsListedLegal(CardRank.SIX);
    } else if c == FIVE_HEARTS {
      HeartsListedLegal(CardRank.FIVE);
    } else if c == FOUR_HEARTS {
      HeartsListedLegal(CardRank.FOUR);
    } else if c == TREY_HEARTS {
      HeartsListedLegal(CardRank.THREE);
    } else if c == DEUCE_HEARTS {
      HeartsListedLegal(CardRank.TWO);
    }
  }

  lemma DiamondsListedIsLegal(c: CKCNumber)
    requires c == ACE_DIAMONDS
          || c == KING_DIAMONDS
          || c == QUEEN_DIAMONDS
          || c == JACK_DIAMONDS
          || c == TEN_DIAMONDS
          || c == NINE_DIAMONDS
          || c == EIGHT_DIAMONDS
          || c == SEVEN_DIAMONDS
          || c == SIX_DIAMONDS
          || c == FIVE_DIAMONDS
          || c == FOUR_DIAMONDS
          || c == TREY_DIAMONDS
          || c == DEUCE_DIAMONDS
    ensures IsLegal(c)
  {
    if c == ACE_DIAMONDS {
      DiamondsListedLegal(CardRank.ACE);
    } else if c == KING_DIAMONDS {
      DiamondsListedLegal(CardRank.KING);
    } else if c == QUEEN_DIAMONDS {
      DiamondsListedLegal(CardRank.QUEEN);
    } else if c == JACK_DIAMONDS {
      DiamondsListedLegal(CardRank.JACK);
    } else if c == TEN_DIAMONDS {
      DiamondsListedLegal(CardRank.TEN);
    } else if c == NINE_DIAMONDS {
      DiamondsListedLegal(CardRank.NINE);
    } else if c == EIGHT_DIAMONDS {
      DiamondsListedLegal(CardRank.EIGHT);
    } else if c == SEVEN_DIAMONDS {
      DiamondsListedLegal(CardRank.SEVEN);
    } else if c == SIX_DIAMONDS {
      DiamondsListedLegal(CardRank.SIX);
    } else if c == FIVE_DIAMONDS {
      DiamondsListedLegal(CardRank.FIVE);
    } else if c == FOUR_DIAMONDS {
      DiamondsListedLegal(CardRank.FOUR);
    } else if c == TREY_DIAMONDS {
      DiamondsListedLegal(CardRank.THREE);
    } else if c == DEUCE_DIAMONDS {
      DiamondsListedLegal(CardRank.TWO);
    }
  }

  lemma ClubsListedIsLegal(c: CKCNumber)
    requires c == ACE_CLUBS
          || c == KING_CLUBS
          || c == QUEEN_CLUBS
          || c == JACK_CLUBS
          || c == TEN_CLUBS
          || c == NINE_CLUBS
          || c == EIGHT_CLUBS
          || c == SEVEN_CLUBS
          || c == SIX_CLUBS
          || c == FIVE_CLUBS
          || c == FOUR_CLUBS
          || c == TREY_CLUBS
          || c == DEUCE_CLUBS
    ensures IsLegal(c)
  {
    if c == ACE_CLUBS {
      ClubsListedLegal(CardRank.ACE);
    } else if c == KING_CLUBS {
      ClubsListedLegal(CardRank.KING);
    } else if c == QUEEN_CLUBS {
      ClubsListedLegal(CardRank.QUEEN);
    } else if c == JACK_CLUBS {
      ClubsListedLegal(CardRank.JACK);
    } else if c == TEN_CLUBS {
      ClubsListedLegal(CardRank.TEN);
    } else if c == NINE_CLUBS {
      ClubsListedLegal(CardRank.NINE);
    } else if c == EIGHT_CLUBS {
      ClubsListedLegal(CardRank.EIGHT);
    } else if c == SEVEN_CLUBS {
      ClubsListedLegal(CardRank.SEVEN);
    } else if c == SIX_CLUBS {
      ClubsListedLegal(CardRank.SIX);
    } else if c == FIVE_CLUBS {
      ClubsListedLegal(CardRank.FIVE);
    } else if c == FOUR_CLUBS {
      ClubsListedLegal(CardRank.FOUR);
    } else if c == TREY_CLUBS {
      ClubsListedLegal(CardRank.THREE);
    } else if c == DEUCE_CLUBS {
      ClubsListedLegal(CardRank.TWO);
    }
  }


  /** IsLegal holds for exactly the 52 card constants, the arms of
      `filter`. */
  lemma LegalIffListed(c: CKCNumber)
    ensures IsLegal(c) <==> Listed(c)
  {
    if IsLegal(c) {
      LegalIsListed(c);
    } else if Listed(c) {
      ListedIsLegal(c);
    }
  }

  /** The 52 card constants. */
  predicate Listed(c: CKCNumber) {
         c == ACE_SPADES
      || c == KING_SPADES
      || c == QUEEN_SPADES
      || c == JACK_SPADES
      || c == TEN_SPADES
      || c == NINE_SPADES
      || c == EIGHT_SPADES
      || c == SEVEN_SPADES
      || c == SIX_SPADES
      || c == FIVE_SPADES
      || c == FOUR_SPADES
      || c == TREY_SPADES
      || c == DEUCE_SPADES
      || c == ACE_HEARTS
      || c == KING_HEARTS
      || c == QUEEN_HEARTS
      || c == JACK_HEARTS
      || c == TEN_HEARTS
      || c == NINE_HEARTS
      || c == EIGHT_HEARTS
      || c == SEVEN_HEARTS
      || c == SIX_HEARTS
      || c == FIVE_HEARTS
      || c == FOUR_HEARTS
      || c == TREY_HEARTS
      || c == DEUCE_HEARTS
      || c == ACE_DIAMONDS
      || c == KING_DIAMONDS
      || c == QUEEN_DIAMONDS
      || c == JACK_DIAMONDS
      || c == TEN_DIAMONDS
      || c == NINE_DIAMONDS
      || c == EIGHT_DIAMONDS
      || c == SEVEN_DIAMONDS
      || c == SIX_DIAMONDS
      || c == FIVE_DIAMONDS
      || c == FOUR_DIAMONDS
      || c == TREY_DIAMONDS
      || c == DEUCE_DIAMONDS
      || c == ACE_CLUBS
      || c == KING_CLUBS
      || c == QUEEN_CLUBS
      || c == JACK_CLUBS
      || c == TEN_CLUBS
      || c == NINE_CLUBS
      || c == EIGHT_CLUBS
      || c == SEVEN_CLUBS
      || c == SIX_CLUBS
      || c == FIVE_CLUBS
      || c == FOUR_CLUBS
      || c == TREY_CLUBS
      || c == DEUCE_CLUBS
  }

  lemma LegalIsListed(c: CKCNumber)
    requires IsLegal(c)
    ensures Listed(c)
  {
    var r := GetCardRank(c);
    match GetCardSuit(c)
    case SPADES => SpadesListed(r);
    case HEARTS => HeartsListed(r);
    case DIAMONDS => DiamondsListed(r);
    case CLUBS => ClubsListed(r);
  }

  lemma ListedIsLegal(c: CKCNumber)
    requires Listed(c)
    ensures IsLegal(c)
  {
      if c == ACE_SPADES
          || c == KING_SPADES
          || c == QUEEN_SPADES
          || c == JACK_SPADES
          || c == TEN_SPADES
          || c == NINE_SPADES
          || c == EIGHT_SPADES
          || c == SEVEN_SPADES
          || c == SIX_SPADES
          || c == FIVE_SPADES
          || c == FOUR_SPADES
          || c == TREY_SPADES
          || c == DEUCE_SPADES {
        SpadesListedIsLegal(c);
      } else if c == ACE_HEARTS
          || c == KING_HEARTS
          || c == QUEEN_HEARTS
          || c == JACK_HEARTS
          || c == TEN_HEARTS
          || c == NINE_HEARTS
          || c == EIGHT_HEARTS
          || c == SEVEN_HEARTS
          || c == SIX_HEARTS
          || c == FIVE_HEARTS
          || c == FOUR_HEARTS
          || c == TREY_HEARTS
          || c == DEUCE_HEARTS {
        HeartsListedIsLegal(c);
      } else if c == ACE_DIAMONDS
          || c == KING_DIAMONDS
          || c == QUEEN_DIAMONDS
          || c == JACK_DIAMONDS
          || c == TEN_DIAMONDS
          || c == NINE_DIAMONDS
          || c == EIGHT_DIAMONDS
          || c == SEVEN_DIAMONDS
          || c == SIX_DIAMONDS
          || c == FIVE_DIAMONDS
          || c == FOUR_DIAMONDS
          || c == TREY_DIAMONDS
          || c == DEUCE_DIAMONDS {
        DiamondsListedIsLegal(c);
      } else if c == ACE_CLUBS
          || c == KING_CLUBS
          || c == QUEEN_CLUBS
          || c == JACK_CLUBS
          || c == TEN_CLUBS
          || c == NINE_CLUBS
          || c == EIGHT_CLUBS
          || c == SEVEN_CLUBS
          || c == SIX_CLUBS
          || c == FIVE_CLUBS
          || c == FOUR_CLUBS
          || c == TREY_CLUBS
          || c == DEUCE_CLUBS {
        ClubsListedIsLegal(c);
      }
  }

  /** The rank decoder inverts the rank encoder: a word decodes to a rank
      exactly when its rank flag is that rank's bit. */
  lemma RankDecodesFlag(c: CKCNumber, q: CardRank)
    requires q != CardRank.BLANK
    ensures GetCardRank(c) == q <==> GetRankFlag(c) == Bits(q)
  {
  }

  /** The suit decoder inverts the suit encoder. */
  lemma SuitDecodesFlag(c: CKCNumber, t: CardSuit)
    requires t != CardSuit.BLANK
    ensures GetCardSuit(c) == t <==> GetSuitFlag(c) == BinarySignature(t)
  {
  }

  /** Each rank has its own prime. */
  lemma PrimesDistinct(q: CardRank, q': CardRank)
    requires q != CardRank.BLANK && q' != CardRank.BLANK
    ensures Prime(q) == Prime(q') ==> q == q'
  {
  }

  /** A legal card carries exactly its rank's bit, its suit's bit and its
      rank's prime, and none of the multiples flags. */
  lemma LegalLayout(c: CKCNumber)
    requires IsLegal(c)
    ensures GetRankFlag(c) == Bits(GetCardRank(c))
    ensures GetSuitFlag(c) == BinarySignature(GetCardSuit(c))
    ensures GetRankPrime(c) == Prime(GetCardRank(c))
    ensures StripMultiplesFlags(c) == c
  {
    var r := GetCardRank(c);
    match GetCardSuit(c)
    case SPADES => SpadesLayout(r);
    case HEARTS => HeartsLayout(r);
    case DIAMONDS => DiamondsLayout(r);
    case CLUBS => ClubsLayout(r);
  }

  /** A character names a real rank exactly when it is one of the rank
      characters. */
  lemma RankFromCharTotal(ch: char)
    ensures RankFromChar(ch) == CardRank.BLANK <==> ch !in RANK_CHARS
  {
  }

  /** A character names a real suit exactly when it is one of the suit
      characters. */
  lemma SuitFromCharTotal(ch: char)
    ensures SuitFromChar(ch) == CardSuit.BLANK <==> ch !in SUIT_CHARS
  {
  }

  /** Reading a card's rank letter back gives the card's rank, BLANK
      included. */
  lemma RankCharRoundTrip(c: CKCNumber)
    ensures RankFromChar(GetRankChar(c)) == GetCardRank(c)
  {
    var b := GetRankBit(c);
    if b == 4096 {
      assert RankFromChar('A') == CardRank.ACE;
    } else if b == 2048 {
      assert RankFromChar('K') == CardRank.KING;
    } else if b == 1024 {
      assert RankFromChar('Q') == CardRank.QUEEN;
    } else if b == 512 {
      assert RankFromChar('J') == CardRank.JACK;
    } else if b == 256 {
      assert RankFromChar('T') == CardRank.TEN;
    } else if b == 128 {
      assert RankFromChar('9') == CardRank.NINE;
    } else if b == 64 {
      assert RankFromChar('8') == CardRank.EIGHT;
    } else if b == 32 {
      assert RankFromChar('7') == CardRank.SEVEN;
    } else if b == 16 {
      assert RankFromChar('6') == CardRank.SIX;
    } else if b == 8 {
      assert RankFromChar('5') == CardRank.FIVE;
    } else if b == 4 {
      assert RankFromChar('4') == CardRank.FOUR;
    } else if b == 2 {
      assert RankFromChar('3') == CardRank.THREE;
    } else if b == 1 {
      assert RankFromChar('2') == CardRank.TWO;
    } else {
      assert RankFromChar('_') == CardRank.BLANK;
    }
  }

  /** Reading a card's suit letter back gives the card's suit, BLANK
      included. */
  lemma SuitLetterRoundTrip(c: CKCNumber)
    ensures SuitFromChar(GetSuitLetter(c)) == GetCardSuit(c)
  {
  }

  /** A rank's flag is a single bit inside the rank-flag field. */
  lemma RankFlagIsOneBit(r: CardRank)
    requires r != CardRank.BLANK
    ensures Bits(r) & RANK_FLAG_FILTER == Bits(r)
    ensures Bits(r) & (Bits(r) - 1) == 0
  {
  }

  /** A suit's signature is a single bit inside the suit field. */
  lemma SuitFlagIsOneBit(s: CardSuit)
    requires s != CardSuit.BLANK
    ensures BinarySignature(s) & SUIT_FILTER == BinarySignature(s)
    ensures BinarySignature(s) & (BinarySignature(s) - 1) == 0
  {
  }

  /** Creating a card from a real rank and a real suit gives one of the 52
      constants, and it decodes back to that rank and suit. */
  lemma CreateDecodes(r: CardRank, s: CardSuit)
    requires r != CardRank.BLANK && s != CardSuit.BLANK
    ensures Listed(Create(r, s))
    ensures GetCardRank(Create(r, s)) == r
    ensures GetCardSuit(Create(r, s)) == s
  {
    var c := Create(r, s);
    assert IsLegal(c);
    LegalIsListed(c);
  }

  /** Creating a card with a BLANK rank or suit gives BLANK. */
  lemma CreateBlank(r: CardRank, s: CardSuit)
    requires r == CardRank.BLANK || s == CardSuit.BLANK
    ensures Create(r, s) == BLANK_CARD
  {
  }

  lemma FilterIdempotent(c: CKCNumber)
    ensures Filter(Filter(c)) == Filter(c)
  {
  }

  lemma ShiftSuitLegal(c: CKCNumber)
    requires IsLegal(c)
    ensures IsLegal(ShiftSuit(c))
    ensures GetCardRank(ShiftSuit(c)) == GetCardRank(c)
    ensures GetCardSuit(ShiftSuit(c)) == NextSuit(c)
  {
  }

  /** Four suit shifts bring a legal card back to itself. */
  lemma ShiftSuitFourTimes(c: CKCNumber)
    requires IsLegal(c)
    ensures ShiftSuit(ShiftSuit(ShiftSuit(ShiftSuit(c)))) == c
  {
    var c1 := ShiftSuit(c);
    ShiftSuitLegal(c);
    var c2 := ShiftSuit(c1);
    ShiftSuitLegal(c1);
    var c3 := ShiftSuit(c2);
    ShiftSuitLegal(c2);
    var c4 := ShiftSuit(c3);
    ShiftSuitLegal(c3);
    assert GetCardSuit(c4) == GetCardSuit(c) by {
      match GetCardSuit(c)
      case SPADES =>
      case HEARTS =>
      case DIAMONDS =>
      case CLUBS =>
    }
  }

  /** Shifting runs the suits spades, hearts, diamonds, clubs and back to
      spades, so a card and its next three shifts are in four different
      suits. */
  lemma ShiftSuitCycles(c: CKCNumber)
    requires IsLegal(c)
    ensures GetCardSuit(c) == CardSuit.SPADES ==> GetCardSuit(ShiftSuit(c)) == CardSuit.HEARTS
    ensures GetCardSuit(c) == CardSuit.HEARTS ==> GetCardSuit(ShiftSuit(c)) == CardSuit.DIAMONDS
    ensures GetCardSuit(c) == CardSuit.DIAMONDS ==> GetCardSuit(ShiftSuit(c)) == CardSuit.CLUBS
    ensures GetCardSuit(c) == CardSuit.CLUBS ==> GetCardSuit(ShiftSuit(c)) == CardSuit.SPADES
    ensures SuitsDiffer(GetCardSuit(c), GetCardSuit(ShiftSuit(c)),
                        GetCardSuit(ShiftSuit(ShiftSuit(c))),
                        GetCardSuit(ShiftSuit(ShiftSuit(ShiftSuit(c)))))
  {
    var c1 := ShiftSuit(c);
    ShiftSuitLegal(c);
    var c2 := ShiftSuit(c1);
    ShiftSuitLegal(c1);
    var c3 := ShiftSuit(c2);
    ShiftSuitLegal(c2);
    var s0, s1, s2, s3 := GetCardSuit(c), GetCardSuit(c1), GetCardSuit(c2), GetCardSuit(c3);
    assert s1 == SuitAfter(s0) && s2 == SuitAfter(s1) && s3 == SuitAfter(s2);
    NextSuitCycles(s0, s1, s2, s3);
  }

  /** Four suits, pairwise different. */
  predicate SuitsDiffer(a: CardSuit, b: CardSuit, c: CardSuit, d: CardSuit) {
    a != b && a != c && a != d && b != c && b != d && c != d
  }

  lemma NextSuitCycles(s0: CardSuit, s1: CardSuit, s2: CardSuit, s3: CardSuit)
    requires s0 != CardSuit.BLANK
    requires s1 == SuitAfter(s0) && s2 == SuitAfter(s1) && s3 == SuitAfter(s2)
    ensures SuitsDiffer(s0, s1, s2, s3)
  {
  }

  /** Setting any of the multiples flags and stripping them again gives back
      a legal card, however the flags are chained. */
  lemma StripUndoesFlags(c: CKCNumber)
    requires IsLegal(c)
    ensures StripMultiplesFlags(FlagAsPair(c)) == c
    ensures StripMultiplesFlags(FlagAsTrips(c)) == c
    ensures StripMultiplesFlags(FlagAsQuads(c)) == c
    ensures StripMultiplesFlags(FlagAsQuads(FlagAsTrips(FlagAsPair(c)))) == c
  {
    LegalLayout(c);
    StripAbovePair(c);
    StripAboveTrips(c);
    StripAboveQuads(c);
    StripAboveAll(c);
  }

  lemma StripAbovePair(x: bv32)
    requires StripMultiplesFlags(x) == x
    ensures StripMultiplesFlags(FlagAsPair(x)) == x
  {
  }

  lemma StripAboveTrips(x: bv32)
    requires StripMultiplesFlags(x) == x
    ensures StripMultiplesFlags(FlagAsTrips(x)) == x
  {
  }

  lemma StripAboveQuads(x: bv32)
    requires StripMultiplesFlags(x) == x
    ensures StripMultiplesFlags(FlagAsQuads(x)) == x
  {
  }

  lemma StripAboveAll(x: bv32)
    requires StripMultiplesFlags(x) == x
    ensures StripMultiplesFlags(FlagAsQuads(FlagAsTrips(FlagAsPair(x)))) == x
  {
  }

  /** Five suit signatures share a bit exactly when the suits are equal. */
  lemma SignaturesMeet(s0: CardSuit, s1: CardSuit, s2: CardSuit, s3: CardSuit, s4: CardSuit)
    requires s0 != CardSuit.BLANK && s1 != CardSuit.BLANK && s2 != CardSuit.BLANK
    requires s3 != CardSuit.BLANK && s4 != CardSuit.BLANK
    ensures (BinarySignature(s0) & BinarySignature(s1) & BinarySignature(s2) & BinarySignature(s3)
             & BinarySignature(s4) != 0) <==> s0 == s1 == s2 == s3 == s4
  {
  }

  /** Masking an AND of five words is the AND of the five masked words. */
  lemma MaskDistributes(x0: bv32, x1: bv32, x2: bv32, x3: bv32, x4: bv32, m: bv32)
    ensures x0 & x1 & x2 & x3 & x4 & m == (x0 & m) & (x1 & m) & (x2 & m) & (x3 & m) & (x4 & m)
  {
  }

  /** The suit bits of a legal card are its suit's signature. */
  lemma SuitBitsOf(c: CKCNumber)
    requires IsLegal(c)
    ensures c & SUIT_FILTER == BinarySignature(GetCardSuit(c))
  {
    LegalLayout(c);
  }

  /** Five words whose suit bits are five suits' signatures share a suit
      bit exactly when the suits are equal. */
  lemma SharedSuitBit(x0: bv32, x1: bv32, x2: bv32, x3: bv32, x4: bv32,
                      s0: CardSuit, s1: CardSuit, s2: CardSuit, s3: CardSuit, s4: CardSuit)
    requires s0 != CardSuit.BLANK && s1 != CardSuit.BLANK && s2 != CardSuit.BLANK
    requires s3 != CardSuit.BLANK && s4 != CardSuit.BLANK
    requires x0 & SUIT_FILTER == BinarySignature(s0)
    requires x1 & SUIT_FILTER == BinarySignature(s1)
    requires x2 & SUIT_FILTER == BinarySignature(s2)
    requires x3 & SUIT_FILTER == BinarySignature(s3)
    requires x4 & SUIT_FILTER == BinarySignature(s4)
    ensures x0 & x1 & x2 & x3 & x4 & SUIT_FILTER != 0 <==> s0 == s1 == s2 == s3 == s4
  {
    MaskDistributes(x0, x1, x2, x3, x4, SUIT_FILTER);
    SignaturesMeet(s0, s1, s2, s3, s4);
  }

  /** Five legal cards share a suit bit exactly when they share a suit. */
  lemma LegalSharedSuitBit(c0: CKCNumber, c1: CKCNumber, c2: CKCNumber, c3: CKCNumber, c4: CKCNumber)
    requires IsLegal(c0) && IsLegal(c1) && IsLegal(c2) && IsLegal(c3) && IsLegal(c4)
    ensures c0 & c1 & c2 & c3 & c4 & SUIT_FILTER != 0 <==>
              GetCardSuit(c0) == GetCardSuit(c1) == GetCardSuit(c2) == GetCardSuit(c3) == GetCardSuit(c4)
  {
    SuitBitsOf(c0);
    SuitBitsOf(c1);
    SuitBitsOf(c2);
    SuitBitsOf(c3);
    SuitBitsOf(c4);
    SharedSuitBit(c0, c1, c2, c3, c4, GetCardSuit(c0), GetCardSuit(c1), GetCardSuit(c2), GetCardSuit(c3), GetCardSuit(c4));
  }

  /** For five legal cards, the flush test holds exactly when all five
      have the same suit. */
  lemma IsFlushIffSameSuit(five: seq<CKCNumber>)
    requires |five| == 5
    requires IsLegal(five[0]) && IsLegal(five[1]) && IsLegal(five[2]) && IsLegal(five[3]) && IsLegal(five[4])
    ensures IsFlush(five) <==>
              GetCardSuit(five[0]) == GetCardSuit(five[1]) == GetCardSuit(five[2]) == GetCardSuit(five[3]) == GetCardSuit(five[4])
  {
    LegalSharedSuitBit(five[0], five[1], five[2], five[3], five[4]);
  }
}
