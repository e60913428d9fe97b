/** A two-card hand (hole cards): its checks, its order, its starting-hand
    tables, and how it is read from an index or recovered from a card set. */
module TwoCards {
  import opened CardNumber
  import opened Wrappers
  import H = Hands
  import Parse
  import BC = BinaryCards
  import P = Peeling
  import HS = HandSets
  import opened BitCount

  /** Two cards, first and second. */
  type Two = h: seq<CKCNumber> | |h| == 2 witness [BLANK_CARD, BLANK_CARD]

  //
  // Ranks as numbers
  //

  /** A rank as `CardRank`'s discriminant: ace 14 down to deuce 2,
      and BLANK 0. */
  function RankValue(r: CardRank): nat {
    match r
    case ACE => 14
    case KING => 13
    case QUEEN => 12
    case JACK => 11
    case TEN => 10
    case NINE => 9
    case EIGHT => 8
    case SEVEN => 7
    case SIX => 6
    case FIVE => 5
    case FOUR => 4
    case THREE => 3
    case TWO => 2
    case BLANK => 0
  }

  /** The rank of a card as a number. */
  function RankOf(c: CKCNumber): nat {
    RankValue(GetCardRank(c))
  }

  /** The least packed value a card of rank r can have: its rank bit alone.
      Every card of the rank lies below Floor(r) + 0x1_0000. */
  function Floor(r: CardRank): nat {
    match r
    case ACE => 0x1000_0000
    case KING => 0x0800_0000
    case QUEEN => 0x0400_0000
    case JACK => 0x0200_0000
    case TEN => 0x0100_0000
    case NINE => 0x0080_0000
    case EIGHT => 0x0040_0000
    case SEVEN => 0x0020_0000
    case SIX => 0x0010_0000
    case FIVE => 0x0008_0000
    case FOUR => 0x0004_0000
    case THREE => 0x0002_0000
    case TWO => 0x0001_0000
    case BLANK => 0
  }

  /** A higher rank has a floor a whole band above. */
  lemma FloorOrder(r: CardRank, q: CardRank)
    ensures RankValue(q) < RankValue(r) ==> Floor(q) + 0x1_0000 <= Floor(r)
  {
  }

  lemma SpadesBand(r: CardRank)
    requires r != CardRank.BLANK
    ensures Floor(r) <= H.Value(SpadesCard(r)) < Floor(r) + 0x1_0000
  {
  }

  lemma HeartsBand(r: CardRank)
    requires r != CardRank.BLANK
    ensures Floor(r) <= H.Value(HeartsCard(r)) < Floor(r) + 0x1_0000
  {
  }

  lemma DiamondsBand(r: CardRank)
    requires r != CardRank.BLANK
    ensures Floor(r) <= H.Value(DiamondsCard(r)) < Floor(r) + 0x1_0000
  {
  }

  lemma ClubsBand(r: CardRank)
    requires r != CardRank.BLANK
    ensures Floor(r) <= H.Value(ClubsCard(r)) < Floor(r) + 0x1_0000
  {
  }

  /** A legal card or BLANK lies in its rank's band of packed values. */
  lemma RankBand(c: CKCNumber)
    requires Parse.LegalOrBlank(c)
    ensures Floor(GetCardRank(c)) <= H.Value(c) < Floor(GetCardRank(c)) + 0x1_0000
  {
    if c == BLANK_CARD {
      assert GetCardRank(c) == CardRank.BLANK;
    } else {
      var r := GetCardRank(c);
      match GetCardSuit(c)
      case SPADES => SpadesBand(r);
      case HEARTS => HeartsBand(r);
      case DIAMONDS => DiamondsBand(r);
      case CLUBS => ClubsBand(r);
    }
  }

  /** Among legal cards and BLANK, a higher rank means a larger packed
      value. */
  lemma RankOrder(c: CKCNumber, d: CKCNumber)
    requires Parse.LegalOrBlank(c) && Parse.LegalOrBlank(d)
    requires RankOf(d) < RankOf(c)
    ensures H.Below(d, c)
  {
    RankBand(c);
    RankBand(d);
    FloorOrder(GetCardRank(c), GetCardRank(d));
  }

  //
  // Checks
  //

  /** The two cards differ. */
  predicate AreUnique(h: Two) {
    h[0] != h[1]
  }

  predicate IsValid(h: Two) {
    H.IsValid(AreUnique(h), h)
  }

  /** A two-card hand is valid exactly when its cards differ and neither is
      BLANK. */
  lemma IsValidIff(h: Two)
    ensures AreUnique(h) <==> H.Distinct(h)
    ensures IsValid(h) <==> h[0] != h[1] && h[0] != BLANK_CARD && h[1] != BLANK_CARD
  {
  }

  //
  // Order
  //

  /** The hand from the larger card down. */
  function Sort(h: Two): (r: Two)
    ensures H.Descending(r) && multiset(r) == multiset(h)
  {
    H.Sort(h)
  }

  /** The sorted hand is the hand itself when its first card is not the
      smaller one, and the two cards swapped otherwise. */
  lemma SortTwo(h: Two)
    ensures Sort(h) == if H.AtMost(h[1], h[0]) then h else [h[1], h[0]]
  {
    var w: seq<CKCNumber> := if H.AtMost(h[1], h[0]) then h else [h[1], h[0]];
    H.AtMostTotal(h[0], h[1]);
    assert H.Descending(w);
    assert multiset(w) == multiset(h) by {
      assert h == [h[0]] + [h[1]];
      assert [h[1], h[0]] == [h[1]] + [h[0]];
    }
    H.SortUnique(Sort(h), w);
  }

  /** The larger of the two cards; the second when they are equal. */
  function HighCard(h: Two): CKCNumber {
    if H.AtMost(h[0], h[1]) then h[1] else h[0]
  }

  /** The high card is one of the two, at least as large as both, and the
      head of the sorted hand. */
  lemma HighCardIsLargest(h: Two)
    ensures HighCard(h) in h
    ensures H.AtMost(h[0], HighCard(h)) && H.AtMost(h[1], HighCard(h))
    ensures HighCard(h) == Sort(h)[0]
  {
    H.AtMostTotal(h[0], h[1]);
    SortTwo(h);
    if H.AtMost(h[0], h[1]) && H.AtMost(h[1], h[0]) {
      H.AtMostAntisymmetric(h[0], h[1]);
    }
  }

  //
  // Ranks and suits
  //

  predicate IsPocketPair(h: Two) {
    GetCardRank(h[0]) == GetCardRank(h[1])
  }

  predicate IsSuited(h: Two) {
    GetCardSuit(h[0]) == GetCardSuit(h[1])
  }

  /** The number of ranks strictly between ranks a and b; 0 for equal or
      adjacent ranks. */
  function Spread(a: nat, b: nat): nat {
    var d := if b <= a then a - b else b - a;
    if d < 1 then 0 else d - 1
  }

  /** The number of ranks strictly between the two cards' ranks. */
  function GetGap(h: Two): (g: nat)
    ensures g < 14
  {
    Spread(RankOf(h[0]), RankOf(h[1]))
  }

  /** The gap as `get_gap` computes it: the ranks of the sorted hand,
      subtracted as 8-bit unsigned numbers (wrapping, as a release build
      does; a debug build stops with an overflow instead). */
  function GetGapAsWritten(h: Two): (g: nat)
    ensures g < 256
  {
    var s := Sort(h);
    WrappedSpread(RankOf(s[0]), RankOf(s[1]))
  }

  /** Spread of a over b with the difference taken as an 8-bit unsigned
      subtraction. */
  function WrappedSpread(a: nat, b: nat): (g: nat)
    ensures g < 256
  {
    var d := (a - b) % 256;
    if d < 1 then 0 else d - 1
  }

  /** The wrap does not matter when b is at most a, and the spread does not
      depend on the order of its arguments. */
  lemma WrappedSpreadAgrees(a: nat, b: nat)
    ensures b <= a < 256 ==> WrappedSpread(a, b) == Spread(a, b)
    ensures Spread(a, b) == Spread(b, a)
  {
  }

  /** A connector's cards are next to each other or share a rank: the
      wrapping gap is 0. */
  predicate IsConnector(h: Two) {
    GetGapAsWritten(h) == 0
  }

  predicate IsSuitedConnector(h: Two) {
    IsSuited(h) && IsConnector(h)
  }

  /** The gap does not depend on the order of the cards and a pocket pair
      has none; on legal cards and BLANK the connectors are exactly the
      hands whose ranks are equal or adjacent, pocket pairs included. */
  lemma GetGapProperties(h: Two)
    ensures GetGap([h[1], h[0]]) == GetGap(h)
    ensures IsPocketPair(h) ==> GetGap(h) == 0
    ensures Parse.LegalOrBlank(h[0]) && Parse.LegalOrBlank(h[1]) ==>
      (IsConnector(h) <==> RankOf(h[0]) <= RankOf(h[1]) + 1 && RankOf(h[1]) <= RankOf(h[0]) + 1)
    ensures Parse.LegalOrBlank(h[0]) && Parse.LegalOrBlank(h[1]) && IsPocketPair(h) ==> IsConnector(h)
  {
    if Parse.LegalOrBlank(h[0]) && Parse.LegalOrBlank(h[1]) {
      GetGapAgrees(h);
    }
  }

  /** Among legal cards and BLANK, a card at most another has at most its
      rank. */
  lemma RankOrderConverse(c: CKCNumber, d: CKCNumber)
    requires Parse.LegalOrBlank(c) && Parse.LegalOrBlank(d) && H.AtMost(d, c)
    ensures RankOf(d) <= RankOf(c)
  {
    RankBand(c);
    RankBand(d);
    FloorOrder(GetCardRank(d), GetCardRank(c));
  }

  /** On legal cards and BLANK, sorting puts the higher rank first. */
  lemma SortRanks(h: Two)
    requires Parse.LegalOrBlank(h[0]) && Parse.LegalOrBlank(h[1])
    ensures RankOf(Sort(h)[1]) <= RankOf(Sort(h)[0])
  {
    SortTwo(h);
    var s := Sort(h);
    assert H.AtMost(s[1], s[0]);
    RankOrderConverse(s[0], s[1]);
  }

  /** On legal cards and BLANK `get_gap`'s wrapping gap is the gap: the subtraction
      does not wrap. */
  lemma GetGapAgrees(h: Two)
    requires Parse.LegalOrBlank(h[0]) && Parse.LegalOrBlank(h[1])
    ensures GetGapAsWritten(h) == GetGap(h)
  {
    var s := Sort(h);
    var a, b := RankOf(s[0]), RankOf(s[1]);
    SortRanks(h);
    WrappedSpreadAgrees(a, b);
    SortTwo(h);
  }

  /** A deuce carrying the pair flag sorts above an ace, so `get_gap`
      subtracts 14 from 2: the gap wraps to 243 where 11 is meant. */
  lemma GetGapWraps()
    ensures GetGapAsWritten([FlagAsPair(DEUCE_CLUBS), ACE_SPADES]) == 243
    ensures GetGap([FlagAsPair(DEUCE_CLUBS), ACE_SPADES]) == 11
  {
    var h: Two := [FlagAsPair(DEUCE_CLUBS), ACE_SPADES];
    assert GetCardRank(h[0]) == CardRank.TWO;
    assert GetCardRank(h[1]) == CardRank.ACE;
    assert H.Below(h[1], h[0]);
    SortTwo(h);
  }

  /** The same wrap makes a flagged deuce and a trey, whose ranks are
      adjacent, fail the connector test: the gap is 254. */
  lemma ConnectorWraps()
    ensures GetGapAsWritten([FlagAsPair(DEUCE_CLUBS), TREY_CLUBS]) == 254
    ensures GetGap([FlagAsPair(DEUCE_CLUBS), TREY_CLUBS]) == 0
    ensures !IsConnector([FlagAsPair(DEUCE_CLUBS), TREY_CLUBS])
  {
    var h: Two := [FlagAsPair(DEUCE_CLUBS), TREY_CLUBS];
    assert GetCardRank(h[0]) == CardRank.TWO;
    assert GetCardRank(h[1]) == CardRank.THREE;
    assert H.Below(h[1], h[0]);
    SortTwo(h);
  }

  //
  // Suit shifting
  //

  /** Both cards moved to the next suit. */
  function ShiftSuit(h: Two): Two {
    [CardNumber.ShiftSuit(h[0]), CardNumber.ShiftSuit(h[1])]
  }

  /** A legal card is not BLANK. */
  lemma LegalNotBlank(c: CKCNumber)
    requires IsLegal(c)
    ensures c != BLANK_CARD
  {
    BlankNotLegal();
  }

  lemma BlankNotLegal()
    ensures !IsLegal(BLANK_CARD)
  {
    assert GetCardRank(BLANK_CARD) == CardRank.BLANK;
  }

  /** The next suit is different for different suits. */
  lemma NextSuitInjective(c: CKCNumber, d: CKCNumber)
    ensures NextSuit(c) == NextSuit(d) <==> GetCardSuit(c) == GetCardSuit(d)
  {
    var s, t := GetCardSuit(c), GetCardSuit(d);
    assert NextSuit(c) == match s
      case SPADES => CardSuit.HEARTS
      case HEARTS => CardSuit.DIAMONDS
      case DIAMONDS => CardSuit.CLUBS
      case CLUBS => CardSuit.SPADES
      case BLANK => CardSuit.BLANK;
    assert NextSuit(d) == match t
      case SPADES => CardSuit.HEARTS
      case HEARTS => CardSuit.DIAMONDS
      case DIAMONDS => CardSuit.CLUBS
      case CLUBS => CardSuit.SPADES
      case BLANK => CardSuit.BLANK;
  }

  /** A legal card is fixed by its rank and suit. */
  lemma LegalFixed(c: CKCNumber, d: CKCNumber)
    requires IsLegal(c) && IsLegal(d)
    requires GetCardRank(c) == GetCardRank(d) && GetCardSuit(c) == GetCardSuit(d)
    ensures c == d
  {
  }

  /** Different legal cards shift to different cards, and the shift keeps
      suits equal or different. */
  lemma ShiftSuitInjective(c: CKCNumber, d: CKCNumber)
    requires IsLegal(c) && IsLegal(d)
    ensures CardNumber.ShiftSuit(c) == CardNumber.ShiftSuit(d) <==> c == d
    ensures GetCardSuit(CardNumber.ShiftSuit(c)) == GetCardSuit(CardNumber.ShiftSuit(d)) <==> GetCardSuit(c) == GetCardSuit(d)
  {
    ShiftSuitLegal(c);
    ShiftSuitLegal(d);
    NextSuitInjective(c, d);
    if CardNumber.ShiftSuit(c) == CardNumber.ShiftSuit(d) {
      LegalFixed(c, d);
    }
  }

  /** Shifting the suits of a hand of legal cards keeps it valid exactly
      when it was. */
  lemma ShiftSuitValid(h: Two)
    requires IsLegal(h[0]) && IsLegal(h[1])
    ensures IsValid(ShiftSuit(h)) <==> IsValid(h)
  {
    var g := ShiftSuit(h);
    ShiftSuitLegal(h[0]);
    ShiftSuitLegal(h[1]);
    ShiftSuitInjective(h[0], h[1]);
    LegalNotBlank(h[0]);
    LegalNotBlank(h[1]);
    LegalNotBlank(g[0]);
    LegalNotBlank(g[1]);
    IsValidIff(h);
    IsValidIff(g);
  }

  /** Shifting suits keeps the ranks, so the gap and whether the hand is a
      pocket pair, and keeps whether the hand is suited. */
  lemma ShiftSuitKeepsShape(h: Two)
    requires IsLegal(h[0]) && IsLegal(h[1])
    ensures RankOf(ShiftSuit(h)[0]) == RankOf(h[0]) && RankOf(ShiftSuit(h)[1]) == RankOf(h[1])
    ensures GetGap(ShiftSuit(h)) == GetGap(h)
    ensures IsPocketPair(ShiftSuit(h)) <==> IsPocketPair(h)
    ensures IsSuited(ShiftSuit(h)) <==> IsSuited(h)
    ensures IsConnector(ShiftSuit(h)) <==> IsConnector(h)
  {
    ShiftSuitLegal(h[0]);
    ShiftSuitLegal(h[1]);
    ShiftSuitInjective(h[0], h[1]);
    GetGapAgrees(h);
    GetGapAgrees(ShiftSuit(h));
  }

  /** Four shifts give a hand of legal cards back. */
  lemma ShiftSuitFourTimesBack(h: Two)
    requires IsLegal(h[0]) && IsLegal(h[1])
    ensures ShiftSuit(ShiftSuit(ShiftSuit(ShiftSuit(h))))[0] == h[0]
    ensures ShiftSuit(ShiftSuit(ShiftSuit(ShiftSuit(h))))[1] == h[1]
  {
    var h1 := ShiftSuit(h);
    var h2 := ShiftSuit(h1);
    var h3 := ShiftSuit(h2);
    var h4 := ShiftSuit(h3);
    assert h1[0] == CardNumber.ShiftSuit(h[0]) && h1[1] == CardNumber.ShiftSuit(h[1]);
    assert h2[0] == CardNumber.ShiftSuit(h1[0]) && h2[1] == CardNumber.ShiftSuit(h1[1]);
    assert h3[0] == CardNumber.ShiftSuit(h2[0]) && h3[1] == CardNumber.ShiftSuit(h2[1]);
    assert h4[0] == CardNumber.ShiftSuit(h3[0]) && h4[1] == CardNumber.ShiftSuit(h3[1]);
    ShiftSuitFourTimes(h[0]);
    ShiftSuitFourTimes(h[1]);
  }

  //
  // Starting-hand tables
  //

  /** The six pairs of aces. */
  const AA: seq<Two> := [
    [ACE_SPADES, ACE_HEARTS], [ACE_SPADES, ACE_DIAMONDS], [ACE_SPADES, ACE_CLUBS],
    [ACE_HEARTS, ACE_DIAMONDS], [ACE_HEARTS, ACE_CLUBS], [ACE_DIAMONDS, ACE_CLUBS]]

  /** Ace and king of the same suit. */
  const AKs: seq<Two> := [
    [ACE_SPADES, KING_SPADES], [ACE_HEARTS, KING_HEARTS],
    [ACE_DIAMONDS, KING_DIAMONDS], [ACE_CLUBS, KING_CLUBS]]

  /** Ace and king of different suits. */
  const AKo: seq<Two> := [
    [ACE_SPADES, KING_HEARTS], [ACE_SPADES, KING_DIAMONDS], [ACE_SPADES, KING_CLUBS],
    [ACE_HEARTS, KING_SPADES], [ACE_HEARTS, KING_DIAMONDS], [ACE_HEARTS, KING_CLUBS],
    [ACE_DIAMONDS, KING_SPADES], [ACE_DIAMONDS, KING_HEARTS], [ACE_DIAMONDS, KING_CLUBS],
    [ACE_CLUBS, KING_SPADES], [ACE_CLUBS, KING_HEARTS], [ACE_CLUBS, KING_DIAMONDS]]

  /** Ace and queen of the same suit. */
  const AQs: seq<Two> := [
    [ACE_SPADES, QUEEN_SPADES], [ACE_HEARTS, QUEEN_HEARTS],
    [ACE_DIAMONDS, QUEEN_DIAMONDS], [ACE_CLUBS, QUEEN_CLUBS]]

  /** Ace and queen of different suits. */
  const AQo: seq<Two> := [
    [ACE_SPADES, QUEEN_HEARTS], [ACE_SPADES, QUEEN_DIAMONDS], [ACE_SPADES, QUEEN_CLUBS],
    [ACE_HEARTS, QUEEN_SPADES], [ACE_HEARTS, QUEEN_DIAMONDS], [ACE_HEARTS, QUEEN_CLUBS],
    [ACE_DIAMONDS, QUEEN_SPADES], [ACE_DIAMONDS, QUEEN_HEARTS], [ACE_DIAMONDS, QUEEN_CLUBS],
    [ACE_CLUBS, QUEEN_SPADES], [ACE_CLUBS, QUEEN_HEARTS], [ACE_CLUBS, QUEEN_DIAMONDS]]

  /** The named constants of the tables are the cards of their rank and
      suit. */
  lemma TableConstants()
    ensures ACE_SPADES == CardOf(CardRank.ACE, CardSuit.SPADES)
    ensures ACE_HEARTS == CardOf(CardRank.ACE, CardSuit.HEARTS)
    ensures ACE_DIAMONDS == CardOf(CardRank.ACE, CardSuit.DIAMONDS)
    ensures ACE_CLUBS == CardOf(CardRank.ACE, CardSuit.CLUBS)
    ensures KING_SPADES == CardOf(CardRank.KING, CardSuit.SPADES)
    ensures KING_HEARTS == CardOf(CardRank.KING, CardSuit.HEARTS)
    ensures KING_DIAMONDS == CardOf(CardRank.KING, CardSuit.DIAMONDS)
    ensures KING_CLUBS == CardOf(CardRank.KING, CardSuit.CLUBS)
    ensures QUEEN_SPADES == CardOf(CardRank.QUEEN, CardSuit.SPADES)
    ensures QUEEN_HEARTS == CardOf(CardRank.QUEEN, CardSuit.HEARTS)
    ensures QUEEN_DIAMONDS == CardOf(CardRank.QUEEN, CardSuit.DIAMONDS)
    ensures QUEEN_CLUBS == CardOf(CardRank.QUEEN, CardSuit.CLUBS)
  {
  }

  /** A hand of an ace and a legal card of the given rank, ace first. */
  predicate AceWith(h: Two, second: CardRank) {
    IsLegal(h[0]) && IsLegal(h[1]) && GetCardRank(h[0]) == CardRank.ACE && GetCardRank(h[1]) == second
  }

  /** Two different legal cards make a valid hand. */
  lemma LegalPairValid(h: Two)
    requires IsLegal(h[0]) && IsLegal(h[1]) && h[0] != h[1]
    ensures IsValid(h)
  {
    LegalNotBlank(h[0]);
    LegalNotBlank(h[1]);
    IsValidIff(h);
  }

  /** The hand of the card of rank r and suit s and the card of rank q and
      suit t: legal cards of those ranks and suits, valid when the cards
      differ, suited exactly when the suits agree, a pocket pair exactly
      when the ranks agree. */
  lemma EntryShape(h: Two, r: CardRank, s: CardSuit, q: CardRank, t: CardSuit)
    requires r != CardRank.BLANK && s != CardSuit.BLANK && q != CardRank.BLANK && t != CardSuit.BLANK
    requires h[0] == CardOf(r, s) && h[1] == CardOf(q, t) && (r != q || s != t)
    ensures IsLegal(h[0]) && IsLegal(h[1])
    ensures GetCardRank(h[0]) == r && GetCardRank(h[1]) == q
    ensures IsValid(h)
    ensures IsSuited(h) <==> s == t
    ensures IsPocketPair(h) <==> r == q
  {
    LegalPairValid(h);
  }

  /** Every entry is a valid pair of aces. */
  lemma AATable()
    ensures |AA| == 6
    ensures forall i :: 0 <= i < |AA| ==> AceWith(AA[i], CardRank.ACE) && IsValid(AA[i]) && IsPocketPair(AA[i])
  {
    TableConstants();
    forall i | 0 <= i < |AA|
      ensures AceWith(AA[i], CardRank.ACE) && IsValid(AA[i]) && IsPocketPair(AA[i])
    {
      if i == 0 {
        EntryShape(AA[i], CardRank.ACE, CardSuit.SPADES, CardRank.ACE, CardSuit.HEARTS);
      } else if i == 1 {
        EntryShape(AA[i], CardRank.ACE, CardSuit.SPADES, CardRank.ACE, CardSuit.DIAMONDS);
      } else if i == 2 {
        EntryShape(AA[i], CardRank.ACE, CardSuit.SPADES, CardRank.ACE, CardSuit.CLUBS);
      } else if i == 3 {
        EntryShape(AA[i], CardRank.ACE, CardSuit.HEARTS, CardRank.ACE, CardSuit.DIAMONDS);
      } else if i == 4 {
        EntryShape(AA[i], CardRank.ACE, CardSuit.HEARTS, CardRank.ACE, CardSuit.CLUBS);
      } else {
        EntryShape(AA[i], CardRank.ACE, CardSuit.DIAMONDS, CardRank.ACE, CardSuit.CLUBS);
      }
    }
  }

  /** Every entry is a valid suited ace-king. */
  lemma AKsTable()
    ensures |AKs| == 4
    ensures forall i :: 0 <= i < |AKs| ==> AceWith(AKs[i], CardRank.KING) && IsValid(AKs[i]) && IsSuited(AKs[i])
  {
    TableConstants();
    forall i | 0 <= i < |AKs|
      ensures AceWith(AKs[i], CardRank.KING) && IsValid(AKs[i]) && IsSuited(AKs[i])
    {
      if i == 0 {
        EntryShape(AKs[i], CardRank.ACE, CardSuit.SPADES, CardRank.KING, CardSuit.SPADES);
      } else if i == 1 {
        EntryShape(AKs[i], CardRank.ACE, CardSuit.HEARTS, CardRank.KING, CardSuit.HEARTS);
      } else if i == 2 {
        EntryShape(AKs[i], CardRank.ACE, CardSuit.DIAMONDS, CardRank.KING, CardSuit.DIAMONDS);
      } else {
        EntryShape(AKs[i], CardRank.ACE, CardSuit.CLUBS, CardRank.KING, CardSuit.CLUBS);
      }
    }
  }

  /** Every entry is a valid offsuit ace-king. */
  lemma AKoTable()
    ensures |AKo| == 12
    ensures forall i :: 0 <= i < |AKo| ==> AceWith(AKo[i], CardRank.KING) && IsValid(AKo[i]) && !IsSuited(AKo[i])
  {
    forall i | 0 <= i < |AKo|
      ensures AceWith(AKo[i], CardRank.KING) && IsValid(AKo[i]) && !IsSuited(AKo[i])
    {
      if i < 6 {
        AKoLow(i);
      } else {
        AKoHigh(i);
      }
    }
  }

  /** The AKo entries with the ace of spades or hearts. */
  lemma AKoLow(i: nat)
    requires i < 6
    ensures AceWith(AKo[i], CardRank.KING) && IsValid(AKo[i]) && !IsSuited(AKo[i])
  {
    TableConstants();
    if i == 0 {
      EntryShape(AKo[i], CardRank.ACE, CardSuit.SPADES, CardRank.KING, CardSuit.HEARTS);
    } else if i == 1 {
      EntryShape(AKo[i], CardRank.ACE, CardSuit.SPADES, CardRank.KING, CardSuit.DIAMONDS);
    } else if i == 2 {
      EntryShape(AKo[i], CardRank.ACE, CardSuit.SPADES, CardRank.KING, CardSuit.CLUBS);
    } else if i == 3 {
      EntryShape(AKo[i], CardRank.ACE, CardSuit.HEARTS, CardRank.KING, CardSuit.SPADES);
    } else if i == 4 {
      EntryShape(AKo[i], CardRank.ACE, CardSuit.HEARTS, CardRank.KING, CardSuit.DIAMONDS);
    } else {
      EntryShape(AKo[i], CardRank.ACE, CardSuit.HEARTS, CardRank.KING, CardSuit.CLUBS);
    }
  }

  /** The AKo entries with the ace of diamonds or clubs. */
  lemma AKoHigh(i: nat)
    requires 6 <= i < 12
    ensures AceWith(AKo[i], CardRank.KING) && IsValid(AKo[i]) && !IsSuited(AKo[i])
  {
    TableConstants();
    if i == 6 {
      EntryShape(AKo[i], CardRank.ACE, CardSuit.DIAMONDS, CardRank.KING, CardSuit.SPADES);
    } else if i == 7 {
      EntryShape(AKo[i], CardRank.ACE, CardSuit.DIAMONDS, CardRank.KING, CardSuit.HEARTS);
    } else if i == 8 {
      EntryShape(AKo[i], CardRank.ACE, CardSuit.DIAMONDS, CardRank.KING, CardSuit.CLUBS);
    } else if i == 9 {
      EntryShape(AKo[i], CardRank.ACE, CardSuit.CLUBS, CardRank.KING, CardSuit.SPADES);
    } else if i == 10 {
      EntryShape(AKo[i], CardRank.ACE, CardSuit.CLUBS, CardRank.KING, CardSuit.HEARTS);
    } else {
      EntryShape(AKo[i], CardRank.ACE, CardSuit.CLUBS, CardRank.KING, CardSuit.DIAMONDS);
    }
  }

  /** Every entry is a valid suited ace-queen. */
  lemma AQsTable()
    ensures |AQs| == 4
    ensures forall i :: 0 <= i < |AQs| ==> AceWith(AQs[i], CardRank.QUEEN) && IsValid(AQs[i]) && IsSuited(AQs[i])
  {
    TableConstants();
    forall i | 0 <= i < |AQs|
      ensures AceWith(AQs[i], CardRank.QUEEN) && IsValid(AQs[i]) && IsSuited(AQs[i])
    {
      if i == 0 {
        EntryShape(AQs[i], CardRank.ACE, CardSuit.SPADES, CardRank.QUEEN, CardSuit.SPADES);
      } else if i == 1 {
        EntryShape(AQs[i], CardRank.ACE, CardSuit.HEARTS, CardRank.QUEEN, CardSuit.HEARTS);
      } else if i == 2 {
        EntryShape(AQs[i], CardRank.ACE, CardSuit.DIAMONDS, CardRank.QUEEN, CardSuit.DIAMONDS);
      } else {
        EntryShape(AQs[i], CardRank.ACE, CardSuit.CLUBS, CardRank.QUEEN, CardSuit.CLUBS);
      }
    }
  }

  /** Every entry is a valid offsuit ace-queen. */
  lemma AQoTable()
    ensures |AQo| == 12
    ensures forall i :: 0 <= i < |AQo| ==> AceWith(AQo[i], CardRank.QUEEN) && IsValid(AQo[i]) && !IsSuited(AQo[i])
  {
    forall i | 0 <= i < |AQo|
      ensures AceWith(AQo[i], CardRank.QUEEN) && IsValid(AQo[i]) && !IsSuited(AQo[i])
    {
      if i < 6 {
        AQoLow(i);
      } else {
        AQoHigh(i);
      }
    }
  }

  /** The AQo entries with the ace of spades or hearts. */
  lemma AQoLow(i: nat)
    requires i < 6
    ensures AceWith(AQo[i], CardRank.QUEEN) && IsValid(AQo[i]) && !IsSuited(AQo[i])
  {
    TableConstants();
    if i == 0 {
      EntryShape(AQo[i], CardRank.ACE, CardSuit.SPADES, CardRank.QUEEN, CardSuit.HEARTS);
    } else if i == 1 {
      EntryShape(AQo[i], CardRank.ACE, CardSuit.SPADES, CardRank.QUEEN, CardSuit.DIAMONDS);
    } else if i == 2 {
      EntryShape(AQo[i], CardRank.ACE, CardSuit.SPADES, CardRank.QUEEN, CardSuit.CLUBS);
    } else if i == 3 {
      EntryShape(AQo[i], CardRank.ACE, CardSuit.HEARTS, CardRank.QUEEN, CardSuit.SPADES);
    } else if i == 4 {
      EntryShape(AQo[i], CardRank.ACE, CardSuit.HEARTS, CardRank.QUEEN, CardSuit.DIAMONDS);
    } else {
      EntryShape(AQo[i], CardRank.ACE, CardSuit.HEARTS, CardRank.QUEEN, CardSuit.CLUBS);
    }
  }

  /** The AQo entries with the ace of diamonds or clubs. */
  lemma AQoHigh(i: nat)
    requires 6 <= i < 12
    ensures AceWith(AQo[i], CardRank.QUEEN) && IsValid(AQo[i]) && !IsSuited(AQo[i])
  {
    TableConstants();
    if i == 6 {
      EntryShape(AQo[i], CardRank.ACE, CardSuit.DIAMONDS, CardRank.QUEEN, CardSuit.SPADES);
    } else if i == 7 {
      EntryShape(AQo[i], CardRank.ACE, CardSuit.DIAMONDS, CardRank.QUEEN, CardSuit.HEARTS);
    } else if i == 8 {
      EntryShape(AQo[i], CardRank.ACE, CardSuit.DIAMONDS, CardRank.QUEEN, CardSuit.CLUBS);
    } else if i == 9 {
      EntryShape(AQo[i], CardRank.ACE, CardSuit.CLUBS, CardRank.QUEEN, CardSuit.SPADES);
    } else if i == 10 {
      EntryShape(AQo[i], CardRank.ACE, CardSuit.CLUBS, CardRank.QUEEN, CardSuit.HEARTS);
    } else {
      EntryShape(AQo[i], CardRank.ACE, CardSuit.CLUBS, CardRank.QUEEN, CardSuit.DIAMONDS);
    }
  }

  //
  // Reading a hand
  //

  /** The first two words of an index as a hand; InvalidIndex when there are
      fewer than two. An unrecognised word becomes BLANK_CARD. */
  function TryFromIndex(index: string): Result<Two, HandError> {
    match Parse.CardsFromIndex(index, 2)
    case None => Err(HandError.InvalidIndex)
    case Some(cards) => var h: Two := cards; Ok(h)
  }

  /** An index is read exactly when it has two words; the hand holds the
      cards those words name, and a hand holding BLANK_CARD is not valid. */
  lemma TryFromIndexReads(index: string)
    ensures TryFromIndex(index).Err? <==> |Parse.Words(index)| < 2
    ensures TryFromIndex(index).Err? ==> TryFromIndex(index).error == HandError.InvalidIndex
    ensures TryFromIndex(index).Ok? ==>
      && TryFromIndex(index).value[0] == Parse.CardFromIndex(Parse.Words(index)[0])
      && TryFromIndex(index).value[1] == Parse.CardFromIndex(Parse.Words(index)[1])
    ensures TryFromIndex(index).Ok? && BLANK_CARD in TryFromIndex(index).value ==> !IsValid(TryFromIndex(index).value)
  {
  }

  /** A hand of legal cards and BLANKs is read back from its index. */
  lemma TryFromIndexRoundTrip(h: Two)
    requires Parse.LegalOrBlank(h[0]) && Parse.LegalOrBlank(h[1])
    ensures TryFromIndex(Parse.HandIndex(h)) == Ok(h)
  {
    Parse.CardsFromHandIndex(h, 2);
    var g: seq<CKCNumber> := h;
    assert Parse.CardsFromIndex(Parse.HandIndex(h), 2) == Some(g);
  }

  //
  // Recovering a hand from a card set
  //

  /** A card set of exactly two cards as a hand, first the card peeled first
      (the higher in deck order), then the next. NotEnoughCards for fewer
      than two bits, TooManyCards for more, InvalidBinaryFormat when the
      peeled hand is not valid. The count covers all 64 bits; peeling sees
      only the 52 deck bits. */
  function TryFromBinary(s: BC.BinaryCard): Result<Two, HandError> {
    var n := BC.NumberOfCards(s);
    if n <= 1 then Err(HandError.NotEnoughCards)
    else if n == 2 then
      var h := Peeled(s);
      if IsValid(h) then Ok(h) else Err(HandError.InvalidBinaryFormat)
    else Err(HandError.TooManyCards)
  }

  lemma NoOverflowDeckRaw(s: bv64)
    requires s & 0xFFF0_0000_0000_0000 == 0
    ensures s & 0xF_FFFF_FFFF_FFFF == s
  {
  }

  /** A set without overflow bits is its deck bits. */
  lemma NoOverflowDeck(s: BC.BinaryCard)
    requires P.OverflowBits(s) == 0
    ensures P.DeckBits(s) == s
  {
    NoOverflowDeckRaw(s);
  }

  lemma SplitRaw(s: bv64)
    ensures (s & BC.ALL) & (s & BC.OVERFLOW) == 0
    ensures (s & BC.ALL) | (s & BC.OVERFLOW) == s
  {
  }

  /** The bits of a set are its deck bits and its overflow bits. */
  lemma SplitCount(s: BC.BinaryCard)
    ensures BC.NumberOfCards(s) == BC.NumberOfCards(P.DeckBits(s)) + BC.NumberOfCards(P.OverflowBits(s))
  {
    SplitRaw(s);
    CountOnesDisjointUnion(P.DeckBits(s), P.OverflowBits(s));
  }

  lemma UnionOfTwoRaw(a: bv64, b: bv64)
    ensures (0 | a) | b == a | (b | 0)
  {
  }

  /** A set holding two deck cards lists them as its first peel and the
      peel after. */
  lemma CardsOfTwo(s: BC.BinaryCard)
    requires |P.Cards(s)| == 2
    ensures P.Cards(s) == [P.FirstCard(s), P.FirstCard(P.Flip(s, P.FirstCard(s)))]
  {
    var a := P.FirstCard(s);
    var t := P.Flip(s, a);
    P.CardsStep(s);
    P.CardsStep(t);
  }

  /** The union of a list of two cards. */
  lemma UnionOfTwo(a: BC.BinaryCard, b: BC.BinaryCard)
    ensures P.Union([a, b]) == BC.FoldIn(a, BC.FoldIn(b, BC.BLANK))
  {
    assert [a, b][1..] == [b];
    assert [b][1..] == [];
    assert P.Union([b]) == BC.FoldIn(b, P.Union([]));
  }

  /** Two cards held in deck order are different cards, the second lower. */
  lemma TwoInDeckOrder(s: BC.BinaryCard, a: BC.BinaryCard, b: BC.BinaryCard)
    requires P.HeldInDeckOrder(s, [a, b])
    ensures P.IsCard(a) && P.IsCard(b) && a != b && P.AtMost(b, a)
  {
    assert [a, b][0] == a && [a, b][1] == b;
  }

  /** The first two peels of a two-card set without overflow bits are two
      different cards, the first higher, that make up the set. */
  lemma PeelTwo(s: BC.BinaryCard)
    requires BC.NumberOfCards(s) == 2 && P.OverflowBits(s) == 0
    ensures var a := P.FirstCard(s); var b := P.FirstCard(P.Flip(s, a));
      P.IsCard(a) && P.IsCard(b) && a != b && P.AtMost(b, a) && BC.FoldIn(a, BC.FoldIn(b, BC.BLANK)) == s
  {
    var a := P.FirstCard(s);
    var b := P.FirstCard(P.Flip(s, a));
    NoOverflowDeck(s);
    P.CardsListed(s);
    CardsOfTwo(s);
    TwoInDeckOrder(s, a, b);
    UnionOfTwo(a, b);
  }

  /** A two-bit set with an overflow bit peels to at most one card: the
      second peel finds nothing. */
  lemma PeelTwoOverflow(s: BC.BinaryCard)
    requires BC.NumberOfCards(s) == 2 && P.OverflowBits(s) != 0
    ensures P.FirstCard(P.Flip(s, P.FirstCard(s))) == BC.BLANK
  {
    var a := P.FirstCard(s);
    SplitCount(s);
    CountOnesZero(P.OverflowBits(s));
    P.CardsCount(s);
    P.CardsStep(s);
    if a != BC.BLANK {
      P.CardsStep(P.Flip(s, a));
    }
  }

  /** The set of two different legal cards, first card first. */
  lemma FromCardsOfTwo(h: Two)
    ensures HS.FromCards(h) == BC.FoldIn(BC.FoldIn(BC.BLANK, BC.FromCkc(h[0])), BC.FromCkc(h[1]))
  {
    var p := h[..1];
    HS.FromCardsStep(h);
    HS.FromCardsStep(p);
    assert p[..0] == [];
  }

  /** A card of the deck converts to a legal card whose set is the card. */
  lemma PeeledCard(a: BC.BinaryCard)
    requires P.IsCard(a)
    ensures IsLegal(BC.FromBinaryCard(a)) && BC.FromCkc(BC.FromBinaryCard(a)) == a
  {
    BC.FromBinaryCardOfCard(a);
    BC.FromCkcRoundTrip(a);
  }

  /** The hand of the first two peels of a set. */
  function Peeled(s: BC.BinaryCard): Two {
    var a := P.FirstCard(s);
    [BC.FromBinaryCard(a), BC.FromBinaryCard(P.FirstCard(P.Flip(s, a)))]
  }

  /** The hand peeled from a two-card set without overflow bits: two
      different legal cards, the higher first, whose set is the set. */
  lemma PeeledTwo(s: BC.BinaryCard)
    requires BC.NumberOfCards(s) == 2 && P.OverflowBits(s) == 0
    ensures var h := Peeled(s);
      && IsLegal(h[0]) && IsLegal(h[1]) && IsValid(h)
      && HS.FromCards(h) == s
      && P.AtMost(BC.FromCkc(h[1]), BC.FromCkc(h[0]))
  {
    var a := P.FirstCard(s);
    var b := P.FirstCard(P.Flip(s, a));
    var h := Peeled(s);
    PeelTwo(s);
    PeeledCard(a);
    PeeledCard(b);
    LegalPairValid(h);
    FromCardsOfTwo(h);
    UnionOfTwoRaw(a, b);
  }

  /** A two-card set without overflow bits is recovered as two different
      legal cards, the higher first, whose set is the set. */
  lemma TryFromBinaryCards(s: BC.BinaryCard)
    requires BC.NumberOfCards(s) == 2 && P.OverflowBits(s) == 0
    ensures TryFromBinary(s).Ok?
    ensures var h := TryFromBinary(s).value;
      && IsLegal(h[0]) && IsLegal(h[1]) && IsValid(h)
      && HS.FromCards(h) == s
      && P.AtMost(BC.FromCkc(h[1]), BC.FromCkc(h[0]))
  {
    PeeledTwo(s);
  }

  /** A two-bit set with an overflow bit is not recovered. */
  lemma TryFromBinaryOverflow(s: BC.BinaryCard)
    requires BC.NumberOfCards(s) == 2 && P.OverflowBits(s) != 0
    ensures TryFromBinary(s) == Err(HandError.InvalidBinaryFormat)
  {
    var a := P.FirstCard(s);
    var b := P.FirstCard(P.Flip(s, a));
    var h := Peeled(s);
    PeelTwoOverflow(s);
    BC.FromBinaryCardBlank(b);
    CountOnesZero(b);
    IsValidIff(h);
  }

  /** A set is recovered as a hand exactly when it holds two bits, both deck
      bits; the hand is then two different legal cards, the higher first,
      whose set is the set. */
  lemma TryFromBinaryOk(s: BC.BinaryCard)
    ensures TryFromBinary(s).Ok? <==> BC.NumberOfCards(s) == 2 && P.OverflowBits(s) == 0
    ensures TryFromBinary(s).Ok? ==>
      var h := TryFromBinary(s).value;
      && IsLegal(h[0]) && IsLegal(h[1]) && IsValid(h)
      && HS.FromCards(h) == s
      && P.AtMost(BC.FromCkc(h[1]), BC.FromCkc(h[0]))
  {
    if BC.NumberOfCards(s) == 2 {
      if P.OverflowBits(s) == 0 {
        TryFromBinaryCards(s);
      } else {
        TryFromBinaryOverflow(s);
      }
    }
  }

  /** The error for each set that is not recovered. */
  lemma TryFromBinaryErrors(s: BC.BinaryCard)
    ensures BC.NumberOfCards(s) <= 1 ==> TryFromBinary(s) == Err(HandError.NotEnoughCards)
    ensures BC.NumberOfCards(s) > 2 ==> TryFromBinary(s) == Err(HandError.TooManyCards)
    ensures BC.NumberOfCards(s) == 2 && P.OverflowBits(s) != 0 ==> TryFromBinary(s) == Err(HandError.InvalidBinaryFormat)
  {
    if BC.NumberOfCards(s) == 2 && P.OverflowBits(s) != 0 {
      TryFromBinaryOverflow(s);
    }
  }
}
