/** The card set of a hand: from_two through from_seven all take the union
    of the single-card sets of a hand's cards, first card first. */
module HandSets {
  import opened BitCount
  import opened BinaryCards
  import CN = CardNumber
  import Hands
  import Parse

  /** The union of the cards' single-card sets. A card that is not one of
      the 52 adds nothing. */
  function FromCards(h: seq<CN.CKCNumber>): BinaryCard {
    if |h| == 0 then BLANK else FoldIn(FromCards(h[..|h| - 1]), FromCkc(h[|h| - 1]))
  }

  /** Every card of the hand is one of the 52. */
  predicate AllLegal(h: seq<CN.CKCNumber>) {
    forall i :: 0 <= i < |h| ==> CN.IsLegal(h[i])
  }

  //
  // Bits
  //

  /** c has at most one bit set. */
  predicate AtMostOneBit(c: BinaryCard) {
    c & (c - 1) == 0
  }

  lemma CardBitIsOneBit(k: bv8)
    requires k < 52
    ensures AtMostOneBit(CardBit(k))
  {
  }

  lemma UnionHasOneBitRaw(x: bv64, y: bv64, c: bv64)
    requires c & (c - 1) == 0
    ensures (x | y) & c == c <==> x & c == c || y & c == c
  {
  }

  lemma UnionHasBit(x: BinaryCard, y: BinaryCard, k: bv8)
    requires k < 52
    ensures Has(FoldIn(x, y), CardBit(k)) <==> Has(x, CardBit(k)) || Has(y, CardBit(k))
  {
    CardBitIsOneBit(k);
    UnionHasOneBit(x, y, CardBit(k));
  }

  lemma UnionHasOneBit(x: BinaryCard, y: BinaryCard, c: BinaryCard)
    requires AtMostOneBit(c)
    ensures Has(FoldIn(x, y), c) <==> Has(x, c) || Has(y, c)
  {
    UnionHasOneBitRaw(x, y, c);
  }

  /** Adding a card the set does not hold adds one to its count. */
  lemma AddCardCount(x: BinaryCard, k: bv8)
    requires k < 52 && !Has(x, CardBit(k))
    ensures NumberOfCards(FoldIn(x, CardBit(k))) == NumberOfCards(x) + 1
  {
    MissingBitDisjoint(x, k);
    CountOnesDisjointUnion(x, CardBit(k));
    CardBitCount(k);
  }

  lemma CardBitCount(k: bv8)
    requires k < 52
    ensures NumberOfCards(CardBit(k)) == 1
  {
    CountSingle(51 - k, 64);
  }

  lemma BitsMeet(j: bv8, k: bv8)
    requires j < 52 && k < 52
    ensures Has(CardBit(j), CardBit(k)) <==> j == k
  {
  }

  lemma BlankHasNone(k: bv8)
    requires k < 52
    ensures !Has(BLANK, CardBit(k))
  {
  }

  lemma MissingBitDisjoint(x: BinaryCard, k: bv8)
    requires k < 52 && !Has(x, CardBit(k))
    ensures x & CardBit(k) == 0
  {
  }

  lemma HeldBitNotBlank(x: BinaryCard, k: bv8)
    requires k < 52 && Has(x, CardBit(k))
    ensures x != BLANK
  {
  }

  lemma UnionNoOverflow(x: BinaryCard, y: BinaryCard)
    requires x & OVERFLOW == 0 && y & OVERFLOW == 0
    ensures FoldIn(x, y) & OVERFLOW == 0
  {
  }

  lemma BlankNoOverflow()
    ensures BLANK & OVERFLOW == 0
  {
  }

  //
  // Single cards
  //

  /** The deck position of a legal card. */
  function PositionOf(c: CN.CKCNumber): (k: bv8)
    requires CN.IsLegal(c)
    ensures k < 52 && FromCkc(c) == CardBit(k)
  {
    Position(CN.GetCardRank(c), CN.GetCardSuit(c))
  }

  /** A card's set holds a legal card's bit exactly when it is that card. */
  lemma CardHolds(c: CN.CKCNumber, d: CN.CKCNumber)
    requires CN.IsLegal(d)
    ensures Has(FromCkc(c), FromCkc(d)) <==> c == d
  {
    var k := PositionOf(d);
    if CN.IsLegal(c) {
      var j := PositionOf(c);
      BitsMeet(j, k);
      if j == k {
        FromCkcInjective(c, d);
      }
    } else {
      BlankHasNone(k);
    }
  }

  lemma CardNoOverflow(c: CN.CKCNumber)
    ensures FromCkc(c) & OVERFLOW == 0
  {
    FromCkcSingle(c);
    if !CN.IsLegal(c) {
      BlankNoOverflow();
    }
  }

  //
  // Hands
  //

  lemma FromCardsStep(h: seq<CN.CKCNumber>)
    requires |h| > 0
    ensures FromCards(h) == FoldIn(FromCards(h[..|h| - 1]), FromCkc(h[|h| - 1]))
  {
  }

  /** The set holds a legal card exactly when the hand does. */
  lemma {:induction false} FromCardsHolds(h: seq<CN.CKCNumber>, d: CN.CKCNumber)
    requires CN.IsLegal(d)
    ensures Has(FromCards(h), FromCkc(d)) <==> d in h
  {
    var k := PositionOf(d);
    if |h| == 0 {
      BlankHasNone(k);
    } else {
      var p, c := h[..|h| - 1], h[|h| - 1];
      FromCardsHolds(p, d);
      FromCardsStep(h);
      UnionHasBit(FromCards(p), FromCkc(c), k);
      CardHolds(c, d);
      LastMember(h, d);
    }
  }

  lemma LastMember<T>(h: seq<T>, x: T)
    requires |h| > 0
    ensures x in h <==> x in h[..|h| - 1] || x == h[|h| - 1]
  {
    assert h == h[..|h| - 1] + [h[|h| - 1]];
  }

  /** The set of a hand has no bit above the deck. */
  lemma {:induction false} FromCardsNoOverflow(h: seq<CN.CKCNumber>)
    ensures FromCards(h) & OVERFLOW == 0
  {
    if |h| == 0 {
      BlankNoOverflow();
    } else {
      FromCardsNoOverflow(h[..|h| - 1]);
      CardNoOverflow(h[|h| - 1]);
      UnionNoOverflow(FromCards(h[..|h| - 1]), FromCkc(h[|h| - 1]));
    }
  }

  /** Distinct legal cards make a set of as many cards as the hand has. */
  lemma {:induction false} FromCardsCount(h: seq<CN.CKCNumber>)
    requires AllLegal(h) && Hands.Distinct(h)
    ensures NumberOfCards(FromCards(h)) == |h|
  {
    if |h| == 0 {
      CountOnesZero(BLANK);
    } else {
      var p, c := h[..|h| - 1], h[|h| - 1];
      LastOfDistinct(h);
      FromCardsCount(p);
      var k := PositionOf(c);
      FromCardsHolds(p, c);
      AddCardCount(FromCards(p), k);
    }
  }

  lemma LastOfDistinct(h: seq<CN.CKCNumber>)
    requires |h| > 0 && AllLegal(h) && Hands.Distinct(h)
    ensures AllLegal(h[..|h| - 1]) && Hands.Distinct(h[..|h| - 1])
    ensures CN.IsLegal(h[|h| - 1]) && h[|h| - 1] !in h[..|h| - 1]
  {
  }

  /** A hand of legal cards, at least one, makes a valid set. */
  lemma FromCardsValid(h: seq<CN.CKCNumber>)
    requires AllLegal(h) && |h| > 0
    ensures IsValid(FromCards(h))
  {
    var k := PositionOf(h[0]);
    FromCardsHolds(h, h[0]);
    HeldBitNotBlank(FromCards(h), k);
    FromCardsNoOverflow(h);
    IsValidIff(FromCards(h));
  }
  //
  // Reading an index
  //

  /** The card set an index names: the union of the cards its words name,
      first word first. A word that names no card adds nothing. */
  function FromIndex(index: string): (r: BinaryCard)
    ensures r & OVERFLOW == 0
  {
    FromCardsNoOverflow(IndexCards(index));
    FromCards(IndexCards(index))
  }

  /** The cards an index's words name, in order. */
  function IndexCards(index: string): (h: seq<CN.CKCNumber>)
    ensures |h| == |Parse.Words(index)|
    ensures forall i :: 0 <= i < |h| ==> h[i] == Parse.CardFromIndex(Parse.Words(index)[i])
  {
    var w := Parse.Words(index);
    seq(|w|, i requires 0 <= i < |w| => Parse.CardFromIndex(w[i]))
  }

  /** The set an index names holds a card exactly when one of its words
      names that card. */
  lemma FromIndexHolds(index: string, d: CN.CKCNumber)
    requires CN.IsLegal(d)
    ensures Has(FromIndex(index), FromCkc(d)) <==> d in IndexCards(index)
  {
    FromCardsHolds(IndexCards(index), d);
  }

  /** Reading the index of a hand of legal cards and BLANKs names the same
      set as the hand itself. */
  lemma FromIndexOfHand(h: seq<CN.CKCNumber>)
    requires forall i :: 0 <= i < |h| ==> Parse.LegalOrBlank(h[i])
    ensures FromIndex(Parse.HandIndex(h)) == FromCards(h)
  {
    Parse.WordsOfHandIndex(h);
    Parse.ReadsHand(h, Parse.Words(Parse.HandIndex(h)));
    assert IndexCards(Parse.HandIndex(h)) == h;
  }
}
