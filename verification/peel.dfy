/** Peeling a card set: take off the set's first card in deck order. The
    deck runs from the ace of spades in bit 51 down to the deuce of clubs in
    bit 0. The walk is modelled in two layers: which deck positions a set
    holds, as a sequence of 52 booleans, and the walk over those positions;
    the bit arithmetic stays in small lemmas that tie the two together. */
module Peeling {
  import opened BitCount
  import opened BinaryCards

  /** A deck position: 0 is the ace of spades, 51 the deuce of clubs. */
  type Position = k: nat | k < 52

  /** A deck position (or the end of the deck, 52) as the 8-bit index the
      card bits are built with. */
  function Byte(k: nat): bv8
    requires k <= 52
  {
    if k == 0 then 0 else Byte(k - 1) + 1
  }


  /** The card at deck position k. */
  function DeckCard(k: Position): BinaryCard {
    ByteBelow(k);
    CardBit(Byte(k))
  }

  /** The deck bits of s: its cards. */
  function DeckBits(s: BinaryCard): BinaryCard {
    s & ALL
  }

  /** The overflow bits of s: the twelve bits above the deck. */
  function OverflowBits(s: BinaryCard): BinaryCard {
    s & OVERFLOW
  }

  /** One card of the deck: exactly one bit, and not an overflow bit. */
  predicate IsCard(c: BinaryCard) {
    IsSingleCard(c) && OverflowBits(c) == 0
  }

  /** s holds the card whose bit index is 51 - b. */
  predicate HasCard(s: BinaryCard, b: bv8)
    requires b < 52
  {
    Has(s, CardBit(b))
  }

  /** s with the bits of c flipped: c taken off when s holds it. */
  function Flip(s: BinaryCard, c: BinaryCard): BinaryCard {
    s ^ c
  }

  /** s holds the card at deck position k. */
  predicate HeldAt(s: BinaryCard, k: Position) {
    ByteBelow(k);
    HasCard(s, Byte(k))
  }

  /** Which cards of the deck s holds, in deck order. */
  function Holding(s: BinaryCard): (h: seq<bool>)
    ensures |h| == 52
  {
    seq(52, k requires 0 <= k < 52 => HeldAt(s, k))
  }

  //
  // Positions as bytes
  //

  lemma ByteStep(b: bv8, k: nat)
    requires b as int == k && k < 52
    ensures (b + 1) as int == k + 1
  {
  }

  lemma {:induction false} ByteValue(k: nat)
    requires k <= 52
    ensures Byte(k) as int == k
  {
    if k > 0 {
      ByteValue(k - 1);
      ByteStep(Byte(k - 1), k - 1);
    }
  }

  lemma ByteBounded(b: bv8)
    requires b as int < 52
    ensures b < 52
  {
  }

  lemma ByteBelow(k: Position)
    ensures Byte(k) < 52
  {
    ByteValue(k);
    ByteBounded(Byte(k));
  }

  lemma ByteInjective(j: nat, k: nat)
    requires j <= 52 && k <= 52 && Byte(j) == Byte(k)
    ensures j == k
  {
    ByteValue(j);
    ByteValue(k);
  }

  lemma BytesEqual(a: bv8, b: bv8)
    requires a as int == b as int
    ensures a == b
  {
  }

  /** The byte of the position whose value is b is b. */
  lemma ByteOf(k: Position, b: bv8)
    requires b as int == k
    ensures Byte(k) == b
  {
    ByteValue(k);
    BytesEqual(Byte(k), b);
  }

  //
  // Bit facts, stated on plain bit-vectors
  //

  lemma ClearBitRaw(s: BinaryCard, p: bv8, j: bv8)
    requires p < 52 && j < 52 && Has(s, CardBit(p))
    ensures Has(s ^ CardBit(p), CardBit(j)) <==> j != p && Has(s, CardBit(j))
  {
  }

  lemma CardBitIsCardRaw(k: bv8)
    requires k < 52
    ensures IsSingleCard(CardBit(k)) && CardBit(k) & OVERFLOW == 0
  {
    CountSingle(51 - k, 64);
    CardBitInDeck(k);
  }

  lemma CardBitIsCard(k: bv8)
    requires k < 52
    ensures IsCard(CardBit(k))
  {
    CardBitIsCardRaw(k);
  }

  lemma ClearBit(s: BinaryCard, p: bv8, j: bv8)
    requires p < 52 && j < 52 && HasCard(s, p)
    ensures HasCard(Flip(s, CardBit(p)), j) <==> j != p && HasCard(s, j)
  {
    ClearBitRaw(s, p, j);
  }

  //
  // The same facts about positions
  //

  /** Flipping the held card at p empties p and leaves every other position as
      it was. */
  lemma FlipAt(s: BinaryCard, p: Position, j: Position)
    requires HeldAt(s, p)
    ensures HeldAt(Flip(s, DeckCard(p)), j) <==> j != p && HeldAt(s, j)
  {
    ByteBelow(p);
    ByteBelow(j);
    ClearBit(s, Byte(p), Byte(j));
    if Byte(j) == Byte(p) {
      ByteInjective(j, p);
    }
  }

  /** The card at every position is a card. */
  lemma DeckCardIsCard(k: Position)
    ensures IsCard(DeckCard(k))
  {
    ByteBelow(k);
    CardBitIsCard(Byte(k));
  }

  /** Distinct positions hold distinct cards. */
  lemma DeckCardInjective(j: Position, k: Position)
    requires DeckCard(j) == DeckCard(k)
    ensures j == k
  {
    ByteBelow(j);
    ByteBelow(k);
    CardBitInjective(Byte(j), Byte(k));
    ByteInjective(j, k);
  }

  /** Every card sits at some deck position. */
  lemma CardPosition(c: BinaryCard) returns (k: Position)
    requires IsCard(c)
    ensures c == DeckCard(k)
  {
    var j := CountOnesOne(c);
    SingleBitInDeck(j);
    k := (51 - j) as int;
    ByteOf(k, 51 - j);
  }

  /** Flipping a held card clears exactly its position. */
  lemma HoldingFlip(s: BinaryCard, p: Position)
    requires HeldAt(s, p)
    ensures Holding(Flip(s, DeckCard(p))) == Holding(s)[p := false]
  {
    forall j: Position {
      FlipAt(s, p, j);
    }
  }

  /** Holding a position is holding its card. */
  lemma HeldAtHas(s: BinaryCard, k: Position)
    ensures HeldAt(s, k) <==> Has(s, DeckCard(k))
  {
  }

  //
  // Walking a holding
  //

  /** The first held position at or after k; |h| when there is none. */
  function FirstFrom(h: seq<bool>, k: nat): (p: nat)
    requires k <= |h|
    ensures k <= p <= |h|
    decreases |h| - k
  {
    if k == |h| then |h| else if h[k] then k else FirstFrom(h, k + 1)
  }

  /** The held positions at or after k, in order. */
  function HeldFrom(h: seq<bool>, k: nat): (r: seq<nat>)
    requires k <= |h|
    ensures forall i :: 0 <= i < |r| ==> k <= r[i] < |h|
    decreases |h| - k
  {
    if k == |h| then [] else (if h[k] then [k] else []) + HeldFrom(h, k + 1)
  }

  /** The number of held positions at or after k. */
  function TrueCount(h: seq<bool>, k: nat): nat
    requires k <= |h|
    decreases |h| - k
  {
    if k == |h| then 0 else (if h[k] then 1 else 0) + TrueCount(h, k + 1)
  }

  /** The first held position is held, and nothing before it is. */
  lemma {:induction false} FirstFromHeld(h: seq<bool>, k: nat)
    requires k <= |h|
    ensures FirstFrom(h, k) < |h| ==> h[FirstFrom(h, k)]
    ensures forall j :: k <= j < FirstFrom(h, k) ==> !h[j]
    decreases |h| - k
  {
    if k < |h| && !h[k] {
      FirstFromHeld(h, k + 1);
    }
  }

  /** The walk lists exactly the held positions. */
  lemma {:induction false} HeldFromMembers(h: seq<bool>, k: nat, q: nat)
    requires k <= |h|
    ensures q in HeldFrom(h, k) <==> k <= q < |h| && h[q]
    decreases |h| - k
  {
    if k < |h| {
      HeldFromMembers(h, k + 1, q);
    }
  }

  /** The walk lists positions in increasing order. */
  lemma {:induction false} HeldFromAscends(h: seq<bool>, k: nat)
    requires k <= |h|
    ensures forall i, j :: 0 <= i < j < |HeldFrom(h, k)| ==> HeldFrom(h, k)[i] < HeldFrom(h, k)[j]
    decreases |h| - k
  {
    if k < |h| {
      HeldFromAscends(h, k + 1);
    }
  }

  /** The walk is as long as the number of held positions. */
  lemma {:induction false} HeldFromCount(h: seq<bool>, k: nat)
    requires k <= |h|
    ensures |HeldFrom(h, k)| == TrueCount(h, k)
    decreases |h| - k
  {
    if k < |h| {
      HeldFromCount(h, k + 1);
    }
  }

  /** The walk is empty exactly when nothing is held, and starts at the first
      held position otherwise. */
  lemma {:induction false} HeldFromFirst(h: seq<bool>, k: nat)
    requires k <= |h|
    ensures HeldFrom(h, k) == [] <==> FirstFrom(h, k) == |h|
    ensures HeldFrom(h, k) != [] ==> HeldFrom(h, k)[0] == FirstFrom(h, k)
    decreases |h| - k
  {
    if k < |h| && !h[k] {
      HeldFromFirst(h, k + 1);
    }
  }

  /** Letting go of the first held position drops it from the front of the
      walk. */
  lemma {:induction false} HeldFromDrop(h: seq<bool>, k: nat, p: nat)
    requires k <= p < |h| && p == FirstFrom(h, k)
    ensures HeldFrom(h, k) == [p] + HeldFrom(h[p := false], k)
    decreases |h| - k
  {
    if k < p {
      HeldFromDrop(h, k + 1, p);
    } else {
      HeldFromAgree(h, h[p := false], p + 1);
    }
  }

  /** Holdings that agree from k on walk alike from k on. */
  lemma {:induction false} HeldFromAgree(h: seq<bool>, g: seq<bool>, k: nat)
    requires |h| == |g| && k <= |h|
    requires forall j :: k <= j < |h| ==> h[j] == g[j]
    ensures HeldFrom(h, k) == HeldFrom(g, k)
    decreases |h| - k
  {
    if k < |h| {
      HeldFromAgree(h, g, k + 1);
    }
  }

  //
  // Counting held positions
  //

  lemma CountIndexRaw(b: bv8)
    requires b < 52
    ensures 0 < 52 - b <= 64 && (52 - b) - 1 == 52 - (b + 1)
  {
  }

  lemma BitOfCardRaw(s: BinaryCard, b: bv8)
    requires b < 52
    ensures Bit(s, 52 - (b + 1)) == if Has(s, CardBit(b)) then 1 else 0
  {
  }

  lemma BitOfCard(s: BinaryCard, b: bv8)
    requires b < 52
    ensures Bit(s, 52 - (b + 1)) == if HasCard(s, b) then 1 else 0
  {
    BitOfCardRaw(s, b);
  }

  /** Counting down from the bit of the card at b counts that card and the
      cards after it. */
  lemma CountStep(s: BinaryCard, b: bv8)
    requires b < 52
    ensures Count(s, 52 - b) == Count(s, 52 - (b + 1)) + (if HasCard(s, b) then 1 else 0)
  {
    CountIndexRaw(b);
    BitOfCard(s, b);
  }

  lemma ByteAtMost(k: nat)
    requires k <= 52
    ensures Byte(k) <= 52
  {
    ByteValue(k);
  }

  lemma CountIndexBounded(b: bv8)
    requires b <= 52
    ensures 52 - b <= 64
  {
  }

  /** The one bits of s below bit 52 - k: the bits of the cards from deck
      position k on. */
  function CountFrom(s: BinaryCard, k: nat): nat
    requires k <= 52
  {
    ByteAtMost(k);
    CountIndexBounded(Byte(k));
    Count(s, 52 - Byte(k))
  }

  lemma CountFromStep(s: BinaryCard, k: Position)
    ensures CountFrom(s, k) == CountFrom(s, k + 1) + (if HeldAt(s, k) then 1 else 0)
  {
    ByteBelow(k);
    CountStep(s, Byte(k));
  }

  lemma CountFromEnds(s: BinaryCard)
    ensures CountFrom(s, 52) == 0 && CountFrom(s, 0) == Count(s, 52)
  {
    ByteValue(52);
    BytesEqual(Byte(52), 52);
  }

  /** The positions held from k on are the card bits from k on. */
  lemma {:induction false} TrueCountBits(s: BinaryCard, k: nat)
    requires k <= 52
    ensures TrueCount(Holding(s), k) == CountFrom(s, k)
    decreases 52 - k
  {
    if k == 52 {
      CountFromEnds(s);
    } else {
      TrueCountBits(s, k + 1);
      CountFromStep(s, k);
    }
  }

  lemma MaskedBit(s: BinaryCard, i: bv8)
    requires i < 64
    ensures Bit(s & ALL, i) == if i < 52 then Bit(s, i) else 0
  {
  }

  /** The deck mask keeps the low 52 bits. */
  lemma {:induction false} CountMasked(s: BinaryCard, m: bv8)
    requires m <= 52
    ensures Count(s & ALL, m) == Count(s, m)
    decreases m
  {
    if m > 0 {
      MaskedBit(s, m - 1);
      CountMasked(s, m - 1);
    }
  }

  /** The deck mask clears the bits from 52 up. */
  lemma {:induction false} CountAbove(s: BinaryCard, m: bv8)
    requires 52 <= m <= 64
    ensures Count(s & ALL, m) == Count(s & ALL, 52)
    decreases m
  {
    if m > 52 {
      MaskedBit(s, m - 1);
      CountAbove(s, m - 1);
    }
  }

  /** A set holds as many deck positions as it has cards. */
  lemma HoldingCount(s: BinaryCard)
    ensures TrueCount(Holding(s), 0) == NumberOfCards(DeckBits(s))
  {
    assert DeckBits(s) == s & ALL;
    TrueCountBits(s, 0);
    CountFromEnds(s);
    CountMasked(s, 52);
    CountAbove(s, 64);
  }

  //
  // The cards of a set in deck order
  //

  /** The deck positions s holds, in deck order. */
  function Positions(s: BinaryCard): seq<nat> {
    HeldFrom(Holding(s), 0)
  }

  /** The cards s holds, in deck order. */
  function Cards(s: BinaryCard): (cards: seq<BinaryCard>)
    ensures |cards| == |Positions(s)|
  {
    var ps := Positions(s);
    seq(|ps|, i requires 0 <= i < |ps| => DeckCard(ps[i]))
  }

  /** The first card of s in deck order; BLANK when s holds none. */
  function FirstCard(s: BinaryCard): BinaryCard {
    var p := FirstFrom(Holding(s), 0);
    if p == 52 then BLANK else DeckCard(p)
  }

  /** A set holds as many cards as it has deck bits. */
  lemma CardsCount(s: BinaryCard)
    ensures |Cards(s)| == NumberOfCards(DeckBits(s))
  {
    HeldFromCount(Holding(s), 0);
    HoldingCount(s);
  }

  /** Cards are listed in deck order, so none twice, each lower than the
      one before. */
  lemma CardsInDeckOrder(s: BinaryCard)
    ensures forall i, j :: 0 <= i < j < |Positions(s)| ==> Positions(s)[i] < Positions(s)[j]
    ensures forall i, j :: 0 <= i < j < |Cards(s)| ==> Cards(s)[i] != Cards(s)[j]
    ensures forall i, j :: 0 <= i < j < |Cards(s)| ==> AtMost(Cards(s)[j], Cards(s)[i])
  {
    var ps := Positions(s);
    HeldFromAscends(Holding(s), 0);
    forall i, j | 0 <= i < j < |Cards(s)|
      ensures Cards(s)[i] != Cards(s)[j]
      ensures AtMost(Cards(s)[j], Cards(s)[i])
    {
      if Cards(s)[i] == Cards(s)[j] {
        DeckCardInjective(ps[i], ps[j]);
      }
      DeckCardOrder(ps[i], ps[j]);
    }
  }

  /** Every listed card is a card of the deck. */
  lemma CardsAreCards(s: BinaryCard)
    ensures forall i :: 0 <= i < |Cards(s)| ==> IsCard(Cards(s)[i])
  {
    forall i | 0 <= i < |Cards(s)|
      ensures IsCard(Cards(s)[i])
    {
      DeckCardIsCard(Positions(s)[i]);
    }
  }

  lemma CardsHeldAt(s: BinaryCard, k: Position)
    ensures DeckCard(k) in Cards(s) <==> HeldAt(s, k)
  {
    var ps := Positions(s);
    HeldFromMembers(Holding(s), 0, k);
    if HeldAt(s, k) {
      var i :| 0 <= i < |ps| && ps[i] == k;
      assert Cards(s)[i] == DeckCard(k);
    }
    if DeckCard(k) in Cards(s) {
      var i :| 0 <= i < |ps| && Cards(s)[i] == DeckCard(k);
      DeckCardInjective(ps[i], k);
    }
  }

  /** The listed cards are exactly the cards s holds. */
  lemma CardsHeld(s: BinaryCard, d: BinaryCard)
    requires IsCard(d)
    ensures d in Cards(s) <==> Has(s, d)
  {
    var k := CardPosition(d);
    CardsHeldAt(s, k);
    HeldAtHas(s, k);
  }

  /** The first card is the card at the first held position: a card s holds,
      with no card of s before it in the deck. */
  lemma FirstCardIsFirst(s: BinaryCard) returns (p: Position)
    requires FirstCard(s) != BLANK
    ensures FirstCard(s) == DeckCard(p) && IsCard(FirstCard(s)) && HeldAt(s, p)
    ensures forall j: Position :: j < p ==> !HeldAt(s, j)
  {
    var h := Holding(s);
    p := FirstFrom(h, 0);
    FirstFromHeld(h, 0);
    DeckCardIsCard(p);
    forall j: Position | j < p
      ensures !HeldAt(s, j)
    {
      assert !h[j];
    }
  }

  /** The first card, unless BLANK, is a card of the deck. */
  lemma FirstCardIsCard(s: BinaryCard)
    requires FirstCard(s) != BLANK
    ensures IsCard(FirstCard(s))
  {
    DeckCardIsCard(FirstFrom(Holding(s), 0));
  }

  /** The first card is BLANK exactly when s holds no card of the deck. */
  lemma FirstCardBlank(s: BinaryCard)
    ensures FirstCard(s) == BLANK <==> DeckBits(s) == 0
  {
    var h := Holding(s);
    var p := FirstFrom(h, 0);
    HeldFromFirst(h, 0);
    HeldFromCount(h, 0);
    HoldingCount(s);
    CountOnesZero(DeckBits(s));
    if p < 52 {
      DeckCardIsCard(p);
      CountOnesZero(DeckCard(p));
    }
  }

  /** Letting go of the first held position drops it from the front of the
      positions. */
  lemma PositionsStep(s: BinaryCard, p: Position)
    requires p == FirstFrom(Holding(s), 0)
    ensures Positions(s) == [p] + Positions(Flip(s, DeckCard(p)))
  {
    var h := Holding(s);
    FirstFromHeld(h, 0);
    HeldFromDrop(h, 0, p);
    HoldingFlip(s, p);
  }

  lemma CardsFollowPositions(s: BinaryCard, t: BinaryCard, p: Position)
    requires Positions(s) == [p] + Positions(t)
    ensures Cards(s) == [DeckCard(p)] + Cards(t)
  {
    assert forall i :: 0 <= i < |Cards(t)| ==> Cards(s)[i + 1] == Cards(t)[i];
  }

  /** Taking the first card off leaves the remaining cards in deck order. */
  lemma CardsStep(s: BinaryCard)
    ensures FirstCard(s) == BLANK ==> Cards(s) == []
    ensures FirstCard(s) != BLANK ==> Cards(s) == [FirstCard(s)] + Cards(Flip(s, FirstCard(s)))
  {
    var h := Holding(s);
    var p := FirstFrom(h, 0);
    if p < 52 {
      PositionsStep(s, p);
      CardsFollowPositions(s, Flip(s, DeckCard(p)), p);
      DeckCardIsCard(p);
      CountOnesZero(DeckCard(p));
    } else {
      HeldFromFirst(h, 0);
    }
  }

  lemma FlipKeepsOverflowRaw(s: BinaryCard, c: BinaryCard)
    requires c & OVERFLOW == 0
    ensures (s ^ c) & OVERFLOW == s & OVERFLOW
  {
  }

  /** Flipping a card leaves the overflow bits alone. */
  lemma FlipKeepsOverflow(s: BinaryCard, c: BinaryCard)
    requires OverflowBits(c) == 0
    ensures OverflowBits(Flip(s, c)) == OverflowBits(s)
  {
    FlipKeepsOverflowRaw(s, c);
  }

  lemma OnlyOverflowRaw(s: BinaryCard, t: BinaryCard)
    requires s & ALL == 0 && s & OVERFLOW == t & OVERFLOW
    ensures s == t & OVERFLOW
  {
  }

  /** A set with no deck bits is its overflow bits. */
  lemma OnlyOverflow(s: BinaryCard, t: BinaryCard)
    requires DeckBits(s) == 0 && OverflowBits(s) == OverflowBits(t)
    ensures s == OverflowBits(t)
  {
    OnlyOverflowRaw(s, t);
  }

  lemma MoveFront<T>(done: seq<T>, x: T, tail: seq<T>, all: seq<T>)
    requires all == [x] + tail || all == tail == []
    ensures all == [x] + tail ==> (done + [x]) + tail == done + all
    ensures all == [] ==> done + all == done
  {
  }

  //
  // Peeling
  //

  /** Takes the first card of s in deck order off s: walks the deck and, at
      the first card s holds, flips it off and returns it with the rest.
      When s holds no card of the deck, returns BLANK and s unchanged. */
  method Peel(s: BinaryCard) returns (card: BinaryCard, rest: BinaryCard)
    ensures card == FirstCard(s)
    ensures rest == Flip(s, card)
  {
    var k := 0;
    while k < 52
      invariant k <= 52
      invariant FirstFrom(Holding(s), k) == FirstFrom(Holding(s), 0)
    {
      var bc := DeckCard(k);
      HeldAtHas(s, k);
      if Has(s, bc) {
        assert Holding(s)[k];
        return bc, Flip(s, bc);
      }
      assert !Holding(s)[k];
      k := k + 1;
    }
    return BLANK, Flip(s, BLANK);
  }

  /** cards are cards of the deck that s holds, none twice, each lower than
      the one before: deck order. */
  predicate HeldInDeckOrder(s: BinaryCard, cards: seq<BinaryCard>) {
    && (forall i :: 0 <= i < |cards| ==> IsCard(cards[i]) && Has(s, cards[i]))
    && (forall i, j :: 0 <= i < j < |cards| ==> cards[i] != cards[j] && AtMost(cards[j], cards[i]))
  }

  /** What the list of cards of s is: one card per card s holds, in deck
      order, together all of the deck bits of s. */
  lemma CardsListed(s: BinaryCard)
    ensures |Cards(s)| == NumberOfCards(DeckBits(s))
    ensures HeldInDeckOrder(s, Cards(s))
    ensures Union(Cards(s)) == DeckBits(s)
  {
    CardsCount(s);
    CardsInDeckOrder(s);
    CardsAreCards(s);
    CardsUnion(s);
    forall i | 0 <= i < |Cards(s)|
      ensures Has(s, Cards(s)[i])
    {
      CardsHeld(s, Cards(s)[i]);
    }
  }

  /** One peel keeps the cards taken so far and the cards left together. */
  lemma PeelAllStep(s: BinaryCard, cards: seq<BinaryCard>, rest: BinaryCard)
    requires cards + Cards(rest) == Cards(s) && OverflowBits(rest) == OverflowBits(s)
    requires FirstCard(rest) != BLANK
    ensures (cards + [FirstCard(rest)]) + Cards(Flip(rest, FirstCard(rest))) == Cards(s)
    ensures OverflowBits(Flip(rest, FirstCard(rest))) == OverflowBits(s)
    ensures |Cards(Flip(rest, FirstCard(rest)))| < |Cards(rest)|
  {
    var card := FirstCard(rest);
    CardsStep(rest);
    FirstCardIsCard(rest);
    FlipKeepsOverflow(rest, card);
    MoveFront(cards, card, Cards(Flip(rest, card)), Cards(rest));
  }

  /** When nothing is left to peel, every card has been taken and only the
      overflow bits remain. */
  lemma PeelAllEnd(s: BinaryCard, cards: seq<BinaryCard>, rest: BinaryCard)
    requires cards + Cards(rest) == Cards(s) && OverflowBits(rest) == OverflowBits(s)
    requires FirstCard(rest) == BLANK
    ensures cards == Cards(s) && rest == OverflowBits(s)
    ensures |cards| == NumberOfCards(DeckBits(s)) && Union(cards) == DeckBits(s)
    ensures HeldInDeckOrder(s, cards)
    ensures IsValid(s) ==> rest == BLANK
  {
    CardsListed(s);
    ValidPeelsEmpty(s);
    CardsStep(rest);
    FirstCardBlank(rest);
    OnlyOverflow(rest, s);
    MoveFront(cards, BLANK, [], Cards(rest));
  }

  /** Peels s until nothing is left: the cards come off in deck order, one
      per card s holds, and only the overflow bits stay behind. */
  method PeelAll(s: BinaryCard) returns (cards: seq<BinaryCard>, rest: BinaryCard)
    ensures cards == Cards(s)
    ensures |cards| == NumberOfCards(DeckBits(s))
    ensures HeldInDeckOrder(s, cards)
    ensures Union(cards) == DeckBits(s)
    ensures rest == OverflowBits(s)
    ensures IsValid(s) ==> rest == BLANK
  {
    cards, rest := [], s;
    while true
      invariant cards + Cards(rest) == Cards(s)
      invariant OverflowBits(rest) == OverflowBits(s)
      decreases |Cards(rest)|
    {
      var card, next := Peel(rest);
      if card == BLANK {
        PeelAllEnd(s, cards, rest);
        return;
      }
      PeelAllStep(s, cards, rest);
      cards, rest := cards + [card], next;
    }
  }

  /** Peeling takes off the first card: s held it and the rest does not. */
  lemma PeelTakesFirst(s: BinaryCard)
    requires FirstCard(s) != BLANK
    ensures Has(s, FirstCard(s)) && !Has(Flip(s, FirstCard(s)), FirstCard(s))
  {
    var p := FirstCardIsFirst(s);
    FlipAt(s, p, p);
    HeldAtHas(s, p);
    HeldAtHas(Flip(s, DeckCard(p)), p);
  }

  /** Peeling leaves every other card as it was. */
  lemma PeelKeepsOthers(s: BinaryCard, d: BinaryCard)
    requires FirstCard(s) != BLANK && IsCard(d) && d != FirstCard(s)
    ensures Has(Flip(s, FirstCard(s)), d) <==> Has(s, d)
  {
    var p := FirstCardIsFirst(s);
    var k := CardPosition(d);
    FlipAt(s, p, k);
    HeldAtHas(s, k);
    HeldAtHas(Flip(s, DeckCard(p)), k);
  }

  /** Peeling leaves one card fewer. */
  lemma PeelCount(s: BinaryCard)
    requires FirstCard(s) != BLANK
    ensures NumberOfCards(DeckBits(Flip(s, FirstCard(s)))) + 1 == NumberOfCards(DeckBits(s))
  {
    CardsStep(s);
    CardsCount(s);
    CardsCount(Flip(s, FirstCard(s)));
  }

  /** A set without deck cards peels to BLANK and stays as it is; a set
      with one peels to a card. */
  lemma PeelEmpty(s: BinaryCard)
    ensures DeckBits(s) == 0 <==> FirstCard(s) == BLANK
    ensures DeckBits(s) == 0 ==> Flip(s, FirstCard(s)) == s
  {
    FirstCardBlank(s);
    if DeckBits(s) == 0 {
      FlipBlank(s);
    }
  }

  lemma FlipBlank(s: BinaryCard)
    ensures Flip(s, BLANK) == s
  {
  }

  //
  // The first card is the highest
  //

  /** x is no greater than y as a 64-bit word. */
  predicate AtMost(x: BinaryCard, y: BinaryCard) {
    x <= y
  }

  lemma CardBitOrderRaw(a: bv8, b: bv8)
    requires a <= b < 52
    ensures CardBit(b) <= CardBit(a)
  {
  }

  lemma CardBitOrder(a: bv8, b: bv8)
    requires a <= b < 52
    ensures AtMost(CardBit(b), CardBit(a))
  {
    CardBitOrderRaw(a, b);
  }

  lemma BytesOrdered(a: bv8, b: bv8)
    requires a as int <= b as int
    ensures a <= b
  {
  }

  /** Later deck positions hold lower bits. */
  lemma DeckCardOrder(p: Position, k: Position)
    requires p <= k
    ensures AtMost(DeckCard(k), DeckCard(p))
  {
    ByteBelow(p);
    ByteBelow(k);
    ByteValue(p);
    ByteValue(k);
    BytesOrdered(Byte(p), Byte(k));
    CardBitOrder(Byte(p), Byte(k));
  }

  /** The first card is the highest card s holds. */
  lemma FirstCardHighest(s: BinaryCard, d: BinaryCard)
    requires IsCard(d) && Has(s, d)
    ensures FirstCard(s) != BLANK && AtMost(d, FirstCard(s))
  {
    var k := CardPosition(d);
    HeldAtHas(s, k);
    CardsHeld(s, d);
    CardsStep(s);
    var p := FirstCardIsFirst(s);
    DeckCardOrder(p, k);
  }

  //
  // The union of the peeled cards
  //

  /** The cards of a list folded together. */
  function Union(cards: seq<BinaryCard>): BinaryCard {
    if |cards| == 0 then BLANK else FoldIn(cards[0], Union(cards[1..]))
  }

  lemma FoldFirstRaw(s: BinaryCard, c: BinaryCard)
    requires s & c == c && c & OVERFLOW == 0
    ensures c | ((s ^ c) & ALL) == s & ALL
  {
  }

  /** A held card folded back into the deck bits left after flipping it
      gives the deck bits. */
  lemma FoldFirst(s: BinaryCard, c: BinaryCard)
    requires Has(s, c) && OverflowBits(c) == 0
    ensures FoldIn(c, DeckBits(Flip(s, c))) == DeckBits(s)
  {
    FoldFirstRaw(s, c);
  }

  lemma BlankUnionRaw(s: BinaryCard)
    requires s & ALL == 0
    ensures BLANK == s & ALL
  {
  }

  /** The cards of s fold back into the deck bits of s. */
  lemma {:induction false} CardsUnion(s: BinaryCard)
    ensures Union(Cards(s)) == DeckBits(s)
    decreases |Cards(s)|
  {
    CardsStep(s);
    if FirstCard(s) == BLANK {
      FirstCardBlank(s);
    } else {
      var c := FirstCard(s);
      CardsUnion(Flip(s, c));
      FirstCardIsCard(s);
      PeelTakesFirst(s);
      FoldFirst(s, c);
      assert Cards(s)[1..] == Cards(Flip(s, c));
    }
  }

  lemma ValidNoOverflowRaw(s: BinaryCard)
    requires IsValid(s)
    ensures s & OVERFLOW == 0
  {
    IsValidIff(s);
  }

  /** A valid set has no overflow bits, so peeling it empties it. */
  lemma ValidPeelsEmpty(s: BinaryCard)
    ensures IsValid(s) ==> OverflowBits(s) == 0
  {
    if IsValid(s) {
      ValidNoOverflowRaw(s);
    }
  }
}
