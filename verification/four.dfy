/** A four-card hand: its checks, its order, and how it is read from an
    index. */
module FourCards {
  import opened CardNumber
  import opened Wrappers
  import H = Hands
  import Parse

  /** Four cards, first to last. */
  type Four = h: seq<CKCNumber> | |h| == 4 witness [BLANK_CARD, BLANK_CARD, BLANK_CARD, BLANK_CARD]

  /** The default hand: every card BLANK. */
  const DEFAULT: Four := [BLANK_CARD, BLANK_CARD, BLANK_CARD, BLANK_CARD]

  //
  // Checks
  //

  /** All six pairs of cards differ. */
  predicate AreUnique(h: Four) {
    && h[0] != h[1]
    && h[0] != h[2]
    && h[0] != h[3]
    && h[1] != h[2]
    && h[1] != h[3]
    && h[2] != h[3]
  }

  predicate IsValid(h: Four) {
    H.IsValid(AreUnique(h), h)
  }

  /** The pairwise checks are distinctness, and a valid hand is four
      different cards, none BLANK. */
  lemma IsValidIff(h: Four)
    ensures AreUnique(h) <==> H.Distinct(h)
    ensures IsValid(h) <==> H.Distinct(h) && BLANK_CARD !in h
  {
    if AreUnique(h) {
      forall i, j | 0 <= i < j < 4
        ensures h[i] != h[j]
      {
      }
    }
  }

  /** The default hand holds BLANK, repeats a card, and is not valid. */
  lemma DefaultNotValid()
    ensures H.ContainBlank(DEFAULT) && !AreUnique(DEFAULT) && !IsValid(DEFAULT)
  {
  }

  //
  // Order
  //

  /** The hand from the largest card down. */
  function Sort(h: Four): (r: Four)
    ensures H.Descending(r) && multiset(r) == multiset(h)
  {
    H.Sort(h)
  }

  /** The sorted hand is the only descending arrangement of the hand's
      cards, and sorting keeps validity. */
  lemma SortIsTheOrder(h: Four, g: Four)
    ensures H.Descending(g) && multiset(g) == multiset(h) ==> g == Sort(h)
    ensures IsValid(Sort(h)) <==> IsValid(h)
  {
    if H.Descending(g) && multiset(g) == multiset(h) {
      H.SortUnique(g, Sort(h));
    }
    H.SortDistinct(h);
    IsValidIff(h);
    IsValidIff(Sort(h));
  }

  //
  // Reading a hand
  //

  /** The first four words of an index as a hand; InvalidIndex when there
      are fewer. An unrecognised word becomes BLANK_CARD. */
  function TryFromIndex(index: string): Result<Four, HandError> {
    match Parse.CardsFromIndex(index, 4)
    case None => Err(HandError.InvalidIndex)
    case Some(cards) => var h: Four := cards; Ok(h)
  }

  /** An index is read exactly when it has four words; the hand holds the
      cards those words name, and a hand holding BLANK_CARD is not valid. */
  lemma TryFromIndexReads(index: string)
    ensures TryFromIndex(index).Err? <==> |Parse.Words(index)| < 4
    ensures TryFromIndex(index).Err? ==> TryFromIndex(index).error == HandError.InvalidIndex
    ensures TryFromIndex(index).Ok? ==>
      && TryFromIndex(index).value[0] == Parse.CardFromIndex(Parse.Words(index)[0])
      && TryFromIndex(index).value[1] == Parse.CardFromIndex(Parse.Words(index)[1])
      && TryFromIndex(index).value[2] == Parse.CardFromIndex(Parse.Words(index)[2])
      && TryFromIndex(index).value[3] == Parse.CardFromIndex(Parse.Words(index)[3])
    ensures TryFromIndex(index).Ok? && BLANK_CARD in TryFromIndex(index).value ==> !IsValid(TryFromIndex(index).value)
  {
  }

  /** Words after the fourth are not read. */
  lemma TryFromIndexIgnoresRest(s: string, ch: char, t: string)
    requires Parse.IsWhitespace(ch) && |Parse.Words(s)| >= 4
    ensures TryFromIndex(s + [ch] + t) == TryFromIndex(s)
  {
    Parse.CardsFromIndexIgnoresRest(s, ch, t, 4);
  }

  /** A hand of legal cards and BLANKs is read back from its index. */
  lemma TryFromIndexRoundTrip(h: Four)
    requires forall i :: 0 <= i < 4 ==> Parse.LegalOrBlank(h[i])
    ensures TryFromIndex(Parse.HandIndex(h)) == Ok(h)
  {
    Parse.CardsFromHandIndex(h, 4);
  }
}
