/** A six-card hand: its value as the best of its six five-card subsets,
    its checks, its order, how it is assembled from smaller hands and how it
    is read from an index. */
module SixCards {
  import opened CardNumber
  import opened Wrappers
  import opened HandRank
  import opened FiveCards
  import H = Hands
  import Parse
  import TwoCards
  import ThreeCards

  /** Six cards, first to last. */
  type Six = h: seq<CKCNumber> | |h| == 6 witness [BLANK_CARD, BLANK_CARD, BLANK_CARD, BLANK_CARD, BLANK_CARD, BLANK_CARD]

  /** The default hand: every card BLANK. */
  const DEFAULT: Six := [BLANK_CARD, BLANK_CARD, BLANK_CARD, BLANK_CARD, BLANK_CARD, BLANK_CARD]

  //
  // The five-card subsets
  //

  /** The positions of the six five-card subsets; entry m leaves out
      position 5 - m. */
  const FIVE_CARD_PERMUTATIONS: seq<Permutation> := [
    [0, 1, 2, 3, 4],
    [0, 1, 2, 3, 5],
    [0, 1, 2, 4, 5],
    [0, 1, 3, 4, 5],
    [0, 2, 3, 4, 5],
    [1, 2, 3, 4, 5]
  ]

  /** The table lists every five-card subset of six cards once: each entry
      names a subset, no two entries are the same, and every subset is
      listed. */
  lemma PermutationsAreTheSubsets()
    ensures |FIVE_CARD_PERMUTATIONS| == 6
    ensures forall m :: 0 <= m < 6 ==> IsSubsetIndex(FIVE_CARD_PERMUTATIONS[m], 6)
    ensures forall m, m' :: 0 <= m < m' < 6 ==> FIVE_CARD_PERMUTATIONS[m] != FIVE_CARD_PERMUTATIONS[m']
    ensures forall p: Permutation :: IsSubsetIndex(p, 6) ==> p in FIVE_CARD_PERMUTATIONS
  {
    forall m, m' | 0 <= m < m' < 6
      ensures FIVE_CARD_PERMUTATIONS[m] != FIVE_CARD_PERMUTATIONS[m']
    {
      PermutationOmits(m);
      assert 5 - m !in FIVE_CARD_PERMUTATIONS[m];
    }
    forall p: Permutation | IsSubsetIndex(p, 6)
      ensures p in FIVE_CARD_PERMUTATIONS
    {
      SubsetListed(p);
    }
  }

  /** Entry m of the table holds every position but 5 - m. */
  lemma PermutationOmits(m: nat)
    requires m < 6
    ensures forall k: nat :: k < 6 ==> (k in FIVE_CARD_PERMUTATIONS[m] <==> k != 5 - m)
  {
  }

  lemma SubsetListed(p: Permutation)
    requires IsSubsetIndex(p, 6)
    ensures p in FIVE_CARD_PERMUTATIONS
  {
    var m := if p[0] == 1 then 5 else if p[1] == 2 then 4 else if p[2] == 3 then 3
      else if p[3] == 4 then 2 else if p[4] == 5 then 1 else 0;
    assert p == FIVE_CARD_PERMUTATIONS[m];
  }

  /** The five cards of subset m of h. */
  function Subset(h: Six, m: nat): Five
    requires m < 6
  {
    FiveFromPermutation(h, FIVE_CARD_PERMUTATIONS[m])
  }

  /** Subset m of h holds every card of h but the one at 5 - m. */
  lemma SubsetHolds(h: Six, m: nat, k: nat)
    requires m < 6 && k < 6 && k != 5 - m
    ensures h[k] in Subset(h, m)
  {
    PermutationOmits(m);
    FiveFromPermutationHolds(h, FIVE_CARD_PERMUTATIONS[m], k);
  }

  //
  // The hand rank value
  //

  /** The values of the six subsets, in table order. */
  function Values(h: Six, eval: Evaluator): (v: seq<HandRankValue>)
    ensures |v| == 6 && forall m :: 0 <= m < 6 ==> v[m] == eval(Subset(h, m))
  {
    [eval(Subset(h, 0)), eval(Subset(h, 1)), eval(Subset(h, 2)),
     eval(Subset(h, 3)), eval(Subset(h, 4)), eval(Subset(h, 5))]
  }

  /** best is the smallest non-zero value among vals, or 0 when every value
      is 0 (or there are none). */
  predicate IsMinNonZero(vals: seq<HandRankValue>, best: HandRankValue) {
    && (best == 0 <==> forall i :: 0 <= i < |vals| ==> vals[i] == 0)
    && (best != 0 ==> best in vals)
    && (forall i :: 0 <= i < |vals| && vals[i] != 0 ==> best <= vals[i])
  }

  /** The smallest non-zero value is unique. */
  lemma MinNonZeroUnique(vals: seq<HandRankValue>, a: HandRankValue, b: HandRankValue)
    requires IsMinNonZero(vals, a) && IsMinNonZero(vals, b)
    ensures a == b
  {
    if a != 0 {
      var i :| 0 <= i < |vals| && vals[i] == a;
      var j :| 0 <= j < |vals| && vals[j] == b;
    }
  }

  /** The ranker's loop step: the best so far is replaced when it is still 0,
      or when the new value is non-zero and smaller. */
  function Step(best: HandRankValue, hrv: HandRankValue): HandRankValue {
    if best == 0 || (hrv != 0 && hrv < best) then hrv else best
  }

  /** The ranker's loop over the values still to come, from best so far. */
  function Reduce(vals: seq<HandRankValue>, best: HandRankValue): HandRankValue {
    if |vals| == 0 then best else Reduce(vals[1..], Step(best, vals[0]))
  }

  lemma StepKeepsMin(done: seq<HandRankValue>, best: HandRankValue, hrv: HandRankValue)
    requires IsMinNonZero(done, best)
    ensures IsMinNonZero(done + [hrv], Step(best, hrv))
  {
    var d := done + [hrv];
    assert forall i :: 0 <= i < |done| ==> d[i] == done[i];
    assert d[|done|] == hrv;
    if best != 0 {
      assert best in d;
    }
  }

  /** Each step of the loop keeps the best so far the smallest non-zero value
      of the values seen. */
  lemma {:induction false} ReduceFindsMin(done: seq<HandRankValue>, rest: seq<HandRankValue>, best: HandRankValue)
    requires IsMinNonZero(done, best)
    ensures IsMinNonZero(done + rest, Reduce(rest, best))
    decreases |rest|
  {
    if |rest| > 0 {
      StepKeepsMin(done, best, rest[0]);
      ReduceFindsMin(done + [rest[0]], rest[1..], Step(best, rest[0]));
      assert done + [rest[0]] + rest[1..] == done + rest;
    }
  }

  /** The hand's value: the loop over the six subsets, starting from 0. It is
      the smallest non-zero subset value, and 0 when every subset is worth 0. */
  function HandRankValue(h: Six, eval: Evaluator): (r: HandRankValue)
    ensures IsMinNonZero(Values(h, eval), r)
  {
    ReduceFindsMin([], Values(h, eval), 0);
    assert [] + Values(h, eval) == Values(h, eval);
    Reduce(Values(h, eval), 0)
  }

  /** The hand is worth 0 exactly when every subset is; otherwise it is worth
      one of its subsets' values, and no non-zero subset value is smaller. */
  lemma HandRankValueIsBest(h: Six, eval: Evaluator)
    ensures HandRankValue(h, eval) == 0 <==> forall m :: 0 <= m < 6 ==> eval(Subset(h, m)) == 0
    ensures HandRankValue(h, eval) != 0 ==> exists m :: 0 <= m < 6 && eval(Subset(h, m)) == HandRankValue(h, eval)
    ensures forall m :: 0 <= m < 6 && eval(Subset(h, m)) != 0 ==> HandRankValue(h, eval) <= eval(Subset(h, m))
  {
    var v := Values(h, eval);
    assert forall m :: 0 <= m < 6 ==> v[m] == eval(Subset(h, m));
    if HandRankValue(h, eval) != 0 {
      var m :| 0 <= m < 6 && v[m] == HandRankValue(h, eval);
    }
  }

  /** Ranked over the checked five-card value, a hand with one card that is
      not legal is worth exactly the five cards without it. */
  lemma OneBadCard(h: Six, eval: Evaluator, k: nat)
    requires k < 6 && !IsLegal(h[k])
    ensures HandRankValue(h, Validated(eval)) == Validated(eval)(Subset(h, 5 - k))
  {
    ValidatedIsGated(eval);
    var e := Validated(eval);
    var v := Values(h, e);
    forall m | 0 <= m < 6 && m != 5 - k
      ensures v[m] == 0
    {
      SubsetRefused(h, e, m, k);
    }
    MinOfOne(v, 5 - k);
    MinNonZeroUnique(v, HandRankValue(h, e), v[5 - k]);
  }

  /** A subset holding a card that is not legal is worth 0 to an evaluator
      that refuses unsound cards. */
  lemma SubsetRefused(h: Six, eval: Evaluator, m: nat, k: nat)
    requires Gated(eval) && m < 6 && k < 6 && m != 5 - k && !IsLegal(h[k])
    ensures eval(Subset(h, m)) == 0
  {
    SubsetHolds(h, m, k);
    UnsoundWith(Subset(h, m), h[k]);
  }

  /** When every value but one is 0, that value is the smallest non-zero
      value (or 0, as all are). */
  lemma MinOfOne(vals: seq<HandRankValue>, j: nat)
    requires j < |vals| && forall i :: 0 <= i < |vals| && i != j ==> vals[i] == 0
    ensures IsMinNonZero(vals, vals[j])
  {
  }

  /** Ranked over the checked five-card value, a hand with two cards that
      are not legal is worth 0: every subset holds one of them. */
  lemma TwoBadCards(h: Six, eval: Evaluator, k: nat, l: nat)
    requires k < l < 6 && !IsLegal(h[k]) && !IsLegal(h[l])
    ensures HandRankValue(h, Validated(eval)) == NO_HAND_RANK_VALUE
  {
    ValidatedIsGated(eval);
    var e := Validated(eval);
    forall m | 0 <= m < 6
      ensures e(Subset(h, m)) == 0
    {
      SubsetRefused(h, e, m, if k != 5 - m then k else l);
    }
    HandRankValueIsBest(h, e);
  }

  //
  // Checks
  //

  /** The sorted cards strictly descend from below U32_MAX. */
  predicate AreUnique(h: Six) {
    H.SentinelUnique(h)
  }

  predicate IsValid(h: Six) {
    H.IsValid(AreUnique(h), h)
  }

  /** The scan accepts six different cards none of which is U32_MAX; a valid
      hand is that and holds no BLANK. */
  lemma IsValidIff(h: Six)
    ensures AreUnique(h) <==> H.Distinct(h) && H.U32_MAX !in h
    ensures IsValid(h) <==> H.Distinct(h) && H.U32_MAX !in h && BLANK_CARD !in h
  {
    H.SentinelUniqueIff(h);
  }

  /** The default hand holds BLANK, repeats a card, and is not valid. */
  lemma DefaultNotValid()
    ensures H.ContainBlank(DEFAULT) && !AreUnique(DEFAULT) && !IsValid(DEFAULT)
  {
    RepeatNotUnique(DEFAULT);
  }

  lemma RepeatNotUnique(h: Six)
    requires h[0] == h[1]
    ensures !AreUnique(h)
  {
    IsValidIff(h);
  }

  /** The value checked first: a hand with a BLANK, a repeated card or the
      word U32_MAX is worth nothing whatever its subsets are worth, and any
      other hand is worth its smallest non-zero subset value. */
  function HandRankValueValidated(h: Six, eval: Evaluator): (r: HandRankValue)
    ensures (BLANK_CARD in h || !H.Distinct(h) || H.U32_MAX in h) ==> r == NO_HAND_RANK_VALUE
    ensures H.Distinct(h) && BLANK_CARD !in h && H.U32_MAX !in h ==> IsMinNonZero(Values(h, eval), r)
  {
    IsValidIff(h);
    if !IsValid(h) then NO_HAND_RANK_VALUE else HandRankValue(h, eval)
  }

  //
  // Order
  //

  /** The hand from the largest card down. */
  function Sort(h: Six): (r: Six)
    ensures H.Descending(r) && multiset(r) == multiset(h)
  {
    H.Sort(h)
  }

  /** The sorted hand is the only descending arrangement of the hand's
      cards, and sorting keeps validity. */
  lemma SortIsTheOrder(h: Six, g: Six)
    ensures H.Descending(g) && multiset(g) == multiset(h) ==> g == Sort(h)
    ensures IsValid(Sort(h)) <==> IsValid(h)
  {
    if H.Descending(g) && multiset(g) == multiset(h) {
      H.SortUnique(g, Sort(h));
    }
    H.SortDistinct(h);
    IsValidIff(h);
    IsValidIff(Sort(h));
  }

  //
  // Assembling a hand
  //

  /** One card, then the two cards of a two-card hand, then the three of a
      three-card hand. */
  function From1And2And3(one: CKCNumber, two: TwoCards.Two, three: ThreeCards.Three): (r: Six)
    ensures r[0] == one && r[1] == two[0] && r[2] == two[1]
    ensures r[3] == three[0] && r[4] == three[1] && r[5] == three[2]
  {
    [one] + two + three
  }

  /** Every six-card hand is assembled from its first card, the next two and
      the last three. */
  lemma From1And2And3Inverse(h: Six)
    ensures From1And2And3(h[0], h[1..3], h[3..]) == h
  {
  }

  /** A valid six-card hand is assembled from valid parts that share no
      card. */
  lemma From1And2And3Valid(one: CKCNumber, two: TwoCards.Two, three: ThreeCards.Three)
    requires IsValid(From1And2And3(one, two, three))
    ensures one != BLANK_CARD && TwoCards.IsValid(two) && ThreeCards.IsValid(three)
    ensures one != two[0] && one != two[1] && forall j :: 0 <= j < 3 ==> one != three[j]
    ensures forall i, j :: 0 <= i < 2 && 0 <= j < 3 ==> two[i] != three[j]
  {
    var r := From1And2And3(one, two, three);
    IsValidIff(r);
    PartsDistinct(one, two, three, r);
    TwoCards.IsValidIff(two);
    ThreeCards.IsValidIff(three);
  }

  lemma PartsDistinct(one: CKCNumber, two: seq<CKCNumber>, three: seq<CKCNumber>, r: seq<CKCNumber>)
    requires |two| == 2 && |three| == 3 && r == [one] + two + three
    requires H.Distinct(r) && BLANK_CARD !in r
    ensures H.Distinct(two) && BLANK_CARD !in two && H.Distinct(three) && BLANK_CARD !in three
    ensures one != BLANK_CARD && one != two[0] && one != two[1] && forall j :: 0 <= j < 3 ==> one != three[j]
    ensures forall i, j :: 0 <= i < 2 && 0 <= j < 3 ==> two[i] != three[j]
  {
    assert r[0] == one;
    assert forall i :: 0 <= i < 2 ==> two[i] == r[1 + i];
    assert forall i :: 0 <= i < 3 ==> three[i] == r[3 + i];
  }

  //
  // Reading a hand
  //

  /** The first six words of an index as a hand; InvalidIndex when there are
      fewer. An unrecognised word becomes BLANK_CARD. */
  function TryFromIndex(index: string): Result<Six, HandError> {
    match Parse.CardsFromIndex(index, 6)
    case None => Err(HandError.InvalidIndex)
    case Some(cards) => var h: Six := cards; Ok(h)
  }

  /** An index is read exactly when it has six words; the hand holds the
      cards those words name, and a hand holding BLANK_CARD is not valid. */
  lemma TryFromIndexReads(index: string)
    ensures TryFromIndex(index).Err? <==> |Parse.Words(index)| < 6
    ensures TryFromIndex(index).Err? ==> TryFromIndex(index).error == HandError.InvalidIndex
    ensures TryFromIndex(index).Ok? ==>
      forall i :: 0 <= i < 6 ==> TryFromIndex(index).value[i] == Parse.CardFromIndex(Parse.Words(index)[i])
    ensures TryFromIndex(index).Ok? && BLANK_CARD in TryFromIndex(index).value ==> !IsValid(TryFromIndex(index).value)
  {
  }

  /** Words after the sixth are not read. */
  lemma TryFromIndexIgnoresRest(s: string, ch: char, t: string)
    requires Parse.IsWhitespace(ch) && |Parse.Words(s)| >= 6
    ensures TryFromIndex(s + [ch] + t) == TryFromIndex(s)
  {
    Parse.CardsFromIndexIgnoresRest(s, ch, t, 6);
  }

  /** A hand of legal cards and BLANKs is read back from its index. */
  lemma TryFromIndexRoundTrip(h: Six)
    requires forall i :: 0 <= i < 6 ==> Parse.LegalOrBlank(h[i])
    ensures TryFromIndex(Parse.HandIndex(h)) == Ok(h)
  {
    Parse.CardsFromHandIndex(h, 6);
  }
}
