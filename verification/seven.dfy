/** A seven-card hand: the table of its five-card subsets, its checks, its
    order, how it is assembled from two hole cards and five more, and how it
    is read from an index. */
module SevenCards {
  import opened CardNumber
  import opened Wrappers
  import opened FiveCards
  import H = Hands
  import Parse
  import TwoCards

  /** Seven cards, first to last. */
  type Seven = h: seq<CKCNumber> | |h| == 7 witness [BLANK_CARD, BLANK_CARD, BLANK_CARD, BLANK_CARD, BLANK_CARD, BLANK_CARD, BLANK_CARD]

  /** The default hand: every card BLANK. */
  const DEFAULT: Seven := [BLANK_CARD, BLANK_CARD, BLANK_CARD, BLANK_CARD, BLANK_CARD, BLANK_CARD, BLANK_CARD]

  //
  // The five-card subsets
  //

  /** The positions of the twenty-one five-card subsets, in lexicographic
      order. */
  const FIVE_CARD_PERMUTATIONS: seq<Permutation> := [
    [0, 1, 2, 3, 4],
    [0, 1, 2, 3, 5],
    [0, 1, 2, 3, 6],
    [0, 1, 2, 4, 5],
    [0, 1, 2, 4, 6],
    [0, 1, 2, 5, 6],
    [0, 1, 3, 4, 5],
    [0, 1, 3, 4, 6],
    [0, 1, 3, 5, 6],
    [0, 1, 4, 5, 6],
    [0, 2, 3, 4, 5],
    [0, 2, 3, 4, 6],
    [0, 2, 3, 5, 6],
    [0, 2, 4, 5, 6],
    [0, 3, 4, 5, 6],
    [1, 2, 3, 4, 5],
    [1, 2, 3, 4, 6],
    [1, 2, 3, 5, 6],
    [1, 2, 4, 5, 6],
    [1, 3, 4, 5, 6],
    [2, 3, 4, 5, 6]
  ]

  /** The table lists every five-card subset of seven cards once: each entry
      names a subset, no two entries are the same, and every subset is
      listed. */
  lemma PermutationsAreTheSubsets()
    ensures |FIVE_CARD_PERMUTATIONS| == 21
    ensures forall m :: 0 <= m < 21 ==> IsSubsetIndex(FIVE_CARD_PERMUTATIONS[m], 7)
    ensures forall m, m' :: 0 <= m < m' < 21 ==> FIVE_CARD_PERMUTATIONS[m] != FIVE_CARD_PERMUTATIONS[m']
    ensures forall p: Permutation :: IsSubsetIndex(p, 7) ==> p in FIVE_CARD_PERMUTATIONS
  {
    forall m, m' | 0 <= m < m' < 21
      ensures FIVE_CARD_PERMUTATIONS[m] != FIVE_CARD_PERMUTATIONS[m']
    {
      EntriesDiffer(m, m');
    }
    forall p: Permutation | IsSubsetIndex(p, 7)
      ensures p in FIVE_CARD_PERMUTATIONS
    {
      SubsetListed(p);
    }
  }

  /** A number for each entry that grows along the table. */
  function Key(p: Permutation): nat {
    p[0] * 10000 + p[1] * 1000 + p[2] * 100 + p[3] * 10 + p[4]
  }

  lemma KeysGrow(m: nat)
    requires m + 1 < 21
    ensures Key(FIVE_CARD_PERMUTATIONS[m]) < Key(FIVE_CARD_PERMUTATIONS[m + 1])
  {
  }

  lemma {:induction false} KeysOrdered(m: nat, m': nat)
    requires m < m' < 21
    ensures Key(FIVE_CARD_PERMUTATIONS[m]) < Key(FIVE_CARD_PERMUTATIONS[m'])
    decreases m' - m
  {
    KeysGrow(m);
    if m + 1 < m' {
      KeysOrdered(m + 1, m');
    }
  }

  lemma EntriesDiffer(m: nat, m': nat)
    requires m < m' < 21
    ensures FIVE_CARD_PERMUTATIONS[m] != FIVE_CARD_PERMUTATIONS[m']
  {
    KeysOrdered(m, m');
  }

  /** Every increasing five-of-seven tuple is in the table. */
  lemma SubsetListed(p: Permutation)
    requires IsSubsetIndex(p, 7)
    ensures p in FIVE_CARD_PERMUTATIONS
  {
    if p[0] == 0 && p[1] == 1 && p[2] == 2 {
      ListedFrom012(p);
    } else if p[0] == 0 && p[1] == 1 {
      ListedFrom01(p);
    } else if p[0] == 0 {
      ListedFrom0(p);
    } else {
      ListedFrom1(p);
    }
  }

  /** The tuples that start 0, 1, 2 are entries 0 to 5. */
  lemma ListedFrom012(p: Permutation)
    requires IsSubsetIndex(p, 7) && p[0] == 0 && p[1] == 1 && p[2] == 2
    ensures p in FIVE_CARD_PERMUTATIONS
  {
    if p[3] == 3 {
      if p[4] == 4 {
        assert p == FIVE_CARD_PERMUTATIONS[0];
      } else if p[4] == 5 {
        assert p == FIVE_CARD_PERMUTATIONS[1];
      } else {
        assert p[4] == 6;
        assert p == FIVE_CARD_PERMUTATIONS[2];
      }
    } else if p[3] == 4 {
      if p[4] == 5 {
        assert p == FIVE_CARD_PERMUTATIONS[3];
      } else {
        assert p[4] == 6;
        assert p == FIVE_CARD_PERMUTATIONS[4];
      }
    } else {
      assert p[3] == 5;
      assert p == FIVE_CARD_PERMUTATIONS[5];
    }
  }

  /** The other tuples that start 0, 1 are entries 6 to 9. */
  lemma ListedFrom01(p: Permutation)
    requires IsSubsetIndex(p, 7) && p[0] == 0 && p[1] == 1 && p[2] != 2
    ensures p in FIVE_CARD_PERMUTATIONS
  {
    if p[2] == 3 {
      if p[3] == 4 {
        if p[4] == 5 {
          assert p == FIVE_CARD_PERMUTATIONS[6];
        } else {
          assert p[4] == 6;
          assert p == FIVE_CARD_PERMUTATIONS[7];
        }
      } else {
        assert p[3] == 5;
        assert p == FIVE_CARD_PERMUTATIONS[8];
      }
    } else {
      assert p[2] == 4;
      assert p == FIVE_CARD_PERMUTATIONS[9];
    }
  }

  /** The other tuples that start 0 are entries 10 to 14. */
  lemma ListedFrom0(p: Permutation)
    requires IsSubsetIndex(p, 7) && p[0] == 0 && p[1] != 1
    ensures p in FIVE_CARD_PERMUTATIONS
  {
    if p[1] == 2 {
      if p[2] == 3 {
        if p[3] == 4 {
          if p[4] == 5 {
            assert p == FIVE_CARD_PERMUTATIONS[10];
          } else {
            assert p[4] == 6;
            assert p == FIVE_CARD_PERMUTATIONS[11];
          }
        } else {
          assert p[3] == 5;
          assert p == FIVE_CARD_PERMUTATIONS[12];
        }
      } else {
        assert p[2] == 4;
        assert p == FIVE_CARD_PERMUTATIONS[13];
      }
    } else {
      assert p[1] == 3;
      assert p == FIVE_CARD_PERMUTATIONS[14];
    }
  }

  /** The tuples that do not start 0 are entries 15 to 20. */
  lemma ListedFrom1(p: Permutation)
    requires IsSubsetIndex(p, 7) && p[0] != 0
    ensures p in FIVE_CARD_PERMUTATIONS
  {
    if p[0] == 1 {
      if p[1] == 2 {
        if p[2] == 3 {
          if p[3] == 4 {
            if p[4] == 5 {
              assert p == FIVE_CARD_PERMUTATIONS[15];
            } else {
              assert p[4] == 6;
              assert p == FIVE_CARD_PERMUTATIONS[16];
            }
          } else {
            assert p[3] == 5;
            assert p == FIVE_CARD_PERMUTATIONS[17];
          }
        } else {
          assert p[2] == 4;
          assert p == FIVE_CARD_PERMUTATIONS[18];
        }
      } else {
        assert p[1] == 3;
        assert p == FIVE_CARD_PERMUTATIONS[19];
      }
    } else {
      assert p[0] == 2;
      assert p == FIVE_CARD_PERMUTATIONS[20];
    }
  }

  //
  // Checks
  //

  /** The sorted cards strictly descend from below U32_MAX. */
  predicate AreUnique(h: Seven) {
    H.SentinelUnique(h)
  }

  predicate IsValid(h: Seven) {
    H.IsValid(AreUnique(h), h)
  }

  /** The scan accepts seven different cards none of which is U32_MAX; a
      valid hand is that and holds no BLANK. */
  lemma IsValidIff(h: Seven)
    ensures AreUnique(h) <==> H.Distinct(h) && H.U32_MAX !in h
    ensures IsValid(h) <==> H.Distinct(h) && H.U32_MAX !in h && BLANK_CARD !in h
  {
    H.SentinelUniqueIff(h);
  }

  /** The default hand holds BLANK, repeats a card, and is not valid. */
  lemma DefaultNotValid()
    ensures H.ContainBlank(DEFAULT) && !AreUnique(DEFAULT) && !IsValid(DEFAULT)
  {
    RepeatNotUnique(DEFAULT);
  }

  lemma RepeatNotUnique(h: Seven)
    requires h[0] == h[1]
    ensures !AreUnique(h)
  {
    IsValidIff(h);
  }

  //
  // Order
  //

  /** The hand from the largest card down. */
  function Sort(h: Seven): (r: Seven)
    ensures H.Descending(r) && multiset(r) == multiset(h)
  {
    H.Sort(h)
  }

  /** The sorted hand is the only descending arrangement of the hand's
      cards, and sorting keeps validity. */
  lemma SortIsTheOrder(h: Seven, g: Seven)
    ensures H.Descending(g) && multiset(g) == multiset(h) ==> g == Sort(h)
    ensures IsValid(Sort(h)) <==> IsValid(h)
  {
    if H.Descending(g) && multiset(g) == multiset(h) {
      H.SortUnique(g, Sort(h));
    }
    H.SortDistinct(h);
    IsValidIff(h);
    IsValidIff(Sort(h));
  }

  //
  // Assembling a hand
  //

  /** The two hole cards, then the five others. */
  function New(two: TwoCards.Two, five: Five): (r: Seven)
    ensures r[0] == two[0] && r[1] == two[1]
    ensures forall j :: 0 <= j < 5 ==> r[2 + j] == five[j]
  {
    two + five
  }

  /** Every seven-card hand is its first two cards joined to its last
      five. */
  lemma NewInverse(h: Seven)
    ensures New(h[..2], h[2..]) == h
  {
  }

  /** A valid seven-card hand is joined from a valid two-card hand and five
      different cards, none BLANK, that share no card with it. */
  lemma NewValid(two: TwoCards.Two, five: Five)
    requires IsValid(New(two, five))
    ensures TwoCards.IsValid(two) && H.Distinct(five) && BLANK_CARD !in five
    ensures forall i, j :: 0 <= i < 2 && 0 <= j < 5 ==> two[i] != five[j]
  {
    var r := New(two, five);
    IsValidIff(r);
    JoinDistinct(two, five, r);
    TwoCards.IsValidIff(two);
  }

  lemma JoinDistinct(two: seq<CKCNumber>, five: seq<CKCNumber>, r: seq<CKCNumber>)
    requires |two| == 2 && |five| == 5 && r == two + five
    requires H.Distinct(r) && BLANK_CARD !in r
    ensures H.Distinct(two) && BLANK_CARD !in two && H.Distinct(five) && BLANK_CARD !in five
    ensures forall i, j :: 0 <= i < 2 && 0 <= j < 5 ==> two[i] != five[j]
  {
    assert forall i :: 0 <= i < 2 ==> two[i] == r[i];
    assert forall j :: 0 <= j < 5 ==> five[j] == r[2 + j];
  }

  //
  // Reading a hand
  //

  /** The first seven words of an index as a hand; InvalidIndex when there
      are fewer. An unrecognised word becomes BLANK_CARD. */
  function TryFromIndex(index: string): Result<Seven, HandError> {
    match Parse.CardsFromIndex(index, 7)
    case None => Err(HandError.InvalidIndex)
    case Some(cards) => var h: Seven := cards; Ok(h)
  }

  /** An index is read exactly when it has seven words; the hand holds the
      cards those words name, and a hand holding BLANK_CARD is not valid. */
  lemma TryFromIndexReads(index: string)
    ensures TryFromIndex(index).Err? <==> |Parse.Words(index)| < 7
    ensures TryFromIndex(index).Err? ==> TryFromIndex(index).error == HandError.InvalidIndex
    ensures TryFromIndex(index).Ok? ==>
      forall i :: 0 <= i < 7 ==> TryFromIndex(index).value[i] == Parse.CardFromIndex(Parse.Words(index)[i])
    ensures TryFromIndex(index).Ok? && BLANK_CARD in TryFromIndex(index).value ==> !IsValid(TryFromIndex(index).value)
  {
  }

  /** Words after the seventh are not read. */
  lemma TryFromIndexIgnoresRest(s: string, ch: char, t: string)
    requires Parse.IsWhitespace(ch) && |Parse.Words(s)| >= 7
    ensures TryFromIndex(s + [ch] + t) == TryFromIndex(s)
  {
    Parse.CardsFromIndexIgnoresRest(s, ch, t, 7);
  }

  /** A hand of legal cards and BLANKs is read back from its index. */
  lemma TryFromIndexRoundTrip(h: Seven)
    requires forall i :: 0 <= i < 7 ==> Parse.LegalOrBlank(h[i])
    ensures TryFromIndex(Parse.HandIndex(h)) == Ok(h)
  {
    Parse.CardsFromHandIndex(h, 7);
  }
}
