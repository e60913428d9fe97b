/** What the fixed-size hands share: the validity rule, the descending
    sort, and the scan that the six- and seven-card hands use to decide
    whether their cards are unique. A hand is its cards in order. */
module Hands {
  import opened CardNumber

  /** The largest 32-bit value, where the uniqueness scan starts. */
  const U32_MAX: CKCNumber := 0xFFFF_FFFF

  /** A packed card as an unsigned number: hands compare cards by it. */
  function Value(c: CKCNumber): nat {
    c as int
  }

  /** c is not larger than d. */
  predicate AtMost(c: CKCNumber, d: CKCNumber) {
    Value(c) <= Value(d)
  }

  /** c is smaller than d. */
  predicate Below(c: CKCNumber, d: CKCNumber) {
    Value(c) < Value(d)
  }

  /** Some card of the hand is BLANK. */
  predicate ContainBlank(h: seq<CKCNumber>) {
    BLANK_CARD in h
  }

  /** A hand is valid when its own uniqueness test passes and it holds no
      BLANK card; each hand supplies the test. */
  predicate IsValid(areUnique: bool, h: seq<CKCNumber>) {
    areUnique && !ContainBlank(h)
  }

  /** No card appears twice. */
  predicate Distinct(h: seq<CKCNumber>) {
    forall i, j :: 0 <= i < j < |h| ==> h[i] != h[j]
  }

  /** Each card is at least as large as every card after it. */
  predicate Descending(h: seq<CKCNumber>) {
    forall i, j :: 0 <= i < j < |h| ==> AtMost(h[j], h[i])
  }

  /** Each card is larger than every card after it. */
  predicate StrictlyDescending(h: seq<CKCNumber>) {
    forall i, j :: 0 <= i < j < |h| ==> Below(h[j], h[i])
  }

  /** Every card is at most top. */
  predicate AllAtMost(h: seq<CKCNumber>, top: CKCNumber) {
    forall i :: 0 <= i < |h| ==> AtMost(h[i], top)
  }

  /** Every card is below top. */
  predicate AllBelow(h: seq<CKCNumber>, top: CKCNumber) {
    forall i :: 0 <= i < |h| ==> Below(h[i], top)
  }

  //
  // The order of cards
  //

  lemma ValueRoundTrip(c: CKCNumber)
    ensures Value(c) as bv32 == c
  {
  }

  /** Different cards have different values. */
  lemma ValueInjective(c: CKCNumber, d: CKCNumber)
    requires Value(c) == Value(d)
    ensures c == d
  {
    ValueRoundTrip(c);
    ValueRoundTrip(d);
  }

  lemma AtMostTotal(c: CKCNumber, d: CKCNumber)
    ensures AtMost(c, d) || AtMost(d, c)
    ensures Below(c, d) <==> !AtMost(d, c)
  {
  }

  lemma AtMostAntisymmetric(c: CKCNumber, d: CKCNumber)
    requires AtMost(c, d) && AtMost(d, c)
    ensures c == d
  {
    ValueInjective(c, d);
  }

  lemma AtMostTransitive(c: CKCNumber, d: CKCNumber, e: CKCNumber)
    ensures AtMost(c, d) && AtMost(d, e) ==> AtMost(c, e)
    ensures Below(c, d) && Below(d, e) ==> Below(c, e)
  {
  }

  /** Of two different cards, the one not larger is below. */
  lemma AtMostDiffers(c: CKCNumber, d: CKCNumber)
    requires AtMost(c, d) && c != d
    ensures Below(c, d)
  {
    if Value(c) == Value(d) {
      ValueInjective(c, d);
    }
  }

  /** U32_MAX is the largest card, and every other card is below it. */
  lemma BelowMax(c: CKCNumber)
    ensures AtMost(c, U32_MAX)
    ensures Below(c, U32_MAX) <==> c != U32_MAX
  {
    if Value(c) == Value(U32_MAX) {
      ValueInjective(c, U32_MAX);
    }
  }

  //
  // Sorting
  //

  /** c put into h in front of the first card not larger than it. */
  function Insert(c: CKCNumber, h: seq<CKCNumber>): (r: seq<CKCNumber>)
    ensures |r| == |h| + 1
  {
    if |h| == 0 || AtMost(h[0], c) then [c] + h
    else [h[0]] + Insert(c, h[1..])
  }

  /** The cards of h from the largest down, as the hands' sort (an unstable
      ascending sort followed by a reversal) leaves them: SortUnique shows
      that no other order qualifies. */
  function Sort(h: seq<CKCNumber>): (r: seq<CKCNumber>)
    ensures Descending(r)
    ensures multiset(r) == multiset(h)
    ensures |r| == |h|
  {
    if |h| == 0 then []
    else
      var t := Sort(h[1..]);
      InsertDescending(h[0], t);
      InsertCounts(h[0], t);
      assert h == [h[0]] + h[1..];
      Insert(h[0], t)
  }

  lemma {:induction false} InsertCounts(c: CKCNumber, h: seq<CKCNumber>)
    ensures multiset(Insert(c, h)) == multiset(h) + multiset{c}
  {
    if |h| > 0 && !AtMost(h[0], c) {
      InsertCounts(c, h[1..]);
      assert h == [h[0]] + h[1..];
    }
  }

  lemma {:induction false} InsertBelow(c: CKCNumber, h: seq<CKCNumber>, top: CKCNumber)
    requires AllAtMost(h, top) && AtMost(c, top)
    ensures AllAtMost(Insert(c, h), top)
  {
    if |h| > 0 && !AtMost(h[0], c) {
      InsertBelow(c, h[1..], top);
      var r := Insert(c, h);
      forall i | 0 <= i < |r| ensures AtMost(r[i], top) {
        if i > 0 {
          assert r[i] == Insert(c, h[1..])[i - 1];
        }
      }
    }
  }

  /** A hand is descending exactly when its tail is and its head is at
      least every card of the tail. */
  lemma DescendingCons(x: CKCNumber, t: seq<CKCNumber>)
    ensures Descending([x] + t) <==> Descending(t) && AllAtMost(t, x)
  {
    var u := [x] + t;
    if Descending(u) {
      forall i | 0 <= i < |t| ensures AtMost(t[i], x) {
        assert AtMost(u[i + 1], u[0]);
        assert u[i + 1] == t[i];
      }
      forall i, j | 0 <= i < j < |t| ensures AtMost(t[j], t[i]) {
        assert AtMost(u[j + 1], u[i + 1]);
        assert u[j + 1] == t[j] && u[i + 1] == t[i];
      }
    }
    if Descending(t) && AllAtMost(t, x) {
      forall i, j | 0 <= i < j < |u| ensures AtMost(u[j], u[i]) {
        assert u[j] == t[j - 1];
        if i > 0 {
          assert u[i] == t[i - 1];
        }
      }
    }
  }

  lemma {:induction false} InsertDescending(c: CKCNumber, h: seq<CKCNumber>)
    requires Descending(h)
    ensures Descending(Insert(c, h))
  {
    if |h| == 0 {
      DescendingCons(c, h);
    } else if AtMost(h[0], c) {
      assert h == [h[0]] + h[1..];
      DescendingCons(h[0], h[1..]);
      forall i | 0 <= i < |h| ensures AtMost(h[i], c) {
        AtMostTransitive(h[i], h[0], c);
      }
      DescendingCons(c, h);
    } else {
      assert h == [h[0]] + h[1..];
      DescendingCons(h[0], h[1..]);
      InsertDescending(c, h[1..]);
      AtMostTotal(h[0], c);
      InsertBelow(c, h[1..], h[0]);
      DescendingCons(h[0], Insert(c, h[1..]));
    }
  }

  /** The head of a descending hand is its largest card. */
  lemma HeadIsLargest(h: seq<CKCNumber>, c: CKCNumber)
    requires Descending(h) && c in multiset(h)
    ensures AtMost(c, h[0])
  {
    var i :| 0 <= i < |h| && h[i] == c;
  }

  lemma MultisetTail(h: seq<CKCNumber>)
    requires |h| > 0
    ensures multiset(h[1..]) == multiset(h) - multiset{h[0]}
  {
    assert h == [h[0]] + h[1..];
  }

  lemma HeadsAgree(a: seq<CKCNumber>, b: seq<CKCNumber>)
    requires Descending(a) && Descending(b) && multiset(a) == multiset(b) && |a| > 0
    ensures |b| == |a| && a[0] == b[0]
    ensures multiset(a[1..]) == multiset(b[1..])
  {
    assert |multiset(a)| == |multiset(b)|;
    assert a[0] in multiset(b) && b[0] in multiset(a);
    HeadIsLargest(b, a[0]);
    HeadIsLargest(a, b[0]);
    AtMostAntisymmetric(a[0], b[0]);
    MultisetTail(a);
    MultisetTail(b);
  }

  /** Two descending hands with the same cards are the same hand: the
      descending order of a hand is unique. */
  lemma {:induction false} SortUnique(a: seq<CKCNumber>, b: seq<CKCNumber>)
    requires Descending(a) && Descending(b) && multiset(a) == multiset(b)
    ensures a == b
    decreases |a|
  {
    if |a| == 0 {
      assert |b| == |multiset(b)| == 0;
    } else {
      HeadsAgree(a, b);
      DescendingCons(a[0], a[1..]);
      DescendingCons(b[0], b[1..]);
      assert a == [a[0]] + a[1..] && b == [b[0]] + b[1..];
      SortUnique(a[1..], b[1..]);
    }
  }

  /** Sorting depends only on which cards a hand holds, sorting a sorted
      hand changes nothing, and a descending hand is its own sort. */
  lemma SortPermutation(a: seq<CKCNumber>, b: seq<CKCNumber>)
    requires multiset(a) == multiset(b)
    ensures Sort(a) == Sort(b)
    ensures Sort(Sort(a)) == Sort(a)
    ensures Descending(a) ==> Sort(a) == a
  {
    SortUnique(Sort(a), Sort(b));
    SortUnique(Sort(Sort(a)), Sort(a));
    if Descending(a) {
      SortUnique(Sort(a), a);
    }
  }

  //
  // Distinctness under sorting
  //

  lemma DistinctCons(h: seq<CKCNumber>)
    requires |h| > 0
    ensures Distinct(h) <==> h[0] !in h[1..] && Distinct(h[1..])
  {
    var t := h[1..];
    if Distinct(h) {
      forall i, j | 0 <= i < j < |t| ensures t[i] != t[j] {
        assert h[i + 1] != h[j + 1];
      }
      forall k | 0 <= k < |t| ensures t[k] != h[0] {
        assert h[k + 1] != h[0];
      }
    }
    if h[0] !in t && Distinct(t) {
      forall i, j | 0 <= i < j < |h| ensures h[i] != h[j] {
        assert h[j] == t[j - 1];
        if i > 0 {
          assert h[i] == t[i - 1];
        }
      }
    }
  }

  /** Inserting adds just the one card. */
  lemma {:induction false} InsertMembers(c: CKCNumber, h: seq<CKCNumber>, x: CKCNumber)
    ensures x in Insert(c, h) <==> x == c || x in h
  {
    if |h| > 0 && !AtMost(h[0], c) {
      InsertMembers(c, h[1..], x);
      assert h == [h[0]] + h[1..];
    }
  }

  lemma {:induction false} InsertDistinct(c: CKCNumber, h: seq<CKCNumber>)
    ensures Distinct(Insert(c, h)) <==> c !in h && Distinct(h)
  {
    var r := Insert(c, h);
    if |h| == 0 || AtMost(h[0], c) {
      DistinctCons(r);
      assert r[1..] == h;
    } else {
      var t := h[1..];
      InsertDistinct(c, t);
      InsertMembers(c, t, h[0]);
      DistinctCons(r);
      assert r[1..] == Insert(c, t);
      DistinctCons(h);
      assert h == [h[0]] + t;
    }
  }

  /** Sorting keeps a hand's cards, and so whether they are distinct. */
  lemma {:induction false} SortDistinct(h: seq<CKCNumber>)
    ensures Distinct(Sort(h)) <==> Distinct(h)
    ensures forall x :: x in Sort(h) <==> x in h
    decreases |h|
  {
    forall x ensures x in Sort(h) <==> x in h {
      assert x in Sort(h) <==> x in multiset(Sort(h));
      assert x in h <==> x in multiset(h);
    }
    if |h| > 0 {
      SortDistinct(h[1..]);
      InsertDistinct(h[0], Sort(h[1..]));
      DistinctCons(h);
    }
  }

  //
  // The scan of the six- and seven-card hands
  //

  /** The scan over a sorted hand: true when each card is below the card
      before it, the first being compared with last. */
  function StrictlyBelow(s: seq<CKCNumber>, last: CKCNumber): bool {
    if |s| == 0 then true
    else if !Below(s[0], last) then false
    else StrictlyBelow(s[1..], s[0])
  }

  /** Uniqueness as the six- and seven-card hands decide it: their sorted
      cards scanned from U32_MAX. */
  predicate SentinelUnique(h: seq<CKCNumber>) {
    StrictlyBelow(Sort(h), U32_MAX)
  }

  lemma StrictlyDescendingCons(s: seq<CKCNumber>)
    requires |s| > 0
    ensures StrictlyDescending(s) <==> StrictlyDescending(s[1..]) && AllBelow(s[1..], s[0])
  {
    var t := s[1..];
    if StrictlyDescending(s) {
      forall i | 0 <= i < |t| ensures Below(t[i], s[0]) {
        assert Below(s[i + 1], s[0]);
      }
      forall i, j | 0 <= i < j < |t| ensures Below(t[j], t[i]) {
        assert Below(s[j + 1], s[i + 1]);
      }
    }
    if StrictlyDescending(t) && AllBelow(t, s[0]) {
      forall i, j | 0 <= i < j < |s| ensures Below(s[j], s[i]) {
        assert s[j] == t[j - 1];
        if i > 0 {
          assert s[i] == t[i - 1];
        }
      }
    }
  }

  lemma AllBelowCons(s: seq<CKCNumber>, top: CKCNumber)
    requires |s| > 0
    ensures AllBelow(s, top) <==> Below(s[0], top) && AllBelow(s[1..], top)
  {
    if Below(s[0], top) && AllBelow(s[1..], top) {
      forall i | 0 <= i < |s| ensures Below(s[i], top) {
        if i > 0 {
          assert s[i] == s[1..][i - 1];
        }
      }
    }
  }

  lemma AllBelowWeaken(s: seq<CKCNumber>, mid: CKCNumber, top: CKCNumber)
    requires AllBelow(s, mid) && Below(mid, top)
    ensures AllBelow(s, top)
  {
    forall i | 0 <= i < |s| ensures Below(s[i], top) {
      AtMostTransitive(s[i], mid, top);
    }
  }

  /** The scan passes exactly when the cards strictly descend and all lie
      below the starting bound. */
  lemma {:induction false} StrictlyBelowMeans(s: seq<CKCNumber>, last: CKCNumber)
    ensures StrictlyBelow(s, last) <==> StrictlyDescending(s) && AllBelow(s, last)
    decreases |s|
  {
    if |s| > 0 {
      StrictlyBelowMeans(s[1..], s[0]);
      StrictlyDescendingCons(s);
      AllBelowCons(s, last);
      if Below(s[0], last) && AllBelow(s[1..], s[0]) {
        AllBelowWeaken(s[1..], s[0], last);
      }
    }
  }

  /** In a descending hand, strict descent is distinctness. */
  lemma DescendingStrictly(s: seq<CKCNumber>)
    requires Descending(s)
    ensures StrictlyDescending(s) <==> Distinct(s)
  {
    if Distinct(s) {
      forall i, j | 0 <= i < j < |s| ensures Below(s[j], s[i]) {
        AtMostDiffers(s[j], s[i]);
      }
    }
  }

  /** A hand is below U32_MAX everywhere exactly when it does not hold it. */
  lemma AllBelowMax(s: seq<CKCNumber>)
    ensures AllBelow(s, U32_MAX) <==> U32_MAX !in s
  {
    if U32_MAX in s {
      var i :| 0 <= i < |s| && s[i] == U32_MAX;
      BelowMax(s[i]);
    } else {
      forall i | 0 <= i < |s| ensures Below(s[i], U32_MAX) {
        BelowMax(s[i]);
      }
    }
  }

  /** The scan's verdict: the cards are distinct and none of them is
      U32_MAX, which the scan cannot tell apart from its starting bound. */
  lemma SentinelUniqueIff(h: seq<CKCNumber>)
    ensures SentinelUnique(h) <==> Distinct(h) && U32_MAX !in h
  {
    var s := Sort(h);
    StrictlyBelowMeans(s, U32_MAX);
    DescendingStrictly(s);
    AllBelowMax(s);
    SortDistinct(h);
  }
}
