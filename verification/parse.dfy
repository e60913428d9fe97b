/** The index parser: a card is written as two characters, a rank character
    followed by a suit character, and a hand as cards separated by
    whitespace. */
module Parse {
  import opened CardNumber
  import opened Wrappers

  /** The ASCII whitespace characters: tab, line feed, vertical tab, form
      feed, carriage return and space. */
  predicate IsWhitespace(ch: char) {
    ch == ' ' || ('\t' <= ch <= '\r')
  }

  /** The characters of s that are not whitespace, in order. */
  function Squeeze(s: string): string {
    if |s| == 0 then []
    else (if IsWhitespace(s[0]) then [] else [s[0]]) + Squeeze(s[1..])
  }

  /** The words of w run together. */
  function Concat(w: seq<string>): string {
    if |w| == 0 then [] else w[0] + Concat(w[1..])
  }

  /** The length of the run of non-whitespace characters that starts s. */
  function RunLength(s: string): (n: nat)
    ensures n <= |s|
    ensures forall i :: 0 <= i < n ==> !IsWhitespace(s[i])
    ensures n < |s| ==> IsWhitespace(s[n])
  {
    if |s| == 0 || IsWhitespace(s[0]) then 0 else 1 + RunLength(s[1..])
  }

  /** The whitespace-separated words of s, in order: the maximal runs of
      non-whitespace characters. */
  function Words(s: string): (w: seq<string>)
    ensures forall i :: 0 <= i < |w| ==> |w[i]| > 0
    ensures forall i, j :: 0 <= i < |w| && 0 <= j < |w[i]| ==> !IsWhitespace(w[i][j])
    decreases |s|
  {
    if |s| == 0 then []
    else if IsWhitespace(s[0]) then Words(s[1..])
    else
      var n := RunLength(s);
      [s[..n]] + Words(s[n..])
  }

  /** Splitting into words drops exactly the whitespace. */
  lemma {:induction false} WordsKeepText(s: string)
    ensures Concat(Words(s)) == Squeeze(s)
    decreases |s|
  {
    if |s| == 0 {
    } else if IsWhitespace(s[0]) {
      WordsKeepText(s[1..]);
    } else {
      var n := RunLength(s);
      WordsKeepText(s[n..]);
      SqueezeRun(s, n);
      assert Words(s)[1..] == Words(s[n..]);
    }
  }

  /** Squeezing a string that starts with a run of n non-whitespace
      characters keeps the run and squeezes the rest. */
  lemma {:induction false} SqueezeRun(s: string, n: nat)
    requires n <= |s|
    requires forall i :: 0 <= i < n ==> !IsWhitespace(s[i])
    ensures Squeeze(s) == s[..n] + Squeeze(s[n..])
    decreases n
  {
    if n > 0 {
      SqueezeRun(s[1..], n - 1);
      assert s[1..][n - 1..] == s[n..];
      assert [s[0]] + s[1..][..n - 1] == s[..n];
    }
  }

  /** A single word is its own and only word. */
  lemma {:induction false} WordsOfWord(t: string)
    requires |t| > 0
    requires forall i :: 0 <= i < |t| ==> !IsWhitespace(t[i])
    ensures Words(t) == [t]
  {
    var n := RunLength(t);
    assert n == |t|;
    assert t[..n] == t;
    assert Words(t[n..]) == [];
  }

  /** A run of non-whitespace is cut short by the first whitespace character,
      whatever follows it. */
  lemma {:induction false} RunLengthStops(s: string, ch: char, t: string)
    requires IsWhitespace(ch)
    ensures RunLength(s + [ch] + t) == RunLength(s)
    decreases |s|
  {
    if |s| > 0 && !IsWhitespace(s[0]) {
      RunLengthStops(s[1..], ch, t);
      assert (s + [ch] + t)[1..] == s[1..] + [ch] + t;
    }
  }

  /** Whitespace separates: the words of s, a whitespace character and t are
      the words of s followed by the words of t. */
  lemma {:induction false} WordsSplit(s: string, ch: char, t: string)
    requires IsWhitespace(ch)
    ensures Words(s + [ch] + t) == Words(s) + Words(t)
    decreases |s|
  {
    var u := s + [ch] + t;
    if |s| == 0 {
      assert u[1..] == t;
    } else if IsWhitespace(s[0]) {
      assert u[1..] == s[1..] + [ch] + t;
      WordsSplit(s[1..], ch, t);
    } else {
      var n := RunLength(s);
      RunLengthStops(s, ch, t);
      assert u[..n] == s[..n];
      assert u[n..] == s[n..] + [ch] + t;
      WordsSplit(s[n..], ch, t);
    }
  }

  /** The rank and the suit named by the first two characters of an index;
      both BLANK when there are fewer than two. */
  function GetRankAndSuit(index: string): (CardRank, CardSuit) {
    if |index| < 2 then (CardRank.BLANK, CardSuit.BLANK)
    else (RankFromChar(index[0]), SuitFromChar(index[1]))
  }

  /** Only the first two characters of an index count. */
  lemma GetRankAndSuitReadsTwo(index: string, rest: string)
    requires |index| == 2
    ensures GetRankAndSuit(index + rest) == GetRankAndSuit(index)
    ensures GetRankAndSuit(index[..1]) == (CardRank.BLANK, CardSuit.BLANK)
  {
    assert (index + rest)[0] == index[0] && (index + rest)[1] == index[1];
  }

  /** The card an index names. */
  function CardFromIndex(index: string): CKCNumber {
    var (r, s) := GetRankAndSuit(index);
    Create(r, s)
  }

  /** An index names a legal card exactly when it has a rank character and a
      suit character in front; the card carries that rank and suit.
      Everything else names BLANK_CARD. */
  lemma CardFromIndexDecodes(index: string)
    ensures var c := CardFromIndex(index);
      if |index| >= 2 && RankFromChar(index[0]) != CardRank.BLANK && SuitFromChar(index[1]) != CardSuit.BLANK
      then IsLegal(c) && GetCardRank(c) == RankFromChar(index[0]) && GetCardSuit(c) == SuitFromChar(index[1])
      else c == BLANK_CARD
  {
    var (r, s) := GetRankAndSuit(index);
    if r != CardRank.BLANK && s != CardSuit.BLANK {
      CreateDecodes(r, s);
      LegalIffListed(Create(r, s));
    } else {
      CreateBlank(r, s);
    }
  }

  /** Writing a legal card as its rank character and suit letter and parsing
      that back gives the card. */
  lemma CardFromIndexRoundTrip(c: CKCNumber)
    requires IsLegal(c)
    ensures CardFromIndex([GetRankChar(c), GetSuitLetter(c)]) == c
  {
    RankCharRoundTrip(c);
    SuitLetterRoundTrip(c);
    var r, s := GetCardRank(c), GetCardSuit(c);
    CreateDecodes(r, s);
    LegalIffListed(Create(r, s));
  }

  /** The first n words of an index as cards; None when there are fewer than
      n words. Words after the n-th are not read. */
  function CardsFromIndex(index: string, n: nat): (r: Option<seq<CKCNumber>>)
    ensures r.None? <==> |Words(index)| < n
    ensures r.Some? ==> |r.value| == n
  {
    var w := Words(index);
    if |w| < n then None
    else Some(seq(n, i requires 0 <= i < n => CardFromIndex(w[i])))
  }

  /** Reading n cards gives the cards of the first n words, whatever text
      follows them. */
  lemma CardsFromIndexIgnoresRest(s: string, ch: char, t: string, n: nat)
    requires IsWhitespace(ch) && |Words(s)| >= n
    ensures CardsFromIndex(s + [ch] + t, n) == CardsFromIndex(s, n)
  {
    WordsSplit(s, ch, t);
    var w, w' := Words(s + [ch] + t), Words(s);
    assert forall i | 0 <= i < n :: w[i] == w'[i];
    var a, b := CardsFromIndex(s + [ch] + t, n).value, CardsFromIndex(s, n).value;
    assert a == b;
  }

  /** Five cards from an index, None when there are fewer than five words. */
  function FiveFromIndex(index: string): (r: Option<seq<CKCNumber>>)
    ensures r.None? <==> |Words(index)| < 5
    ensures r.Some? ==> |r.value| == 5
  {
    CardsFromIndex(index, 5)
  }

  //
  // Writing an index
  //

  /** A card an index can name: one of the 52, or BLANK_CARD. */
  predicate LegalOrBlank(c: CKCNumber) {
    IsLegal(c) || c == BLANK_CARD
  }

  /** A card's index: its rank character and its suit letter. */
  function CardIndex(c: CKCNumber): string {
    [GetRankChar(c), GetSuitLetter(c)]
  }

  /** A hand's index: its cards' indexes, separated by single spaces. */
  function HandIndex(h: seq<CKCNumber>): string {
    if |h| == 0 then []
    else if |h| == 1 then CardIndex(h[0])
    else CardIndex(h[0]) + [' '] + HandIndex(h[1..])
  }

  /** A card's index is one word. */
  lemma CardIndexIsWord(c: CKCNumber)
    ensures Words(CardIndex(c)) == [CardIndex(c)]
  {
    WordsOfWord(CardIndex(c));
  }

  /** A legal card, or BLANK_CARD, is read back from its index. */
  lemma CardIndexRoundTrip(c: CKCNumber)
    requires LegalOrBlank(c)
    ensures CardFromIndex(CardIndex(c)) == c
  {
    if IsLegal(c) {
      CardFromIndexRoundTrip(c);
    } else {
      BlankIndexRoundTrip();
    }
  }

  lemma BlankIndexRoundTrip()
    ensures CardFromIndex(CardIndex(BLANK_CARD)) == BLANK_CARD
  {
    RankCharRoundTrip(BLANK_CARD);
    CreateBlank(GetCardRank(BLANK_CARD), GetCardSuit(BLANK_CARD));
  }

  /** The words of a hand's index are its cards' indexes. */
  lemma {:induction false} WordsOfHandIndex(h: seq<CKCNumber>)
    ensures |Words(HandIndex(h))| == |h|
    ensures forall i :: 0 <= i < |h| ==> Words(HandIndex(h))[i] == CardIndex(h[i])
  {
    if |h| == 1 {
      CardIndexIsWord(h[0]);
    } else if |h| > 1 {
      WordsOfHandIndex(h[1..]);
      WordsSplit(CardIndex(h[0]), ' ', HandIndex(h[1..]));
      CardIndexIsWord(h[0]);
    }
  }

  /** The cards read from the words of a hand's index are the hand's cards. */
  lemma ReadsHand(h: seq<CKCNumber>, w: seq<string>)
    requires forall i :: 0 <= i < |h| ==> LegalOrBlank(h[i])
    requires |w| == |h| && forall i :: 0 <= i < |h| ==> w[i] == CardIndex(h[i])
    ensures seq(|h|, i requires 0 <= i < |h| => CardFromIndex(w[i])) == h
  {
    forall i | 0 <= i < |h|
      ensures CardFromIndex(w[i]) == h[i]
    {
      CardIndexRoundTrip(h[i]);
    }
  }

  /** Reading as many cards as a hand of legal cards and BLANKs has from the
      hand's index gives the hand back; asking for more gives None. */
  lemma CardsFromHandIndex(h: seq<CKCNumber>, n: nat)
    requires forall i :: 0 <= i < |h| ==> LegalOrBlank(h[i])
    ensures n == |h| ==> CardsFromIndex(HandIndex(h), n) == Some(h)
    ensures n > |h| ==> CardsFromIndex(HandIndex(h), n) == None
  {
    WordsOfHandIndex(h);
    ReadsHand(h, Words(HandIndex(h)));
  }
}
