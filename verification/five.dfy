/** Five-card hands as the six-card ranker hands them to the five-card
    evaluator, the index tuples that pick them out of a larger hand, and the
    one thing known about the evaluator: it gives no value to a hand with a
    repeated or unrecognised card. */
module FiveCards {
  import opened CardNumber
  import opened HandRank
  import H = Hands
  import HS = HandSets

  /** Five cards, first to last. */
  type Five = h: seq<CKCNumber> | |h| == 5 witness [BLANK_CARD, BLANK_CARD, BLANK_CARD, BLANK_CARD, BLANK_CARD]

  /** Five positions into a larger hand. */
  type Permutation = p: seq<nat> | |p| == 5 witness [0, 1, 2, 3, 4]

  /** p picks five different positions below n, in increasing order: it
      names one five-card subset of an n-card hand. */
  predicate IsSubsetIndex(p: Permutation, n: nat) {
    p[0] < p[1] < p[2] < p[3] < p[4] < n
  }

  /** The cards of h at the positions p names, in the order p names them. */
  function FiveFromPermutation(h: seq<CKCNumber>, p: Permutation): (r: Five)
    requires p[4] < |h| && p[3] < |h| && p[2] < |h| && p[1] < |h| && p[0] < |h|
    ensures forall t :: 0 <= t < 5 ==> r[t] == h[p[t]]
  {
    [h[p[0]], h[p[1]], h[p[2]], h[p[3]], h[p[4]]]
  }

  /** A five-card subset of h holds exactly the cards at the positions it
      names. */
  lemma FiveFromPermutationHolds(h: seq<CKCNumber>, p: Permutation, k: nat)
    requires IsSubsetIndex(p, |h|) && k < |h|
    ensures k in p ==> h[k] in FiveFromPermutation(h, p)
    ensures H.Distinct(h) ==> (h[k] in FiveFromPermutation(h, p) <==> k in p)
  {
    var r := FiveFromPermutation(h, p);
    if k in p {
      var t :| 0 <= t < 5 && p[t] == k;
      assert r[t] == h[k];
    }
    if H.Distinct(h) && h[k] in r {
      var t :| 0 <= t < 5 && r[t] == h[k];
      assert h[p[t]] == h[k];
    }
  }

  //
  // The evaluator
  //

  /** A five-card evaluator: a hand rank value for every five cards, 0 when
      the five cards are not a hand. */
  type Evaluator = Five -> HandRankValue

  /** Five different legal cards. */
  predicate Sound(f: Five) {
    H.Distinct(f) && HS.AllLegal(f)
  }

  /** The evaluator gives no value to five cards with a repeated card, a
      BLANK, or a number that is not a card. */
  ghost predicate Gated(eval: Evaluator) {
    forall f: Five :: !Sound(f) ==> eval(f) == NO_HAND_RANK_VALUE
  }

  /** The five-card value checked first, as `evaluate::five_cards` gives it:
      five cards that are not five different legal cards are worth
      nothing. */
  function Validated(eval: Evaluator): Evaluator {
    f => if Sound(f) then eval(f) else NO_HAND_RANK_VALUE
  }

  /** The checked value refuses every unsound hand and leaves the value of
      a sound one alone. */
  lemma ValidatedIsGated(eval: Evaluator)
    ensures Gated(Validated(eval))
    ensures forall f: Five :: Sound(f) ==> Validated(eval)(f) == eval(f)
  {
  }

  /** The checked value of a hand with a repeated jack, with the word 23
      (which is no card), and with a BLANK is 0, whatever the evaluator. */
  lemma ValidatedRefuses(eval: Evaluator)
    ensures Validated(eval)([JACK_CLUBS, DEUCE_CLUBS, TREY_CLUBS, KING_SPADES, JACK_CLUBS]) == NO_HAND_RANK_VALUE
    ensures Validated(eval)([JACK_CLUBS, DEUCE_CLUBS, 23, KING_SPADES, TEN_SPADES]) == NO_HAND_RANK_VALUE
    ensures Validated(eval)([JACK_CLUBS, QUEEN_DIAMONDS, TREY_CLUBS, KING_SPADES, BLANK_CARD]) == NO_HAND_RANK_VALUE
  {
    RefusesRepeat(eval, [JACK_CLUBS, DEUCE_CLUBS, TREY_CLUBS, KING_SPADES, JACK_CLUBS], 0, 4);
    RefusesRankless(eval, [JACK_CLUBS, DEUCE_CLUBS, 23, KING_SPADES, TEN_SPADES], 2);
    RefusesRankless(eval, [JACK_CLUBS, QUEEN_DIAMONDS, TREY_CLUBS, KING_SPADES, BLANK_CARD], 4);
  }

  /** Five cards with a repeated card are worth nothing once checked. */
  lemma RefusesRepeat(eval: Evaluator, f: Five, i: nat, j: nat)
    requires i < j < 5 && f[i] == f[j]
    ensures Validated(eval)(f) == NO_HAND_RANK_VALUE
  {
    assert !H.Distinct(f);
    assert !Sound(f);
  }

  /** Five cards with a word that carries no rank are worth nothing once
      checked. */
  lemma RefusesRankless(eval: Evaluator, f: Five, k: nat)
    requires k < 5 && GetCardRank(f[k]) == CardRank.BLANK
    ensures Validated(eval)(f) == NO_HAND_RANK_VALUE
  {
    UnsoundWith(f, f[k]);
  }

  /** Five cards holding a card that is not legal are not sound. */
  lemma UnsoundWith(f: Five, c: CKCNumber)
    requires c in f && !IsLegal(c)
    ensures !Sound(f)
  {
    var t :| 0 <= t < 5 && f[t] == c;
    assert !IsLegal(f[t]);
  }
}
