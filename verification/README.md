# ckc-rs card core in Dafny

A model of the card core of ckc-rs, a Rust poker library built on Cactus
Kev's card encoding. The model covers six parts:

- **The packed card (`CKCNumber`).** This is a 32-bit word holding a rank bit,
  a suit bit, the rank number and the rank's prime. The word is built by
  `create` and gated by `filter`. The model also covers the accessors, the
  suit shift, the pair/trips/quads flags and the flush test.
- **The hand-rank classifier (`HandRank`).** It maps a 16-bit hand value to
  one of nine names and one of 309 classes, and orders ranks so that a lower
  value is a better hand and an invalid rank is worst.
- **The 52-bit card set (`BinaryCard`).** This covers the single-card bits,
  the bijection with the 52 packed cards, union, membership, card count,
  validity, reading an index into a set, and `peel`. `peel` takes the first
  card of a set in deck order.
- **The fixed hands.** These are `Two`, `Three`, `Four`, `Six` and `Seven`. For
  each the model covers the uniqueness and validity checks, the descending
  sort and reading a hand from an index. It also covers `Two`'s gap and
  connector tests, its suit shift, its tables of ace hands and its recovery
  from a card set.
- **The 5-of-N index tables and `Six`'s best-of-six reduction.** The
  reduction is the minimum non-zero value over all five-card subsets. It is
  modelled over a five-card evaluator passed in as a parameter.
- **The deck and the index parser.** The parser takes a word to a rank and
  a suit, and then to a card.

Words are bit-vectors (`bv32` for packed cards, `bv64` for card sets).
Hands are fixed-length sequences, and every operation is a pure function.
The one exception is `peel`, which is a method that walks the deck with a
loop invariant.

| file | module | contents |
|---|---|---|
| wrappers.dfy | Wrappers | `Option`, `Result` |
| card_number.dfy | CardNumber | ranks, suits, the 52 constants, `create`, `filter`, accessors, flags, suit shift, flush test |
| hand_rank_class.dfy | HandRankClasses | the 309 classes as positions in declaration order |
| hand_rank.dfy | HandRank | name and class bands, `HandRank`, its validity and ordering |
| bit_count.dfy | BitCount | population count of a 64-bit word |
| binary_card.dfy | BinaryCards | the 52 single-card bits, `from_ckc`, `from_binary_card`, `fold_in`, `has`, `is_valid` |
| hand_set.dfy | HandSets | `from_two` … `from_seven`, `from_index` |
| peel.dfy | Peeling | `peel`, and peeling a set down to nothing |
| hands.dfy | Hands | the `HandValidator` rule, card order, sorting, the sorted uniqueness test |
| parse.dfy | Parse | whitespace words, `get_rank_and_suit`, `from_index`, `five_from_index` |
| deck.dfy | Deck | `POKER_DECK`, `get`, `len` |
| two.dfy, three.dfy, four.dfy | TwoCards, ThreeCards, FourCards | the small hands |
| five.dfy | FiveCards | five-card subsets and the checked five-card value |
| six.dfy, seven.dfy | SixCards, SevenCards | the index tables, `Six`'s reduction, the large hands |

## Model

| member | source | states |
|---|---|---|
| CardNumber.Filter | src/lib.rs:475-531 | the filter returns its input exactly when it is one of the 52 card constants, and BLANK for every other word, illegal flagged or stray words included |
| CardNumber.FilterIdempotent | src/lib.rs:475-531 | filtering twice is filtering once |
| CardNumber.LegalIffListed | src/lib.rs:62-113 | the legal words, decoded back through rank and suit, are exactly the 52 card constants |
| CardNumber.Create | src/lib.rs:469-471 | the word built from a rank's bit, prime and number with a suit's signature, once filtered, is the table constant for that rank and suit |
| CardNumber.CreateMatchesTable | src/lib.rs:469-471 | composing the four parts and filtering gives the named constant of that rank and suit |
| CardNumber.CreateDecodes | src/lib.rs:602-629 | a card created from a non-blank rank and suit decodes to that rank and suit |
| CardNumber.CreateBlank | src/lib.rs:469-471 | a BLANK rank or a BLANK suit creates BLANK |
| CardNumber.LegalLayout | src/lib.rs:642-700 | a legal card's rank flag is its rank's bit, its suit flag its suit's signature, its low bits its rank's prime, and it carries no multiples flag |
| CardNumber.RankFlagIsOneBit | src/lib.rs:173-175 | each rank's flag is one bit inside the rank flag filter |
| CardNumber.SuitFlagIsOneBit | src/lib.rs:262-270 | each suit's signature is one bit inside the suit filter |
| CardNumber.PrimesDistinct | src/lib.rs:195-212 | different ranks have different primes |
| CardNumber.RankDecodesFlag | src/lib.rs:602-620 | a card decodes to a rank exactly when its rank flag is that rank's bit |
| CardNumber.SuitDecodesFlag | src/lib.rs:621-629 | a card decodes to a suit exactly when its suit flag is that suit's signature |
| CardNumber.NextSuit | src/lib.rs:717-725 | the next suit is BLANK exactly when the card's suit is BLANK |
| CardNumber.ShiftSuitCycles | src/lib.rs:744-758 | a legal spade shifts to a heart, a heart to a diamond, a diamond to a club and a club to a spade, so a card and its next three shifts have four different suits |
| CardNumber.ShiftSuitLegal | src/lib.rs:755-758 | shifting a legal card gives a legal card of the same rank in the next suit |
| CardNumber.ShiftSuitFourTimes | src/lib.rs:755-758 | four suit shifts bring a legal card back to itself |
| CardNumber.StripUndoesFlags | src/lib.rs:705-729 | stripping the multiples flags from a legal card with pair, trips or quads set, alone or chained, gives the card back |
| CardNumber.RankFromCharTotal | src/lib.rs:154-171 | a character reads as BLANK rank exactly when it is none of the rank characters |
| CardNumber.SuitFromCharTotal | src/lib.rs:273-281 | a character reads as BLANK suit exactly when it is none of the suit characters |
| CardNumber.RankCharRoundTrip | src/lib.rs:646-664 | reading a card's rank character gives the card's rank |
| CardNumber.SuitLetterRoundTrip | src/lib.rs:687-696 | reading a card's suit letter gives the card's suit |
| CardNumber.IsFlushIffSameSuit | src/lib.rs:338-340 | for five legal cards the shared-suit-bit test holds exactly when all five have one suit |
| HandRank.DetermineName | src/hand_rank.rs:31-43 | the name is Invalid exactly for 0 and values above 7462 |
| HandRank.NameByDocumentedCounts | src/hand_rank.rs:19-43 | each name covers the values after the better names' documented counts, as many as its own count |
| HandRank.CountsBeforeEachName | src/hand_rank.rs:19-29 | the documented counts run up to 10, 166, 322, 1599, 1609, 2467, 3325, 6185 and 7462 |
| HandRank.NameMonotone | src/hand_rank.rs:31-43 | on 1..7462 the name never gets better as the value grows |
| HandRank.DetermineClass | src/hand_rank.rs:48-360 | the class is Invalid exactly for 0 and values above 7462 |
| HandRank.ClassAgreesWithName | src/hand_rank.rs:48-360 | every class band lies inside the band of the class's own name |
| HandRank.ClassMonotone | src/hand_rank.rs:48-360 | on 1..7462 the class never gets better, in declaration order, as the value grows |
| HandRank.FromIsValid | src/hand_rank.rs:364-366 | a rank built from any value is valid, and giving it a different name makes it invalid |
| HandRank.FromInvalidIff | src/hand_rank.rs:369-378 | a rank built from a value is invalid exactly for 0 and values above 7462, and the default rank is value 0 and invalid |
| HandRank.CmpByStrength | src/hand_rank.rs:404-420 | the ordering compares ranks by one integer strength, 0 for every invalid rank |
| HandRank.CmpOrdersValues | src/hand_rank.rs:404-420 | between valid ranks the lower value is Greater, an invalid rank is Less than a valid one, and two invalid ranks are Equal |
| HandRank.InvalidsCompareEqual | src/hand_rank.rs:404-420 | the ranks of 0 and 7463 compare Equal yet differ |
| HandRank.CmpAntisymmetric | src/hand_rank.rs:404-420 | swapping the operands reverses the ordering |
| HandRank.CmpTransitive | src/hand_rank.rs:404-420 | the ordering is transitive |
| BinaryCards.FromCkcSingle | src/cards/binary_card.rs:148-204 | a legal card becomes one deck bit, and every other word becomes BLANK |
| BinaryCards.FromCkcInjective | src/cards/binary_card.rs:148-204 | different legal cards become different bits |
| BinaryCards.FromBinaryCardRoundTrip | src/lib.rs:534-590 | converting a legal card to its bit and back gives the card |
| BinaryCards.FromCkcRoundTrip | src/cards/binary_card.rs:148-204 | converting a single deck bit to its card and back gives the bit |
| BinaryCards.FromBinaryCardBlank | src/lib.rs:534-590 | a set converts to a legal card, or to BLANK exactly when it is not a single deck bit |
| BinaryCards.FromBinaryCardOfCard | src/lib.rs:534-590 | a single deck bit converts to a legal card |
| BinaryCards.FromBinaryCardOfOther | src/lib.rs:534-590 | every set that is not exactly one deck bit, BLANK and overflow bits included, converts to BLANK |
| BinaryCards.DecksAgree | src/cards/binary_card.rs:92-145 | the packed deck and the bit deck list the cards in the same order |
| BinaryCards.FoldInLaws | src/cards/binary_card.rs:257-259 | union is commutative, associative and idempotent, and holds both its operands |
| BinaryCards.IsValidIff | src/cards/binary_card.rs:283-285 | a set is valid exactly when it is not BLANK and has no overflow bit |
| BinaryCards.ValidExamples | src/cards/binary_card.rs:283-285 | ALL and ACES are valid, BLANK and OVERFLOW are not |
| HandSets.FromCardsHolds | src/cards/binary_card.rs:206-254 | the set of a hand holds a legal card exactly when the hand does |
| HandSets.FromCardsCount | src/cards/binary_card.rs:206-254 | a hand of distinct legal cards makes a set with as many cards as the hand |
| HandSets.FromCardsValid | src/cards/binary_card.rs:206-254 | a non-empty hand of legal cards makes a valid set |
| HandSets.FromCardsNoOverflow | src/cards/binary_card.rs:206-254 | the set of any hand has no overflow bit |
| HandSets.FromIndexHolds | src/cards/binary_card.rs:262-270 | the set an index names holds a legal card exactly when one of its words names it |
| HandSets.FromIndexOfHand | src/cards/binary_card.rs:262-270 | the set read from a hand's index is the hand's set |
| Peeling.Peel | src/cards/binary_card.rs:298-306 | the walk over the deck returns the set's first card in deck order and the set with that card taken off |
| Peeling.PeelTakesFirst | src/cards/binary_card.rs:298-306 | the peeled card was in the set and is no longer in the rest |
| Peeling.PeelKeepsOthers | src/cards/binary_card.rs:298-306 | every other card is in the rest exactly when it was in the set |
| Peeling.PeelCount | src/cards/binary_card.rs:298-306 | peeling leaves one card fewer |
| Peeling.PeelEmpty | src/cards/binary_card.rs:298-306 | a set without deck cards peels to BLANK and is left unchanged |
| Peeling.FirstCardHighest | src/cards/binary_card.rs:298-306 | the peeled card is at least as high as every card of the set |
| Peeling.CardsListed | src/cards/binary_card.rs:499-537 | the cards of a set, in deck order, number as many as its deck bits and together make up those bits |
| Peeling.PeelAll | src/cards/binary_card.rs:499-537 | peeling until BLANK yields the set's cards, distinct and in deck order, whose union is the deck part, and leaves the overflow bits; a valid set ends empty |
| Peeling.ValidPeelsEmpty | src/cards/binary_card.rs:283-285 | a valid set has no overflow bits |
| Hands.SortUnique | src/cards/two.rs:240-249 | two descending orderings of the same cards are the same sequence |
| Hands.SortDistinct | src/cards/two.rs:240-249 | sorting keeps distinctness |
| Hands.SentinelUniqueIff | src/cards/six.rs:148-158 | the sorted strict-decrease test below u32::MAX holds exactly for distinct cards with none equal to u32::MAX |
| Parse.GetRankAndSuitReadsTwo | src/parse.rs:17-27 | only the first two characters count, and fewer than two give BLANK rank and suit |
| Parse.CardFromIndexDecodes | src/lib.rs:593-596 | a word with a rank and a suit character in front names the legal card of that rank and suit, and every other word names BLANK |
| Parse.CardFromIndexRoundTrip | src/lib.rs:593-596 | a legal card's rank character and suit letter read back as the card |
| Parse.WordsKeepText | src/parse.rs:4-5 | splitting on whitespace keeps every other character, in order |
| Parse.WordsSplit | src/parse.rs:4-5 | a whitespace character separates the words before it from the words after it |
| Parse.CardsFromIndex | src/parse.rs:4-13 | n cards are read exactly when there are at least n words |
| Parse.CardsFromIndexIgnoresRest | src/parse.rs:4-13 | words after the n-th do not change what is read |
| Parse.FiveFromIndex | src/parse.rs:4-13 | five cards are read exactly when there are at least five words |
| Parse.CardsFromHandIndex | src/parse.rs:4-13 | a hand of legal cards and BLANKs is read back from its index, and asking for more cards gives None |
| Deck.Len | src/deck.rs:76-78 | the length is the number of cards in the deck, 52 |
| Deck.GetReadsDeck | src/deck.rs:67-73 | inside the deck `get` reads it and returns a legal card that passes the filter unchanged, past the end it returns BLANK |
| Deck.DeckDistinct | src/deck.rs:10-63 | the 52 deck entries are pairwise distinct |
| Deck.DeckCoversLegal | src/deck.rs:10-63 | every legal card is in the deck |
| Deck.DeckCard | src/deck.rs:10-63 | deck entry i is the legal card of the i mod 13-th rank and the i div 13-th suit |
| Deck.IndexOf | src/deck.rs:10-63 | every legal card sits at some position of the deck |
| TwoCards.IsValidIff | src/cards/mod.rs:10-12 | a two-card hand is valid exactly when its cards differ and neither is BLANK |
| TwoCards.Sort | src/cards/two.rs:240-249 | sorting gives a descending ordering of the same two cards |
| TwoCards.SortTwo | src/cards/two.rs:240-249 | sorting keeps the hand when the first card is not below the second, and swaps it otherwise |
| TwoCards.SortRanks | src/cards/two.rs:240-249 | on legal cards and BLANK the sorted hand puts the higher rank first |
| TwoCards.HighCardIsLargest | src/cards/two.rs:142-144 | the high card is one of the two, at least as large as both, and the head of the sorted hand |
| TwoCards.GetGapProperties | src/cards/two.rs:131-164 | the gap does not depend on card order and a pocket pair has none; on legal cards and BLANK the connector test, which uses the wrapping gap, holds exactly when the ranks are equal or adjacent, so pocket pairs are connectors |
| TwoCards.GetGapAgrees | src/cards/two.rs:131-139 | on legal cards and BLANK the 8-bit unsigned subtraction of `get_gap` gives the gap |
| TwoCards.GetGapWraps | src/cards/two.rs:131-139 | a flagged deuce sorted above an ace makes `get_gap` wrap to 243 where 11 is meant |
| TwoCards.ConnectorWraps | src/cards/two.rs:147-149 | a flagged deuce with a trey, adjacent ranks, fails the connector test because the wrapping gap is 254 |
| TwoCards.ShiftSuitValid | src/cards/two.rs:256-260 | shifting both cards keeps a hand of legal cards valid or invalid |
| TwoCards.ShiftSuitKeepsShape | src/cards/two.rs:256-260 | on legal cards shifting keeps the ranks, the gap, pocket pairs, suitedness and the connector test |
| TwoCards.ShiftSuitFourTimesBack | src/cards/two.rs:256-260 | four shifts give the hand back |
| TwoCards.AATable | src/cards/two.rs:13-20 | the six AA entries are valid pocket pairs of aces |
| TwoCards.AKsTable | src/cards/two.rs:21-26 | the four AKs entries are valid suited ace-king hands |
| TwoCards.AKoTable | src/cards/two.rs:27-40 | the twelve AKo entries are valid unsuited ace-king hands |
| TwoCards.AQsTable | src/cards/two.rs:41-46 | the four AQs entries are valid suited ace-queen hands |
| TwoCards.AQoTable | src/cards/two.rs:47-60 | the twelve AQo entries are valid unsuited ace-queen hands |
| TwoCards.TryFromIndexReads | src/cards/two.rs:194-206 | an index gives a hand exactly when it has at least two words, the hand holds the cards they name, and InvalidIndex otherwise |
| TwoCards.TryFromIndexRoundTrip | src/cards/two.rs:68-75 | a hand of legal cards and BLANKs is read back from its index |
| TwoCards.TryFromBinaryOk | src/cards/two.rs:208-229 | a set gives a hand exactly when it has two bits, both deck bits; the hand is two distinct legal cards, the higher first, whose set is the input |
| TwoCards.TryFromBinaryErrors | src/cards/two.rs:208-229 | fewer than two bits give NotEnoughCards, more than two TooManyCards, two with an overflow bit InvalidBinaryFormat |
| TwoCards.PeelTwo | src/cards/two.rs:208-229 | peeling a two-card set twice gives two distinct cards, the higher first, whose union is the set |
| ThreeCards.IsValidIff | src/cards/three.rs:69-73 | uniqueness is distinctness, and validity is three distinct cards with no BLANK |
| ThreeCards.DefaultNotValid | src/cards/three.rs:69-73 | the all-BLANK hand contains BLANK and is neither unique nor valid |
| ThreeCards.Sort | src/cards/three.rs:79-88 | sorting gives a descending ordering of the same three cards |
| ThreeCards.SortIsTheOrder | src/cards/three.rs:79-88 | the descending ordering is unique, and sorting keeps validity |
| ThreeCards.TryFromIndexReads | src/cards/three.rs:40-66 | an index gives a hand exactly when it has at least three words, the hand holds the cards they name, and a hand with a BLANK is not valid |
| ThreeCards.TryFromIndexIgnoresRest | src/cards/three.rs:40-48 | words after the third are ignored |
| ThreeCards.TryFromIndexRoundTrip | src/cards/three.rs:40-48 | a hand of legal cards and BLANKs is read back from its index |
| FourCards.IsValidIff | src/cards/four.rs:76-83 | the six pairwise checks are distinctness, and validity is four distinct cards with no BLANK |
| FourCards.DefaultNotValid | src/cards/four.rs:76-83 | the all-BLANK hand contains BLANK and is neither unique nor valid |
| FourCards.Sort | src/cards/four.rs:85-94 | sorting gives a descending ordering of the same four cards |
| FourCards.SortIsTheOrder | src/cards/four.rs:85-94 | the descending ordering is unique, and sorting keeps validity |
| FourCards.TryFromIndexReads | src/cards/four.rs:101-110 | an index gives a hand exactly when it has at least four words, the hand holds the cards they name, and a hand with a BLANK is not valid |
| FourCards.TryFromIndexIgnoresRest | src/cards/four.rs:57-66 | words after the fourth are ignored |
| FourCards.TryFromIndexRoundTrip | src/cards/four.rs:57-66 | a hand of legal cards and BLANKs is read back from its index |
| FiveCards.FiveFromPermutation | src/cards/six.rs:181-190 | the five cards are the hand's cards at the named positions, in the named order |
| FiveCards.FiveFromPermutationHolds | src/cards/six.rs:181-190 | a subset holds the cards at its positions, and for distinct cards no other |
| FiveCards.UnsoundWith | src/lib.rs:419-449 | five cards with an illegal card are not a sound hand |
| FiveCards.ValidatedIsGated | src/lib.rs:332-335 | the checked five-card value is 0 on every hand that is not five different legal cards, and the evaluator's value on every other hand |
| FiveCards.ValidatedRefuses | src/lib.rs:419-449 | the repeated-jack hand, the hand holding the word 23 and the hand holding BLANK are all worth 0 once checked, whatever the evaluator |
| SixCards.PermutationsAreTheSubsets | src/cards/six.rs:15-22 | the six index tuples are increasing, below 6, pairwise different, and every five-of-six subset is among them |
| SixCards.PermutationOmits | src/cards/six.rs:15-22 | tuple m leaves out exactly position 5 - m |
| SixCards.SubsetListed | src/cards/six.rs:15-22 | every increasing five-of-six index tuple is in the table |
| SixCards.SubsetHolds | src/cards/six.rs:181-190 | subset m holds every card but the one at position 5 - m |
| SixCards.HandRankValue | src/cards/six.rs:126-137 | the loop's result is the minimum non-zero value over the six subsets, or 0 when all are 0 |
| SixCards.ReduceFindsMin | src/cards/six.rs:126-137 | each step of the loop keeps the best value the minimum non-zero value seen so far |
| SixCards.HandRankValueIsBest | src/cards/six.rs:126-137 | the value is 0 exactly when every subset's value is 0, otherwise some subset's value and at most every non-zero one |
| SixCards.MinNonZeroUnique | src/cards/six.rs:126-137 | the minimum non-zero value is determined by the values |
| SixCards.OneBadCard | src/cards/six.rs:126-137 | when the six-card loop ranks subsets by the checked five-card value, a hand with one illegal card is worth what the five other cards are worth |
| SixCards.TwoBadCards | src/cards/six.rs:126-137 | when the six-card loop ranks subsets by the checked five-card value, a hand with two illegal cards is worth 0 |
| SixCards.HandRankValueValidated | src/cards/six.rs:139-144 | a hand with a BLANK, a repeated card or u32::MAX is worth 0, and every other hand its smallest non-zero subset value |
| SixCards.IsValidIff | src/cards/six.rs:148-158 | uniqueness is distinctness with no card equal to u32::MAX, and validity adds no BLANK |
| SixCards.DefaultNotValid | src/cards/six.rs:148-158 | the all-BLANK hand contains BLANK and is neither unique nor valid |
| SixCards.RepeatNotUnique | src/cards/six.rs:148-158 | a hand whose first two cards are the same is not unique |
| SixCards.Sort | src/cards/six.rs:164-173 | sorting gives a descending ordering of the same six cards |
| SixCards.SortIsTheOrder | src/cards/six.rs:164-173 | the descending ordering is unique, and sorting keeps validity |
| SixCards.From1And2And3 | src/cards/six.rs:25-34 | the hand is the one card, then the two, then the three, in order |
| SixCards.From1And2And3Inverse | src/cards/six.rs:25-34 | every six-card hand is assembled from its first card, next two and last three |
| SixCards.From1And2And3Valid | src/cards/six.rs:25-34 | a valid assembled hand has valid parts that share no card |
| SixCards.TryFromIndexReads | src/cards/six.rs:192-200 | an index gives a hand exactly when it has at least six words, the hand holds the cards they name, and a hand with a BLANK is not valid |
| SixCards.TryFromIndexIgnoresRest | src/cards/six.rs:105-116 | words after the sixth are ignored |
| SixCards.TryFromIndexRoundTrip | src/cards/six.rs:105-116 | a hand of legal cards and BLANKs is read back from its index |
| SevenCards.PermutationsAreTheSubsets | src/cards/seven.rs:15-37 | the 21 index tuples are increasing, below 7, pairwise different, and every five-of-seven subset is among them |
| SevenCards.KeysGrow | src/cards/seven.rs:15-37 | the tuples are listed in increasing lexicographic order |
| SevenCards.SubsetListed | src/cards/seven.rs:15-37 | every increasing five-of-seven index tuple is in the table |
| SevenCards.New | src/cards/seven.rs:40-50 | the hand is the two cards followed by the five, in order |
| SevenCards.NewInverse | src/cards/seven.rs:40-50 | every seven-card hand is its first two cards followed by its last five |
| SevenCards.NewValid | src/cards/seven.rs:40-50 | a valid assembled hand has a valid two, five distinct non-BLANK cards, and no shared card |
| SevenCards.IsValidIff | src/cards/seven.rs:141-151 | uniqueness is distinctness with no card equal to u32::MAX, and validity adds no BLANK |
| SevenCards.DefaultNotValid | src/cards/seven.rs:199-213 | the all-BLANK hand contains BLANK and is neither unique nor valid |
| SevenCards.RepeatNotUnique | src/cards/seven.rs:141-151 | a hand whose first two cards are the same is not unique |
| SevenCards.Sort | src/cards/seven.rs:157-166 | sorting gives a descending ordering of the same seven cards |
| SevenCards.SortIsTheOrder | src/cards/seven.rs:157-166 | the descending ordering is unique, and sorting keeps validity |
| SevenCards.TryFromIndexReads | src/cards/seven.rs:173-182 | an index gives a hand exactly when it has at least seven words, the hand holds the cards they name, and a hand with a BLANK is not valid |
| SevenCards.TryFromIndexIgnoresRest | src/cards/seven.rs:119-131 | words after the seventh are ignored |
| SevenCards.TryFromIndexRoundTrip | src/cards/seven.rs:119-131 | a hand of legal cards and BLANKs is read back from its index |

## Left out

- The five-card evaluator is not modelled. Its body, the flush and unique-five tables, the prime-product search and the value table are not part of this model, and `Five`'s `TryFrom` is `todo!()`. The evaluator is a parameter (`FiveCards.Evaluator`), and nothing is assumed of it. `evaluate::five_cards` calls the checked path, `hand_rank_value_validated`. Its tests give 0 for a repeated card, for the word 23 and for BLANK. It is modelled as `FiveCards.Validated`, which is 0 on every hand that is not five different legal cards: the tests show three such hands, and the model extends them to all. `or_rank_bits` is left out with the evaluator.
- SixCards.HandRankValue: `Six`'s loop calls the unchecked five-card value, which depends on the lookup tables. Nothing is stated about what that value gives for a subset with a repeated or illegal card. `SixCards.OneBadCard` and `SixCards.TwoBadCards` are stated for the loop run over the checked value (`FiveCards.Validated`).
- `Seven` has no hand ranker in ckc-rs, so none is modelled. Its index table is modelled on its own.
- The Chen formula and Chen points are left out: they are floating-point arithmetic with `ceil`.
- `bit_card.rs` is not part of this model. It is an experiment on a foreign bit-vector crate.
- `alt/binary_card.rs` and `razz.rs` are not part of this model.
- Serde derives and `Display`/`Debug` formatting are left out. So are the plain field accessors, setters and `to_arr`/`iter` of the hands: they read or write one array slot.
- `sort_in_place` is modelled only through `sort`, which calls it.
- Whitespace is the six ASCII whitespace characters. Rust's `split_whitespace` also splits on the other Unicode white-space characters.
- `contain_blank` is declared in `cards/mod.rs` but its body is not among the files modelled here. It is modelled as "some card is BLANK", which the tests of every hand agree with.
- TwoCards.GetGap is the corrected gap, the number of ranks strictly between the two cards. `get_gap` as written is `TwoCards.GetGapAsWritten`, and the connector tests use it, wrapping as a release build does. A debug build panics on the same hands; the panic is not modelled.
- The card-to-character display helpers (`get_rank_char`, `get_suit_letter`) are modelled only so that the index round trips can be stated. `get_suit_char` is left out.
- CardNumber.NextSuit: its own contract only says when the next suit is BLANK; the spades, hearts, diamonds, clubs order is stated for legal cards by `ShiftSuitCycles`.

## Findings

| source | as written | input that shows it | evidently intended | confidence | as-written member | corrected member |
|---|---|---|---|---|---|---|
| src/cards/two.rs:131-139 | the gap subtracts the second sorted card's rank from the first's as `u8`, which wraps when the sort, done on the packed words, puts the lower rank first | the hand of a deuce carrying the pair flag and the ace of spades: the flagged deuce sorts first, and 2 - 14 wraps, giving a gap of 243 | 11, the number of ranks strictly between the two cards; the same wrap makes a flagged deuce and a trey fail `is_connector` (`TwoCards.ConnectorWraps`) | low, not executed; only a card with a multiples flag can reach it | TwoCards.GetGapWraps | TwoCards.GetGapAgrees |
