/** The rank of a five-card poker hand.

    A hand-rank value is an unsigned 16-bit number; the lower the value, the
    better the hand. The 7462 values 1..7462 cover every distinct five-card
    hand, from the royal flush (1) down to the worst seven-high (7462); 0 and
    every value above 7462 are Invalid. Each value has a coarse name (nine
    bands) and a fine class (309 bands), both fixed by the value alone. */
module HandRank {
  import opened HandRankClasses

  /** An unsigned 16-bit hand-rank value. */
  type HandRankValue = v: int | 0 <= v < 0x1_0000

  const NO_HAND_RANK_VALUE: HandRankValue := 0

  /** The traditional names of poker hands, best first. */
  datatype HandRankName =
    | StraightFlush
    | FourOfAKind
    | FullHouse
    | Flush
    | Straight
    | ThreeOfAKind
    | TwoPair
    | Pair
    | HighCard
    | Invalid

  /** A hand rank: the value with the name and class it determines. */
  datatype HandRank = HandRank(value: HandRankValue, name: HandRankName, handClass: HandRankClass)

  datatype Ordering = Less | Equal | Greater {
    function Reverse(): Ordering {
      match this
      case Less => Greater
      case Equal => Equal
      case Greater => Less
    }
  }

  /** A name's position in the declaration, which the derived ordering of
      names follows. */
  function NameOrdinal(n: HandRankName): nat {
    match n
    case StraightFlush => 0
    case FourOfAKind => 1
    case FullHouse => 2
    case Flush => 3
    case Straight => 4
    case ThreeOfAKind => 5
    case TwoPair => 6
    case Pair => 7
    case HighCard => 8
    case Invalid => 9
  }

  /** The name in a given position of the declaration. */
  function NameAt(k: nat): (n: HandRankName)
    requires k <= 9
    ensures NameOrdinal(n) == k
  {
    if k == 0 then StraightFlush
    else if k == 1 then FourOfAKind
    else if k == 2 then FullHouse
    else if k == 3 then Flush
    else if k == 4 then Straight
    else if k == 5 then ThreeOfAKind
    else if k == 6 then TwoPair
    else if k == 7 then Pair
    else if k == 8 then HighCard
    else HandRankName.Invalid
  }

  /** How many distinct hands carry each name, as the documentation of
      `determine_name` counts them. */
  function DocumentedCount(n: HandRankName): nat {
    match n
    case StraightFlush => 10
    case FourOfAKind => 156
    case FullHouse => 156
    case Flush => 1277
    case Straight => 10
    case ThreeOfAKind => 858
    case TwoPair => 858
    case Pair => 2860
    case HighCard => 1277
    case Invalid => 0
  }

  /** The number of hands whose name comes before position k. */
  function CountBefore(k: nat): nat
    requires k <= 9
  {
    if k == 0 then 0 else CountBefore(k - 1) + DocumentedCount(NameAt(k - 1))
  }

  function DetermineName(v: HandRankValue): (n: HandRankName)
    ensures n == HandRankName.Invalid <==> v == 0 || v > 7462
  {
    if 1 <= v <= 10 then StraightFlush
    else if 11 <= v <= 166 then FourOfAKind
    else if 167 <= v <= 322 then FullHouse
    else if 323 <= v <= 1599 then Flush
    else if 1600 <= v <= 1609 then Straight
    else if 1610 <= v <= 2467 then ThreeOfAKind
    else if 2468 <= v <= 3325 then TwoPair
    else if 3326 <= v <= 6185 then Pair
    else if 6186 <= v <= 7462 then HighCard
    else HandRankName.Invalid
  }

  function DetermineClass(v: HandRankValue): (c: HandRankClass)
    ensures c == HandRankClasses.Invalid <==> v == 0 || v > 7462
  {
    if 1 <= v <= 10 then StraightFlushClass(v)
    else if 11 <= v <= 166 then FourOfAKindClass(v)
    else if 167 <= v <= 322 then FullHouseClass(v)
    else if 323 <= v <= 1599 then FlushClass(v)
    else if 1600 <= v <= 1609 then StraightClass(v)
    else if 1610 <= v <= 2467 then ThreeOfAKindClass(v)
    else if 2468 <= v <= 3325 then TwoPairClass(v)
    else if 3326 <= v <= 6185 then PairClass(v)
    else if 6186 <= v <= 7462 then HighCardClass(v)
    else HandRankClasses.Invalid
  }

  /** The straight flushes: one class per value, royal flush first. */
  function StraightFlushClass(v: int): HandRankClass
    requires 1 <= v <= 10
  {
    (v - 1) as HandRankClass
  }

  /** The four of a kinds: one class per rank of the quads, twelve kickers each. */
  function FourOfAKindClass(v: int): HandRankClass
    requires 11 <= v <= 166
  {
    (10 + (v - 11) / 12) as HandRankClass
  }

  /** The full houses: one class per value, by the trips and then the pair. */
  function FullHouseClass(v: int): HandRankClass
    requires 167 <= v <= 322
  {
    (23 + v - 167) as HandRankClass
  }

  /** The flushes, by the highest card; the bands are irregular. */
  function FlushClass(v: int): HandRankClass
    requires 323 <= v <= 1599
  {
    if v <= 815 then AceHighFlush
    else if v <= 1144 then KingHighFlush
    else if v <= 1353 then QueenHighFlush
    else if v <= 1478 then JackHighFlush
    else if v <= 1547 then TenHighFlush
    else if v <= 1581 then NineHighFlush
    else if v <= 1595 then EightHighFlush
    else SevenHighFlush
  }

  /** The straights: one class per value, ace-high first. */
  function StraightClass(v: int): HandRankClass
    requires 1600 <= v <= 1609
  {
    (187 + v - 1600) as HandRankClass
  }

  /** The three of a kinds: one class per rank of the trips, 66 kicker pairs each. */
  function ThreeOfAKindClass(v: int): HandRankClass
    requires 1610 <= v <= 2467
  {
    (197 + (v - 1610) / 66) as HandRankClass
  }

  /** The two pairs: one class per pair of pairs, eleven kickers each. */
  function TwoPairClass(v: int): HandRankClass
    requires 2468 <= v <= 3325
  {
    (210 + (v - 2468) / 11) as HandRankClass
  }

  /** The one pairs: one class per rank of the pair, 220 kicker triples each. */
  function PairClass(v: int): HandRankClass
    requires 3326 <= v <= 6185
  {
    (288 + (v - 3326) / 220) as HandRankClass
  }

  /** The high-card hands, by the highest card; the bands are irregular. */
  function HighCardClass(v: int): HandRankClass
    requires 6186 <= v <= 7462
  {
    if v <= 6678 then AceHigh
    else if v <= 7007 then KingHigh
    else if v <= 7216 then QueenHigh
    else if v <= 7341 then JackHigh
    else if v <= 7410 then TenHigh
    else if v <= 7444 then NineHigh
    else if v <= 7458 then EightHigh
    else SevenHigh
  }

  /** The name a class belongs to, read off the grouping of the class
      declaration: the first ten classes are straight flushes, the next
      thirteen four of a kinds, and so on. */
  function ClassName(c: HandRankClass): HandRankName {
    if c <= FiveHighStraightFlush then StraightFlush
    else if c <= FourDeuces then FourOfAKind
    else if c <= DeucesOverTreys then FullHouse
    else if c <= SevenHighFlush then Flush
    else if c <= FiveHighStraight then Straight
    else if c <= ThreeDeuces then ThreeOfAKind
    else if c <= TreysAndDeuces then TwoPair
    else if c <= PairOfDeuces then Pair
    else if c <= SevenHigh then HighCard
    else HandRankName.Invalid
  }

  //
  // The arms of `determine_class`, value range by value range
  //

  lemma StraightFlushArms()
    ensures DetermineClass(1) == RoyalFlush
    ensures DetermineClass(2) == KingHighStraightFlush
    ensures DetermineClass(3) == QueenHighStraightFlush
    ensures DetermineClass(4) == JackHighStraightFlush
    ensures DetermineClass(5) == TenHighStraightFlush
    ensures DetermineClass(6) == NineHighStraightFlush
    ensures DetermineClass(7) == EightHighStraightFlush
    ensures DetermineClass(8) == SevenHighStraightFlush
    ensures DetermineClass(9) == SixHighStraightFlush
    ensures DetermineClass(10) == FiveHighStraightFlush
  {
  }

  lemma FourOfAKindArms()
    ensures forall v: HandRankValue | 11 <= v <= 22 :: DetermineClass(v) == FourAces
    ensures forall v: HandRankValue | 23 <= v <= 34 :: DetermineClass(v) == FourKings
    ensures forall v: HandRankValue | 35 <= v <= 46 :: DetermineClass(v) == FourQueens
    ensures forall v: HandRankValue | 47 <= v <= 58 :: DetermineClass(v) == FourJacks
    ensures forall v: HandRankValue | 59 <= v <= 70 :: DetermineClass(v) == FourTens
    ensures forall v: HandRankValue | 71 <= v <= 82 :: DetermineClass(v) == FourNines
    ensures forall v: HandRankValue | 83 <= v <= 94 :: DetermineClass(v) == FourEights
    ensures forall v: HandRankValue | 95 <= v <= 106 :: DetermineClass(v) == FourSevens
    ensures forall v: HandRankValue | 107 <= v <= 118 :: DetermineClass(v) == FourSixes
    ensures forall v: HandRankValue | 119 <= v <= 130 :: DetermineClass(v) == FourFives
    ensures forall v: HandRankValue | 131 <= v <= 142 :: DetermineClass(v) == FourFours
    ensures forall v: HandRankValue | 143 <= v <= 154 :: DetermineClass(v) == FourTreys
    ensures forall v: HandRankValue | 155 <= v <= 166 :: DetermineClass(v) == FourDeuces
  {
  }

  lemma AcesFullArms()
    ensures DetermineClass(167) == AcesOverKings
    ensures DetermineClass(168) == AcesOverQueens
    ensures DetermineClass(169) == AcesOverJacks
    ensures DetermineClass(170) == AcesOverTens
    ensures DetermineClass(171) == AcesOverNines
    ensures DetermineClass(172) == AcesOverEights
    ensures DetermineClass(173) == AcesOverSevens
    ensures DetermineClass(174) == AcesOverSixes
    ensures DetermineClass(175) == AcesOverFives
    ensures DetermineClass(176) == AcesOverFours
    ensures DetermineClass(177) == AcesOverTreys
    ensures DetermineClass(178) == AcesOverDeuces
  {
  }

  lemma KingsFullArms()
    ensures DetermineClass(179) == KingsOverAces
    ensures DetermineClass(180) == KingsOverQueens
    ensures DetermineClass(181) == KingsOverJacks
    ensures DetermineClass(182) == KingsOverTens
    ensures DetermineClass(183) == KingsOverNines
    ensures DetermineClass(184) == KingsOverEights
    ensures DetermineClass(185) == KingsOverSevens
    ensures DetermineClass(186) == KingsOverSixes
    ensures DetermineClass(187) == KingsOverFives
    ensures DetermineClass(188) == KingsOverFours
    ensures DetermineClass(189) == KingsOverTreys
    ensures DetermineClass(190) == KingsOverDeuces
  {
  }

  lemma QueensFullArms()
    ensures DetermineClass(191) == QueensOverAces
    ensures DetermineClass(192) == QueensOverKings
    ensures DetermineClass(193) == QueensOverJacks
    ensures DetermineClass(194) == QueensOverTens
    ensures DetermineClass(195) == QueensOverNines
    ensures DetermineClass(196) == QueensOverEights
    ensures DetermineClass(197) == QueensOverSevens
    ensures DetermineClass(198) == QueensOverSixes
    ensures DetermineClass(199) == QueensOverFives
    ensures DetermineClass(200) == QueensOverFours
    ensures DetermineClass(201) == QueensOverTreys
    ensures DetermineClass(202) == QueensOverDeuces
  {
  }

  lemma JacksFullArms()
    ensures DetermineClass(203) == JacksOverAces
    ensures DetermineClass(204) == JacksOverKings
    ensures DetermineClass(205) == JacksOverQueens
    ensures DetermineClass(206) == JacksOverTens
    ensures DetermineClass(207) == JacksOverNines
    ensures DetermineClass(208) == JacksOverEights
    ensures DetermineClass(209) == JacksOverSevens
    ensures DetermineClass(210) == JacksOverSixes
    ensures DetermineClass(211) == JacksOverFives
    ensures DetermineClass(212) == JacksOverFours
    ensures DetermineClass(213) == JacksOverTreys
    ensures DetermineClass(214) == JacksOverDeuces
  {
  }

  lemma TensFullArms()
    ensures DetermineClass(215) == TensOverAces
    ensures DetermineClass(216) == TensOverKings
    ensures DetermineClass(217) == TensOverQueens
    ensures DetermineClass(218) == TensOverJacks
    ensures DetermineClass(219) == TensOverNines
    ensures DetermineClass(220) == TensOverEights
    ensures DetermineClass(221) == TensOverSevens
    ensures DetermineClass(222) == TensOverSixes
    ensures DetermineClass(223) == TensOverFives
    ensures DetermineClass(224) == TensOverFours
    ensures DetermineClass(225) == TensOverTreys
    ensures DetermineClass(226) == TensOverDeuces
  {
  }

  lemma NinesFullArms()
    ensures DetermineClass(227) == NinesOverAces
    ensures DetermineClass(228) == NinesOverKings
    ensures DetermineClass(229) == NinesOverQueens
    ensures DetermineClass(230) == NinesOverJacks
    ensures DetermineClass(231) == NinesOverTens
    ensures DetermineClass(232) == NinesOverEights
    ensures DetermineClass(233) == NinesOverSevens
    ensures DetermineClass(234) == NinesOverSixes
    ensures DetermineClass(235) == NinesOverFives
    ensures DetermineClass(236) == NinesOverFours
    ensures DetermineClass(237) == NinesOverTreys
    ensures DetermineClass(238) == NinesOverDeuces
  {
  }

  lemma EightsFullArms()
    ensures DetermineClass(239) == EightsOverAces
    ensures DetermineClass(240) == EightsOverKings
    ensures DetermineClass(241) == EightsOverQueens
    ensures DetermineClass(242) == EightsOverJacks
    ensures DetermineClass(243) == EightsOverTens
    ensures DetermineClass(244) == EightsOverNines
    ensures DetermineClass(245) == EightsOverSevens
    ensures DetermineClass(246) == EightsOverSixes
    ensures DetermineClass(247) == EightsOverFives
    ensures DetermineClass(248) == EightsOverFours
    ensures DetermineClass(249) == EightsOverTreys
    ensures DetermineClass(250) == EightsOverDeuces
  {
  }

  lemma SevensFullArms()
    ensures DetermineClass(251) == SevensOverAces
    ensures DetermineClass(252) == SevensOverKings
    ensures DetermineClass(253) == SevensOverQueens
    ensures DetermineClass(254) == SevensOverJacks
    ensures DetermineClass(255) == SevensOverTens
    ensures DetermineClass(256) == SevensOverNines
    ensures DetermineClass(257) == SevensOverEights
    ensures DetermineClass(258) == SevensOverSixes
    ensures DetermineClass(259) == SevensOverFives
    ensures DetermineClass(260) == SevensOverFours
    ensures DetermineClass(261) == SevensOverTreys
    ensures DetermineClass(262) == SevensOverDeuces
  {
  }

  lemma SixesFullArms()
    ensures DetermineClass(263) == SixesOverAces
    ensures DetermineClass(264) == SixesOverKings
    ensures DetermineClass(265) == SixesOverQueens
    ensures DetermineClass(266) == SixesOverJacks
    ensures DetermineClass(267) == SixesOverTens
    ensures DetermineClass(268) == SixesOverNines
    ensures DetermineClass(269) == SixesOverEights
    ensures DetermineClass(270) == SixesOverSevens
    ensures DetermineClass(271) == SixesOverFives
    ensures DetermineClass(272) == SixesOverFours
    ensures DetermineClass(273) == SixesOverTreys
    ensures DetermineClass(274) == SixesOverDeuces
  {
  }

  lemma FivesFullArms()
    ensures DetermineClass(275) == FivesOverAces
    ensures DetermineClass(276) == FivesOverKings
    ensures DetermineClass(277) == FivesOverQueens
    ensures DetermineClass(278) == FivesOverJacks
    ensures DetermineClass(279) == FivesOverTens
    ensures DetermineClass(280) == FivesOverNines
    ensures DetermineClass(281) == FivesOverEights
    ensures DetermineClass(282) == FivesOverSevens
    ensures DetermineClass(283) == FivesOverSixes
    ensures DetermineClass(284) == FivesOverFours
    ensures DetermineClass(285) == FivesOverTreys
    ensures DetermineClass(286) == FivesOverDeuces
  {
  }

  lemma FoursFullArms()
    ensures DetermineClass(287) == FoursOverAces
    ensures DetermineClass(288) == FoursOverKings
    ensures DetermineClass(289) == FoursOverQueens
    ensures DetermineClass(290) == FoursOverJacks
    ensures DetermineClass(291) == FoursOverTens
    ensures DetermineClass(292) == FoursOverNines
    ensures DetermineClass(293) == FoursOverEights
    ensures DetermineClass(294) == FoursOverSevens
    ensures DetermineClass(295) == FoursOverSixes
    ensures DetermineClass(296) == FoursOverFives
    ensures DetermineClass(297) == FoursOverTreys
    ensures DetermineClass(298) == FoursOverDeuces
  {
  }

  lemma TreysFullArms()
    ensures DetermineClass(299) == TreysOverAces
    ensures DetermineClass(300) == TreysOverKings
    ensures DetermineClass(301) == TreysOverQueens
    ensures DetermineClass(302) == TreysOverJacks
    ensures DetermineClass(303) == TreysOverTens
    ensures DetermineClass(304) == TreysOverNines
    ensures DetermineClass(305) == TreysOverEights
    ensures DetermineClass(306) == TreysOverSevens
    ensures DetermineClass(307) == TreysOverSixes
    ensures DetermineClass(308) == TreysOverFives
    ensures DetermineClass(309) == TreysOverFours
    ensures DetermineClass(310) == TreysOverDeuces
  {
  }

  lemma DeucesFullArms()
    ensures DetermineClass(311) == DeucesOverAces
    ensures DetermineClass(312) == DeucesOverKings
    ensures DetermineClass(313) == DeucesOverQueens
    ensures DetermineClass(314) == DeucesOverJacks
    ensures DetermineClass(315) == DeucesOverTens
    ensures DetermineClass(316) == DeucesOverNines
    ensures DetermineClass(317) == DeucesOverEights
    ensures DetermineClass(318) == DeucesOverSevens
    ensures DetermineClass(319) == DeucesOverSixes
    ensures DetermineClass(320) == DeucesOverFives
    ensures DetermineClass(321) == DeucesOverFours
    ensures DetermineClass(322) == DeucesOverTreys
  {
  }

  lemma FlushArms()
    ensures forall v: HandRankValue | 323 <= v <= 815 :: DetermineClass(v) == AceHighFlush
    ensures forall v: HandRankValue | 816 <= v <= 1144 :: DetermineClass(v) == KingHighFlush
    ensures forall v: HandRankValue | 1145 <= v <= 1353 :: DetermineClass(v) == QueenHighFlush
    ensures forall v: HandRankValue | 1354 <= v <= 1478 :: DetermineClass(v) == JackHighFlush
    ensures forall v: HandRankValue | 1479 <= v <= 1547 :: DetermineClass(v) == TenHighFlush
    ensures forall v: HandRankValue | 1548 <= v <= 1581 :: DetermineClass(v) == NineHighFlush
    ensures forall v: HandRankValue | 1582 <= v <= 1595 :: DetermineClass(v) == EightHighFlush
    ensures forall v: HandRankValue | 1596 <= v <= 1599 :: DetermineClass(v) == SevenHighFlush
  {
  }

  lemma StraightArms()
    ensures DetermineClass(1600) == AceHighStraight
    ensures DetermineClass(1601) == KingHighStraight
    ensures DetermineClass(1602) == QueenHighStraight
    ensures DetermineClass(1603) == JackHighStraight
    ensures DetermineClass(1604) == TenHighStraight
    ensures DetermineClass(1605) == NineHighStraight
    ensures DetermineClass(1606) == EightHighStraight
    ensures DetermineClass(1607) == SevenHighStraight
    ensures DetermineClass(1608) == SixHighStraight
    ensures DetermineClass(1609) == FiveHighStraight
  {
  }

  lemma ThreeOfAKindArms()
    ensures forall v: HandRankValue | 1610 <= v <= 1675 :: DetermineClass(v) == ThreeAces
    ensures forall v: HandRankValue | 1676 <= v <= 1741 :: DetermineClass(v) == ThreeKings
    ensures forall v: HandRankValue | 1742 <= v <= 1807 :: DetermineClass(v) == ThreeQueens
    ensures forall v: HandRankValue | 1808 <= v <= 1873 :: DetermineClass(v) == ThreeJacks
    ensures forall v: HandRankValue | 1874 <= v <= 1939 :: DetermineClass(v) == ThreeTens
    ensures forall v: HandRankValue | 1940 <= v <= 2005 :: DetermineClass(v) == ThreeNines
    ensures forall v: HandRankValue | 2006 <= v <= 2071 :: DetermineClass(v) == ThreeEights
    ensures forall v: HandRankValue | 2072 <= v <= 2137 :: DetermineClass(v) == ThreeSevens
    ensures forall v: HandRankValue | 2138 <= v <= 2203 :: DetermineClass(v) == ThreeSixes
    ensures forall v: HandRankValue | 2204 <= v <= 2269 :: DetermineClass(v) == ThreeFives
    ensures forall v: HandRankValue | 2270 <= v <= 2335 :: DetermineClass(v) == ThreeFours
    ensures forall v: HandRankValue | 2336 <= v <= 2401 :: DetermineClass(v) == ThreeTreys
    ensures forall v: HandRankValue | 2402 <= v <= 2467 :: DetermineClass(v) == ThreeDeuces
  {
  }

  lemma AcesUpArms()
    ensures forall v: HandRankValue | 2468 <= v <= 2478 :: DetermineClass(v) == AcesAndKings
    ensures forall v: HandRankValue | 2479 <= v <= 2489 :: DetermineClass(v) == AcesAndQueens
    ensures forall v: HandRankValue | 2490 <= v <= 2500 :: DetermineClass(v) == AcesAndJacks
    ensures forall v: HandRankValue | 2501 <= v <= 2511 :: DetermineClass(v) == AcesAndTens
    ensures forall v: HandRankValue | 2512 <= v <= 2522 :: DetermineClass(v) == AcesAndNines
    ensures forall v: HandRankValue | 2523 <= v <= 2533 :: DetermineClass(v) == AcesAndEights
    ensures forall v: HandRankValue | 2534 <= v <= 2544 :: DetermineClass(v) == AcesAndSevens
    ensures forall v: HandRankValue | 2545 <= v <= 2555 :: DetermineClass(v) == AcesAndSixes
    ensures forall v: HandRankValue | 2556 <= v <= 2566 :: DetermineClass(v) == AcesAndFives
    ensures forall v: HandRankValue | 2567 <= v <= 2577 :: DetermineClass(v) == AcesAndFours
    ensures forall v: HandRankValue | 2578 <= v <= 2588 :: DetermineClass(v) == AcesAndTreys
    ensures forall v: HandRankValue | 2589 <= v <= 2599 :: DetermineClass(v) == AcesAndDeuces
  {
  }

  lemma KingsUpArms()
    ensures forall v: HandRankValue | 2600 <= v <= 2610 :: DetermineClass(v) == KingsAndQueens
    ensures forall v: HandRankValue | 2611 <= v <= 2621 :: DetermineClass(v) == KingsAndJacks
    ensures forall v: HandRankValue | 2622 <= v <= 2632 :: DetermineClass(v) == KingsAndTens
    ensures forall v: HandRankValue | 2633 <= v <= 2643 :: DetermineClass(v) == KingsAndNines
    ensures forall v: HandRankValue | 2644 <= v <= 2654 :: DetermineClass(v) == KingsAndEights
    ensures forall v: HandRankValue | 2655 <= v <= 2665 :: DetermineClass(v) == KingsAndSevens
    ensures forall v: HandRankValue | 2666 <= v <= 2676 :: DetermineClass(v) == KingsAndSixes
    ensures forall v: HandRankValue | 2677 <= v <= 2687 :: DetermineClass(v) == KingsAndFives
    ensures forall v: HandRankValue | 2688 <= v <= 2698 :: DetermineClass(v) == KingsAndFours
    ensures forall v: HandRankValue | 2699 <= v <= 2709 :: DetermineClass(v) == KingsAndTreys
    ensures forall v: HandRankValue | 2710 <= v <= 2720 :: DetermineClass(v) == KingsAndDeuces
  {
  }

  lemma QueensUpArms()
    ensures forall v: HandRankValue | 2721 <= v <= 2731 :: DetermineClass(v) == QueensAndJacks
    ensures forall v: HandRankValue | 2732 <= v <= 2742 :: DetermineClass(v) == QueensAndTens
    ensures forall v: HandRankValue | 2743 <= v <= 2753 :: DetermineClass(v) == QueensAndNines
    ensures forall v: HandRankValue | 2754 <= v <= 2764 :: DetermineClass(v) == QueensAndEights
    ensures forall v: HandRankValue | 2765 <= v <= 2775 :: DetermineClass(v) == QueensAndSevens
    ensures forall v: HandRankValue | 2776 <= v <= 2786 :: DetermineClass(v) == QueensAndSixes
    ensures forall v: HandRankValue | 2787 <= v <= 2797 :: DetermineClass(v) == QueensAndFives
    ensures forall v: HandRankValue | 2798 <= v <= 2808 :: DetermineClass(v) == QueensAndFours
    ensures forall v: HandRankValue | 2809 <= v <= 2819 :: DetermineClass(v) == QueensAndTreys
    ensures forall v: HandRankValue | 2820 <= v <= 2830 :: DetermineClass(v) == QueensAndDeuces
  {
  }

  lemma JacksUpArms()
    ensures forall v: HandRankValue | 2831 <= v <= 2841 :: DetermineClass(v) == JacksAndTens
    ensures forall v: HandRankValue | 2842 <= v <= 2852 :: DetermineClass(v) == JacksAndNines
    ensures forall v: HandRankValue | 2853 <= v <= 2863 :: DetermineClass(v) == JacksAndEights
    ensures forall v: HandRankValue | 2864 <= v <= 2874 :: DetermineClass(v) == JacksAndSevens
    ensures forall v: HandRankValue | 2875 <= v <= 2885 :: DetermineClass(v) == JacksAndSixes
    ensures forall v: HandRankValue | 2886 <= v <= 2896 :: DetermineClass(v) == JacksAndFives
    ensures forall v: HandRankValue | 2897 <= v <= 2907 :: DetermineClass(v) == JacksAndFours
    ensures forall v: HandRankValue | 2908 <= v <= 2918 :: DetermineClass(v) == JacksAndTreys
    ensures forall v: HandRankValue | 2919 <= v <= 2929 :: DetermineClass(v) == JacksAndDeuces
  {
  }

  lemma TensUpArms()
    ensures forall v: HandRankValue | 2930 <= v <= 2940 :: DetermineClass(v) == TensAndNines
    ensures forall v: HandRankValue | 2941 <= v <= 2951 :: DetermineClass(v) == TensAndEights
    ensures forall v: HandRankValue | 2952 <= v <= 2962 :: DetermineClass(v) == TensAndSevens
    ensures forall v: HandRankValue | 2963 <= v <= 2973 :: DetermineClass(v) == TensAndSixes
    ensures forall v: HandRankValue | 2974 <= v <= 2984 :: DetermineClass(v) == TensAndFives
    ensures forall v: HandRankValue | 2985 <= v <= 2995 :: DetermineClass(v) == TensAndFours
    ensures forall v: HandRankValue | 2996 <= v <= 3006 :: DetermineClass(v) == TensAndTreys
    ensures forall v: HandRankValue | 3007 <= v <= 3017 :: DetermineClass(v) == TensAndDeuces
  {
  }

  lemma NinesUpArms()
    ensures forall v: HandRankValue | 3018 <= v <= 3028 :: DetermineClass(v) == NinesAndEights
    ensures forall v: HandRankValue | 3029 <= v <= 3039 :: DetermineClass(v) == NinesAndSevens
    ensures forall v: HandRankValue | 3040 <= v <= 3050 :: DetermineClass(v) == NinesAndSixes
    ensures forall v: HandRankValue | 3051 <= v <= 3061 :: DetermineClass(v) == NinesAndFives
    ensures forall v: HandRankValue | 3062 <= v <= 3072 :: DetermineClass(v) == NinesAndFours
    ensures forall v: HandRankValue | 3073 <= v <= 3083 :: DetermineClass(v) == NinesAndTreys
    ensures forall v: HandRankValue | 3084 <= v <= 3094 :: DetermineClass(v) == NinesAndDeuces
  {
  }

  lemma EightsUpArms()
    ensures forall v: HandRankValue | 3095 <= v <= 3105 :: DetermineClass(v) == EightsAndSevens
    ensures forall v: HandRankValue | 3106 <= v <= 3116 :: DetermineClass(v) == EightsAndSixes
    ensures forall v: HandRankValue | 3117 <= v <= 3127 :: DetermineClass(v) == EightsAndFives
    ensures forall v: HandRankValue | 3128 <= v <= 3138 :: DetermineClass(v) == EightsAndFours
    ensures forall v: HandRankValue | 3139 <= v <= 3149 :: DetermineClass(v) == EightsAndTreys
    ensures forall v: HandRankValue | 3150 <= v <= 3160 :: DetermineClass(v) == EightsAndDeuces
  {
  }

  lemma SevensUpArms()
    ensures forall v: HandRankValue | 3161 <= v <= 3171 :: DetermineClass(v) == SevensAndSixes
    ensures forall v: HandRankValue | 3172 <= v <= 3182 :: DetermineClass(v) == SevensAndFives
    ensures forall v: HandRankValue | 3183 <= v <= 3193 :: DetermineClass(v) == SevensAndFours
    ensures forall v: HandRankValue | 3194 <= v <= 3204 :: DetermineClass(v) == SevensAndTreys
    ensures forall v: HandRankValue | 3205 <= v <= 3215 :: DetermineClass(v) == SevensAndDeuces
  {
  }

  lemma SixesUpArms()
    ensures forall v: HandRankValue | 3216 <= v <= 3226 :: DetermineClass(v) == SixesAndFives
    ensures forall v: HandRankValue | 3227 <= v <= 3237 :: DetermineClass(v) == SixesAndFours
    ensures forall v: HandRankValue | 3238 <= v <= 3248 :: DetermineClass(v) == SixesAndTreys
    ensures forall v: HandRankValue | 3249 <= v <= 3259 :: DetermineClass(v) == SixesAndDeuces
  {
  }

  lemma FivesUpArms()
    ensures forall v: HandRankValue | 3260 <= v <= 3270 :: DetermineClass(v) == FivesAndFours
    ensures forall v: HandRankValue | 3271 <= v <= 3281 :: DetermineClass(v) == FivesAndTreys
    ensures forall v: HandRankValue | 3282 <= v <= 3292 :: DetermineClass(v) == FivesAndDeuces
  {
  }

  lemma FoursUpArms()
    ensures forall v: HandRankValue | 3293 <= v <= 3303 :: DetermineClass(v) == FoursAndTreys
    ensures forall v: HandRankValue | 3304 <= v <= 3314 :: DetermineClass(v) == FoursAndDeuces
  {
  }

  lemma TreysUpArms()
    ensures forall v: HandRankValue | 3315 <= v <= 3325 :: DetermineClass(v) == TreysAndDeuces
  {
  }

  lemma PairArms()
    ensures forall v: HandRankValue | 3326 <= v <= 3545 :: DetermineClass(v) == PairOfAces
    ensures forall v: HandRankValue | 3546 <= v <= 3765 :: DetermineClass(v) == PairOfKings
    ensures forall v: HandRankValue | 3766 <= v <= 3985 :: DetermineClass(v) == PairOfQueens
    ensures forall v: HandRankValue | 3986 <= v <= 4205 :: DetermineClass(v) == PairOfJacks
    ensures forall v: HandRankValue | 4206 <= v <= 4425 :: DetermineClass(v) == PairOfTens
    ensures forall v: HandRankValue | 4426 <= v <= 4645 :: DetermineClass(v) == PairOfNines
    ensures forall v: HandRankValue | 4646 <= v <= 4865 :: DetermineClass(v) == PairOfEights
    ensures forall v: HandRankValue | 4866 <= v <= 5085 :: DetermineClass(v) == PairOfSevens
    ensures forall v: HandRankValue | 5086 <= v <= 5305 :: DetermineClass(v) == PairOfSixes
    ensures forall v: HandRankValue | 5306 <= v <= 5525 :: DetermineClass(v) == PairOfFives
    ensures forall v: HandRankValue | 5526 <= v <= 5745 :: DetermineClass(v) == PairOfFours
    ensures forall v: HandRankValue | 5746 <= v <= 5965 :: DetermineClass(v) == PairOfTreys
    ensures forall v: HandRankValue | 5966 <= v <= 6185 :: DetermineClass(v) == PairOfDeuces
  {
  }

  lemma HighCardArms()
    ensures forall v: HandRankValue | 6186 <= v <= 6678 :: DetermineClass(v) == AceHigh
    ensures forall v: HandRankValue | 6679 <= v <= 7007 :: DetermineClass(v) == KingHigh
    ensures forall v: HandRankValue | 7008 <= v <= 7216 :: DetermineClass(v) == QueenHigh
    ensures forall v: HandRankValue | 7217 <= v <= 7341 :: DetermineClass(v) == JackHigh
    ensures forall v: HandRankValue | 7342 <= v <= 7410 :: DetermineClass(v) == TenHigh
    ensures forall v: HandRankValue | 7411 <= v <= 7444 :: DetermineClass(v) == NineHigh
    ensures forall v: HandRankValue | 7445 <= v <= 7458 :: DetermineClass(v) == EightHigh
    ensures forall v: HandRankValue | 7459 <= v <= 7462 :: DetermineClass(v) == SevenHigh
  {
  }

  function From(v: HandRankValue): HandRank {
    HandRank(v, DetermineName(v), DetermineClass(v))
  }

  /** A hand rank is valid when its name and class are the ones its value
      determines. */
  predicate IsAValidHandRank(h: HandRank) {
    h == From(h.value)
  }

  predicate IsInvalid(h: HandRank) {
    h.name == HandRankName.Invalid
  }

  function Default(): HandRank {
    From(0)
  }

  /** The ordering of `HandRank::cmp`: a lower value is a better hand and compares
      Greater; an invalid rank is worse than every valid one; two invalid
      ranks compare Equal whatever their values. */
  function Cmp(a: HandRank, b: HandRank): Ordering {
    if IsInvalid(a) && IsInvalid(b) then Equal
    else if IsInvalid(a) then Less
    else if IsInvalid(b) then Greater
    else if a.value < b.value then Greater
    else if a.value > b.value then Less
    else Equal
  }

  /** The strength of a hand rank as one integer: 0 for every invalid rank,
      and higher for lower values. */
  function Strength(h: HandRank): int {
    if IsInvalid(h) then 0 else 0x1_0000 - h.value
  }

  function CompareInts(x: int, y: int): Ordering {
    if x < y then Less else if x > y then Greater else Equal
  }

  //
  // Properties of the name bands
  //

  /** Each name covers exactly the band that the documented counts give it:
      the values after all better names' hands, as many as its own count. */
  lemma NameByDocumentedCounts(v: HandRankValue, n: HandRankName)
    requires n != HandRankName.Invalid
    ensures DetermineName(v) == n <==>
              CountBefore(NameOrdinal(n)) < v <= CountBefore(NameOrdinal(n)) + DocumentedCount(n)
  {
    CountsBeforeEachName();
  }

  /** The running totals of the documented counts. */
  lemma CountsBeforeEachName()
    ensures CountBefore(1) == 10
    ensures CountBefore(2) == 166
    ensures CountBefore(3) == 322
    ensures CountBefore(4) == 1599
    ensures CountBefore(5) == 1609
    ensures CountBefore(6) == 2467
    ensures CountBefore(7) == 3325
    ensures CountBefore(8) == 6185
    ensures CountBefore(9) == 7462
  {
    assert CountBefore(1) == 10;
    assert CountBefore(2) == 166;
    assert CountBefore(3) == 322;
    assert CountBefore(4) == 1599;
    assert CountBefore(5) == 1609;
    assert CountBefore(6) == 2467;
    assert CountBefore(7) == 3325;
    assert CountBefore(8) == 6185;
  }

  /** Names never get better as the value grows. */
  lemma NameMonotone(v: HandRankValue, w: HandRankValue)
    requires 1 <= v <= w <= 7462
    ensures NameOrdinal(DetermineName(v)) <= NameOrdinal(DetermineName(w))
  {
  }

  //
  // Properties of the class bands
  //

  /** Every class band lies inside the band of its own name, so the class
      and the name of a value always agree. */
  lemma ClassAgreesWithName(v: HandRankValue)
    ensures ClassName(DetermineClass(v)) == DetermineName(v)
  {
  }

  /** Classes never get better as the value grows. */
  lemma ClassMonotone(v: HandRankValue, w: HandRankValue)
    requires 1 <= v <= w <= 7462
    ensures DetermineClass(v) <= DetermineClass(w)
  {
    if 323 <= v <= w <= 1599 {
      FlushClassMonotone(v, w);
    } else if 6186 <= v <= w <= 7462 {
      HighCardClassMonotone(v, w);
    }
  }

  lemma FlushClassMonotone(v: int, w: int)
    requires 323 <= v <= w <= 1599
    ensures FlushClass(v) <= FlushClass(w)
  {
  }

  lemma HighCardClassMonotone(v: int, w: int)
    requires 6186 <= v <= w <= 7462
    ensures HighCardClass(v) <= HighCardClass(w)
  {
  }

  //
  // Properties of HandRank
  //

  /** A hand rank built from a value is always valid; giving it any other
      name makes it invalid. */
  lemma FromIsValid(v: HandRankValue, n: HandRankName)
    ensures IsAValidHandRank(From(v))
    ensures n != DetermineName(v) ==> !IsAValidHandRank(From(v).(name := n))
  {
  }

  /** A hand rank built from a value is invalid exactly when the value is 0
      or above 7462; the default rank is the invalid rank of value 0. */
  lemma FromInvalidIff(v: HandRankValue)
    ensures IsInvalid(From(v)) <==> v == 0 || v > 7462
    ensures Default().value == NO_HAND_RANK_VALUE && IsInvalid(Default())
  {
  }

  /** The ordering compares hand ranks by their strength. */
  lemma CmpByStrength(a: HandRank, b: HandRank)
    ensures Cmp(a, b) == CompareInts(Strength(a), Strength(b))
  {
  }

  /** Between valid ranks the lower value compares Greater; an invalid rank
      compares Less than any valid one. */
  lemma CmpOrdersValues(a: HandRank, b: HandRank)
    ensures !IsInvalid(a) && !IsInvalid(b) && a.value < b.value ==> Cmp(a, b) == Greater
    ensures IsInvalid(a) && !IsInvalid(b) ==> Cmp(a, b) == Less
    ensures IsInvalid(a) && IsInvalid(b) ==> Cmp(a, b) == Equal
  {
  }

  /** Two different invalid ranks compare Equal, though they are not equal. */
  lemma InvalidsCompareEqual()
    ensures Cmp(From(0), From(7463)) == Equal
    ensures From(0) != From(7463)
  {
  }

  /** Swapping the operands reverses the ordering. */
  lemma CmpAntisymmetric(a: HandRank, b: HandRank)
    ensures Cmp(b, a) == Cmp(a, b).Reverse()
  {
    CmpByStrength(a, b);
    CmpByStrength(b, a);
  }

  /** The ordering is transitive. */
  lemma CmpTransitive(a: HandRank, b: HandRank, c: HandRank, o: Ordering)
    requires Cmp(a, b) == o && Cmp(b, c) == o
    ensures Cmp(a, c) == o
  {
    CmpByStrength(a, b);
    CmpByStrength(b, c);
    CmpByStrength(a, c);
  }
}
