/** The 309 fine-grained hand classes and Invalid, in declaration order.

    ckc-rs derives the enum's ordering from the order in which the enum lists
    its variants, so a class is modelled by its position in that list: 0 is
    RoyalFlush, 308 is SevenHigh and 309 is Invalid. */
module HandRankClasses {

  newtype HandRankClass = k: int | 0 <= k <= 309

  const RoyalFlush: HandRankClass := 0
  const KingHighStraightFlush: HandRankClass := 1
  const QueenHighStraightFlush: HandRankClass := 2
  const JackHighStraightFlush: HandRankClass := 3
  const TenHighStraightFlush: HandRankClass := 4
  const NineHighStraightFlush: HandRankClass := 5
  const EightHighStraightFlush: HandRankClass := 6
  const SevenHighStraightFlush: HandRankClass := 7
  const SixHighStraightFlush: HandRankClass := 8
  const FiveHighStraightFlush: HandRankClass := 9
  const FourAces: HandRankClass := 10
  const FourKings: HandRankClass := 11
  const FourQueens: HandRankClass := 12
  const FourJacks: HandRankClass := 13
  const FourTens: HandRankClass := 14
  const FourNines: HandRankClass := 15
  const FourEights: HandRankClass := 16
  const FourSevens: HandRankClass := 17
  const FourSixes: HandRankClass := 18
  const FourFives: HandRankClass := 19
  const FourFours: HandRankClass := 20
  const FourTreys: HandRankClass := 21
  const FourDeuces: HandRankClass := 22
  const AcesOverKings: HandRankClass := 23
  const AcesOverQueens: HandRankClass := 24
  const AcesOverJacks: HandRankClass := 25
  const AcesOverTens: HandRankClass := 26
  const AcesOverNines: HandRankClass := 27
  const AcesOverEights: HandRankClass := 28
  const AcesOverSevens: HandRankClass := 29
  const AcesOverSixes: HandRankClass := 30
  const AcesOverFives: HandRankClass := 31
  const AcesOverFours: HandRankClass := 32
  const AcesOverTreys: HandRankClass := 33
  const AcesOverDeuces: HandRankClass := 34
  const KingsOverAces: HandRankClass := 35
  const KingsOverQueens: HandRankClass := 36
  const KingsOverJacks: HandRankClass := 37
  const KingsOverTens: HandRankClass := 38
  const KingsOverNines: HandRankClass := 39
  const KingsOverEights: HandRankClass := 40
  const KingsOverSevens: HandRankClass := 41
  const KingsOverSixes: HandRankClass := 42
  const KingsOverFives: HandRankClass := 43
  const KingsOverFours: HandRankClass := 44
  const KingsOverTreys: HandRankClass := 45
  const KingsOverDeuces: HandRankClass := 46
  const QueensOverAces: HandRankClass := 47
  const QueensOverKings: HandRankClass := 48
  const QueensOverJacks: HandRankClass := 49
  const QueensOverTens: HandRankClass := 50
  const QueensOverNines: HandRankClass := 51
  const QueensOverEights: HandRankClass := 52
  const QueensOverSevens: HandRankClass := 53
  const QueensOverSixes: HandRankClass := 54
  const QueensOverFives: HandRankClass := 55
  const QueensOverFours: HandRankClass := 56
  const QueensOverTreys: HandRankClass := 57
  const QueensOverDeuces: HandRankClass := 58
  const JacksOverAces: HandRankClass := 59
  const JacksOverKings: HandRankClass := 60
  const JacksOverQueens: HandRankClass := 61
  const JacksOverTens: HandRankClass := 62
  const JacksOverNines: HandRankClass := 63
  const JacksOverEights: HandRankClass := 64
  const JacksOverSevens: HandRankClass := 65
  const JacksOverSixes: HandRankClass := 66
  const JacksOverFives: HandRankClass := 67
  const JacksOverFours: HandRankClass := 68
  const JacksOverTreys: HandRankClass := 69
  const JacksOverDeuces: HandRankClass := 70
  const TensOverAces: HandRankClass := 71
  const TensOverKings: HandRankClass := 72
  const TensOverQueens: HandRankClass := 73
  const TensOverJacks: HandRankClass := 74
  const TensOverNines: HandRankClass := 75
  const TensOverEights: HandRankClass := 76
  const TensOverSevens: HandRankClass := 77
  const TensOverSixes: HandRankClass := 78
  const TensOverFives: HandRankClass := 79
  const TensOverFours: HandRankClass := 80
  const TensOverTreys: HandRankClass := 81
  const TensOverDeuces: HandRankClass := 82
  const NinesOverAces: HandRankClass := 83
  const NinesOverKings: HandRankClass := 84
  const NinesOverQueens: HandRankClass := 85
  const NinesOverJacks: HandRankClass := 86
  const NinesOverTens: HandRankClass := 87
  const NinesOverEights: HandRankClass := 88
  const NinesOverSevens: HandRankClass := 89
  const NinesOverSixes: HandRankClass := 90
  const NinesOverFives: HandRankClass := 91
  const NinesOverFours: HandRankClass := 92
  const NinesOverTreys: HandRankClass := 93
  const NinesOverDeuces: HandRankClass := 94
  const EightsOverAces: HandRankClass := 95
  const EightsOverKings: HandRankClass := 96
  const EightsOverQueens: HandRankClass := 97
  const EightsOverJacks: HandRankClass := 98
  const EightsOverTens: HandRankClass := 99
  const EightsOverNines: HandRankClass := 100
  const EightsOverSevens: HandRankClass := 101
  const EightsOverSixes: HandRankClass := 102
  const EightsOverFives: HandRankClass := 103
  const EightsOverFours: HandRankClass := 104
  const EightsOverTreys: HandRankClass := 105
  const EightsOverDeuces: HandRankClass := 106
  const SevensOverAces: HandRankClass := 107
  const SevensOverKings: HandRankClass := 108
  const SevensOverQueens: HandRankClass := 109
  const SevensOverJacks: HandRankClass := 110
  const SevensOverTens: HandRankClass := 111
  const SevensOverNines: HandRankClass := 112
  const SevensOverEights: HandRankClass := 113
  const SevensOverSixes: HandRankClass := 114
  const SevensOverFives: HandRankClass := 115
  const SevensOverFours: HandRankClass := 116
  const SevensOverTreys: HandRankClass := 117
  const SevensOverDeuces: HandRankClass := 118
  const SixesOverAces: HandRankClass := 119
  const SixesOverKings: HandRankClass := 120
  const SixesOverQueens: HandRankClass := 121
  const SixesOverJacks: HandRankClass := 122
  const SixesOverTens: HandRankClass := 123
  const SixesOverNines: HandRankClass := 124
  const SixesOverEights: HandRankClass := 125
  const SixesOverSevens: HandRankClass := 126
  const SixesOverFives: HandRankClass := 127
  const SixesOverFours: HandRankClass := 128
  const SixesOverTreys: HandRankClass := 129
  const SixesOverDeuces: HandRankClass := 130
  const FivesOverAces: HandRankClass := 131
  const FivesOverKings: HandRankClass := 132
  const FivesOverQueens: HandRankClass := 133
  const FivesOverJacks: HandRankClass := 134
  const FivesOverTens: HandRankClass := 135
  const FivesOverNines: HandRankClass := 136
  const FivesOverEights: HandRankClass := 137
  const FivesOverSevens: HandRankClass := 138
  const FivesOverSixes: HandRankClass := 139
  const FivesOverFours: HandRankClass := 140
  const FivesOverTreys: HandRankClass := 141
  const FivesOverDeuces: HandRankClass := 142
  const FoursOverAces: HandRankClass := 143
  const FoursOverKings: HandRankClass := 144
  const FoursOverQueens: HandRankClass := 145
  const FoursOverJacks: HandRankClass := 146
  const FoursOverTens: HandRankClass := 147
  const FoursOverNines: HandRankClass := 148
  const FoursOverEights: HandRankClass := 149
  const FoursOverSevens: HandRankClass := 150
  const FoursOverSixes: HandRankClass := 151
  const FoursOverFives: HandRankClass := 152
  const FoursOverTreys: HandRankClass := 153
  const FoursOverDeuces: HandRankClass := 154
  const TreysOverAces: HandRankClass := 155
  const TreysOverKings: HandRankClass := 156
  const TreysOverQueens: HandRankClass := 157
  const TreysOverJacks: HandRankClass := 158
  const TreysOverTens: HandRankClass := 159
  const TreysOverNines: HandRankClass := 160
  const TreysOverEights: HandRankClass := 161
  const TreysOverSevens: HandRankClass := 162
  const TreysOverSixes: HandRankClass := 163
  const TreysOverFives: HandRankClass := 164
  const TreysOverFours: HandRankClass := 165
  const TreysOverDeuces: HandRankClass := 166
  const DeucesOverAces: HandRankClass := 167
  const DeucesOverKings: HandRankClass := 168
  const DeucesOverQueens: HandRankClass := 169
  const DeucesOverJacks: HandRankClass := 170
  const DeucesOverTens: HandRankClass := 171
  const DeucesOverNines: HandRankClass := 172
  const DeucesOverEights: HandRankClass := 173
  const DeucesOverSevens: HandRankClass := 174
  const DeucesOverSixes: HandRankClass := 175
  const DeucesOverFives: HandRankClass := 176
  const DeucesOverFours: HandRankClass := 177
  const DeucesOverTreys: HandRankClass := 178
  const AceHighFlush: HandRankClass := 179
  const KingHighFlush: HandRankClass := 180
  const QueenHighFlush: HandRankClass := 181
  const JackHighFlush: HandRankClass := 182
  const TenHighFlush: HandRankClass := 183
  const NineHighFlush: HandRankClass := 184
  const EightHighFlush: HandRankClass := 185
  const SevenHighFlush: HandRankClass := 186
  const AceHighStraight: HandRankClass := 187
  const KingHighStraight: HandRankClass := 188
  const QueenHighStraight: HandRankClass := 189
  const JackHighStraight: HandRankClass := 190
  const TenHighStraight: HandRankClass := 191
  const NineHighStraight: HandRankClass := 192
  const EightHighStraight: HandRankClass := 193
  const SevenHighStraight: HandRankClass := 194
  const SixHighStraight: HandRankClass := 195
  const FiveHighStraight: HandRankClass := 196
  const ThreeAces: HandRankClass := 197
  const ThreeKings: HandRankClass := 198
  const ThreeQueens: HandRankClass := 199
  const ThreeJacks: HandRankClass := 200
  const ThreeTens: HandRankClass := 201
  const ThreeNines: HandRankClass := 202
  const ThreeEights: HandRankClass := 203
  const ThreeSevens: HandRankClass := 204
  const ThreeSixes: HandRankClass := 205
  const ThreeFives: HandRankClass := 206
  const ThreeFours: HandRankClass := 207
  const ThreeTreys: HandRankClass := 208
  const ThreeDeuces: HandRankClass := 209
  const AcesAndKings: HandRankClass := 210
  const AcesAndQueens: HandRankClass := 211
  const AcesAndJacks: HandRankClass := 212
  const AcesAndTens: HandRankClass := 213
  const AcesAndNines: HandRankClass := 214
  const AcesAndEights: HandRankClass := 215
  const AcesAndSevens: HandRankClass := 216
  const AcesAndSixes: HandRankClass := 217
  const AcesAndFives: HandRankClass := 218
  const AcesAndFours: HandRankClass := 219
  const AcesAndTreys: HandRankClass := 220
  const AcesAndDeuces: HandRankClass := 221
  const KingsAndQueens: HandRankClass := 222
  const KingsAndJacks: HandRankClass := 223
  const KingsAndTens: HandRankClass := 224
  const KingsAndNines: HandRankClass := 225
  const KingsAndEights: HandRankClass := 226
  const KingsAndSevens: HandRankClass := 227
  const KingsAndSixes: HandRankClass := 228
  const KingsAndFives: HandRankClass := 229
  const KingsAndFours: HandRankClass := 230
  const KingsAndTreys: HandRankClass := 231
  const KingsAndDeuces: HandRankClass := 232
  const QueensAndJacks: HandRankClass := 233
  const QueensAndTens: HandRankClass := 234
  const QueensAndNines: HandRankClass := 235
  const QueensAndEights: HandRankClass := 236
  const QueensAndSevens: HandRankClass := 237
  const QueensAndSixes: HandRankClass := 238
  const QueensAndFives: HandRankClass := 239
  const QueensAndFours: HandRankClass := 240
  const QueensAndTreys: HandRankClass := 241
  const QueensAndDeuces: HandRankClass := 242
  const JacksAndTens: HandRankClass := 243
  const JacksAndNines: HandRankClass := 244
  const JacksAndEights: HandRankClass := 245
  const JacksAndSevens: HandRankClass := 246
  const JacksAndSixes: HandRankClass := 247
  const JacksAndFives: HandRankClass := 248
  const JacksAndFours: HandRankClass := 249
  const JacksAndTreys: HandRankClass := 250
  const JacksAndDeuces: HandRankClass := 251
  const TensAndNines: HandRankClass := 252
  const TensAndEights: HandRankClass := 253
  const TensAndSevens: HandRankClass := 254
  const TensAndSixes: HandRankClass := 255
  const TensAndFives: HandRankClass := 256
  const TensAndFours: HandRankClass := 257
  const TensAndTreys: HandRankClass := 258
  const TensAndDeuces: HandRankClass := 259
  const NinesAndEights: HandRankClass := 260
  const NinesAndSevens: HandRankClass := 261
  const NinesAndSixes: HandRankClass := 262
  const NinesAndFives: HandRankClass := 263
  const NinesAndFours: HandRankClass := 264
  const NinesAndTreys: HandRankClass := 265
  const NinesAndDeuces: HandRankClass := 266
  const EightsAndSevens: HandRankClass := 267
  const EightsAndSixes: HandRankClass := 268
  const EightsAndFives: HandRankClass := 269
  const EightsAndFours: HandRankClass := 270
  const EightsAndTreys: HandRankClass := 271
  const EightsAndDeuces: HandRankClass := 272
  const SevensAndSixes: HandRankClass := 273
  const SevensAndFives: HandRankClass := 274
  const SevensAndFours: HandRankClass := 275
  const SevensAndTreys: HandRankClass := 276
  const SevensAndDeuces: HandRankClass := 277
  const SixesAndFives: HandRankClass := 278
  const SixesAndFours: HandRankClass := 279
  const SixesAndTreys: HandRankClass := 280
  const SixesAndDeuces: HandRankClass := 281
  const FivesAndFours: HandRankClass := 282
  const FivesAndTreys: HandRankClass := 283
  const FivesAndDeuces: HandRankClass := 284
  const FoursAndTreys: HandRankClass := 285
  const FoursAndDeuces: HandRankClass := 286
  const TreysAndDeuces: HandRankClass := 287
  const PairOfAces: HandRankClass := 288
  const PairOfKings: HandRankClass := 289
  const PairOfQueens: HandRankClass := 290
  const PairOfJacks: HandRankClass := 291
  const PairOfTens: HandRankClass := 292
  const PairOfNines: HandRankClass := 293
  const PairOfEights: HandRankClass := 294
  const PairOfSevens: HandRankClass := 295
  const PairOfSixes: HandRankClass := 296
  const PairOfFives: HandRankClass := 297
  const PairOfFours: HandRankClass := 298
  const PairOfTreys: HandRankClass := 299
  const PairOfDeuces: HandRankClass := 300
  const AceHigh: HandRankClass := 301
  const KingHigh: HandRankClass := 302
  const QueenHigh: HandRankClass := 303
  const JackHigh: HandRankClass := 304
  const TenHigh: HandRankClass := 305
  const NineHigh: HandRankClass := 306
  const EightHigh: HandRankClass := 307
  const SevenHigh: HandRankClass := 308
  const Invalid: HandRankClass := 309
}
