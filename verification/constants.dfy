/** The rule table of the auction (src/lib/constants.ts). */
module AuctionConstants {
  import opened AuctionTypes

  /** The inclusive bounds on how many players of one category a team may own. */
  datatype Limit = Limit(min: int, max: int)

  datatype Rules = Rules(
    totalTeams: int,
    teamPurse: int,
    minPlayers: int,
    maxPlayers: int,
    categoryLimits: PerCategory<Limit>,
    minBidAmount: PerCategory<int>)

  /** The single rule table; amounts are in rupees. */
  const AuctionRules: Rules := Rules(
    7,
    20000000,
    11,
    13,
    PerCategory(Limit(1, 1), Limit(1, 1), Limit(2, 2), Limit(5, 5), Limit(4, 13 - 1 - 1 - 2 - 5)),
    PerCategory(500000, 500000, 1500000, 1000000, 500000))

  const TeamNames: seq<string> := [
    "GUJARAT LIONS",
    "CHHAVA SENA",
    "TEAM LAGAAN",
    "PRATHAM 11",
    "YOHAN'S WARRIORS",
    "KHALSA WARRIORS",
    "SHREE SIDDHIVINAYAK STRIKERS"
  ]

  const TeamPurse: int := AuctionRules.teamPurse
  const MinPlayers: int := AuctionRules.minPlayers
  const MaxPlayers: int := AuctionRules.maxPlayers

  /** The quota of category `c`. Every quota is a non-empty range; all but
      BRONZE are exact, and BRONZE's upper bound is what the other four
      leave of a full roster. */
  function CategoryLimit(c: Category): (l: Limit)
    ensures 0 < l.min <= l.max
    ensures c != Bronze ==> l.min == l.max
    ensures c == Bronze ==> l.max == MaxPlayers - 1 - 1 - 2 - 5 == 4
  {
    AuctionRules.categoryLimits.Get(c)
  }

  /** The price below which no player of category `c` may be sold. It is
      positive, and no category is cheaper than BRONZE: the reserve of the
      bid calculator prices every missing player at this cheapest rate. */
  function MinBid(c: Category): (r: int)
    ensures r > 0
    ensures AuctionRules.minBidAmount.bronze <= r
  {
    AuctionRules.minBidAmount.Get(c)
  }

  /** The quota maxima add up to a full roster, and the quota minima add up
      to at least the minimum roster. */
  lemma QuotasMatchRosterBounds()
    ensures Total(PerCategory(CategoryLimit(Legend).max, CategoryLimit(Youngstar).max,
      CategoryLimit(Gold).max, CategoryLimit(Silver).max, CategoryLimit(Bronze).max)) == MaxPlayers
    ensures Total(PerCategory(CategoryLimit(Legend).min, CategoryLimit(Youngstar).min,
      CategoryLimit(Gold).min, CategoryLimit(Silver).min, CategoryLimit(Bronze).min)) == 13 >= MinPlayers
    ensures 0 <= MinPlayers <= MaxPlayers
  {
  }

  /** A team's purse pays for every category's minimum quota at its
      minimum price, which costs 11,000,000. */
  lemma PurseCoversMinimumQuotas()
    ensures var cost := CategoryLimit(Legend).min * MinBid(Legend)
      + CategoryLimit(Youngstar).min * MinBid(Youngstar)
      + CategoryLimit(Gold).min * MinBid(Gold)
      + CategoryLimit(Silver).min * MinBid(Silver)
      + CategoryLimit(Bronze).min * MinBid(Bronze);
      cost == 11000000 && cost <= TeamPurse
  {
  }

  /** There is one name per team. */
  lemma TeamNamesMatchTeamCount()
    ensures |TeamNames| == AuctionRules.totalTeams
  {
  }
}
