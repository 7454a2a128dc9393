# Player auction: bid eligibility and sale settlement

This project models the core of a sports player auction app. Players are
divided into five categories: LEGEND, YOUNGSTAR, GOLD, SILVER and BRONZE. An
operator sells them one at a time to a fixed set of teams. The model covers:

- the rule table (`AUCTION_RULES`, `TEAM_NAMES`);
- the maximum-bid calculator (`getMaxBid`);
- the guarded sale (`addPlayerToTeam`);
- the small operations of the auction context: the initial teams,
  `addPlayer`, `removePlayer`, `updatePlayer` and `setCurrentAuctionPlayer`.

The source holds players, teams and the current selection in React state.
Here that state is an explicit `State` value: each operation takes the state
it reads and returns the state it would set. `getMaxBid` is a pure function,
so reading it never changes anything.

Modules, one per source file or concern:

- `AuctionTypes` (`types.dfy`): the records of `src/types/index.ts`. A
  per-category record `PerCategory<T>` stands for the source's five-field
  objects.
- `AuctionConstants` (`constants.dfy`): the rule table, with its internal
  consistency stated as contracts and lemmas.
- `Decimal` (`decimal.dfy`): the decimal numerals behind the template-literal
  ids `team-<n>` and `player-<n>`. Different numbers give different
  numerals.
- `AuctionContext` (`auction_context.dfy`): the operations.
- `AuctionInvariants` (`invariants.dfy`): the team and state invariants a
  sale preserves, and a scenario where the purse is overspent.
- `ListProperties` (`list_properties.dfy`): lemmas that relate the
  operations to each other.
- `AuctionSessions` (`sessions.dfy`): a run of sales recorded one after
  another on the whole state, related to the single-team `Replay`.

Behaviour kept as the code has it:

- **Lookups.** `find` returns the first match. `map` rewrites every entry
  that carries the id, so duplicate ids are modelled. The state invariant
  requires distinct team ids, and the initial teams have them.
- **Truthiness.** `player.teamId` and `playerId` are checked for JavaScript
  truthiness, so an empty string counts as absent (`Truthy`).
- **The bid reserve.** The code keeps back only
  `(minPlayers − roster size) × minBid[BRONZE]`, and does not clamp it. The
  code keeps no per-category reserve, and neither does this model.
- **Overspending.** Because the reserve is not clamped, a team holding 12
  players (more than `minPlayers = 11`) gets a maximum bid above its
  remaining purse in any category whose quota is not yet full. For a
  consistent team that is only one category, since the quota maxima add up
  to 13. `MaxBidExceedsPursePastMinimum` states this.
  `OverdraftReachable` exhibits 13 admitted sales from a fresh team. The
  team ends with a full roster, consistent aggregates and a remaining purse
  of −500,000. `InitialOverdraft` records the same 13 sales through
  `addPlayerToTeam` from the initial teams, and the whole state stays
  consistent. Up to the minimum roster the purse is protected:
  `InvariantKeepsPurseNonNegative` and `EnrollPreservesInvariant`.

## Model

| member | source | states |
|---|---|---|
| AuctionConstants.CategoryLimit | src/lib/constants.ts:8-14 | every quota is a non-empty positive range; LEGEND, YOUNGSTAR, GOLD and SILVER are exact; BRONZE's maximum is 13−1−1−2−5 = 4 |
| AuctionConstants.MinBid | src/lib/constants.ts:15-21 | every minimum price is positive and none is below BRONZE's, the cheapest-category price the reserve uses |
| AuctionConstants.QuotasMatchRosterBounds | src/lib/constants.ts:6-13 | the quota maxima sum to `maxPlayers` = 13; the minima sum to 13 ≥ `minPlayers` = 11; `minPlayers` ≤ `maxPlayers` |
| AuctionConstants.PurseCoversMinimumQuotas | src/lib/constants.ts:5-20 | every category's minimum quota at its minimum price costs 11,000,000, within the 20,000,000 purse |
| AuctionConstants.TeamNamesMatchTeamCount | src/lib/constants.ts:4-32 | there is one team name per team of `totalTeams` |
| Decimal.NatToString | src/lib/auction-context.tsx:46 | the numeral of `${n}` is non-empty, all digits, one digit exactly below 10, and has no leading zero |
| Decimal.NatToStringValue | src/lib/auction-context.tsx:46 | the numeral of `${n}` read back as a decimal number is `n` |
| Decimal.NatToStringInjective | src/lib/auction-context.tsx:46 | different numbers have different numerals, so generated ids never collide |
| AuctionContext.FindById | src/lib/auction-context.tsx:128-129 | the lookup of a player or a team returns the first entry with the id, or nothing exactly when no entry has it |
| AuctionContext.InitialTeams | src/lib/auction-context.tsx:45-58 | one team per name, in order, id `team-<i+1>`, purse and remaining purse both the team purse, empty roster, all counts 0, ids pairwise distinct |
| AuctionContext.AddPlayer | src/lib/auction-context.tsx:76-82 | the list grows by one at the end, the old entries unchanged; the new player has the clock-derived id and the draft's fields |
| AuctionContext.RemovePlayer | src/lib/auction-context.tsx:84-86 | no entry with the id remains, every entry without it is kept, nothing new appears, and a list without the id is returned unchanged |
| AuctionContext.UpdatePlayer | src/lib/auction-context.tsx:88-92 | same length; entries with another id unchanged; entries with the id take each given field and keep each omitted one |
| AuctionContext.SetCurrentAuctionPlayer | src/lib/auction-context.tsx:94-101 | the id is recorded as given, no bidding team; the suggested bid is positive exactly when the id is truthy and known, and then it is the minimum price of the first player with that id |
| AuctionContext.MaxBid | src/lib/auction-context.tsx:107-120 | never negative; 0 when the category quota or the roster is full; a positive maximum leaves exactly the reserve when spent; positive whenever the purse exceeds the reserve; within a non-negative remaining purse while the roster is not past `minPlayers` |
| AuctionContext.GetMaxBid | src/lib/auction-context.tsx:103-121 | 0 for an unknown team id, otherwise the maximum of the first team with that id; never negative |
| AuctionContext.AddPlayerToTeam | src/lib/auction-context.tsx:123-169 | fails, leaving the state as it was, for a missing player or team, a sold player, an amount under the minimum or over the maximum bid; otherwise marks the player sold (every entry with its id alike), appends it to the team, debits the purse, increments that one count, leaves all other players, teams and counts alone and clears the selection |
| AuctionInvariants.CountsOfTotal | src/types/index.ts:19-32 | the per-category head counts of a roster add up to its length |
| AuctionInvariants.InvariantBoundsRoster | src/lib/constants.ts:7-13 | a team whose counts match its roster and respect the quotas has at most `maxPlayers` players |
| AuctionInvariants.InvariantKeepsPurseNonNegative | src/lib/auction-context.tsx:115-118 | a consistent team not past the minimum roster still holds the reserve, so its remaining purse is not negative |
| AuctionInvariants.AdmittedSaleHasRoom | src/lib/auction-context.tsx:111-138 | since every minimum price is positive, an admitted sale has a positive maximum bid, room in its category quota and room in the roster |
| AuctionInvariants.MaxBidExceedsPursePastMinimum | src/lib/auction-context.tsx:115-120 | past the minimum roster, with a quota and roster place free, the maximum bid is the remaining purse plus the unclamped surplus times the BRONZE price, which exceeds the purse |
| AuctionInvariants.EnrollPreservesInvariant | src/lib/auction-context.tsx:140-155 | an admitted sale keeps purse accounting, count/roster agreement, quotas and reserve; from a roster of at most `minPlayers` the purse left is at least the old reserve and not negative |
| AuctionInvariants.SaleEnrollsTeam | src/lib/auction-context.tsx:140-160 | a successful sale turns every entry with the player id into the sold player and enrolls it on every team with the team id, keeping all team ids |
| AuctionInvariants.ReserveAfterAnySale | src/lib/auction-context.tsx:115-151 | for any successful sale, consistent team or not, a team not past `minPlayers` before the sale keeps at least `(minPlayers − old roster size) × minBid[BRONZE]` ≥ 0 afterwards |
| AuctionInvariants.SalePreservesInvariant | src/lib/auction-context.tsx:123-169 | any sale attempt keeps every team consistent and team ids distinct |
| AuctionInvariants.InitialStateInvariant | src/lib/auction-context.tsx:45-58 | the initial teams, with any player list, form a consistent state |
| AuctionInvariants.Replay | src/lib/auction-context.tsx:123-169 | a run of admitted sales adds one player per sale and debits the run's total price, keeping team id and purse |
| AuctionInvariants.ReplayPreservesInvariant | src/lib/auction-context.tsx:140-155 | a consistent team stays consistent through any accepted run of sales |
| AuctionInvariants.OverdraftFromEmpty | src/lib/auction-context.tsx:115-118 | from any empty team with the full purse, all thirteen sales are admitted and leave 13 players and a remaining purse of −500,000 |
| AuctionInvariants.OverdraftReachable | src/lib/auction-context.tsx:115-118 | thirteen sales, each admitted, take a fresh team to a full consistent roster with a remaining purse of −500,000 |
| AuctionSessions.SellRunMatchesReplay | src/lib/auction-context.tsx:123-169 | with distinct team ids, listed players and no player bought twice, recording a run through `addPlayerToTeam` succeeds exactly when the team-level replay does, and leaves the team as the replay does |
| AuctionSessions.SellRunPreservesInvariant | src/lib/auction-context.tsx:123-169 | a consistent state stays consistent through any run of sales |
| AuctionSessions.InitialOverdraft | src/lib/auction-context.tsx:45-58 | from the initial teams, all thirteen sales to `team-1` are accepted, the state stays consistent, and `team-1` ends with 13 players and a remaining purse of −500,000 |
| ListProperties.RemovePlayerAppend | src/lib/auction-context.tsx:84-86 | removal distributes over concatenation, so the survivors keep their order |
| ListProperties.RemoveAfterAdd | src/lib/auction-context.tsx:76-86 | removing the id of a player just added with an unused id returns the original list |
| ListProperties.UpdateWithEmptyPatch | src/lib/auction-context.tsx:88-92 | an update that gives no field changes nothing |
| ListProperties.UpdatePlayerIdempotent | src/lib/auction-context.tsx:88-92 | applying any update twice is applying it once, whether or not it renames the player |
| ListProperties.SuggestedBidIsMinimum | src/lib/auction-context.tsx:94-101 | selecting a known player suggests exactly the minimum price of the player a sale would find |
| ListProperties.MaxBidIsTheEdge | src/lib/auction-context.tsx:135-138 | a sale at exactly the maximum bid succeeds and one unit above fails |
| ListProperties.GetMaxBidMatchesSaleCheck | src/lib/auction-context.tsx:137-138 | for an unsold player, a sale succeeds exactly when the team is known and the amount lies between the minimum price and `getMaxBid` |

## Left out

- React wiring and localStorage persistence (`useState`, `useEffect`): state is an explicit value passed in and returned.
- The stored player list `PLAYERS_DATA` is not part of this model; the initial player list is a parameter of `InitialStateInvariant`.
- `Date.now()` is the parameter `now` of `AddPlayer`: the clock is input.
- Biographical player fields (name, mobile number, role, wing, flat, date of birth, age) and team display names beyond storage: the auction logic never reads them.
- Amounts are unbounded integers. In the source they are JavaScript numbers, which are exact integers at these magnitudes. The page's `parseFloat(bidAmount) * 100000` conversion, fractional amounts and NaN are not modelled.
- Page rendering, currency formatting and `sortPlayersByName`: display code, and the sort depends on locale collation.
- API routes, database models, blob storage and the edit-permission gate: network, storage and environment plumbing outside the auction context.
- Undo of a sale: the auction context has no reversal. The last-sale route keeps a single record and performs no reversal.
- AuctionContext.AddPlayerToTeam: the contract spells out the changed fields for the first team with the id only. With duplicate team ids the source also applies the sale to the later teams with that id, and so does the model; `AuctionInvariants.SaleEnrollsTeam` states this for every team with the id, and the state invariant keeps team ids distinct.
