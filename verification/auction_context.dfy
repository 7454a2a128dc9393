/** The auction state and its operations (src/lib/auction-context.tsx).
    The React state of the source is an explicit `State` value here: every
    operation takes the state it reads and returns the state it would set. */
module AuctionContext {
  import opened AuctionTypes
  import opened AuctionConstants
  import Decimal

  datatype State = State(players: seq<Player>, teams: seq<Team>, currentAuction: CurrentAuction)

  /** The selection the provider starts with and every sale resets to. */
  const NoSelection: CurrentAuction := CurrentAuction(None, 0, None)

  // ---------------------------------------------------------------- lookup

  /** `xs.find(x => x.id === id)`, as the index of the first match. */
  function FindById<T>(xs: seq<T>, idOf: T -> string, id: string): (r: Option<nat>)
    ensures r.Some? ==> r.value < |xs| && idOf(xs[r.value]) == id
    ensures r.Some? ==> forall j :: 0 <= j < r.value ==> idOf(xs[j]) != id
    ensures r.None? <==> forall j :: 0 <= j < |xs| ==> idOf(xs[j]) != id
  {
    if |xs| == 0 then None
    else if idOf(xs[0]) == id then Some(0)
    else match FindById(xs[1..], idOf, id)
      case None => None
      case Some(k) => Some(k + 1)
  }

  function PlayerIdOf(p: Player): string { p.id }

  function TeamIdOf(t: Team): string { t.id }

  /** `players.find(p => p.id === id)`. */
  function FindPlayer(players: seq<Player>, id: string): Option<nat> {
    FindById(players, PlayerIdOf, id)
  }

  /** `teams.find(t => t.id === id)`. */
  function FindTeam(teams: seq<Team>, id: string): Option<nat> {
    FindById(teams, TeamIdOf, id)
  }

  // --------------------------------------------------------- initial teams

  /** `team-${index + 1}`. */
  function TeamIdFor(index: nat): string {
    "team-" + Decimal.NatToString(index + 1)
  }

  function NewTeam(id: string, name: string): Team {
    Team(id, name, TeamPurse, TeamPurse, [], NoPlayers)
  }

  /** The teams the provider creates when none are stored: one per name, in
      order, each with the full purse still unspent, an empty roster and
      every category count at zero; their ids are pairwise different. */
  function InitialTeams(names: seq<string>): (r: seq<Team>)
    ensures |r| == |names|
    ensures forall i :: 0 <= i < |r| ==>
      && r[i].id == TeamIdFor(i)
      && r[i].name == names[i]
      && r[i].purse == r[i].remainingPurse == TeamPurse
      && r[i].players == []
      && forall c :: r[i].categoryCount.Get(c) == 0
    ensures forall i, j :: 0 <= i < j < |r| ==> r[i].id != r[j].id
  {
    var teams := seq(|names|, i requires 0 <= i < |names| => NewTeam(TeamIdFor(i), names[i]));
    assert forall i, j :: 0 <= i < j < |teams| ==> teams[i].id != teams[j].id by {
      forall i, j | 0 <= i < j < |teams|
        ensures teams[i].id != teams[j].id
      {
        if teams[i].id == teams[j].id {
          Decimal.PrefixedNumeralInjective("team-", i + 1, j + 1);
        }
      }
    }
    teams
  }

  // --------------------------------------------------- player list editing

  /** A player as the form submits it: everything but the id. */
  datatype PlayerDraft = PlayerDraft(category: Category, teamId: Option<string>, soldAmount: Option<int>)

  /** `player-${Date.now()}`, the clock reading being the parameter `now`. */
  function PlayerIdFor(now: nat): string {
    "player-" + Decimal.NatToString(now)
  }

  /** `addPlayer`: the list with one new player appended, whose id is made
      from the clock and whose other fields are the draft's. */
  function AddPlayer(players: seq<Player>, draft: PlayerDraft, now: nat): (r: seq<Player>)
    ensures |r| == |players| + 1
    ensures r[..|players|] == players
    ensures r[|players|].id == PlayerIdFor(now)
    ensures r[|players|].category == draft.category
    ensures r[|players|].teamId == draft.teamId && r[|players|].soldAmount == draft.soldAmount
  {
    players + [Player(PlayerIdFor(now), draft.category, draft.teamId, draft.soldAmount)]
  }

  /** `removePlayer`: `players.filter(p => p.id !== id)`. Nothing with the id
      is left, everything without it is kept, and a list without the id comes
      back unchanged. */
  function RemovePlayer(players: seq<Player>, id: string): (r: seq<Player>)
    ensures |r| <= |players|
    ensures forall i :: 0 <= i < |r| ==> r[i].id != id
    ensures forall p :: p in r ==> p in players
    ensures forall p :: p in players && p.id != id ==> p in r
    ensures (forall j :: 0 <= j < |players| ==> players[j].id != id) ==> r == players
  {
    if |players| == 0 then []
    else
      var rest := RemovePlayer(players[1..], id);
      assert players == [players[0]] + players[1..];
      if players[0].id == id then rest
      else
        var kept := [players[0]] + rest;
        assert forall i :: 1 <= i < |kept| ==> kept[i] == rest[i - 1];
        kept
  }

  /** `Partial<Player>`: each field is either left out (`None`) or given. An
      optional field given as `Some(None)` is set to `undefined`. */
  datatype PlayerPatch = PlayerPatch(
    id: Option<string>,
    category: Option<Category>,
    teamId: Option<Option<string>>,
    soldAmount: Option<Option<int>>)

  const EmptyPatch: PlayerPatch := PlayerPatch(None, None, None, None)

  function Override<T>(current: T, given: Option<T>): T {
    if given.Some? then given.value else current
  }

  /** `{ ...p, ...updates }`. */
  function Patch(p: Player, u: PlayerPatch): Player {
    Player(
      Override(p.id, u.id),
      Override(p.category, u.category),
      Override(p.teamId, u.teamId),
      Override(p.soldAmount, u.soldAmount))
  }

  /** `updatePlayer`: every entry carrying the id gets the given fields, and
      every other entry and the order stay as they were. */
  function UpdatePlayer(players: seq<Player>, id: string, updates: PlayerPatch): (r: seq<Player>)
    ensures |r| == |players|
    ensures forall i :: 0 <= i < |r| && players[i].id != id ==> r[i] == players[i]
    ensures forall i :: 0 <= i < |r| && players[i].id == id ==>
      && (updates.id.Some? ==> r[i].id == updates.id.value)
      && (updates.id.None? ==> r[i].id == id)
      && (updates.category.Some? ==> r[i].category == updates.category.value)
      && (updates.category.None? ==> r[i].category == players[i].category)
      && (updates.teamId.Some? ==> r[i].teamId == updates.teamId.value)
      && (updates.teamId.None? ==> r[i].teamId == players[i].teamId)
      && (updates.soldAmount.Some? ==> r[i].soldAmount == updates.soldAmount.value)
      && (updates.soldAmount.None? ==> r[i].soldAmount == players[i].soldAmount)
  {
    seq(|players|, i requires 0 <= i < |players| =>
      if players[i].id == id then Patch(players[i], updates) else players[i])
  }

  // ------------------------------------------------------------- selection

  /** `setCurrentAuctionPlayer`: selects the id as given and suggests the
      minimum price of the first player with that id; a falsy or unknown id
      suggests 0. No bidding team is recorded. */
  function SetCurrentAuctionPlayer(players: seq<Player>, playerId: Option<string>): (r: CurrentAuction)
    ensures r.playerId == playerId && r.biddingTeamId == None
    ensures r.currentBid >= 0
    ensures r.currentBid > 0 <==>
      Truthy(playerId) && exists j :: 0 <= j < |players| && players[j].id == playerId.value
    ensures r.currentBid > 0 ==>
      exists j :: (&& 0 <= j < |players|
                   && players[j].id == playerId.value
                   && r.currentBid == MinBid(players[j].category)
                   && forall k :: 0 <= k < j ==> players[k].id != playerId.value)
  {
    var found := if Truthy(playerId) then FindPlayer(players, playerId.value) else None;
    CurrentAuction(playerId, if found.Some? then MinBid(players[found.value].category) else 0, None)
  }

  // ------------------------------------------------------ bid eligibility

  /** The team already owns as many players of `c` as the quota allows. */
  predicate QuotaFull(t: Team, c: Category) {
    t.categoryCount.Get(c) >= CategoryLimit(c).max
  }

  /** The team already owns a full roster. */
  predicate RosterFull(t: Team) {
    |t.players| >= MaxPlayers
  }

  /** What the team keeps back to buy the players it still needs to reach the
      minimum roster, each at the BRONZE minimum price. The count of players
      still needed is not clamped: past the minimum roster it is negative. */
  function Reserve(t: Team): int {
    (MinPlayers - |t.players|) * MinBid(Bronze)
  }

  /** `getMaxBid` on a team snapshot. A full quota or a full roster allows
      nothing. Otherwise the bid may use everything above the reserve, and
      a bid of the whole maximum leaves exactly the reserve. The maximum is
      never negative, and it stays within a non-negative remaining purse as long
      as the roster is not past the minimum. */
  function MaxBid(t: Team, c: Category): (r: int)
    ensures r >= 0
    ensures QuotaFull(t, c) || RosterFull(t) ==> r == 0
    ensures r > 0 ==> t.remainingPurse - r == Reserve(t)
    ensures !QuotaFull(t, c) && !RosterFull(t) && t.remainingPurse > Reserve(t) ==> r > 0
    ensures |t.players| <= MinPlayers && t.remainingPurse >= 0 ==> r <= t.remainingPurse
  {
    if QuotaFull(t, c) then 0
    else if RosterFull(t) then 0
    else
      var available := t.remainingPurse - Reserve(t);
      if available > 0 then available else 0
  }

  /** `getMaxBid(teamId, category)`: 0 for an unknown team, otherwise the
      maximum of the first team with that id. */
  function GetMaxBid(teams: seq<Team>, teamId: string, c: Category): (r: int)
    ensures r >= 0
    ensures (forall j :: 0 <= j < |teams| ==> teams[j].id != teamId) ==> r == 0
    ensures forall j :: (&& 0 <= j < |teams|
                         && teams[j].id == teamId
                         && (forall k :: 0 <= k < j ==> teams[k].id != teamId)) ==> r == MaxBid(teams[j], c)
  {
    match FindTeam(teams, teamId)
    case None => 0
    case Some(i) =>
      assert forall j :: (&& 0 <= j < |teams|
                          && teams[j].id == teamId
                          && (forall k :: 0 <= k < j ==> teams[k].id != teamId)) ==> j == i;
      MaxBid(teams[i], c)
  }

  // ------------------------------------------------------------ settlement

  /** The three checks of a sale after both records were found: the player
      is not sold yet, and the amount lies between the category's minimum
      price and the team's maximum bid. */
  predicate Admits(t: Team, p: Player, amount: int) {
    && !Truthy(p.teamId)
    && amount >= MinBid(p.category)
    && amount <= MaxBid(t, p.category)
  }

  /** `updatedPlayer`: the player marked as bought by `teamId` for `amount`. */
  function Sold(p: Player, teamId: string, amount: int): Player {
    p.(teamId := Some(teamId), soldAmount := Some(amount))
  }

  /** The team after buying `bought` for `amount`. */
  function Enroll(t: Team, bought: Player, amount: int): Team {
    t.(players := t.players + [bought],
       remainingPurse := t.remainingPurse - amount,
       categoryCount := t.categoryCount.Set(bought.category, t.categoryCount.Get(bought.category) + 1))
  }

  /** `addPlayerToTeam`. It fails, leaving the state as it was, when the
      player or the team is unknown, the player is already sold, the amount
      is under the category's minimum price or over the team's maximum bid.
      Otherwise the player is marked sold to the team for the amount (every
      entry carrying its id becomes the same sold record), the team gets the
      player appended to its roster, pays the amount and counts one more
      player of the category; every other player, every other team and the
      team's other counts stay as they were, and the selection is cleared. */
  function AddPlayerToTeam(s: State, playerId: string, teamId: string, amount: int): (r: (bool, State))
    ensures !r.0 ==> r.1 == s
    ensures (forall j :: 0 <= j < |s.players| ==> s.players[j].id != playerId) ==> !r.0
    ensures (forall j :: 0 <= j < |s.teams| ==> s.teams[j].id != teamId) ==> !r.0
    ensures
      var pi := FindPlayer(s.players, playerId);
      var ti := FindTeam(s.teams, teamId);
      r.0 <==> pi.Some? && ti.Some? && Admits(s.teams[ti.value], s.players[pi.value], amount)
    ensures r.0 ==>
      var pi := FindPlayer(s.players, playerId).value;
      var ti := FindTeam(s.teams, teamId).value;
      var p := s.players[pi];
      var t := s.teams[ti];
      && |r.1.players| == |s.players|
      && r.1.players[pi].id == p.id
      && r.1.players[pi].category == p.category
      && r.1.players[pi].teamId == Some(teamId)
      && r.1.players[pi].soldAmount == Some(amount)
      && (forall i :: 0 <= i < |s.players| && s.players[i].id == playerId ==> r.1.players[i] == r.1.players[pi])
      && (forall i :: 0 <= i < |s.players| && s.players[i].id != playerId ==> r.1.players[i] == s.players[i])
      && |r.1.teams| == |s.teams|
      && r.1.teams[ti].id == t.id && r.1.teams[ti].name == t.name && r.1.teams[ti].purse == t.purse
      && r.1.teams[ti].players == t.players + [r.1.players[pi]]
      && r.1.teams[ti].remainingPurse == t.remainingPurse - amount
      && r.1.teams[ti].categoryCount.Get(p.category) == t.categoryCount.Get(p.category) + 1
      && (forall c :: c != p.category ==> r.1.teams[ti].categoryCount.Get(c) == t.categoryCount.Get(c))
      && (forall i :: 0 <= i < |s.teams| && s.teams[i].id != teamId ==> r.1.teams[i] == s.teams[i])
      && r.1.currentAuction == NoSelection
  {
    match (FindPlayer(s.players, playerId), FindTeam(s.teams, teamId))
    case (Some(pi), Some(ti)) =>
      var player := s.players[pi];
      var team := s.teams[ti];
      if Truthy(player.teamId) then (false, s)
      else if amount < MinBid(player.category) then (false, s)
      else if amount > MaxBid(team, player.category) then (false, s)
      else
        var updated := Sold(player, teamId, amount);
        var players := seq(|s.players|, i requires 0 <= i < |s.players| =>
          if s.players[i].id == playerId then updated else s.players[i]);
        var teams := seq(|s.teams|, i requires 0 <= i < |s.teams| =>
          if s.teams[i].id == teamId then Enroll(s.teams[i], updated, amount) else s.teams[i]);
        (true, State(players, teams, NoSelection))
    case _ => (false, s)
  }
}
