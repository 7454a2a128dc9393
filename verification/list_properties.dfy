/** Properties relating the operations of the auction context to each
    other: the player-list edits, the suggested bid of a selection and the
    exact edge of the bid limit. */
module ListProperties {
  import opened AuctionTypes
  import opened AuctionConstants
  import opened AuctionContext

  /** Filtering a concatenation filters each part, so `removePlayer` keeps
      the survivors in their original order. */
  lemma {:induction false} RemovePlayerAppend(a: seq<Player>, b: seq<Player>, id: string)
    ensures RemovePlayer(a + b, id) == RemovePlayer(a, id) + RemovePlayer(b, id)
    decreases |a|
  {
    if |a| == 0 {
      assert a + b == b;
    } else {
      assert (a + b)[1..] == a[1..] + b;
      RemovePlayerAppend(a[1..], b, id);
    }
  }

  /** Removing the id of a player just added gives back the list it was added
      to, provided the clock gave an id not already in use. */
  lemma RemoveAfterAdd(players: seq<Player>, draft: PlayerDraft, now: nat)
    requires forall j :: 0 <= j < |players| ==> players[j].id != PlayerIdFor(now)
    ensures RemovePlayer(AddPlayer(players, draft, now), PlayerIdFor(now)) == players
  {
    var added := AddPlayer(players, draft, now);
    assert added == players + [added[|players|]];
    RemovePlayerAppend(players, [added[|players|]], PlayerIdFor(now));
  }

  /** A patch that gives no field changes nothing. */
  lemma UpdateWithEmptyPatch(players: seq<Player>, id: string)
    ensures UpdatePlayer(players, id, EmptyPatch) == players
  {
  }

  /** Applying the same patch twice is applying it once. A patch that
      renames the player leaves no entry with the old id for the second pass
      to touch; one that keeps the id gives every field its final value on
      the first pass. */
  lemma UpdatePlayerIdempotent(players: seq<Player>, id: string, updates: PlayerPatch)
    ensures UpdatePlayer(UpdatePlayer(players, id, updates), id, updates) == UpdatePlayer(players, id, updates)
  {
  }

  /** Selecting a known player suggests a starting bid that is exactly the
      minimum price of the player the sale would find, so a sale at the
      suggested bid always passes the minimum-price check. */
  lemma SuggestedBidIsMinimum(s: State, playerId: string)
    requires playerId != ""
    requires FindPlayer(s.players, playerId).Some?
    ensures
      var bid := SetCurrentAuctionPlayer(s.players, Some(playerId)).currentBid;
      bid == MinBid(s.players[FindPlayer(s.players, playerId).value].category)
  {
  }

  /** The bid limit is exact: with a sellable player and a team whose
      maximum covers the minimum price, a sale at the maximum goes through and
      a sale one unit above it is turned away. */
  lemma MaxBidIsTheEdge(s: State, playerId: string, teamId: string)
    requires FindPlayer(s.players, playerId).Some? && FindTeam(s.teams, teamId).Some?
    requires
      var p := s.players[FindPlayer(s.players, playerId).value];
      var t := s.teams[FindTeam(s.teams, teamId).value];
      !Truthy(p.teamId) && MaxBid(t, p.category) >= MinBid(p.category)
    ensures
      var p := s.players[FindPlayer(s.players, playerId).value];
      var t := s.teams[FindTeam(s.teams, teamId).value];
      && AddPlayerToTeam(s, playerId, teamId, MaxBid(t, p.category)).0
      && !AddPlayerToTeam(s, playerId, teamId, MaxBid(t, p.category) + 1).0
  {
  }

  /** `getMaxBid` reads the same team `addPlayerToTeam` charges: for a
      known team the two agree. */
  lemma GetMaxBidMatchesSaleCheck(s: State, playerId: string, teamId: string, amount: int)
    requires FindPlayer(s.players, playerId).Some?
    requires !Truthy(s.players[FindPlayer(s.players, playerId).value].teamId)
    ensures
      var c := s.players[FindPlayer(s.players, playerId).value].category;
      AddPlayerToTeam(s, playerId, teamId, amount).0 <==>
        FindTeam(s.teams, teamId).Some? && MinBid(c) <= amount <= GetMaxBid(s.teams, teamId, c)
  {
  }
}
