/** A run of sales recorded one after another through `addPlayerToTeam` on
    the whole auction state, related to the team-level `Replay`; and the
    overspending run of `OverdraftRun` recorded from the initial state. */
module AuctionSessions {
  import opened AuctionTypes
  import opened AuctionConstants
  import opened AuctionContext
  import opened AuctionInvariants

  /** The operator records `sales` to the team `teamId` in order, each through
      `addPlayerToTeam`, and stops at the first one turned away. */
  function SellRun(s: State, teamId: string, sales: seq<Purchase>): (r: (bool, State))
    ensures |r.1.players| == |s.players| && |r.1.teams| == |s.teams|
    decreases |sales|
  {
    if |sales| == 0 then (true, s)
    else
      var step := AddPlayerToTeam(s, sales[0].player.id, teamId, sales[0].amount);
      if step.0 then SellRun(step.1, teamId, sales[1..]) else (false, step.1)
  }

  /** Every sale of the run names a player whose first entry in the list is
      the player the sale records. */
  predicate Listed(players: seq<Player>, sales: seq<Purchase>) {
    forall k :: 0 <= k < |sales| ==>
      && FindPlayer(players, sales[k].player.id).Some?
      && players[FindPlayer(players, sales[k].player.id).value] == sales[k].player
  }

  /** No two sales of the run are for the same player id. */
  predicate DistinctBuys(sales: seq<Purchase>) {
    forall k, m :: 0 <= k < m < |sales| ==> sales[k].player.id != sales[m].player.id
  }

  /** The lookup reads only the ids. */
  lemma SameIdsSameLookup(xs: seq<Player>, ys: seq<Player>, id: string)
    requires |xs| == |ys|
    requires forall i :: 0 <= i < |xs| ==> xs[i].id == ys[i].id
    ensures FindPlayer(xs, id) == FindPlayer(ys, id)
  {
  }

  /** Recording a run on the whole state does to a team exactly what
      `Replay` does: the run goes through exactly when the replay does, and
      then the team ends as the replay ends. It needs distinct team ids, each
      sale's player listed as recorded, and no player bought twice. */
  lemma {:induction false} SellRunMatchesReplay(s: State, ti: nat, sales: seq<Purchase>)
    requires ti < |s.teams| && DistinctTeamIds(s.teams)
    requires Listed(s.players, sales) && DistinctBuys(sales)
    ensures
      var r := SellRun(s, s.teams[ti].id, sales);
      var q := Replay(s.teams[ti], sales);
      && r.0 == q.Some?
      && (q.Some? ==> r.1.teams[ti] == q.value)
    decreases |sales|
  {
    if |sales| > 0 {
      var t := s.teams[ti];
      var sale := sales[0];
      assert FindTeam(s.teams, t.id) == Some(ti) by {
        var f := FindTeam(s.teams, t.id);
        assert TeamIdOf(s.teams[ti]) == t.id;
        assert f.Some? && f.value <= ti;
      }
      var pi := FindPlayer(s.players, sale.player.id).value;
      assert s.players[pi] == sale.player;
      var step := AddPlayerToTeam(s, sale.player.id, t.id, sale.amount);
      if step.0 {
        SaleEnrollsTeam(s, sale.player.id, t.id, sale.amount);
        var s1 := step.1;
        assert s1.teams[ti] == Enroll(t, Sold(sale.player, t.id, sale.amount), sale.amount);
        forall i | 0 <= i < |s1.players| ensures s1.players[i].id == s.players[i].id {
          if s.players[i].id == sale.player.id {
            assert s1.players[i] == Sold(sale.player, t.id, sale.amount);
          }
        }
        var rest := sales[1..];
        forall k | 0 <= k < |rest|
          ensures FindPlayer(s1.players, rest[k].player.id).Some?
          ensures s1.players[FindPlayer(s1.players, rest[k].player.id).value] == rest[k].player
        {
          assert rest[k] == sales[k + 1];
          SameIdsSameLookup(s1.players, s.players, rest[k].player.id);
        }
        SellRunMatchesReplay(s1, ti, rest);
      }
    }
  }

  /** A consistent state stays consistent through any run, accepted or not. */
  lemma {:induction false} SellRunPreservesInvariant(s: State, teamId: string, sales: seq<Purchase>)
    requires StateInvariant(s)
    ensures StateInvariant(SellRun(s, teamId, sales).1)
    decreases |sales|
  {
    if |sales| > 0 {
      SalePreservesInvariant(s, sales[0].player.id, teamId, sales[0].amount);
      var step := AddPlayerToTeam(s, sales[0].player.id, teamId, sales[0].amount);
      if step.0 {
        SellRunPreservesInvariant(step.1, teamId, sales[1..]);
      }
    }
  }

  /** The player list the overspending run is recorded against: one unsold
      entry per sale, in order. */
  const OverdraftPlayers: seq<Player> :=
    seq(|OverdraftRun|, k requires 0 <= k < |OverdraftRun| => OverdraftRun[k].player)

  /** The overspending run names thirteen different players, each listed in
      `OverdraftPlayers` as recorded. */
  lemma OverdraftPlayersListed()
    ensures Listed(OverdraftPlayers, OverdraftRun) && DistinctBuys(OverdraftRun)
  {
    forall k | 0 <= k < |OverdraftRun|
      ensures FindPlayer(OverdraftPlayers, OverdraftRun[k].player.id) == Some(k)
    {
      var f := FindPlayer(OverdraftPlayers, OverdraftRun[k].player.id);
      assert PlayerIdOf(OverdraftPlayers[k]) == OverdraftRun[k].player.id;
      assert f.Some? && f.value <= k;
    }
  }

  /** From the initial teams and a player list holding the thirteen players,
      the operator records all thirteen sales of `OverdraftRun` to
      `team-1` through `addPlayerToTeam`; every one is accepted, the state
      stays consistent, and `team-1` ends with a full roster and a remaining
      purse of −500,000. */
  lemma InitialOverdraft()
    ensures StateInvariant(State(OverdraftPlayers, InitialTeams(TeamNames), NoSelection))
    ensures
      var r := SellRun(State(OverdraftPlayers, InitialTeams(TeamNames), NoSelection), TeamIdFor(0), OverdraftRun);
      && r.0
      && StateInvariant(r.1)
      && |r.1.teams[0].players| == MaxPlayers
      && r.1.teams[0].remainingPurse == -500000
  {
    var s := State(OverdraftPlayers, InitialTeams(TeamNames), NoSelection);
    InitialStateInvariant(OverdraftPlayers);
    OverdraftPlayersListed();
    var t := s.teams[0];
    assert |t.players| == 0 && t.remainingPurse == TeamPurse;
    assert t.categoryCount == NoPlayers by {
      assert t.categoryCount.Get(Legend) == 0 && t.categoryCount.Get(Youngstar) == 0;
      assert t.categoryCount.Get(Gold) == 0 && t.categoryCount.Get(Silver) == 0;
      assert t.categoryCount.Get(Bronze) == 0;
    }
    OverdraftFromEmpty(t);
    SellRunMatchesReplay(s, 0, OverdraftRun);
    SellRunPreservesInvariant(s, TeamIdFor(0), OverdraftRun);
  }
}
