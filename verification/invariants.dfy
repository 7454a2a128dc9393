/** What a sale keeps true of a team and of the whole auction state, and
    what it does not: the reserve of the bid calculator stops protecting the
    purse once a team is past the minimum roster. */
module AuctionInvariants {
  import opened AuctionTypes
  import opened AuctionConstants
  import opened AuctionContext

  /** The per-category head count of a roster. */
  function CountsOf(players: seq<Player>): PerCategory<int>
    decreases |players|
  {
    if |players| == 0 then NoPlayers
    else
      var before := CountsOf(players[..|players| - 1]);
      var c := players[|players| - 1].category;
      before.Set(c, before.Get(c) + 1)
  }

  /** The price recorded on a player, 0 when none is recorded. */
  function PriceOf(p: Player): int {
    if p.soldAmount.Some? then p.soldAmount.value else 0
  }

  /** The total price paid for a roster. */
  function SoldTotal(players: seq<Player>): int
    decreases |players|
  {
    if |players| == 0 then 0
    else SoldTotal(players[..|players| - 1]) + PriceOf(players[|players| - 1])
  }

  /** The consistency of a team's aggregates:
      - what was spent is the total price of the roster;
      - the category counts are the head counts of the roster;
      - no count exceeds its quota;
      - a team not past the minimum roster still holds the reserve. */
  predicate TeamInvariant(t: Team) {
    && t.purse - t.remainingPurse == SoldTotal(t.players)
    && t.categoryCount == CountsOf(t.players)
    && (forall c :: t.categoryCount.Get(c) <= CategoryLimit(c).max)
    && (|t.players| <= MinPlayers ==> t.remainingPurse >= Reserve(t))
  }

  predicate DistinctTeamIds(teams: seq<Team>) {
    forall i, j :: 0 <= i < j < |teams| ==> teams[i].id != teams[j].id
  }

  predicate StateInvariant(s: State) {
    && DistinctTeamIds(s.teams)
    && forall i :: 0 <= i < |s.teams| ==> TeamInvariant(s.teams[i])
  }

  // ------------------------------------------------------------- counting

  lemma CountsOfAppend(players: seq<Player>, p: Player)
    ensures CountsOf(players + [p]) == CountsOf(players).Set(p.category, CountsOf(players).Get(p.category) + 1)
    ensures SoldTotal(players + [p]) == SoldTotal(players) + PriceOf(p)
  {
    assert (players + [p])[..|players|] == players;
  }

  /** The category counts of a roster add up to its length. */
  lemma {:induction false} CountsOfTotal(players: seq<Player>)
    ensures Total(CountsOf(players)) == |players|
    decreases |players|
  {
    if |players| > 0 {
      var init := players[..|players| - 1];
      CountsOfTotal(init);
      assert players == init + [players[|players| - 1]];
      CountsOfAppend(init, players[|players| - 1]);
    }
  }

  /** The quotas alone bound the roster: their maxima add up to the full
      roster, so a consistent team never owns more than `MaxPlayers`. */
  lemma InvariantBoundsRoster(t: Team)
    requires TeamInvariant(t)
    ensures |t.players| <= MaxPlayers
  {
    CountsOfTotal(t.players);
    QuotasMatchRosterBounds();
    assert t.categoryCount.Get(Legend) <= CategoryLimit(Legend).max;
    assert t.categoryCount.Get(Youngstar) <= CategoryLimit(Youngstar).max;
    assert t.categoryCount.Get(Gold) <= CategoryLimit(Gold).max;
    assert t.categoryCount.Get(Silver) <= CategoryLimit(Silver).max;
    assert t.categoryCount.Get(Bronze) <= CategoryLimit(Bronze).max;
  }

  /** A team whose roster is not past the minimum has not overspent. */
  lemma InvariantKeepsPurseNonNegative(t: Team)
    requires TeamInvariant(t)
    requires |t.players| <= MinPlayers
    ensures t.remainingPurse >= Reserve(t) >= 0
  {
  }

  // -------------------------------------------------------- the bid limit

  /** Every minimum price is positive, so a maximum bid of 0 turns every
      sale away; an admitted sale therefore has room in the category quota
      and in the roster. */
  lemma AdmittedSaleHasRoom(t: Team, p: Player, amount: int)
    requires Admits(t, p, amount)
    ensures MaxBid(t, p.category) > 0
    ensures t.categoryCount.Get(p.category) < CategoryLimit(p.category).max
    ensures |t.players| < MaxPlayers
  {
  }

  /** Past the minimum roster the reserve is negative and the maximum bid
      is more than the team has left: at 12 players it is the remaining
      purse plus one BRONZE price. */
  lemma MaxBidExceedsPursePastMinimum(t: Team, c: Category)
    requires !QuotaFull(t, c) && !RosterFull(t)
    requires |t.players| > MinPlayers
    requires t.remainingPurse >= 0
    ensures MaxBid(t, c) == t.remainingPurse + (|t.players| - MinPlayers) * MinBid(Bronze)
    ensures MaxBid(t, c) > t.remainingPurse
  {
  }

  // ----------------------------------------------------- one team, one sale

  /** Buying an admitted player keeps the team consistent. When the roster
      was not past the minimum, the team afterwards still holds the reserve
      computed for the roster it had before the sale. */
  lemma EnrollPreservesInvariant(t: Team, p: Player, teamId: string, amount: int)
    requires TeamInvariant(t)
    requires Admits(t, p, amount)
    ensures TeamInvariant(Enroll(t, Sold(p, teamId, amount), amount))
    ensures |t.players| <= MinPlayers ==>
      Enroll(t, Sold(p, teamId, amount), amount).remainingPurse >= (MinPlayers - |t.players|) * MinBid(Bronze) >= 0
  {
    var sold := Sold(p, teamId, amount);
    var t' := Enroll(t, sold, amount);
    CountsOfAppend(t.players, sold);
    AdmittedSaleHasRoom(t, p, amount);
    assert t'.categoryCount == CountsOf(t'.players);
    assert forall c :: t'.categoryCount.Get(c) <= CategoryLimit(c).max by {
      forall c ensures t'.categoryCount.Get(c) <= CategoryLimit(c).max {
        if c != p.category {
          assert t'.categoryCount.Get(c) == t.categoryCount.Get(c);
        }
      }
    }
  }

  // ------------------------------------------------------ the whole state

  /** A successful sale is `Enroll` of the sold player on every team that
      carries the team id, and every entry that carries the player id
      becomes that sold player. */
  lemma SaleEnrollsTeam(s: State, playerId: string, teamId: string, amount: int)
    requires AddPlayerToTeam(s, playerId, teamId, amount).0
    ensures
      var r := AddPlayerToTeam(s, playerId, teamId, amount).1;
      var sold := Sold(s.players[FindPlayer(s.players, playerId).value], teamId, amount);
      && (forall i :: 0 <= i < |s.players| && s.players[i].id == playerId ==> r.players[i] == sold)
      && (forall i :: 0 <= i < |s.teams| && s.teams[i].id == teamId ==>
            r.teams[i] == Enroll(s.teams[i], sold, amount))
      && (forall i :: 0 <= i < |s.teams| ==> r.teams[i].id == s.teams[i].id)
  {
  }

  /** Whatever state the teams were loaded in, a successful sale to a team
      not past the minimum roster leaves it at least the reserve computed
      for the roster it had before the sale. */
  lemma ReserveAfterAnySale(s: State, playerId: string, teamId: string, amount: int)
    requires AddPlayerToTeam(s, playerId, teamId, amount).0
    ensures
      var ti := FindTeam(s.teams, teamId).value;
      var n := |s.teams[ti].players|;
      n <= MinPlayers ==>
        AddPlayerToTeam(s, playerId, teamId, amount).1.teams[ti].remainingPurse
          >= (MinPlayers - n) * MinBid(Bronze) >= 0
  {
    var pi := FindPlayer(s.players, playerId).value;
    var ti := FindTeam(s.teams, teamId).value;
    AdmittedSaleHasRoom(s.teams[ti], s.players[pi], amount);
  }

  /** A sale, successful or not, keeps every team consistent and the team
      ids distinct. */
  lemma SalePreservesInvariant(s: State, playerId: string, teamId: string, amount: int)
    requires StateInvariant(s)
    ensures StateInvariant(AddPlayerToTeam(s, playerId, teamId, amount).1)
  {
    var r := AddPlayerToTeam(s, playerId, teamId, amount);
    if r.0 {
      var pi := FindPlayer(s.players, playerId).value;
      var ti := FindTeam(s.teams, teamId).value;
      var p := s.players[pi];
      var t := s.teams[ti];
      var sold := Sold(p, teamId, amount);
      EnrollPreservesInvariant(t, p, teamId, amount);
      SaleEnrollsTeam(s, playerId, teamId, amount);
      forall i | 0 <= i < |r.1.teams|
        ensures TeamInvariant(r.1.teams[i]) && r.1.teams[i].id == s.teams[i].id
      {
        if i != ti {
          assert s.teams[i].id != teamId;
        }
      }
    }
  }

  /** The state the provider starts from, whatever the player list, is
      consistent. */
  lemma InitialStateInvariant(players: seq<Player>)
    ensures StateInvariant(State(players, InitialTeams(TeamNames), NoSelection))
  {
    var teams := InitialTeams(TeamNames);
    forall i | 0 <= i < |teams| ensures TeamInvariant(teams[i]) {
      var t := teams[i];
      assert t.categoryCount == NoPlayers by {
        assert t.categoryCount.Get(Legend) == 0 && t.categoryCount.Get(Youngstar) == 0;
        assert t.categoryCount.Get(Gold) == 0 && t.categoryCount.Get(Silver) == 0;
        assert t.categoryCount.Get(Bronze) == 0;
      }
    }
  }

  // -------------------------------------------------- a run of sales

  /** One sale the operator records: a player and the price. */
  datatype Purchase = Purchase(player: Player, amount: int)

  /** The total price of a run of sales. */
  function AmountTotal(sales: seq<Purchase>): int
    decreases |sales|
  {
    if |sales| == 0 then 0 else sales[0].amount + AmountTotal(sales[1..])
  }

  /** A team's run of sales in order, each through the same checks as
      `AddPlayerToTeam`; `None` when one of them is turned away. An accepted
      run adds one player per sale and takes the total price of the run off
      the remaining purse. */
  function Replay(t: Team, sales: seq<Purchase>): (r: Option<Team>)
    ensures r.Some? ==> |r.value.players| == |t.players| + |sales|
    ensures r.Some? ==> r.value.remainingPurse == t.remainingPurse - AmountTotal(sales)
    ensures r.Some? ==> r.value.id == t.id && r.value.purse == t.purse
    decreases |sales|
  {
    if |sales| == 0 then Some(t)
    else
      var sale := sales[0];
      if Admits(t, sale.player, sale.amount) then
        Replay(Enroll(t, Sold(sale.player, t.id, sale.amount), sale.amount), sales[1..])
      else None
  }

  /** A consistent team stays consistent through an accepted run of sales. */
  lemma {:induction false} ReplayPreservesInvariant(t: Team, sales: seq<Purchase>)
    requires TeamInvariant(t)
    requires Replay(t, sales).Some?
    ensures TeamInvariant(Replay(t, sales).value)
    decreases |sales|
  {
    if |sales| > 0 {
      var sale := sales[0];
      EnrollPreservesInvariant(t, sale.player, t.id, sale.amount);
      ReplayPreservesInvariant(Enroll(t, Sold(sale.player, t.id, sale.amount), sale.amount), sales[1..]);
    }
  }

  function Unsold(id: string, c: Category): Player {
    Player(id, c, None, None)
  }

  /** Twelve sales at the minimum prices fill every quota but one BRONZE
      place and leave 9,500,000; the thirteenth, a BRONZE player bought at the
      maximum bid, then leaves the team 500,000 in debt. */
  const OverdraftRun: seq<Purchase> := [
    Purchase(Unsold("g1", Gold), 1500000),
    Purchase(Unsold("g2", Gold), 1500000),
    Purchase(Unsold("s1", Silver), 1000000),
    Purchase(Unsold("s2", Silver), 1000000),
    Purchase(Unsold("s3", Silver), 1000000),
    Purchase(Unsold("s4", Silver), 1000000),
    Purchase(Unsold("s5", Silver), 1000000),
    Purchase(Unsold("l1", Legend), 500000),
    Purchase(Unsold("y1", Youngstar), 500000),
    Purchase(Unsold("b1", Bronze), 500000),
    Purchase(Unsold("b2", Bronze), 500000),
    Purchase(Unsold("b3", Bronze), 500000),
    Purchase(Unsold("b4", Bronze), 10000000)
  ]

  /** A team that goes through `teams` one admitted sale at a time replays
      the run to the last team of the list. */
  lemma {:induction false} ReplayAcceptsAdmittedRun(teams: seq<Team>, sales: seq<Purchase>)
    requires |teams| == |sales| + 1
    requires forall k :: 0 <= k < |sales| ==>
      && Admits(teams[k], sales[k].player, sales[k].amount)
      && teams[k + 1] == Enroll(teams[k], Sold(sales[k].player, teams[k].id, sales[k].amount), sales[k].amount)
    ensures Replay(teams[0], sales) == Some(teams[|sales|])
    decreases |sales|
  {
    if |sales| > 0 {
      assert Admits(teams[0], sales[0].player, sales[0].amount);
      ReplayAcceptsAdmittedRun(teams[1..], sales[1..]);
    }
  }

  /** Replaying a run in two parts is replaying it at once. */
  lemma {:induction false} ReplayConcat(t: Team, a: seq<Purchase>, b: seq<Purchase>)
    ensures Replay(t, a + b) == if Replay(t, a).Some? then Replay(Replay(t, a).value, b) else None
    decreases |a|
  {
    if |a| > 0 {
      assert (a + b)[0] == a[0] && (a + b)[1..] == a[1..] + b;
      var sale := a[0];
      if Admits(t, sale.player, sale.amount) {
        ReplayConcat(Enroll(t, Sold(sale.player, t.id, sale.amount), sale.amount), a[1..], b);
      }
    } else {
      assert a + b == b;
    }
  }

  /** The first seven sales of `OverdraftRun`: both GOLD and all five
      SILVER places at their minimum prices. */
  lemma OverdraftOpening(t0: Team)
    requires |t0.players| == 0 && t0.remainingPurse == 20000000
    requires t0.categoryCount == NoPlayers
    ensures
      var r := Replay(t0, OverdraftRun[..7]);
      && r.Some?
      && |r.value.players| == 7
      && r.value.remainingPurse == 12000000
      && r.value.categoryCount == PerCategory(0, 0, 2, 5, 0)
  {
    assert OverdraftRun[..7] == [
      Purchase(Unsold("g1", Gold), 1500000),
      Purchase(Unsold("g2", Gold), 1500000),
      Purchase(Unsold("s1", Silver), 1000000),
      Purchase(Unsold("s2", Silver), 1000000),
      Purchase(Unsold("s3", Silver), 1000000),
      Purchase(Unsold("s4", Silver), 1000000),
      Purchase(Unsold("s5", Silver), 1000000)
    ];
    assert Admits(t0, Unsold("g1", Gold), 1500000);
    var t1 := Enroll(t0, Sold(Unsold("g1", Gold), t0.id, 1500000), 1500000);
    assert |t1.players| == 1 && t1.remainingPurse == 18500000;
    assert t1.categoryCount == PerCategory(0, 0, 1, 0, 0);
    assert Admits(t1, Unsold("g2", Gold), 1500000);
    var t2 := Enroll(t1, Sold(Unsold("g2", Gold), t1.id, 1500000), 1500000);
    assert |t2.players| == 2 && t2.remainingPurse == 17000000;
    assert t2.categoryCount == PerCategory(0, 0, 2, 0, 0);
    assert Admits(t2, Unsold("s1", Silver), 1000000);
    var t3 := Enroll(t2, Sold(Unsold("s1", Silver), t2.id, 1000000), 1000000);
    assert |t3.players| == 3 && t3.remainingPurse == 16000000;
    assert t3.categoryCount == PerCategory(0, 0, 2, 1, 0);
    assert Admits(t3, Unsold("s2", Silver), 1000000);
    var t4 := Enroll(t3, Sold(Unsold("s2", Silver), t3.id, 1000000), 1000000);
    assert |t4.players| == 4 && t4.remainingPurse == 15000000;
    assert t4.categoryCount == PerCategory(0, 0, 2, 2, 0);
    assert Admits(t4, Unsold("s3", Silver), 1000000);
    var t5 := Enroll(t4, Sold(Unsold("s3", Silver), t4.id, 1000000), 1000000);
    assert |t5.players| == 5 && t5.remainingPurse == 14000000;
    assert t5.categoryCount == PerCategory(0, 0, 2, 3, 0);
    assert Admits(t5, Unsold("s4", Silver), 1000000);
    var t6 := Enroll(t5, Sold(Unsold("s4", Silver), t5.id, 1000000), 1000000);
    assert |t6.players| == 6 && t6.remainingPurse == 13000000;
    assert t6.categoryCount == PerCategory(0, 0, 2, 4, 0);
    assert Admits(t6, Unsold("s5", Silver), 1000000);
    var t7 := Enroll(t6, Sold(Unsold("s5", Silver), t6.id, 1000000), 1000000);
    assert |t7.players| == 7 && t7.remainingPurse == 12000000;
    assert t7.categoryCount == PerCategory(0, 0, 2, 5, 0);
    ReplayAcceptsAdmittedRun([t0, t1, t2, t3, t4, t5, t6, t7], OverdraftRun[..7]);
  }

  /** The last six sales of `OverdraftRun`: the twelfth player takes the
      team past the minimum roster, and the thirteenth is bought at a
      maximum bid above the remaining purse. */
  lemma OverdraftClosing(t0: Team)
    requires |t0.players| == 7 && t0.remainingPurse == 12000000
    requires t0.categoryCount == PerCategory(0, 0, 2, 5, 0)
    ensures
      var r := Replay(t0, OverdraftRun[7..]);
      && r.Some?
      && |r.value.players| == 13
      && r.value.remainingPurse == -500000
      && r.value.categoryCount == PerCategory(1, 1, 2, 5, 4)
  {
    assert OverdraftRun[7..] == [
      Purchase(Unsold("l1", Legend), 500000),
      Purchase(Unsold("y1", Youngstar), 500000),
      Purchase(Unsold("b1", Bronze), 500000),
      Purchase(Unsold("b2", Bronze), 500000),
      Purchase(Unsold("b3", Bronze), 500000),
      Purchase(Unsold("b4", Bronze), 10000000)
    ];
    assert Admits(t0, Unsold("l1", Legend), 500000);
    var t1 := Enroll(t0, Sold(Unsold("l1", Legend), t0.id, 500000), 500000);
    assert |t1.players| == 8 && t1.remainingPurse == 11500000;
    assert t1.categoryCount == PerCategory(1, 0, 2, 5, 0);
    assert Admits(t1, Unsold("y1", Youngstar), 500000);
    var t2 := Enroll(t1, Sold(Unsold("y1", Youngstar), t1.id, 500000), 500000);
    assert |t2.players| == 9 && t2.remainingPurse == 11000000;
    assert t2.categoryCount == PerCategory(1, 1, 2, 5, 0);
    assert Admits(t2, Unsold("b1", Bronze), 500000);
    var t3 := Enroll(t2, Sold(Unsold("b1", Bronze), t2.id, 500000), 500000);
    assert |t3.players| == 10 && t3.remainingPurse == 10500000;
    assert t3.categoryCount == PerCategory(1, 1, 2, 5, 1);
    assert Admits(t3, Unsold("b2", Bronze), 500000);
    var t4 := Enroll(t3, Sold(Unsold("b2", Bronze), t3.id, 500000), 500000);
    assert |t4.players| == 11 && t4.remainingPurse == 10000000;
    assert t4.categoryCount == PerCategory(1, 1, 2, 5, 2);
    assert Admits(t4, Unsold("b3", Bronze), 500000);
    var t5 := Enroll(t4, Sold(Unsold("b3", Bronze), t4.id, 500000), 500000);
    assert |t5.players| == 12 && t5.remainingPurse == 9500000;
    assert t5.categoryCount == PerCategory(1, 1, 2, 5, 3);
    assert Admits(t5, Unsold("b4", Bronze), 10000000);
    var t6 := Enroll(t5, Sold(Unsold("b4", Bronze), t5.id, 10000000), 10000000);
    assert |t6.players| == 13 && t6.remainingPurse == -500000;
    assert t6.categoryCount == PerCategory(1, 1, 2, 5, 4);
    ReplayAcceptsAdmittedRun([t0, t1, t2, t3, t4, t5, t6], OverdraftRun[7..]);
  }

  /** Every sale of `OverdraftRun` passes the checks of `AddPlayerToTeam`
      against a team with an empty roster and the full purse, and the team
      ends with a full roster and a negative remaining purse. */
  lemma OverdraftFromEmpty(t: Team)
    requires |t.players| == 0 && t.remainingPurse == TeamPurse
    requires t.categoryCount == NoPlayers
    ensures
      var r := Replay(t, OverdraftRun);
      && r.Some?
      && |r.value.players| == MaxPlayers
      && r.value.remainingPurse == -500000
  {
    assert OverdraftRun == OverdraftRun[..7] + OverdraftRun[7..];
    ReplayConcat(t, OverdraftRun[..7], OverdraftRun[7..]);
    OverdraftOpening(t);
    OverdraftClosing(Replay(t, OverdraftRun[..7]).value);
  }

  /** A fresh team goes through the whole of `OverdraftRun` and ends with a
      full, consistent roster and a negative remaining purse. */
  lemma OverdraftReachable()
    ensures TeamInvariant(NewTeam("team-1", "GUJARAT LIONS"))
    ensures
      var r := Replay(NewTeam("team-1", "GUJARAT LIONS"), OverdraftRun);
      && r.Some?
      && |r.value.players| == MaxPlayers
      && r.value.remainingPurse == -500000
      && TeamInvariant(r.value)
  {
    var t := NewTeam("team-1", "GUJARAT LIONS");
    assert t.categoryCount == CountsOf([]);
    assert TeamInvariant(t);
    OverdraftFromEmpty(t);
    ReplayPreservesInvariant(t, OverdraftRun);
  }
}
