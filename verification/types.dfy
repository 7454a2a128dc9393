/** The records of the auction: categories, players, teams and the
    transient "current auction" selection (src/types/index.ts). */
module AuctionTypes {

  /** An optional value; stands for a TypeScript optional field or a
      `T | null` union. */
  datatype Option<+T> = None | Some(value: T)

  /** The five player categories. */
  datatype Category = Legend | Youngstar | Gold | Silver | Bronze

  /** A record with one field per category, as the source spells out
      `{ LEGEND: …, YOUNGSTAR: …, GOLD: …, SILVER: …, BRONZE: … }`. */
  datatype PerCategory<T> = PerCategory(legend: T, youngstar: T, gold: T, silver: T, bronze: T)
  {
    /** The field of category `c` (`record[c]`). */
    function Get(c: Category): T {
      match c
      case Legend => legend
      case Youngstar => youngstar
      case Gold => gold
      case Silver => silver
      case Bronze => bronze
    }

    /** The record with the field of `c` replaced (`{ ...record, [c]: v }`). */
    function Set(c: Category, v: T): (r: PerCategory<T>)
      ensures r.Get(c) == v
      ensures forall d :: d != c ==> r.Get(d) == Get(d)
    {
      match c
      case Legend => this.(legend := v)
      case Youngstar => this.(youngstar := v)
      case Gold => this.(gold := v)
      case Silver => this.(silver := v)
      case Bronze => this.(bronze := v)
    }
  }

  /** The all-zero counter record. */
  const NoPlayers: PerCategory<int> := PerCategory(0, 0, 0, 0, 0)

  /** The sum of the five fields of a counter record. */
  function Total(pc: PerCategory<int>): int {
    pc.legend + pc.youngstar + pc.gold + pc.silver + pc.bronze
  }

  /** A player, keeping only the fields the auction logic reads; the
      biographical fields are not part of this model. `teamId` and
      `soldAmount` are two independent optional fields, as in the source. */
  datatype Player = Player(id: string, category: Category, teamId: Option<string>, soldAmount: Option<int>)

  /** A team: the initial purse, what is left of it, the roster in order of
      purchase and the per-category head count. */
  datatype Team = Team(
    id: string,
    name: string,
    purse: int,
    remainingPurse: int,
    players: seq<Player>,
    categoryCount: PerCategory<int>)

  /** The player currently up for sale, the suggested bid and the bidding team. */
  datatype CurrentAuction = CurrentAuction(playerId: Option<string>, currentBid: int, biddingTeamId: Option<string>)

  /** JavaScript truthiness of an optional string: absent and "" are falsy. */
  predicate Truthy(s: Option<string>) {
    s.Some? && s.value != ""
  }
}
