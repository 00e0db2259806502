/// A territory of the map: its neighbours, its continent, the armies on it and
/// the player who holds it.
module Territories {
  import opened Common
  import opened Continents
  import opened Players

  /// ASCII upper-casing of one character.
  function Upper(c: char): (u: char)
    ensures !('a' <= u <= 'z')
    ensures !('a' <= c <= 'z') ==> u == c
    ensures 'a' <= c <= 'z' ==> u as int - c as int == 'A' as int - 'a' as int
  {
    if 'a' <= c <= 'z' then (c as int - 'a' as int + 'A' as int) as char else c
  }

  function UpperAll(s: string): (r: string)
    ensures |r| == |s| && forall i | 0 <= i < |s| :: r[i] == Upper(s[i])
  {
    seq(|s|, i requires 0 <= i < |s| => Upper(s[i]))
  }

  /// The short label of a territory: its first five characters (all of them if
  /// the name is shorter), upper-cased.
  function Abbreviation(name: string): (abbr: string)
    ensures |abbr| == Min(5, |name|) && |abbr| <= 5
    ensures forall i | 0 <= i < |abbr| :: abbr[i] == Upper(name[i])
  {
    UpperAll(name[..Min(5, |name|)])
  }

  /// Abbreviating an abbreviation changes nothing.
  lemma AbbreviationIdempotent(name: string)
    ensures Abbreviation(Abbreviation(name)) == Abbreviation(name)
  {
    var a := Abbreviation(name);
    assert Min(5, |a|) == |a|;
    assert forall i | 0 <= i < |a| :: Upper(a[i]) == a[i];
  }

  /// Names that agree on their first five characters share an abbreviation.
  lemma AbbreviationOfPrefix(name: string, other: string)
    requires |name| >= 5 && |other| >= 5 && name[..5] == other[..5]
    ensures Abbreviation(name) == Abbreviation(other)
  {
    assert forall i | 0 <= i < 5 :: name[i] == name[..5][i] && other[i] == other[..5][i];
  }

  class Territory {
    /// Position of the territory in the board's list, written by `GenerateIds`;
    /// equality and hashing use it alone.
    var index: nat
    const name: string
    const abbr: string
    /// Indices of the neighbouring territories, in the order given.
    var connections: seq<nat>
    const continent: Continent
    var armies: nat
    /// Index of the holding player, if any.
    var owner: Option<nat>

    /// An unclaimed territory on `continent`: no armies, no owner, no
    /// neighbours yet, index 0.
    constructor (name: string, continent: Continent)
      ensures this.name == name && this.continent == continent
      ensures abbr == Abbreviation(name)
      ensures index == 0 && connections == [] && armies == 0 && owner == None
    {
      this.name := name;
      this.continent := continent;
      abbr := Abbreviation(name);
      index := 0;
      connections := [];
      armies := 0;
      owner := None;
    }

    /// Replaces the neighbour list with exactly the given territories, in order.
    method CreateConnections(connections: seq<nat>)
      modifies this`connections
      ensures this.connections == connections
    {
      this.connections := connections;
    }

    /// Moves `armies` from the player's reserve onto this territory. The
    /// territory must be free or the player's own, and the reserve must stay
    /// strictly above the amount; ownership itself is never changed here.
    method PlaceArmies(player: PlayerStruct, armies: nat) returns (outcome: Outcome)
      modifies this`armies, player`armies
      ensures outcome == Fail(TerritoryOccupied) <==> old(owner).Some? && old(owner).value != player.index
      ensures outcome == Fail(InsufficientArmies) <==>
        (old(owner).None? || old(owner).value == player.index) && old(player.armies) <= armies
      ensures outcome.Pass? || outcome == Fail(TerritoryOccupied) || outcome == Fail(InsufficientArmies)
      ensures outcome.Pass? ==> this.armies == old(this.armies) + armies && player.armies == old(player.armies) - armies
      ensures outcome.Pass? ==> player.armies > 0
      ensures outcome.Fail? ==> this.armies == old(this.armies) && player.armies == old(player.armies)
      ensures this.armies + player.armies == old(this.armies) + old(player.armies)
    {
      if owner.Some? && owner.value != player.index {
        return Fail(TerritoryOccupied);
      }
      if player.armies <= armies {
        return Fail(InsufficientArmies);
      }
      this.armies := this.armies + armies;
      player.armies := player.armies - armies;
      outcome := Pass;
    }

    /// The hash key: the index alone.
    function Key(): nat
      reads this
    {
      index
    }

    /// Territories are equal when their indices are, whatever else differs;
    /// equal territories hash alike, and a territory equals itself.
    function Equals(other: Territory): (same: bool)
      reads this, other
      ensures same ==> Key() == other.Key()
      ensures this == other ==> same
    {
      index == other.index
    }
  }

  /// Numbers the territories by their position in the list; nothing but the
  /// indices changes.
  method GenerateIds(territories: seq<Territory>)
    modifies territories`index
    ensures forall i | 0 <= i < |territories| :: territories[i].index == LastIndex(territories, i)
    ensures Distinct(territories) ==> forall i | 0 <= i < |territories| :: territories[i].index == i
  {
    for k := 0 to |territories|
      invariant forall i | 0 <= i < k :: territories[i].index == LastIndex(territories[..k], i)
    {
      LastIndexExtend(territories, k);
      territories[k].index := k;
    }
    assert territories[..|territories|] == territories;
    forall i | 0 <= i < |territories| && Distinct(territories)
      ensures territories[i].index == i
    {
      LastIndexOfDistinct(territories, i);
    }
  }
}
