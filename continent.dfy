/// A continent groups territories; it keeps, per player, how many of its
/// territories that player holds, and the bonus for holding all of them.
module Continents {
  import opened Common

  class Continent {
    /// Position of the continent in the board's list, written by `GenerateIds`.
    var id: nat
    const name: string
    /// Number of this continent's territories each player holds, by player index.
    var territoriesPerPlayer: seq<nat>
    /// Extra armies per turn for a player who holds the whole continent.
    const armiesReward: nat
    /// Number of territories the continent is declared to contain.
    const size: nat

    /// A continent for `players` players: every counter starts at zero and the
    /// id at 0 until the board numbers its continents.
    constructor (name: string, players: nat, armiesReward: nat, size: nat)
      ensures this.name == name && this.armiesReward == armiesReward && this.size == size
      ensures id == 0
      ensures |territoriesPerPlayer| == players
      ensures forall p | 0 <= p < players :: territoriesPerPlayer[p] == 0
    {
      this.name := name;
      this.armiesReward := armiesReward;
      this.size := size;
      id := 0;
      territoriesPerPlayer := seq(players, _ => 0);
    }
  }

  /// Numbers the continents by their position in the list. Only ids change; a
  /// continent listed twice keeps the number of its last position.
  method GenerateIds(continents: seq<Continent>)
    modifies continents`id
    ensures forall i | 0 <= i < |continents| :: continents[i].id == LastIndex(continents, i)
    ensures Distinct(continents) ==> forall i | 0 <= i < |continents| :: continents[i].id == i
  {
    for k := 0 to |continents|
      invariant forall i | 0 <= i < k :: continents[i].id == LastIndex(continents[..k], i)
    {
      LastIndexExtend(continents, k);
      continents[k].id := k;
    }
    assert continents[..|continents|] == continents;
    forall i | 0 <= i < |continents| && Distinct(continents)
      ensures continents[i].id == i
    {
      LastIndexOfDistinct(continents, i);
    }
  }
}
