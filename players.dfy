/// The player record the board and the game work with: a reserve of armies
/// and the sets of territories and continents the player holds.
module Players {
  import opened Common
  import opened Continents

  /// The decision strategy behind a player.
  datatype PlayerType = Unimplemented | RandomPlayer

  class PlayerStruct {
    const player: PlayerType
    /// Position of the player in the game's list, written by `GenerateIds`.
    var index: nat
    const name: string
    /// The reserve: armies held off the board, ready to be placed.
    var armies: nat
    /// Indices of the territories held; a territory hashes and compares by its
    /// index, so each is held at most once.
    var territories: set<nat>
    /// Continents held in full.
    var continents: set<Continent>
    var defeated: bool

    /// A fresh player: index 0, empty reserve, nothing held, not defeated.
    constructor (player: PlayerType, name: string)
      ensures this.player == player && this.name == name
      ensures index == 0 && armies == 0
      ensures territories == {} && continents == {}
      ensures !defeated
    {
      this.player := player;
      this.name := name;
      index := 0;
      armies := 0;
      territories := {};
      continents := {};
      defeated := false;
    }
  }

  /// Numbers the players by their position in the list; nothing but the
  /// indices changes.
  method GenerateIds(players: seq<PlayerStruct>)
    modifies players`index
    ensures forall i | 0 <= i < |players| :: players[i].index == LastIndex(players, i)
    ensures Distinct(players) ==> forall i | 0 <= i < |players| :: players[i].index == i
  {
    for k := 0 to |players|
      invariant forall i | 0 <= i < k :: players[i].index == LastIndex(players[..k], i)
    {
      LastIndexExtend(players, k);
      players[k].index := k;
    }
    assert players[..|players|] == players;
    forall i | 0 <= i < |players| && Distinct(players)
      ensures players[i].index == i
    {
      LastIndexOfDistinct(players, i);
    }
  }
}
