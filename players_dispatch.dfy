/// The decisions asked of a player, sent to the strategy its type names. A
/// player of type `Unimplemented` aborts every decision.
module PlayerDispatch {
  import opened Common
  import opened Players
  import opened PlayerStates
  import opened Boards
  import RandomPlayers

  method ClaimTerritory(player: PlayerStruct, board: Board) returns (r: Result<nat>)
    ensures player.player == PlayerType.Unimplemented ==> r == Failure(Error.Unimplemented)
    ensures player.player == PlayerType.RandomPlayer ==>
      (r.Success? <==> |board.freeTerritories| > 0) && (r.Success? ==> r.value < |board.freeTerritories|)
  {
    match player.player
    case RandomPlayer => r := RandomPlayers.ClaimTerritory(board);
    case Unimplemented => r := Failure(Error.Unimplemented);
  }

  /// The random strategy reads the list-based record `state` of the player.
  method PlaceArmies(player: PlayerStruct, state: PlayerState, board: Board) returns (r: Result<seq<RandomPlayers.Placement>>)
    ensures player.player == PlayerType.Unimplemented ==> r == Failure(Error.Unimplemented)
    ensures player.player == PlayerType.RandomPlayer ==>
      (r == Failure(Underflow) <==> |state.territories| == 0)
      && (|state.territories| == 1 ==> r == Failure(EmptyRange))
      && (r == Failure(EmptyRange) ==> |state.territories| == 1 || state.armies == 0)
      && (r == Failure(IndexOutOfRange) ==>
            exists pos | 0 <= pos < |state.territories| - 1 :: state.territories[pos] >= |board.territories|)
      && (r.Failure? ==> r.error == Underflow || r.error == EmptyRange || r.error == IndexOutOfRange)
      && (|state.territories| >= 2 && state.armies > 0
          && (forall pos | 0 <= pos < |state.territories| :: state.territories[pos] < |board.territories|)
          ==> r.Success?)
    ensures player.player == PlayerType.RandomPlayer && r.Success? ==> var ps := r.value;
      && |state.territories| >= 2
      && |ps| <= |state.territories| - 2
      && (ps == [] || RandomPlayers.Placed(ps) < state.armies)
      && forall i | 0 <= i < |ps| ::
           ps[i].armies > 0 && ps[i].territory < |board.territories|
           && ps[i].territory in state.territories[..|state.territories| - 1]
  {
    match player.player
    case RandomPlayer => r := RandomPlayers.PlaceArmies(state, board);
    case Unimplemented => r := Failure(Error.Unimplemented);
  }

  method Attack(player: PlayerStruct, state: PlayerState, board: Board, coin: bool) returns (r: Result<Option<RandomPlayers.Attack>>)
    ensures player.player == PlayerType.Unimplemented ==> r == Failure(Error.Unimplemented)
    ensures player.player == PlayerType.RandomPlayer && coin ==> r == Success(None)
    ensures player.player == PlayerType.RandomPlayer ==>
      (r.Failure? <==> !coin && !RandomPlayers.Sound(state, board))
      && (r.Failure? ==> r.error == IndexOutOfRange || r.error == MissingOwner)
    ensures player.player == PlayerType.RandomPlayer && r.Success? && r.value.Some? ==>
      exists i: nat, k: nat :: RandomPlayers.IsCandidate(state, board, i, k, r.value.value)
    ensures player.player == PlayerType.RandomPlayer && !coin && r.Success? ==>
      (r.value.None? <==> forall i: nat, k: nat :: !RandomPlayers.Target(state, board, i, k))
  {
    match player.player
    case RandomPlayer => r := RandomPlayers.DecideAttack(state, board, coin);
    case Unimplemented => r := Failure(Error.Unimplemented);
  }

  method Capture(player: PlayerStruct, attack: RandomPlayers.Attack) returns (r: Result<nat>)
    ensures player.player == PlayerType.Unimplemented ==> r == Failure(Error.Unimplemented)
    ensures player.player == PlayerType.RandomPlayer ==>
      (r.Success? <==> attack.dice < attack.attacker.armies)
      && (r.Success? ==> attack.dice <= r.value < attack.attacker.armies)
  {
    match player.player
    case RandomPlayer => r := RandomPlayers.Capture(attack);
    case Unimplemented => r := Failure(Error.Unimplemented);
  }

  method Defend(player: PlayerStruct, attack: RandomPlayers.Attack) returns (r: Result<nat>)
    ensures player.player == PlayerType.Unimplemented ==> r == Failure(Error.Unimplemented)
    ensures player.player == PlayerType.RandomPlayer ==>
      r.Success? && 1 <= r.value <= 2 && (attack.defender.armies == 1 ==> r.value == 1)
  {
    match player.player
    case RandomPlayer =>
      var dice := RandomPlayers.Defend(attack);
      r := Success(dice);
    case Unimplemented => r := Failure(Error.Unimplemented);
  }
}
