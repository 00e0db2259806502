/// The random strategy. Every random draw is an arbitrary choice (`:|`) from
/// the range the strategy samples; a draw from an empty range, an unsigned
/// subtraction below zero, a dangling neighbour and an unowned neighbour are
/// the ways a decision aborts.
module RandomPlayers {
  import opened Common
  import opened Territories
  import opened PlayerStates
  import opened Boards

  /// Armies to put on the territory with the given index.
  datatype Placement = Placement(territory: nat, armies: nat)

  /// An attack of `dice` dice from `attacker` on `defender`.
  datatype Attack = Attack(dice: nat, attacker: Territory, defender: Territory)

  /// Picks a position of the board's free list; there must be one.
  method ClaimTerritory(board: Board) returns (r: Result<nat>)
    ensures r.Success? <==> |board.freeTerritories| > 0
    ensures r.Success? ==> r.value < |board.freeTerritories|
    ensures r.Failure? ==> r.error == Underflow
  {
    if |board.freeTerritories| == 0 {
      return Failure(Underflow);
    }
    var k :| 0 <= k < |board.freeTerritories|;
    r := Success(k);
  }

  /// The armies of a list of placements, in total.
  function Placed(ps: seq<Placement>): nat {
    if ps == [] then 0 else ps[0].armies + Placed(ps[1..])
  }

  lemma {:induction false} PlacedAppend(ps: seq<Placement>, p: Placement)
    ensures Placed(ps + [p]) == Placed(ps) + p.armies
    decreases |ps|
  {
    if ps == [] {
      assert [] + [p] == [p];
    } else {
      assert (ps + [p])[1..] == ps[1..] + [p];
      PlacedAppend(ps[1..], p);
    }
  }

  /// Carries out the placements in turn from a reserve, each under the test of
  /// `Territory.PlaceArmies`: the reserve must stay strictly above the amount.
  /// `None` when one of them is refused, otherwise the reserve left.
  function ApplyAll(reserve: nat, ps: seq<Placement>): (left: Option<nat>)
    ensures left.Some? ==> left.value <= reserve
  {
    if ps == [] then Some(reserve)
    else if reserve <= ps[0].armies then None
    else ApplyAll(reserve - ps[0].armies, ps[1..])
  }

  /// A list whose total stays below the reserve is accepted placement by
  /// placement and leaves exactly the rest of the reserve.
  lemma {:induction false} PlacementsFit(reserve: nat, ps: seq<Placement>)
    requires ps == [] || Placed(ps) < reserve
    ensures ApplyAll(reserve, ps) == Some(reserve - Placed(ps))
    decreases |ps|
  {
    if ps != [] {
      PlacementsFit(reserve - ps[0].armies, ps[1..]);
    }
  }

  /// Draws a number of rounds below the number of held territories minus
  /// one; each round draws a held position below that bound and an amount
  /// below what is left of the reserve, and keeps the amount when it is
  /// positive. The last held territory is never chosen.
  method PlaceArmies(state: PlayerState, board: Board) returns (r: Result<seq<Placement>>)
    ensures r == Failure(Underflow) <==> |state.territories| == 0
    ensures |state.territories| == 1 ==> r == Failure(EmptyRange)
    ensures r == Failure(EmptyRange) ==> |state.territories| == 1 || state.armies == 0
    ensures r == Failure(IndexOutOfRange) ==>
      exists pos | 0 <= pos < |state.territories| - 1 :: state.territories[pos] >= |board.territories|
    ensures r.Failure? ==> r.error == Underflow || r.error == EmptyRange || r.error == IndexOutOfRange
    ensures |state.territories| >= 2 && state.armies > 0
            && (forall pos | 0 <= pos < |state.territories| :: state.territories[pos] < |board.territories|)
            ==> r.Success?
    ensures r.Success? ==> var ps := r.value;
      && |state.territories| >= 2
      && |ps| <= |state.territories| - 2
      && (ps == [] || Placed(ps) < state.armies)
      && forall i | 0 <= i < |ps| ::
           ps[i].armies > 0 && ps[i].territory < |board.territories|
           && ps[i].territory in state.territories[..|state.territories| - 1]
  {
    var held := state.territories;
    if |held| == 0 {
      return Failure(Underflow);
    }
    var bound := |held| - 1;
    if bound == 0 {
      return Failure(EmptyRange);
    }
    var rounds :| 0 <= rounds < bound;
    var placed := 0;
    var placement := [];
    for round := 0 to rounds
      invariant placed == Placed(placement) && |placement| <= round
      invariant placement == [] || placed < state.armies
      invariant forall i | 0 <= i < |placement| ::
                  placement[i].armies > 0 && placement[i].territory < |board.territories|
                  && placement[i].territory in held[..bound]
    {
      var pos :| 0 <= pos < bound;
      var territory := held[pos];
      if state.armies - placed == 0 {
        return Failure(EmptyRange);
      }
      var armies :| 0 <= armies < state.armies - placed;
      placed := placed + armies;
      if armies > 0 {
        if territory >= |board.territories| {
          return Failure(IndexOutOfRange);
        }
        PlacedAppend(placement, Placement(territory, armies));
        placement := placement + [Placement(territory, armies)];
      }
    }
    r := Success(placement);
  }

  /// The held territory at position `i` is on the board, and when it has two
  /// armies or more, each of its neighbours is on the board and has a holder.
  /// The enumeration of attacks reaches every such neighbour and aborts on one
  /// that is missing or unheld.
  ghost predicate SoundAt(state: PlayerState, board: Board, i: nat)
    reads state, board, board.territories
    requires i < |state.territories|
  {
    var t := state.territories[i];
    t < |board.territories|
    && (board.territories[t].armies >= 2 ==>
          forall k | 0 <= k < |board.territories[t].connections| ::
            var adj := board.territories[t].connections[k];
            adj < |board.territories| && board.territories[adj].owner.Some?)
  }

  ghost predicate Sound(state: PlayerState, board: Board)
    reads state, board, board.territories
  {
    forall i | 0 <= i < |state.territories| :: SoundAt(state, board, i)
  }

  /// The `k`-th neighbour of the `i`-th held territory is a target: the held
  /// territory has two armies or more, and the neighbour belongs to another
  /// player.
  ghost predicate Target(state: PlayerState, board: Board, i: nat, k: nat)
    reads state, board, board.territories
  {
    i < |state.territories|
    && var t := state.territories[i];
    t < |board.territories|
    && var attacker := board.territories[t];
    attacker.armies >= 2
    && k < |attacker.connections|
    && var adj := attacker.connections[k];
    adj < |board.territories|
    && board.territories[adj].owner.Some?
    && board.territories[adj].owner.value != state.index
  }

  /// `a` attacks from the `i`-th held territory its `k`-th neighbour, a
  /// target, with one die or more but fewer than the attacker's armies and
  /// never more than three.
  ghost predicate IsCandidate(state: PlayerState, board: Board, i: nat, k: nat, a: Attack)
    reads state, board, board.territories
  {
    Target(state, board, i, k)
    && a.attacker == board.territories[state.territories[i]]
    && a.defender == board.territories[a.attacker.connections[k]]
    && 1 <= a.dice <= Min(3, a.attacker.armies - 1)
  }

  /// Declines when the coin says so; otherwise lists an attack for every
  /// target, each with its own dice draw, and picks one of them, or declines
  /// when there is none.
  method DecideAttack(state: PlayerState, board: Board, coin: bool) returns (r: Result<Option<Attack>>)
    ensures coin ==> r == Success(None)
    ensures r.Failure? <==> !coin && !Sound(state, board)
    ensures r.Failure? ==> r.error == IndexOutOfRange || r.error == MissingOwner
    ensures !coin && r.Success? ==>
      (r.value.None? <==> forall i: nat, k: nat :: !Target(state, board, i, k))
    ensures r.Success? && r.value.Some? ==>
      exists i: nat, k: nat :: IsCandidate(state, board, i, k, r.value.value)
  {
    if coin {
      return Success(None);
    }
    var held := state.territories;
    var attacks: seq<Attack> := [];
    for i := 0 to |held|
      invariant forall a | a in attacks :: exists i': nat, k: nat :: IsCandidate(state, board, i', k, a)
      invariant forall i' | 0 <= i' < i :: SoundAt(state, board, i')
      invariant attacks == [] <==> forall i': nat, k: nat | i' < i :: !Target(state, board, i', k)
    {
      if held[i] >= |board.territories| {
        assert !SoundAt(state, board, i);
        return Failure(IndexOutOfRange);
      }
      var territory := board.territories[held[i]];
      if territory.armies >= 2 {
        var connections := territory.connections;
        for k := 0 to |connections|
          invariant forall a | a in attacks :: exists i': nat, k': nat :: IsCandidate(state, board, i', k', a)
          invariant forall k' | 0 <= k' < k :: connections[k'] < |board.territories| && board.territories[connections[k']].owner.Some?
          invariant attacks == [] <==>
            (forall i': nat, k': nat | i' < i :: !Target(state, board, i', k'))
            && forall k': nat | k' < k :: !Target(state, board, i, k')
        {
          var adj := connections[k];
          if adj >= |board.territories| {
            assert !SoundAt(state, board, i);
            return Failure(IndexOutOfRange);
          }
          var defender := board.territories[adj];
          if defender.owner.None? {
            assert !SoundAt(state, board, i);
            return Failure(MissingOwner);
          }
          if defender.owner.value != state.index {
            var most := Min(4, territory.armies);
            var dice :| 1 <= dice < most;
            var a := Attack(dice, territory, defender);
            assert IsCandidate(state, board, i, k, a);
            attacks := attacks + [a];
          }
        }
      }
    }
    if attacks == [] {
      return Success(None);
    }
    var j :| 0 <= j < |attacks|;
    assert attacks[j] in attacks;
    r := Success(Some(attacks[j]));
  }

  /// Keeps at least as many armies as dice were rolled, but never every army
  /// of the attacker: `dice <= c < armies`, which needs more armies than dice.
  method Capture(attack: Attack) returns (r: Result<nat>)
    ensures r.Success? <==> attack.dice < attack.attacker.armies
    ensures r.Success? ==> attack.dice <= r.value < attack.attacker.armies
    ensures r.Failure? ==> r.error == EmptyRange
  {
    var armies := attack.attacker.armies;
    var low := Min(attack.dice, armies);
    if low >= armies {
      return Failure(EmptyRange);
    }
    var c :| low <= c < armies;
    r := Success(c);
  }

  /// One die for a defender with a single army, otherwise one or two.
  method Defend(attack: Attack) returns (dice: nat)
    ensures attack.defender.armies == 1 ==> dice == 1
    ensures 1 <= dice <= 2
  {
    if attack.defender.armies == 1 {
      return 1;
    }
    dice :| 1 <= dice < 3;
  }
}
