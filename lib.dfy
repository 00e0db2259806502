/// The game: the players, the board and a box of armies per player. Setup
/// hands out the starting reserves, decides who begins and lets the players
/// claim the free territories in turn; at the start of a turn a player draws
/// reinforcements from its box.
module Games {
  import opened Common
  import opened Continents
  import opened Players
  import opened Boards
  import FirstPlayers
  import PlayerDispatch

  /// The armies in each player's box when the game is created.
  const BoxSize: nat := 180

  /// The starting reserves for two, three, four, five and six players.
  const StartingArmies: seq<nat> := [50, 35, 30, 25, 20]

  /// The territories of the classic map.
  const ClassicTerritories: nat := 42

  /// The starting reserve for `n` players, the table entry at `n - 2`: fewer
  /// than two players make the unsigned subtraction go below zero, more than
  /// six reach past the table.
  function ArmiesPerPlayer(n: nat): (r: Result<nat>)
    ensures r.Success? <==> 2 <= n <= 6
    ensures n < 2 ==> r == Failure(Underflow)
    ensures n > 6 ==> r == Failure(IndexOutOfRange)
    ensures r.Success? ==> r.value < BoxSize
  {
    if n < 2 then Failure(Underflow)
    else if n - 2 >= |StartingArmies| then Failure(IndexOutOfRange)
    else Success(StartingArmies[n - 2])
  }

  /// More players start with fewer armies each, and every player's reserve
  /// pays for an even share of the classic map's territories.
  lemma StartingArmiesShrink(m: nat, n: nat)
    requires 2 <= m < n <= 6
    ensures ArmiesPerPlayer(n).value < ArmiesPerPlayer(m).value
    ensures (ClassicTerritories + n - 1) / n <= ArmiesPerPlayer(n).value
  {
    assert StartingArmies[n - 2] < StartingArmies[m - 2];
  }

  /// The reward a continent held in full brings.
  function Reward(c: Continent): nat {
    c.armiesReward
  }

  /// The sum of `f` over a set of continents.
  ghost function SumOver(cs: set<Continent>, f: Continent -> nat): nat
    decreases |cs|
  {
    if cs == {} then 0 else var c :| c in cs; f(c) + SumOver(cs - {c}, f)
  }

  /// Any member can be taken out of the sum first.
  lemma {:induction false} SumOverRemove(cs: set<Continent>, f: Continent -> nat, c: Continent)
    requires c in cs
    ensures SumOver(cs, f) == f(c) + SumOver(cs - {c}, f)
    decreases |cs|
  {
    var d :| d in cs && SumOver(cs, f) == f(d) + SumOver(cs - {d}, f);
    if d != c {
      SumOverRemove(cs - {d}, f, c);
      SumOverRemove(cs - {c}, f, d);
      assert cs - {d} - {c} == cs - {c} - {d};
    }
  }

  /// Functions that agree on the set have the same sum over it.
  lemma {:induction false} SumOverAgree(cs: set<Continent>, f: Continent -> nat, g: Continent -> nat)
    requires forall c | c in cs :: f(c) == g(c)
    ensures SumOver(cs, f) == SumOver(cs, g)
    decreases |cs|
  {
    if cs != {} {
      var c :| c in cs;
      SumOverRemove(cs, f, c);
      SumOverRemove(cs, g, c);
      SumOverAgree(cs - {c}, f, g);
    }
  }

  /// Every term is at most the sum.
  lemma SumOverBounds(cs: set<Continent>, f: Continent -> nat, c: Continent)
    requires c in cs
    ensures f(c) <= SumOver(cs, f)
  {
    SumOverRemove(cs, f, c);
  }

  /// Capping a running total at the box, then capping each further amount at
  /// what the box has left, caps the grand total at the box.
  lemma CapStep(box: nat, total: nat, extra: nat)
    ensures Min(box, total) + Min(box - Min(box, total), extra) == Min(box, total + extra)
  {
  }

  /// `base` plus the rewards of `seen`, as far as the box reaches.
  ghost function Capped(box: nat, base: nat, seen: set<Continent>): nat {
    Min(box, base + SumOver(seen, Reward))
  }

  /// One more continent's reward, capped at what the box has left, keeps the
  /// running grant at the capped total.
  lemma AddReward(box: nat, base: nat, seen: set<Continent>, c: Continent)
    requires c !in seen
    ensures Capped(box, base, seen) + Min(box - Capped(box, base, seen), c.armiesReward) == Capped(box, base, seen + {c})
  {
    SumOverRemove(seen + {c}, Reward, c);
    assert seen + {c} - {c} == seen;
    CapStep(box, base + SumOver(seen, Reward), c.armiesReward);
  }

  /// What a player holding `territories` territories and the continents `cs`
  /// in full is entitled to: a third of the territories, but at least three,
  /// plus every continent's reward.
  ghost function Entitlement(territories: nat, cs: set<Continent>): nat {
    Max(3, territories / 3) + SumOver(cs, Reward)
  }

  /// The reinforcements drawn from a box of `box` armies: the entitlement, as
  /// far as the box reaches.
  ghost function Grant(box: nat, territories: nat, cs: set<Continent>): (g: nat)
    ensures g <= box
    ensures g == box || g == Entitlement(territories, cs)
  {
    Min(box, Entitlement(territories, cs))
  }

  /// The grant is the whole entitlement exactly when the box holds that much;
  /// an empty box grants nothing, and a box of three or more grants at least
  /// three.
  lemma GrantInFull(box: nat, territories: nat, cs: set<Continent>)
    ensures Grant(box, territories, cs) == Entitlement(territories, cs) <==> box >= Entitlement(territories, cs)
    ensures box >= 3 ==> Grant(box, territories, cs) >= 3
  {
  }

  /// The grant as the source computes it: the territory allowance and each
  /// continent's reward are capped separately against the whole box, so
  /// their total can exceed the box, and taking it out of the box goes below
  /// zero. An empty box grants nothing.
  ghost function GrantAsWritten(box: nat, territories: nat, cs: set<Continent>): (r: Result<nat>)
    ensures r.Success? ==> r.value <= box
  {
    if box == 0 then Success(0)
    else
      var total := Min(box, Max(3, territories / 3)) + SumOver(cs, c => Min(box, Reward(c)));
      if total > box then Failure(Underflow) else Success(total)
  }

  /// While the box covers the entitlement, the source's grant is the
  /// corrected one.
  lemma AsWrittenWithinBox(box: nat, territories: nat, cs: set<Continent>)
    requires box >= Entitlement(territories, cs)
    ensures GrantAsWritten(box, territories, cs) == Success(Grant(box, territories, cs))
  {
    forall c | c in cs
      ensures Min(box, Reward(c)) == Reward(c)
    {
      SumOverBounds(cs, Reward, c);
    }
    SumOverAgree(cs, c => Min(box, Reward(c)), Reward);
  }

  /// A box down to three armies, a player on nine territories holding Europe
  /// (reward five) in full: the allowance takes three and Europe's reward,
  /// capped at the box, three more, so six armies leave a box of three; the
  /// box should grant its three.
  lemma BonusOverdraw(europe: Continent)
    requires europe.armiesReward == 5
    ensures GrantAsWritten(3, 9, {europe}) == Failure(Underflow)
    ensures Grant(3, 9, {europe}) == 3
  {
    SumOverRemove({europe}, c => Min(3, Reward(c)), europe);
    assert {europe} - {europe} == {};
  }

  /// The seat of the `k`-th claimant round a table of `n` when the first
  /// sits at `w`: each claimant sits next to the one before.
  function Seat(w: nat, k: nat, n: nat): (seat: nat)
    requires w < n
    ensures seat < n
  {
    if k == 0 then w else (Seat(w, k - 1, n) + 1) % n
  }

  /// The `k`-th claimant sits at `Seat(w, k, n)`.
  ghost predicate RoundRobin(claimants: seq<nat>, w: nat, n: nat)
    requires w < n
  {
    forall k | 0 <= k < |claimants| :: claimants[k] == Seat(w, k, n)
  }

  /// The next claimant is the one after the last, round the table.
  lemma RoundRobinNext(claimants: seq<nat>, w: nat, n: nat)
    requires w < n && RoundRobin(claimants, w, n)
    ensures RoundRobin(claimants + [Seat(w, |claimants|, n)], w, n)
  {
  }

  /// The reserves of the players, by position.
  function Reserves(ps: seq<PlayerStruct>): (r: seq<nat>)
    reads ps`armies
    ensures |r| == |ps| && forall i | 0 <= i < |ps| :: r[i] == ps[i].armies
  {
    if ps == [] then [] else Reserves(ps[..|ps| - 1]) + [ps[|ps| - 1].armies]
  }

  /// The grant from a non-empty box: the territory allowance capped at the
  /// box, then each held continent's reward capped at what the box has left,
  /// in whatever order the set yields them.
  method Reinforcements(box: nat, territories: nat, continents: set<Continent>) returns (armies: nat)
    ensures armies == Grant(box, territories, continents)
  {
    var base := Max(3, territories / 3);
    armies := Min(box, base);
    var left := continents;
    ghost var seen: set<Continent> := {};
    while left != {}
      invariant left + seen == continents && left !! seen
      invariant armies == Capped(box, base, seen)
      decreases |left|
    {
      var c :| c in left;
      AddReward(box, base, seen, c);
      armies := armies + Min(box - armies, c.armiesReward);
      left := left - {c};
      seen := seen + {c};
    }
  }

  class Game {
    const players: seq<PlayerStruct>
    var defeatedPlayers: seq<PlayerStruct>
    const board: Board
    var gameOver: bool
    /// Armies left in each player's box, by player index.
    var armiesInBox: seq<nat>

    /// Every player's index is its position, and every player has a box.
    ghost predicate Valid()
      reads this`armiesInBox, players`index
    {
      |armiesInBox| == |players| && forall i | 0 <= i < |players| :: players[i].index == i
    }

    /// A full box for every player; the players are numbered by position.
    constructor (players: seq<PlayerStruct>, board: Board)
      modifies players`index
      ensures this.players == players && this.board == board
      ensures armiesInBox == seq(|players|, _ => BoxSize)
      ensures defeatedPlayers == [] && !gameOver
      ensures forall i | 0 <= i < |players| :: players[i].index == LastIndex(players, i)
      ensures Distinct(players) ==> Valid()
    {
      this.players := players;
      this.board := board;
      defeatedPlayers := [];
      gameOver := false;
      armiesInBox := seq(|players|, _ => BoxSize);
      new;
      Players.GenerateIds(players);
    }

    /// Funds every reserve from the table, decides who begins from the script
    /// `dice`, and lets the players claim the free territories round the
    /// table from the first player until none is free. `claimants` lists the
    /// positions of the players in the order they claimed.
    method Setup(dice: seq<nat>) returns (outcome: Outcome, ghost claimants: seq<nat>)
      requires Valid() && board.Valid()
      modifies this`armiesInBox, players`armies, players`territories, players`continents
      modifies board`freeTerritories, board.territories`armies, board.territories`owner
      modifies (set t | t in board.territories :: t.continent)`territoriesPerPlayer
      ensures Valid() && board.Valid()
      ensures old(board.Ledger()) ==> board.Ledger()
      ensures var per := ArmiesPerPlayer(|players|);
        per.Failure? ==> outcome == Fail(per.error)
      ensures var per := ArmiesPerPlayer(|players|);
        per.Success? && (exists i | 0 <= i < |players| :: old(armiesInBox)[i] < per.value) ==>
          outcome == Fail(InsufficientArmies)
      ensures var per := ArmiesPerPlayer(|players|);
        var first := FirstPlayers.Winner(Range(|players|), dice);
        per.Success? && (forall i | 0 <= i < |players| :: old(armiesInBox)[i] >= per.value) && first.Failure? ==>
          outcome == Fail(first.error)
      ensures outcome.Pass? ==>
        var per := ArmiesPerPlayer(|players|).value;
        var first := FirstPlayers.Winner(Range(|players|), dice);
        && first.Success?
        && board.freeTerritories == []
        && |claimants| == |old(board.freeTerritories)|
        && first.value < |players| && RoundRobin(claimants, first.value, |players|)
        && (forall i | 0 <= i < |players| ::
              armiesInBox[i] + per == old(armiesInBox)[i]
              && players[i].armies + multiset(claimants)[i] == per)
    {
      claimants := [];
      var table := ArmiesPerPlayer(|players|);
      if table.Failure? {
        return Fail(table.error), claimants;
      }
      outcome := Fund(table.value);
      assert board.Ledger() == old(board.Ledger()) && board.Valid();
      if outcome.Fail? {
        return;
      }
      var first := FirstPlayers.FirstPlayer(|players|, dice);
      if first.Failure? {
        return Fail(first.error), claimants;
      }
      outcome, claimants := ClaimAll(first.value);
    }

    /// Every player's reserve is set to `per`, taken from its box; a box with
    /// less aborts.
    method Fund(per: nat) returns (outcome: Outcome)
      requires Valid()
      modifies this`armiesInBox, players`armies
      ensures Valid()
      ensures outcome.Pass? <==> forall i | 0 <= i < |players| :: old(armiesInBox)[i] >= per
      ensures outcome.Fail? ==> outcome.error == InsufficientArmies
      ensures outcome.Pass? ==> forall i | 0 <= i < |players| ::
        armiesInBox[i] + per == old(armiesInBox)[i] && players[i].armies == per
    {
      for j := 0 to |players|
        invariant Valid()
        invariant forall m | 0 <= m < j :: old(armiesInBox)[m] >= per && armiesInBox[m] + per == old(armiesInBox)[m]
        invariant forall m | 0 <= m < j :: players[m].armies == per
        invariant forall m | j <= m < |players| :: armiesInBox[m] == old(armiesInBox)[m]
      {
        var player := players[j];
        player.armies := per;
        if armiesInBox[player.index] < per {
          return Fail(InsufficientArmies);
        }
        armiesInBox := armiesInBox[player.index := armiesInBox[player.index] - per];
      }
      outcome := Pass;
    }

    /// The players claim the free territories one at a time, round the table
    /// from position `w`, until none is free. Each claim needs armies left in
    /// the claimant's box and costs one army of its reserve; the boxes stay
    /// as they are.
    method ClaimAll(w: nat) returns (outcome: Outcome, ghost claimants: seq<nat>)
      requires Valid() && board.Valid() && w < |players|
      modifies players`armies, players`territories, players`continents
      modifies board`freeTerritories, board.territories`armies, board.territories`owner
      modifies (set t | t in board.territories :: t.continent)`territoriesPerPlayer
      ensures Valid() && board.Valid()
      ensures old(board.Ledger()) ==> board.Ledger()
      ensures outcome.Pass? ==>
        && board.freeTerritories == []
        && |claimants| == |old(board.freeTerritories)|
        && RoundRobin(claimants, w, |players|)
        && forall i | 0 <= i < |players| :: players[i].armies + multiset(claimants)[i] == old(players[i].armies)
    {
      claimants := [];
      var current := players[w];
      ghost var free := board.freeTerritories;
      ghost var ledger := board.Ledger();
      ghost var reserves := Reserves(players);
      while |board.freeTerritories| > 0
        invariant Claiming(w, claimants, current, free, ledger, reserves)
        decreases |board.freeTerritories|
      {
        outcome, claimants, current := Turn(w, claimants, current, free, ledger, reserves);
        if outcome.Fail? {
          return;
        }
      }
      outcome := Pass;
    }

    /// The claiming loop after the claims in `claimants`, with `current` to
    /// claim next; `free`, `ledger` and `reserves` are the free list, the
    /// balance of the books and the reserves before the first claim.
    ghost predicate Claiming(w: nat, claimants: seq<nat>, current: PlayerStruct, free: seq<nat>, ledger: bool, reserves: seq<nat>)
      reads this`armiesInBox, players, board, board.territories, board.continents
    {
      && Valid() && board.Valid() && (ledger ==> board.Ledger())
      && w < |players| && |reserves| == |players|
      && current == players[Seat(w, |claimants|, |players|)]
      && |claimants| + |board.freeTerritories| == |free|
      && RoundRobin(claimants, w, |players|)
      && forall i | 0 <= i < |players| :: players[i].armies + multiset(claimants)[i] == reserves[i]
    }

    /// One turn of the claiming loop: the current player claims, and the turn
    /// passes to the next seat.
    method Turn(ghost w: nat, ghost claimants: seq<nat>, current: PlayerStruct,
                ghost free: seq<nat>, ghost ledger: bool, ghost reserves: seq<nat>)
      returns (outcome: Outcome, ghost claimants': seq<nat>, current': PlayerStruct)
      requires Claiming(w, claimants, current, free, ledger, reserves) && |board.freeTerritories| > 0
      modifies players`armies, players`territories, players`continents
      modifies board`freeTerritories, board.territories`armies, board.territories`owner
      modifies (set t | t in board.territories :: t.continent)`territoriesPerPlayer
      ensures Valid() && board.Valid()
      ensures old(board.Ledger()) ==> board.Ledger()
      ensures outcome.Pass? ==>
        Claiming(w, claimants', current', free, ledger, reserves)
        && |board.freeTerritories| < old(|board.freeTerritories|)
    {
      var n := |players|;
      ghost var seat := Seat(w, |claimants|, n);
      assert current.index == seat;
      var chosen;
      outcome, chosen := Claim(current);
      claimants', current' := claimants, current;
      if outcome.Fail? {
        return;
      }
      forall i | 0 <= i < n && i != current.index
        ensures players[i].armies == old(players[i].armies)
      {
        assert players[i].index == i;
      }
      RoundRobinNext(claimants, w, n);
      claimants' := claimants + [current.index];
      current' := players[(current.index + 1) % n];
    }

    /// One claim of the setup: the player needs armies left in its box, picks
    /// a position `k` of the free list, and the board hands it that territory
    /// for one army of its reserve.
    method Claim(player: PlayerStruct) returns (outcome: Outcome, k: nat)
      requires Valid() && board.Valid() && player in players
      modifies player`armies, player`territories, player`continents
      modifies board`freeTerritories, board.territories`armies, board.territories`owner
      modifies (set t | t in board.territories :: t.continent)`territoriesPerPlayer
      ensures board.Valid()
      ensures old(board.Ledger()) ==> board.Ledger()
      ensures armiesInBox[player.index] == 0 ==> outcome == Fail(InsufficientArmies)
      ensures player.player == PlayerType.Unimplemented && armiesInBox[player.index] > 0 ==>
        outcome == Fail(Error.Unimplemented)
      ensures outcome.Pass? ==>
        && armiesInBox[player.index] > 0
        && k < |old(board.freeTerritories)|
        && board.freeTerritories == RemoveAt(old(board.freeTerritories), k)
        && player.armies + 1 == old(player.armies)
      ensures outcome.Pass? ==>
        var t := old(board.freeTerritories)[k];
        && t < |board.territories|
        && board.territories[t].owner == Some(player.index)
        && board.territories[t].armies == old(board.territories[t].armies) + 1
        && player.territories == old(player.territories) + {t}
        && forall i | 0 <= i < |board.territories| && i != t :: unchanged(board.territories[i])
      ensures outcome.Pass? ==>
        var c := board.territories[old(board.freeTerritories)[k]].continent;
        && player.index < |old(c.territoriesPerPlayer)|
        && c.territoriesPerPlayer == old(c.territoriesPerPlayer)[player.index := old(c.territoriesPerPlayer)[player.index] + 1]
        && player.continents == old(player.continents) + (if c.territoriesPerPlayer[player.index] == c.size then {c} else {})
        && forall j | 0 <= j < |board.continents| && board.continents[j] != c :: unchanged(board.continents[j])
      ensures outcome.Fail? ==> unchanged(player) && board.freeTerritories == old(board.freeTerritories)
      ensures outcome.Fail? ==> forall i | 0 <= i < |board.territories| :: unchanged(board.territories[i])
      ensures outcome.Fail? ==> forall j | 0 <= j < |board.continents| :: unchanged(board.continents[j])
    {
      k := 0;
      if armiesInBox[player.index] == 0 {
        return Fail(InsufficientArmies), k;
      }
      var choice := PlayerDispatch.ClaimTerritory(player, board);
      if choice.Failure? {
        return Fail(choice.error), k;
      }
      k := choice.value;
      outcome := Take(k, player);
    }

    /// The board's half of a claim: position `k` of the free list goes to
    /// `player`, and every other territory and continent stays as it was.
    method Take(k: nat, player: PlayerStruct) returns (outcome: Outcome)
      requires board.Valid()
      modifies player`armies, player`territories, player`continents
      modifies board`freeTerritories, board.territories`armies, board.territories`owner
      modifies (set t | t in board.territories :: t.continent)`territoriesPerPlayer
      ensures board.Valid()
      ensures old(board.Ledger()) ==> board.Ledger()
      ensures outcome.Pass? ==>
        && k < |old(board.freeTerritories)|
        && board.freeTerritories == RemoveAt(old(board.freeTerritories), k)
        && player.armies + 1 == old(player.armies)
      ensures outcome.Pass? ==>
        var t := old(board.freeTerritories)[k];
        && t < |board.territories|
        && board.territories[t].owner == Some(player.index)
        && board.territories[t].armies == old(board.territories[t].armies) + 1
        && player.territories == old(player.territories) + {t}
        && forall i | 0 <= i < |board.territories| && i != t :: unchanged(board.territories[i])
      ensures outcome.Pass? ==>
        var c := board.territories[old(board.freeTerritories)[k]].continent;
        && player.index < |old(c.territoriesPerPlayer)|
        && c.territoriesPerPlayer == old(c.territoriesPerPlayer)[player.index := old(c.territoriesPerPlayer)[player.index] + 1]
        && player.continents == old(player.continents) + (if c.territoriesPerPlayer[player.index] == c.size then {c} else {})
        && forall j | 0 <= j < |board.continents| && board.continents[j] != c :: unchanged(board.continents[j])
      ensures outcome.Fail? ==> unchanged(player) && board.freeTerritories == old(board.freeTerritories)
      ensures outcome.Fail? ==> forall i | 0 <= i < |board.territories| :: unchanged(board.territories[i])
      ensures outcome.Fail? ==> forall j | 0 <= j < |board.continents| :: unchanged(board.continents[j])
    {
      outcome := board.ClaimTerritory(k, player);
      if outcome.Pass? {
        var t := old(board.freeTerritories)[k];
        forall i | 0 <= i < |board.territories| && i != t
          ensures board.territories[i] != board.territories[t]
        {
          assert board.territories[i].index == i;
        }
      }
    }

    /// Reinforcements at the start of a turn: the grant moves from the
    /// player's box to its reserve, and nothing else changes. An empty box
    /// grants nothing.
    method ArmyAccumulation(player: PlayerStruct) returns (outcome: Outcome)
      modifies this`armiesInBox, player`armies
      ensures player.index >= |old(armiesInBox)| ==>
        outcome == Fail(IndexOutOfRange) && armiesInBox == old(armiesInBox) && player.armies == old(player.armies)
      ensures player.index < |old(armiesInBox)| ==>
        var box := old(armiesInBox)[player.index];
        var g := Grant(box, |player.territories|, player.continents);
        && outcome == Pass
        && player.armies == old(player.armies) + g
        && armiesInBox == old(armiesInBox)[player.index := box - g]
    {
      if player.index >= |armiesInBox| {
        return Fail(IndexOutOfRange);
      }
      var box := armiesInBox[player.index];
      if box == 0 {
        return Pass;
      }
      var armies := Reinforcements(box, |player.territories|, player.continents);
      player.armies := player.armies + armies;
      armiesInBox := armiesInBox[player.index := box - armies];
      outcome := Pass;
    }
  }
}
