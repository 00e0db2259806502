/// The board ledger: every continent and territory of a map and the list of
/// territories nobody has claimed yet. Claiming is the one operation that
/// turns a free territory into an owned one.
module Boards {
  import opened Common
  import opened Continents
  import opened Players
  import opened Territories

  /// Number of positions `i` whose territory lies on `c` and is held by player `p`.
  function CountOn<T(==)>(conts: seq<T>, owners: seq<Option<nat>>, c: T, p: nat): (n: nat)
    requires |conts| == |owners|
    ensures n <= |conts|
  {
    if conts == [] then 0
    else
      var last := |conts| - 1;
      CountOn(conts[..last], owners[..last], c, p) + if conts[last] == c && owners[last] == Some(p) then 1 else 0
  }

  /// Number of positions whose territory lies on `c`.
  function TerritoriesOn<T(==)>(conts: seq<T>, c: T): (n: nat)
    ensures n <= |conts|
  {
    if conts == [] then 0
    else TerritoriesOn(conts[..|conts| - 1], c) + if conts[|conts| - 1] == c then 1 else 0
  }

  function Sum(s: seq<nat>): nat {
    if s == [] then 0 else Sum(s[..|s| - 1]) + s[|s| - 1]
  }

  /// Claiming one free position raises exactly one counter, that of its
  /// continent and its new holder, by one.
  lemma {:induction false} CountOnClaim<T>(conts: seq<T>, owners: seq<Option<nat>>, t: nat, p: nat, c: T, q: nat)
    requires |conts| == |owners| && t < |owners| && owners[t].None?
    ensures CountOn(conts, owners[t := Some(p)], c, q)
         == CountOn(conts, owners, c, q) + if conts[t] == c && q == p then 1 else 0
    decreases |conts|
  {
    var last := |conts| - 1;
    var owners' := owners[t := Some(p)];
    if t == last {
      assert owners'[..last] == owners[..last];
    } else {
      assert owners'[..last] == owners[..last][t := Some(p)];
      CountOnClaim(conts[..last], owners[..last], t, p, c, q);
    }
  }

  /// With nothing owned, every count is zero.
  lemma {:induction false} CountOnUnowned<T>(conts: seq<T>, owners: seq<Option<nat>>, c: T, p: nat)
    requires |conts| == |owners| && forall i | 0 <= i < |owners| :: owners[i].None?
    ensures CountOn(conts, owners, c, p) == 0
    decreases |conts|
  {
    if conts != [] {
      CountOnUnowned(conts[..|conts| - 1], owners[..|owners| - 1], c, p);
    }
  }

  /// A player counted on every territory of `c` holds each one of them.
  lemma {:induction false} WholeContinent<T>(conts: seq<T>, owners: seq<Option<nat>>, c: T, p: nat)
    requires |conts| == |owners| && CountOn(conts, owners, c, p) == TerritoriesOn(conts, c)
    ensures forall i | 0 <= i < |conts| && conts[i] == c :: owners[i] == Some(p)
    decreases |conts|
  {
    if conts != [] {
      var last := |conts| - 1;
      assert CountOn(conts[..last], owners[..last], c, p) <= TerritoriesOn(conts[..last], c) by {
        CountBelowTerritories(conts[..last], owners[..last], c, p);
      }
      WholeContinent(conts[..last], owners[..last], c, p);
      forall i | 0 <= i < last && conts[i] == c
        ensures owners[i] == Some(p)
      {
        assert conts[..last][i] == c;
      }
    }
  }

  lemma {:induction false} CountBelowTerritories<T>(conts: seq<T>, owners: seq<Option<nat>>, c: T, p: nat)
    requires |conts| == |owners|
    ensures CountOn(conts, owners, c, p) <= TerritoriesOn(conts, c)
    decreases |conts|
  {
    if conts != [] {
      CountBelowTerritories(conts[..|conts| - 1], owners[..|owners| - 1], c, p);
    }
  }

  /// The counters of continent `c` for players `0 .. n-1`.
  function PlayerCounts<T(==)>(conts: seq<T>, owners: seq<Option<nat>>, c: T, n: nat): (counts: seq<nat>)
    requires |conts| == |owners|
    ensures |counts| == n && forall p | 0 <= p < n :: counts[p] == CountOn(conts, owners, c, p)
  {
    seq(n, p requires 0 <= p < n => CountOn(conts, owners, c, p))
  }

  lemma {:induction false} SumBump(s: seq<nat>, q: nat)
    requires q < |s|
    ensures Sum(s[q := s[q] + 1]) == Sum(s) + 1
    decreases |s|
  {
    var last := |s| - 1;
    if q < last {
      assert s[q := s[q] + 1][..last] == s[..last][q := s[..last][q] + 1];
      SumBump(s[..last], q);
    } else {
      assert s[q := s[q] + 1][..last] == s[..last];
    }
  }

  lemma {:induction false} SumZero(n: nat)
    ensures Sum(seq(n, _ => 0)) == 0
  {
    if n > 0 {
      assert seq(n, _ => 0)[..n - 1] == seq(n - 1, _ => 0);
      SumZero(n - 1);
    }
  }

  /// Once every territory is held by one of the first `n` players, the
  /// counters of a continent add up to the number of its territories.
  lemma {:induction false} CountsAddUp<T>(conts: seq<T>, owners: seq<Option<nat>>, c: T, n: nat)
    requires |conts| == |owners|
    requires forall i | 0 <= i < |owners| :: owners[i].Some? && owners[i].value < n
    ensures Sum(PlayerCounts(conts, owners, c, n)) == TerritoriesOn(conts, c)
    decreases |conts|
  {
    if conts == [] {
      assert PlayerCounts(conts, owners, c, n) == seq(n, _ => 0);
      SumZero(n);
    } else {
      var last := |conts| - 1;
      var q := owners[last].value;
      var before := PlayerCounts(conts[..last], owners[..last], c, n);
      CountsAddUp(conts[..last], owners[..last], c, n);
      if conts[last] == c {
        assert PlayerCounts(conts, owners, c, n) == before[q := before[q] + 1];
        SumBump(before, q);
      } else {
        assert PlayerCounts(conts, owners, c, n) == before;
      }
    }
  }

  /// Free positions are exactly the unowned ones, and every counter of every
  /// continent equals the number of its positions the player holds.
  ghost predicate Balanced<T>(regions: seq<T>, owners: seq<Option<nat>>, conts: seq<T>, counters: seq<seq<nat>>, free: seq<nat>)
    requires |regions| == |owners| && |conts| == |counters|
  {
    (forall i | 0 <= i < |owners| :: owners[i].None? <==> i in free)
    && forall j, p | 0 <= j < |conts| && 0 <= p < |counters[j]| :: counters[j][p] == CountOn(regions, owners, conts[j], p)
  }

  /// Before any claim the books balance: nothing is held, every position is
  /// free and every counter is zero.
  lemma FreshBalanced<T>(regions: seq<T>, owners: seq<Option<nat>>, conts: seq<T>, counters: seq<seq<nat>>)
    requires |regions| == |owners| && |conts| == |counters|
    requires forall i | 0 <= i < |owners| :: owners[i].None?
    ensures (forall j, p | 0 <= j < |conts| && 0 <= p < |counters[j]| :: counters[j][p] == 0)
            ==> Balanced(regions, owners, conts, counters, Range(|owners|))
  {
    forall j, p | 0 <= j < |conts| && 0 <= p < |counters[j]|
      ensures CountOn(regions, owners, conts[j], p) == 0
    {
      CountOnUnowned(regions, owners, conts[j], p);
    }
    forall i | 0 <= i < |owners|
      ensures i in Range(|owners|)
    {
      assert Range(|owners|)[i] == i;
    }
  }

  /// Taking position `k` off a free list without repetitions leaves one without
  /// repetitions that lists everything else it listed.
  lemma FreeAfterRemoval(free: seq<nat>, k: nat)
    requires Distinct(free) && k < |free|
    ensures Distinct(RemoveAt(free, k))
    ensures forall i :: i in RemoveAt(free, k) <==> i in free && i != free[k]
  {
    var rest := RemoveAt(free, k);
    forall i | i in free && i != free[k]
      ensures i in rest
    {
      var m :| 0 <= m < |free| && free[m] == i;
      if m < k {
        assert rest[m] == i;
      } else {
        assert rest[m - 1] == i;
      }
    }
  }

  /// A claim keeps the books balanced: the claimed position leaves the free
  /// list, gains a holder, and the holder's counter on its continent rises by one.
  lemma BalancedAfterClaim<T>(regions: seq<T>, owners: seq<Option<nat>>, conts: seq<T>,
                              counters: seq<seq<nat>>, free: seq<nat>, k: nat, p: nat, c: T, counters': seq<seq<nat>>)
    requires |regions| == |owners| && |conts| == |counters| == |counters'|
    requires Balanced(regions, owners, conts, counters, free)
    requires Distinct(free) && k < |free| && free[k] < |owners| && regions[free[k]] == c
    requires forall j | 0 <= j < |conts| ::
               if conts[j] == c then p < |counters[j]| && counters'[j] == counters[j][p := counters[j][p] + 1]
               else counters'[j] == counters[j]
    ensures Balanced(regions, owners[free[k] := Some(p)], conts, counters', RemoveAt(free, k))
  {
    var t := free[k];
    assert owners[t].None?;
    FreeAfterRemoval(free, k);
    forall j, q | 0 <= j < |conts| && 0 <= q < |counters'[j]|
      ensures counters'[j][q] == CountOn(regions, owners[t := Some(p)], conts[j], q)
    {
      CountOnClaim(regions, owners, t, p, conts[j], q);
    }
  }

  /// The holder of each territory, by position.
  function OwnersOf(ts: seq<Territory>): (owners: seq<Option<nat>>)
    reads ts`owner
    ensures |owners| == |ts| && forall i | 0 <= i < |ts| :: owners[i] == ts[i].owner
  {
    if ts == [] then [] else OwnersOf(ts[..|ts| - 1]) + [ts[|ts| - 1].owner]
  }

  /// The index of each territory, by position.
  function IndicesOf(ts: seq<Territory>): (indices: seq<nat>)
    reads ts`index
    ensures |indices| == |ts| && forall i | 0 <= i < |ts| :: indices[i] == ts[i].index
  {
    if ts == [] then [] else IndicesOf(ts[..|ts| - 1]) + [ts[|ts| - 1].index]
  }

  /// The per-player counters of each continent, by position.
  function CountersOf(cs: seq<Continent>): (counters: seq<seq<nat>>)
    reads cs`territoriesPerPlayer
    ensures |counters| == |cs| && forall j | 0 <= j < |cs| :: counters[j] == cs[j].territoriesPerPlayer
  {
    if cs == [] then [] else CountersOf(cs[..|cs| - 1]) + [cs[|cs| - 1].territoriesPerPlayer]
  }

  class Board {
    const continents: seq<Continent>
    const territories: seq<Territory>
    /// Indices of the territories nobody has claimed yet.
    var freeTerritories: seq<nat>

    /// The continent of each territory, by position.
    function Regions(): seq<Continent> {
      seq(|territories|, i requires 0 <= i < |territories| => territories[i].continent)
    }

    /// Ids and indices equal positions, and the free list names distinct
    /// territories of this board.
    ghost predicate Valid()
      reads this`freeTerritories, territories`index, continents`id
    {
      (forall i | 0 <= i < |territories| :: territories[i].index == i)
      && (forall j | 0 <= j < |continents| :: continents[j].id == j)
      && (forall k | 0 <= k < |freeTerritories| :: freeTerritories[k] < |territories|)
      && Distinct(freeTerritories)
    }

    /// The ownership books balance: a territory is free exactly when nobody
    /// holds it, and each continent's counter for a player is the number of
    /// its territories that player holds.
    ghost predicate Ledger()
      reads this`freeTerritories, territories`owner, continents`territoriesPerPlayer
    {
      Balanced(Regions(), OwnersOf(territories), continents, CountersOf(continents), freeTerritories)
    }

    /// Numbers the continents and the territories by position and puts every
    /// territory on the free list, in order.
    constructor (continents: seq<Continent>, territories: seq<Territory>)
      modifies continents`id, territories`index
      ensures this.continents == continents && this.territories == territories
      ensures forall j | 0 <= j < |continents| :: continents[j].id == LastIndex(continents, j)
      ensures forall i | 0 <= i < |territories| :: territories[i].index == LastIndex(territories, i)
      ensures |freeTerritories| == |territories|
      ensures forall k | 0 <= k < |territories| :: freeTerritories[k] == territories[k].index
      ensures Distinct(continents) && Distinct(territories) ==> Valid() && freeTerritories == Range(|territories|)
    {
      this.continents := continents;
      this.territories := territories;
      new;
      Continents.GenerateIds(continents);
      Territories.GenerateIds(territories);
      freeTerritories := IndicesOf(territories);
      if Distinct(continents) && Distinct(territories) {
        assert freeTerritories == Range(|territories|);
      }
    }

    /// The territory a claim at free-list position `k` would take.
    function Target(k: nat): set<Territory>
      reads this`freeTerritories
    {
      if k < |freeTerritories| && freeTerritories[k] < |territories| then {territories[freeTerritories[k]]} else {}
    }

    /// The continent of that territory.
    function Region(k: nat): set<Continent>
      reads this`freeTerritories
    {
      if k < |freeTerritories| && freeTerritories[k] < |territories| then {territories[freeTerritories[k]].continent} else {}
    }

    /// Claims the territory at position `k` of the free list for `player`:
    /// the entry leaves the free list, one army moves from the reserve onto the
    /// territory, the player becomes its holder, the player's counter on its
    /// continent rises by one, and the continent joins the player's set when
    /// that counter reaches the continent's size. A failed claim changes nothing.
    method ClaimTerritory(k: nat, player: PlayerStruct) returns (outcome: Outcome)
      requires Valid()
      modifies this`freeTerritories, Target(k)`armies, Target(k)`owner, Region(k)`territoriesPerPlayer
      modifies player`armies, player`territories, player`continents
      ensures Valid()
      ensures old(Ledger()) ==> Ledger()
      ensures k >= |old(freeTerritories)| ==> outcome == Fail(IllegalDecision)
      ensures k < |old(freeTerritories)| ==>
        var t := old(freeTerritories)[k];
        var territory := territories[t];
        var counters := old(territory.continent.territoriesPerPlayer);
        outcome == if old(player.armies) < 1 then Fail(InsufficientArmies)
                   else if old(territory.owner).Some? then Fail(TerritoryOccupied)
                   else if player.index >= |counters| then Fail(IndexOutOfRange)
                   else Pass
      ensures outcome.Pass? ==> freeTerritories == RemoveAt(old(freeTerritories), k)
      ensures outcome.Pass? ==>
        var territory := territories[old(freeTerritories)[k]];
        territory.armies == old(territory.armies) + 1 && territory.owner == Some(player.index)
      ensures outcome.Pass? ==>
        player.armies == old(player.armies) - 1 && player.territories == old(player.territories) + {old(freeTerritories)[k]}
      ensures outcome.Pass? ==>
        var continent := territories[old(freeTerritories)[k]].continent;
        var counters := old(continent.territoriesPerPlayer);
        continent.territoriesPerPlayer == counters[player.index := counters[player.index] + 1]
      ensures outcome.Pass? ==>
        var continent := territories[old(freeTerritories)[k]].continent;
        player.continents == old(player.continents) + if continent.territoriesPerPlayer[player.index] == continent.size then {continent} else {}
      ensures outcome.Fail? ==>
        && freeTerritories == old(freeTerritories)
        && unchanged(Target(k)) && unchanged(Region(k))
        && unchanged(player)
    {
      if k >= |freeTerritories| {
        return Fail(IllegalDecision);
      }
      var t := freeTerritories[k];
      var territory := territories[t];
      if player.armies < 1 {
        return Fail(InsufficientArmies);
      }
      if territory.owner.Some? {
        return Fail(TerritoryOccupied);
      }
      var continent := territory.continent;
      if player.index >= |continent.territoriesPerPlayer| {
        return Fail(IndexOutOfRange);
      }
      Credit(territory, player, t, continent, continent.territoriesPerPlayer[player.index] + 1 == continent.size);
      Record(k, territory, continent, player.index);
      outcome := Pass;
    }

    /// The reserve half of a claim: one army moves from the reserve onto the
    /// territory, which joins the player's set, and so does its continent when
    /// the claim completes it.
    static method Credit(territory: Territory, player: PlayerStruct, t: nat, continent: Continent, completes: bool)
      requires player.armies >= 1
      modifies territory`armies, player`armies, player`territories, player`continents
      ensures territory.armies == old(territory.armies) + 1
      ensures player.armies == old(player.armies) - 1
      ensures player.territories == old(player.territories) + {t}
      ensures player.continents == old(player.continents) + if completes then {continent} else {}
    {
      territory.armies := territory.armies + 1;
      player.armies := player.armies - 1;
      player.territories := player.territories + {t};
      if completes {
        player.continents := player.continents + {continent};
      }
    }

    /// The bookkeeping half of a claim: the entry leaves the free list, the
    /// territory gets its holder and the holder's counter on its continent rises.
    method Record(k: nat, territory: Territory, continent: Continent, p: nat)
      requires Valid() && k < |freeTerritories|
      requires territory == territories[freeTerritories[k]] && continent == territory.continent
      requires territory.owner.None? && p < |continent.territoriesPerPlayer|
      modifies this`freeTerritories, territory`owner, continent`territoriesPerPlayer
      ensures Valid()
      ensures old(Ledger()) ==> Ledger()
      ensures freeTerritories == RemoveAt(old(freeTerritories), k)
      ensures territory.owner == Some(p)
      ensures continent.territoriesPerPlayer == old(continent.territoriesPerPlayer)[p := old(continent.territoriesPerPlayer)[p] + 1]
    {
      var t := freeTerritories[k];
      ghost var owners := OwnersOf(territories);
      ghost var counters := CountersOf(continents);
      ghost var free := freeTerritories;
      ghost var regions := Regions();
      ghost var balanced := Balanced(regions, owners, continents, counters, free);
      assert balanced == Ledger();
      FreeAfterRemoval(free, k);

      freeTerritories := RemoveAt(freeTerritories, k);
      Assign(t, p);
      Count(continent, p, counters);

      if balanced {
        BalancedAfterClaim(regions, owners, continents, counters, free, k, p, continent, CountersOf(continents));
      }
    }

    /// Makes player `p` the holder of territory `t`; among the holders, that
    /// entry alone changes.
    method Assign(t: nat, p: nat)
      requires t < |territories| && forall i | 0 <= i < |territories| :: territories[i].index == i
      modifies {territories[t]}`owner
      ensures territories[t].owner == Some(p)
      ensures OwnersOf(territories) == old(OwnersOf(territories))[t := Some(p)]
    {
      ghost var owners := OwnersOf(territories);
      territories[t].owner := Some(p);
      forall i | 0 <= i < |territories| && i != t
        ensures territories[i] != territories[t]
      {
        assert territories[i].index == i;
      }
    }

    /// Raises the counter of player `p` on `continent`; among the counters of
    /// the board's continents, `counters` before the call, only those of
    /// `continent` change.
    method Count(continent: Continent, p: nat, ghost counters: seq<seq<nat>>)
      requires p < |continent.territoriesPerPlayer| && CountersOf(continents) == counters
      modifies continent`territoriesPerPlayer
      ensures continent.territoriesPerPlayer == old(continent.territoriesPerPlayer)[p := old(continent.territoriesPerPlayer[p]) + 1]
      ensures forall j | 0 <= j < |continents| ::
                if continents[j] == continent then p < |counters[j]| && CountersOf(continents)[j] == counters[j][p := counters[j][p] + 1]
                else CountersOf(continents)[j] == counters[j]
    {
      continent.territoriesPerPlayer := continent.territoriesPerPlayer[p := continent.territoriesPerPlayer[p] + 1];
    }
  }

  /// A board whose territories are all free, unowned, and whose counters are
  /// all zero, has balanced books.
  lemma FreshLedger(board: Board)
    requires board.freeTerritories == Range(|board.territories|)
    requires forall i | 0 <= i < |board.territories| :: board.territories[i].owner.None?
    requires forall j, p | 0 <= j < |board.continents| && 0 <= p < |board.continents[j].territoriesPerPlayer| ::
               board.continents[j].territoriesPerPlayer[p] == 0
    ensures board.Ledger()
  {
    FreshBalanced(board.Regions(), OwnersOf(board.territories), board.continents, CountersOf(board.continents));
  }

  /// After every territory of a balanced board is claimed by one of the first
  /// `n` players, the counters of each continent add up to the number of its
  /// territories; they add up to its size only where the size is declared right.
  lemma ClaimedCountersAddUp(board: Board, j: nat, n: nat)
    requires board.Valid() && board.Ledger() && board.freeTerritories == []
    requires j < |board.continents| && n == |board.continents[j].territoriesPerPlayer|
    requires forall i | 0 <= i < |board.territories| :: board.territories[i].owner.Some? ==> board.territories[i].owner.value < n
    ensures Sum(board.continents[j].territoriesPerPlayer) == TerritoriesOn(board.Regions(), board.continents[j])
  {
    var c := board.continents[j];
    assert c.territoriesPerPlayer == PlayerCounts(board.Regions(), OwnersOf(board.territories), c, n);
    CountsAddUp(board.Regions(), OwnersOf(board.territories), c, n);
  }

  /// On a balanced board whose continent `j` declares its true size, a
  /// player whose counter there reaches the size holds every territory of it.
  lemma JoinMeansWhole(board: Board, j: nat, p: nat)
    requires board.Valid() && board.Ledger()
    requires j < |board.continents| && p < |board.continents[j].territoriesPerPlayer|
    requires board.continents[j].size == TerritoriesOn(board.Regions(), board.continents[j])
    requires board.continents[j].territoriesPerPlayer[p] == board.continents[j].size
    ensures forall i | 0 <= i < |board.territories| && board.territories[i].continent == board.continents[j] ::
              board.territories[i].owner == Some(p)
  {
    WholeContinent(board.Regions(), OwnersOf(board.territories), board.continents[j], p);
  }
}
