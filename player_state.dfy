/// The list-based player record used by the strategies: the held territories
/// and continents are ordered lists of indices that grow by appending and
/// shrink by dropping every entry equal to an item.
module PlayerStates {
  import opened Common
  import opened Players

  /// `s` with every occurrence of `x` dropped and the rest kept in order; this
  /// is what `retain(|e| *e != *item)` leaves, entries comparing by index.
  function Without(s: seq<nat>, x: nat): (r: seq<nat>)
    ensures x !in r
    ensures forall y | y != x :: multiset(r)[y] == multiset(s)[y]
    ensures |r| == |s| - multiset(s)[x]
  {
    if s == [] then []
    else
      assert s == [s[0]] + s[1..];
      if s[0] == x then Without(s[1..], x) else [s[0]] + Without(s[1..], x)
  }

  /// Dropping an item distributes over concatenation, so the survivors keep
  /// their relative order.
  lemma {:induction false} WithoutAppend(a: seq<nat>, b: seq<nat>, x: nat)
    ensures Without(a + b, x) == Without(a, x) + Without(b, x)
    decreases |a|
  {
    if a == [] {
      assert a + b == b;
    } else {
      assert (a + b)[0] == a[0];
      assert (a + b)[1..] == a[1..] + b;
      WithoutAppend(a[1..], b, x);
    }
  }

  /// Dropping an item that is not listed leaves the list as it was.
  lemma {:induction false} WithoutAbsent(s: seq<nat>, x: nat)
    requires x !in s
    ensures Without(s, x) == s
    decreases |s|
  {
    if s != [] {
      assert s[0] in s;
      assert forall y | y in s[1..] :: y in s;
      WithoutAbsent(s[1..], x);
      assert s == [s[0]] + s[1..];
    }
  }

  /// Dropping an item twice is the same as dropping it once.
  lemma WithoutIdempotent(s: seq<nat>, x: nat)
    ensures Without(Without(s, x), x) == Without(s, x)
  {
    WithoutAbsent(Without(s, x), x);
  }

  /// Removing an item right after appending it gives what removing it from the
  /// original list gives: the appended copy and every older copy are gone.
  lemma RemoveAfterAdd(s: seq<nat>, x: nat)
    ensures Without(s + [x], x) == Without(s, x)
  {
    WithoutAppend(s, [x], x);
    assert Without([x], x) == [];
  }

  class PlayerState {
    const playerType: PlayerType
    var index: nat
    const name: string
    /// The reserve: armies held off the board.
    var armies: nat
    /// Indices of the held territories, in the order they were added.
    var territories: seq<nat>
    /// Ids of the continents held in full, in the order they were added.
    var continents: seq<nat>
    var defeated: bool

    /// A fresh record: index 0, empty reserve, empty lists, not defeated.
    constructor (playerType: PlayerType, name: string)
      ensures this.playerType == playerType && this.name == name
      ensures index == 0 && armies == 0
      ensures territories == [] && continents == []
      ensures !defeated
    {
      this.playerType := playerType;
      this.name := name;
      index := 0;
      armies := 0;
      territories := [];
      continents := [];
      defeated := false;
    }

    /// Appends a territory; one already held is listed a second time.
    method AddTerritory(territory: nat)
      modifies this`territories
      ensures territories == old(territories) + [territory]
      ensures multiset(territories)[territory] == multiset(old(territories))[territory] + 1
    {
      territories := territories + [territory];
    }

    /// Drops every entry equal to the territory, keeping the others in order.
    method RemoveTerritory(territory: nat)
      modifies this`territories
      ensures territories == Without(old(territories), territory)
      ensures territory !in territories
      ensures territory !in old(territories) ==> territories == old(territories)
    {
      if territory !in territories {
        WithoutAbsent(territories, territory);
      }
      territories := Without(territories, territory);
    }

    /// Appends a continent; one already held is listed a second time.
    method AddContinent(continent: nat)
      modifies this`continents
      ensures continents == old(continents) + [continent]
      ensures multiset(continents)[continent] == multiset(old(continents))[continent] + 1
    {
      continents := continents + [continent];
    }

    /// Drops every entry equal to the continent, keeping the others in order.
    method RemoveContinent(continent: nat)
      modifies this`continents
      ensures continents == Without(old(continents), continent)
      ensures continent !in continents
      ensures continent !in old(continents) ==> continents == old(continents)
    {
      if continent !in continents {
        WithoutAbsent(continents, continent);
      }
      continents := Without(continents, continent);
    }
  }
}
