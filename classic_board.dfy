/// The classic Risk map: six continents, forty-two territories and the
/// borders between them, and the board built from them.
module ClassicBoard {
  import opened Common
  import opened Continents
  import opened Territories
  import opened Boards

  /// A continent as the map declares it: name, bonus armies, declared size.
  datatype ContinentEntry = ContinentEntry(name: string, reward: nat, size: nat)

  /// A territory as the map declares it: name and position of its continent.
  datatype TerritoryEntry = TerritoryEntry(name: string, continent: nat)

  const NorthAmerica: nat := 0
  const Europe: nat := 1
  const Asia: nat := 2
  const SouthAmerica: nat := 3
  const Africa: nat := 4
  const Australia: nat := 5

  /// The continents in the order they are handed to the board, with the
  /// sizes the map declares; Europe is declared at six territories.
  const ContinentTableAsWritten: seq<ContinentEntry> := [
    ContinentEntry("North America", 5, 9),
    ContinentEntry("Europe", 5, 6),
    ContinentEntry("Asia", 7, 12),
    ContinentEntry("South America", 2, 4),
    ContinentEntry("Africa", 3, 6),
    ContinentEntry("Australia", 2, 4)
  ]

  /// The continents with Europe declared at the seven territories the map
  /// gives it.
  const ContinentTable: seq<ContinentEntry> := ContinentTableAsWritten[Europe := ContinentEntry("Europe", 5, 7)]

  /// The names of each continent's territories, in the order the map hands
  /// them to the board; the second North American one carries the name the
  /// map gives it.
  const NorthAmericaNames: seq<string> := [
    "Alaska", "Northwest Rc::new(Territory", "Greenland", "Alberta", "Ontario", "Quebec",
    "Western US", "Eastern US", "Central America"
  ]
  const SouthAmericaNames: seq<string> := ["Venezuela", "Brazil", "Peru", "Argentina"]
  const EuropeNames: seq<string> := [
    "Iceland", "Scandinavia", "Great Britain", "Northern Europe", "Ukraine", "Western Europe", "Southern Europe"
  ]
  const AsiaNames: seq<string> := [
    "Yakutsk", "Ural", "Siberia", "Irkutsk", "Kamchatka", "Afghanistan", "China", "Mongolia", "Japan",
    "Middle East", "India", "Siam"
  ]
  const AfricaNames: seq<string> := ["North Africa", "Egypt", "Congo", "East Africa", "South Africa", "Madagascar"]
  const AustraliaNames: seq<string> := ["Indonesia", "New Guinea", "Western Australia", "Eastern Australia"]

  /// The territories called `names`, all on continent `c`.
  function Entries(names: seq<string>, c: nat): (entries: seq<TerritoryEntry>)
    ensures |entries| == |names| && forall i | 0 <= i < |names| :: entries[i] == TerritoryEntry(names[i], c)
  {
    seq(|names|, i requires 0 <= i < |names| => TerritoryEntry(names[i], c))
  }

  /// The forty-two territories in the order they are handed to the board.
  const TerritoryTableAsWritten: seq<TerritoryEntry> :=
    Entries(NorthAmericaNames, NorthAmerica) + Entries(SouthAmericaNames, SouthAmerica) + Entries(EuropeNames, Europe)
    + Entries(AsiaNames, Asia) + Entries(AfricaNames, Africa) + Entries(AustraliaNames, Australia)

  /// The territories with the second one called by its real name.
  const TerritoryTable: seq<TerritoryEntry> := TerritoryTableAsWritten[1 := TerritoryEntry("Northwest Territory", NorthAmerica)]

  const Siberia: nat := 22
  const Afghanistan: nat := 25

  /// The neighbours of territory `i`, by position, in the order the map lists
  /// them; Siberia (22) lists Afghanistan (25), which does not list it.
  function NeighboursAsWritten(i: nat): seq<nat> {
    if i < 21 then
      if i < 10 then
        if i < 5 then
          if i < 2 then
            if i < 1 then
              [1, 3, 24]
            else
              [0, 2, 3, 4]
          else
            if i < 3 then
              [1, 13, 4, 5]
            else
              if i < 4 then
                [0, 1, 4, 6]
              else
                [3, 1, 2, 5, 6, 7]
        else
          if i < 7 then
            if i < 6 then
              [4, 2, 7]
            else
              [3, 4, 7, 8]
          else
            if i < 8 then
              [6, 8, 5, 4]
            else
              if i < 9 then
                [6, 7, 9]
              else
                [8, 10, 11]
      else
        if i < 15 then
          if i < 12 then
            if i < 11 then
              [9, 11, 12, 32]
            else
              [9, 10, 12]
          else
            if i < 13 then
              [11, 10]
            else
              if i < 14 then
                [2, 14, 15]
              else
                [13, 15, 16, 17]
        else
          if i < 18 then
            if i < 16 then
              [13, 14, 16, 18]
            else
              if i < 17 then
                [15, 14, 17, 18, 19]
              else
                [14, 16, 19, 21, 25, 29]
          else
            if i < 19 then
              [32, 15, 16, 19]
            else
              if i < 20 then
                [16, 17, 18, 29, 32, 33]
              else
                [22, 23, 24]
    else
      if i < 31 then
        if i < 26 then
          if i < 23 then
            if i < 22 then
              [17, 25, 26, 22]
            else
              [21, 25, 26, 27, 23, 20]
          else
            if i < 24 then
              [22, 27, 24, 20]
            else
              if i < 25 then
                [20, 23, 27, 28, 0]
              else
                [21, 17, 29, 30, 26]
        else
          if i < 28 then
            if i < 27 then
              [25, 30, 31, 27, 22, 21]
            else
              [26, 28, 24, 23, 22]
          else
            if i < 29 then
              [27, 24]
            else
              if i < 30 then
                [25, 17, 19, 33, 35, 30]
              else
                [29, 31, 26, 25]
      else
        if i < 36 then
          if i < 33 then
            if i < 32 then
              [26, 30, 38]
            else
              [18, 19, 10, 34, 35, 33]
          else
            if i < 34 then
              [32, 35, 29, 19]
            else
              if i < 35 then
                [32, 36, 35]
              else
                [32, 34, 36, 37, 29, 33]
        else
          if i < 39 then
            if i < 37 then
              [34, 35, 37]
            else
              if i < 38 then
                [36, 35]
              else
                [31, 39, 40]
          else
            if i < 40 then
              [38, 40, 41]
            else
              if i < 41 then
                [38, 39, 41]
              else
                [40, 39]
  }

  /// Row `i` of the border table as written names territories of the map
  /// other than `i`, each of which lists `i` back, Siberia's link to
  /// Afghanistan aside.
  predicate RowAsWritten(i: nat)
  {
    var row := NeighboursAsWritten(i);
    forall k | 0 <= k < |row| ::
      row[k] < 42 && row[k] != i && (i in NeighboursAsWritten(row[k]) || (i, row[k]) == (Siberia, Afghanistan))
  }

  lemma AsWrittenRows0()
    ensures forall i | 0 <= i < 3 :: RowAsWritten(i)
  {
    assert RowAsWritten(0) && RowAsWritten(1) && RowAsWritten(2);
    forall i | 0 <= i < 3
      ensures RowAsWritten(i)
    {
      assert i == 0 || i == 1 || i == 2;
    }
  }

  lemma AsWrittenRows3()
    ensures forall i | 3 <= i < 6 :: RowAsWritten(i)
  {
    assert RowAsWritten(3) && RowAsWritten(4) && RowAsWritten(5);
    forall i | 3 <= i < 6
      ensures RowAsWritten(i)
    {
      assert i == 3 || i == 4 || i == 5;
    }
  }

  lemma AsWrittenRows6()
    ensures forall i | 6 <= i < 9 :: RowAsWritten(i)
  {
    assert RowAsWritten(6) && RowAsWritten(7) && RowAsWritten(8);
    forall i | 6 <= i < 9
      ensures RowAsWritten(i)
    {
      assert i == 6 || i == 7 || i == 8;
    }
  }

  lemma AsWrittenRows9()
    ensures forall i | 9 <= i < 12 :: RowAsWritten(i)
  {
    assert RowAsWritten(9) && RowAsWritten(10) && RowAsWritten(11);
    forall i | 9 <= i < 12
      ensures RowAsWritten(i)
    {
      assert i == 9 || i == 10 || i == 11;
    }
  }

  lemma AsWrittenRows12()
    ensures forall i | 12 <= i < 15 :: RowAsWritten(i)
  {
    assert RowAsWritten(12) && RowAsWritten(13) && RowAsWritten(14);
    forall i | 12 <= i < 15
      ensures RowAsWritten(i)
    {
      assert i == 12 || i == 13 || i == 14;
    }
  }

  lemma AsWrittenRows15()
    ensures forall i | 15 <= i < 18 :: RowAsWritten(i)
  {
    assert RowAsWritten(15) && RowAsWritten(16) && RowAsWritten(17);
    forall i | 15 <= i < 18
      ensures RowAsWritten(i)
    {
      assert i == 15 || i == 16 || i == 17;
    }
  }

  lemma AsWrittenRows18()
    ensures forall i | 18 <= i < 21 :: RowAsWritten(i)
  {
    assert RowAsWritten(18) && RowAsWritten(19) && RowAsWritten(20);
    forall i | 18 <= i < 21
      ensures RowAsWritten(i)
    {
      assert i == 18 || i == 19 || i == 20;
    }
  }

  lemma AsWrittenRows21()
    ensures forall i | 21 <= i < 24 :: RowAsWritten(i)
  {
    assert RowAsWritten(21) && RowAsWritten(22) && RowAsWritten(23);
    forall i | 21 <= i < 24
      ensures RowAsWritten(i)
    {
      assert i == 21 || i == 22 || i == 23;
    }
  }

  lemma AsWrittenRows24()
    ensures forall i | 24 <= i < 27 :: RowAsWritten(i)
  {
    assert RowAsWritten(24) && RowAsWritten(25) && RowAsWritten(26);
    forall i | 24 <= i < 27
      ensures RowAsWritten(i)
    {
      assert i == 24 || i == 25 || i == 26;
    }
  }

  lemma AsWrittenRows27()
    ensures forall i | 27 <= i < 30 :: RowAsWritten(i)
  {
    assert RowAsWritten(27) && RowAsWritten(28) && RowAsWritten(29);
    forall i | 27 <= i < 30
      ensures RowAsWritten(i)
    {
      assert i == 27 || i == 28 || i == 29;
    }
  }

  lemma AsWrittenRows30()
    ensures forall i | 30 <= i < 33 :: RowAsWritten(i)
  {
    assert RowAsWritten(30) && RowAsWritten(31) && RowAsWritten(32);
    forall i | 30 <= i < 33
      ensures RowAsWritten(i)
    {
      assert i == 30 || i == 31 || i == 32;
    }
  }

  lemma AsWrittenRows33()
    ensures forall i | 33 <= i < 36 :: RowAsWritten(i)
  {
    assert RowAsWritten(33) && RowAsWritten(34) && RowAsWritten(35);
    forall i | 33 <= i < 36
      ensures RowAsWritten(i)
    {
      assert i == 33 || i == 34 || i == 35;
    }
  }

  lemma AsWrittenRows36()
    ensures forall i | 36 <= i < 39 :: RowAsWritten(i)
  {
    assert RowAsWritten(36) && RowAsWritten(37) && RowAsWritten(38);
    forall i | 36 <= i < 39
      ensures RowAsWritten(i)
    {
      assert i == 36 || i == 37 || i == 38;
    }
  }

  lemma AsWrittenRows39()
    ensures forall i | 39 <= i < 42 :: RowAsWritten(i)
  {
    assert RowAsWritten(39) && RowAsWritten(40) && RowAsWritten(41);
    forall i | 39 <= i < 42
      ensures RowAsWritten(i)
    {
      assert i == 39 || i == 40 || i == 41;
    }
  }

  /// Every border of the map as written joins two distinct territories of the
  /// map and is listed from both sides, save Siberia's link to Afghanistan.
  lemma AsWrittenBorders()
    ensures forall i | 0 <= i < 42 :: RowAsWritten(i)
  {
    AsWrittenRows0();
    AsWrittenRows3();
    AsWrittenRows6();
    AsWrittenRows9();
    AsWrittenRows12();
    AsWrittenRows15();
    AsWrittenRows18();
    AsWrittenRows21();
    AsWrittenRows24();
    AsWrittenRows27();
    AsWrittenRows30();
    AsWrittenRows33();
    AsWrittenRows36();
    AsWrittenRows39();
  }

  /// The neighbours of territory `i` with Siberia's one-way link to
  /// Afghanistan dropped.
  function Neighbours(i: nat): seq<nat> {
    if i == Siberia then [21, 26, 27, 23, 20] else NeighboursAsWritten(i)
  }

  /// Siberia lists Afghanistan as a neighbour, but Afghanistan does not list
  /// Siberia, so an army could move or attack one way only.
  lemma AsWrittenOneWay()
    ensures Afghanistan in NeighboursAsWritten(Siberia) && Siberia !in NeighboursAsWritten(Afghanistan)
  {
  }

  /// Every border of the corrected map joins two distinct territories of the
  /// map and is listed from both sides.
  lemma Borders()
    ensures forall i, k | 0 <= i < 42 && 0 <= k < |Neighbours(i)| ::
              Neighbours(i)[k] < 42 && Neighbours(i)[k] != i && i in Neighbours(Neighbours(i)[k])
  {
    AsWrittenBorders();
    forall i, k | 0 <= i < 42 && 0 <= k < |Neighbours(i)|
      ensures Neighbours(i)[k] < 42 && Neighbours(i)[k] != i && i in Neighbours(Neighbours(i)[k])
    {
      var j := Neighbours(i)[k];
      if i == Siberia {
        assert RowAsWritten(Siberia);
        assert j in NeighboursAsWritten(Siberia);
        var k' :| 0 <= k' < |NeighboursAsWritten(Siberia)| && NeighboursAsWritten(Siberia)[k'] == j;
      } else {
        assert RowAsWritten(i);
        assert j == NeighboursAsWritten(i)[k];
        if j == Siberia {
          assert i != Afghanistan by {
            assert Siberia !in NeighboursAsWritten(Afghanistan);
          }
        }
      }
    }
  }

  lemma InEntries(x: TerritoryEntry, names: seq<string>, c: nat)
    requires x in Entries(names, c)
    ensures x.continent == c
  {
    var k :| 0 <= k < |Entries(names, c)| && Entries(names, c)[k] == x;
  }

  /// Every territory of both tables lies on one of the six continents.
  lemma ContinentsInRange()
    ensures |TerritoryTableAsWritten| == |TerritoryTable| == 42
    ensures forall i | 0 <= i < |TerritoryTable| ::
              TerritoryTableAsWritten[i].continent < |ContinentTable| && TerritoryTable[i].continent < |ContinentTable|
  {
    forall i | 0 <= i < |TerritoryTableAsWritten|
      ensures TerritoryTableAsWritten[i].continent < |ContinentTable|
    {
      var x := TerritoryTableAsWritten[i];
      assert x in TerritoryTableAsWritten;
      if x in Entries(NorthAmericaNames, NorthAmerica) { InEntries(x, NorthAmericaNames, NorthAmerica); }
      else if x in Entries(SouthAmericaNames, SouthAmerica) { InEntries(x, SouthAmericaNames, SouthAmerica); }
      else if x in Entries(EuropeNames, Europe) { InEntries(x, EuropeNames, Europe); }
      else if x in Entries(AsiaNames, Asia) { InEntries(x, AsiaNames, Asia); }
      else if x in Entries(AfricaNames, Africa) { InEntries(x, AfricaNames, Africa); }
      else { InEntries(x, AustraliaNames, Australia); }
    }
  }

  /// The continent of each territory, by position.
  function ContinentIds(entries: seq<TerritoryEntry>): (ids: seq<nat>)
    ensures |ids| == |entries| && forall i | 0 <= i < |entries| :: ids[i] == entries[i].continent
  {
    seq(|entries|, i requires 0 <= i < |entries| => entries[i].continent)
  }

  /// `n` copies of `x`.
  function Repeat(n: nat, x: nat): (r: seq<nat>)
    ensures |r| == n && forall i | 0 <= i < n :: r[i] == x
  {
    seq(n, _ => x)
  }

  lemma {:induction false} TerritoriesOnConcat<T>(a: seq<T>, b: seq<T>, c: T)
    ensures TerritoriesOn(a + b, c) == TerritoriesOn(a, c) + TerritoriesOn(b, c)
    decreases |b|
  {
    if b == [] {
      assert a + b == a;
    } else {
      var last := |b| - 1;
      assert (a + b)[..|a + b| - 1] == a + b[..last];
      TerritoriesOnConcat(a, b[..last], c);
    }
  }

  lemma {:induction false} TerritoriesOnRepeat(n: nat, x: nat, c: nat)
    ensures TerritoriesOn(Repeat(n, x), c) == if x == c then n else 0
  {
    if n > 0 {
      assert Repeat(n, x)[..n - 1] == Repeat(n - 1, x);
      TerritoriesOnRepeat(n - 1, x, c);
    }
  }

  /// Both territory tables put 9 territories on North America, then 4 on
  /// South America, 7 on Europe, 12 on Asia, 6 on Africa and 4 on Australia.
  lemma ContinentLayout()
    ensures ContinentIds(TerritoryTableAsWritten) == ContinentIds(TerritoryTable)
            == Repeat(9, NorthAmerica) + Repeat(4, SouthAmerica) + Repeat(7, Europe)
               + Repeat(12, Asia) + Repeat(6, Africa) + Repeat(4, Australia)
  {
    var layout := Repeat(9, NorthAmerica) + Repeat(4, SouthAmerica) + Repeat(7, Europe)
                  + Repeat(12, Asia) + Repeat(6, Africa) + Repeat(4, Australia);
    assert ContinentIds(TerritoryTableAsWritten) == layout;
    assert ContinentIds(TerritoryTable) == layout;
  }

  /// The number of territories on continent `c` in the layout above.
  lemma TerritoriesOnLayout(c: nat)
    ensures TerritoriesOn(ContinentIds(TerritoryTable), c)
            == (if c == NorthAmerica then 9 else 0) + (if c == SouthAmerica then 4 else 0) + (if c == Europe then 7 else 0)
               + (if c == Asia then 12 else 0) + (if c == Africa then 6 else 0) + (if c == Australia then 4 else 0)
  {
    ContinentLayout();
    var a := Repeat(9, NorthAmerica);
    var b := Repeat(4, SouthAmerica);
    var e := Repeat(7, Europe);
    var s := Repeat(12, Asia);
    var f := Repeat(6, Africa);
    var u := Repeat(4, Australia);
    TerritoriesOnConcat(a + b + e + s + f, u, c);
    TerritoriesOnConcat(a + b + e + s, f, c);
    TerritoriesOnConcat(a + b + e, s, c);
    TerritoriesOnConcat(a + b, e, c);
    TerritoriesOnConcat(a, b, c);
    TerritoriesOnRepeat(9, NorthAmerica, c);
    TerritoriesOnRepeat(4, SouthAmerica, c);
    TerritoriesOnRepeat(7, Europe, c);
    TerritoriesOnRepeat(12, Asia, c);
    TerritoriesOnRepeat(6, Africa, c);
    TerritoriesOnRepeat(4, Australia, c);
  }

  /// The corrected declared size of continent `c` is the number of
  /// territories the map puts on it.
  lemma SizeMatches(c: nat)
    requires c < |ContinentTable|
    ensures TerritoriesOn(ContinentIds(TerritoryTable), c) == ContinentTable[c].size
  {
    TerritoriesOnLayout(c);
    if c == 0 {
      assert ContinentTable[0].size == 9;
    } else if c == 1 {
      assert ContinentTable[1].size == 7;
    } else if c == 2 {
      assert ContinentTable[2].size == 12;
    } else if c == 3 {
      assert ContinentTable[3].size == 4;
    } else if c == 4 {
      assert ContinentTable[4].size == 6;
    } else {
      assert ContinentTable[5].size == 4;
    }
  }

  /// Every corrected declared size is right.
  lemma SizesMatch()
    ensures forall c: nat | c < |ContinentTable| :: TerritoriesOn(ContinentIds(TerritoryTable), c) == ContinentTable[c].size
  {
    forall c: nat | c < |ContinentTable|
      ensures TerritoriesOn(ContinentIds(TerritoryTable), c) == ContinentTable[c].size
    {
      SizeMatches(c);
    }
  }

  /// The map declares Europe at six territories but gives it seven; every
  /// other declared size is right.
  lemma EuropeUndersized()
    ensures TerritoriesOn(ContinentIds(TerritoryTableAsWritten), Europe) == 7
    ensures ContinentTableAsWritten[Europe].size == 6
    ensures forall c: nat | c < 6 && c != Europe ::
              TerritoriesOn(ContinentIds(TerritoryTableAsWritten), c) == ContinentTableAsWritten[c].size
  {
    ContinentLayout();
    SizesMatch();
    assert ContinentTable[Europe].size == 7;
  }

  /// A player holding every territory of `c` but the one at `m` is counted on
  /// all of them but one.
  lemma {:induction false} CountOnAllBut<T>(conts: seq<T>, owners: seq<Option<nat>>, c: T, p: nat, m: nat)
    requires |conts| == |owners| && m < |conts| && conts[m] == c
    requires forall i | 0 <= i < |owners| :: owners[i] == Some(p) <==> conts[i] == c && i != m
    ensures CountOn(conts, owners, c, p) + 1 == TerritoriesOn(conts, c)
    decreases |conts|
  {
    var last := |conts| - 1;
    if m == last {
      CountOnEvery(conts[..last], owners[..last], c, p);
    } else {
      CountOnAllBut(conts[..last], owners[..last], c, p, m);
    }
  }

  /// A player holding every territory of `c` is counted on all of them.
  lemma {:induction false} CountOnEvery<T>(conts: seq<T>, owners: seq<Option<nat>>, c: T, p: nat)
    requires |conts| == |owners|
    requires forall i | 0 <= i < |owners| :: owners[i] == Some(p) <==> conts[i] == c
    ensures CountOn(conts, owners, c, p) == TerritoriesOn(conts, c)
    decreases |conts|
  {
    if conts != [] {
      CountOnEvery(conts[..|conts| - 1], owners[..|owners| - 1], c, p);
    }
  }

  /// With the declared size as written, a player holding six of the seven
  /// European territories, Southern Europe (19) being held by someone else,
  /// is already counted at Europe's declared size, the mark at which the
  /// claim hands over the continent.
  lemma EuropeJoinsEarly()
    ensures var ids := ContinentIds(TerritoryTableAsWritten);
            var owners := seq(42, i requires 0 <= i < 42 => if ids[i] == Europe && i != 19 then Some(0) else Some(1));
            && ids[19] == Europe && owners[19] != Some(0)
            && CountOn(ids, owners, Europe, 0) == ContinentTableAsWritten[Europe].size
  {
    var ids := ContinentIds(TerritoryTableAsWritten);
    var owners := seq(42, i requires 0 <= i < 42 => if ids[i] == Europe && i != 19 then Some(0) else Some(1));
    ContinentLayout();
    EuropeUndersized();
    CountOnAllBut(ids, owners, Europe, 0, 19);
  }

  /// The second territory's name as written and its real name share the
  /// label shown on the board.
  lemma NorthwestLabel()
    ensures Abbreviation(TerritoryTableAsWritten[1].name) == Abbreviation(TerritoryTable[1].name)
  {
    AbbreviationOfPrefix(TerritoryTableAsWritten[1].name, TerritoryTable[1].name);
  }

  /// Counting positions whose continent object is `cs[j]` is counting the
  /// positions whose continent id is `j`, when distinct ids name distinct
  /// objects.
  lemma {:induction false} TerritoriesOnMapped<T>(regions: seq<T>, ids: seq<nat>, cs: seq<T>, j: nat)
    requires |regions| == |ids| && Distinct(cs) && j < |cs|
    requires forall i | 0 <= i < |ids| :: ids[i] < |cs| && regions[i] == cs[ids[i]]
    ensures TerritoriesOn(regions, cs[j]) == TerritoriesOn(ids, j)
    decreases |ids|
  {
    if ids != [] {
      var last := |ids| - 1;
      TerritoriesOnMapped(regions[..last], ids[..last], cs, j);
    }
  }

  /// Every counter of every continent in `cs` is zero, one per player.
  ghost predicate ZeroCounters(cs: seq<Continent>, players: nat)
    reads cs`territoriesPerPlayer
  {
    forall a | 0 <= a < |cs| ::
      |cs[a].territoriesPerPlayer| == players && forall p | 0 <= p < players :: cs[a].territoriesPerPlayer[p] == 0
  }

  /// `cs` are the continents of the corrected table, in order.
  predicate ContinentsAsDeclared(cs: seq<Continent>) {
    |cs| == |ContinentTable|
    && forall j | 0 <= j < |cs| ::
         cs[j].name == ContinentTable[j].name && cs[j].armiesReward == ContinentTable[j].reward
         && cs[j].size == ContinentTable[j].size
  }

  /// `ts` are the territories of the corrected table, in order, each on its
  /// continent among `cs`.
  predicate TerritoriesAsDeclared(cs: seq<Continent>, ts: seq<Territory>) {
    ContinentsInRange();
    |cs| == |ContinentTable| && |ts| == |TerritoryTable|
    && forall i | 0 <= i < |ts| :: ts[i].name == TerritoryTable[i].name && ts[i].continent == cs[TerritoryTable[i].continent]
  }

  /// Each territory of `ts` is free, empty and joined to its neighbours on
  /// the corrected map.
  ghost predicate Unclaimed(ts: seq<Territory>)
    reads ts`connections, ts`armies, ts`owner
  {
    |ts| <= |TerritoryTable|
    && forall i | 0 <= i < |ts| :: ts[i].connections == Neighbours(i) && ts[i].armies == 0 && ts[i].owner == None
  }

  /// The continents of the corrected table, fresh and distinct, in order.
  method NewContinents(players: nat) returns (cs: seq<Continent>)
    ensures ContinentsAsDeclared(cs) && Distinct(cs) && ZeroCounters(cs, players)
    ensures forall j | 0 <= j < |cs| :: fresh(cs[j])
  {
    cs := [];
    for j := 0 to |ContinentTable|
      invariant |cs| == j && Distinct(cs) && ZeroCounters(cs, players)
      invariant forall a | 0 <= a < j ::
                  && fresh(cs[a]) && cs[a].name == ContinentTable[a].name
                  && cs[a].armiesReward == ContinentTable[a].reward && cs[a].size == ContinentTable[a].size
    {
      var entry := ContinentTable[j];
      var c := new Continent(entry.name, players, entry.reward, entry.size);
      cs := cs + [c];
    }
  }

  /// The territories of the corrected table on the continents `cs`, fresh,
  /// distinct and free, each joined to its neighbours.
  method NewTerritories(cs: seq<Continent>) returns (ts: seq<Territory>)
    requires |cs| == |ContinentTable|
    ensures TerritoriesAsDeclared(cs, ts) && Unclaimed(ts) && Distinct(ts)
    ensures forall i | 0 <= i < |ts| :: fresh(ts[i])
  {
    ContinentsInRange();
    ts := [];
    for i := 0 to |TerritoryTable|
      invariant |ts| == i && Distinct(ts)
      invariant forall a | 0 <= a < i ::
                  && fresh(ts[a]) && ts[a].name == TerritoryTable[a].name && ts[a].continent == cs[TerritoryTable[a].continent]
                  && ts[a].connections == Neighbours(a) && ts[a].armies == 0 && ts[a].owner == None
    {
      var entry := TerritoryTable[i];
      var t := new Territory(entry.name, cs[entry.continent]);
      t.CreateConnections(Neighbours(i));
      ts := ts + [t];
    }
  }

  /// On a board laid out by the corrected tables every continent declares
  /// the number of territories that lie on it.
  lemma SizesRight(board: Board)
    requires ContinentsAsDeclared(board.continents) && Distinct(board.continents)
    requires TerritoriesAsDeclared(board.continents, board.territories)
    ensures forall j | 0 <= j < |board.continents| ::
              board.continents[j].size == TerritoriesOn(board.Regions(), board.continents[j])
  {
    ContinentsInRange();
    var ids := ContinentIds(TerritoryTable);
    var cs := board.continents;
    assert forall i | 0 <= i < |ids| :: ids[i] < |cs| && board.Regions()[i] == cs[ids[i]];
    forall j | 0 <= j < |cs|
      ensures cs[j].size == TerritoriesOn(board.Regions(), cs[j])
    {
      TerritoriesOnMapped(board.Regions(), ids, cs, j);
      SizeMatches(j);
    }
  }

  /// Builds the classic board for `players` players from the corrected
  /// tables: each continent with its counters at zero, each territory free,
  /// empty and joined to its neighbours, everything numbered by position.
  method New(players: nat) returns (board: Board)
    ensures fresh(board)
    ensures ContinentsAsDeclared(board.continents) && ZeroCounters(board.continents, players)
    ensures TerritoriesAsDeclared(board.continents, board.territories) && Unclaimed(board.territories)
    ensures board.Valid() && board.Ledger() && board.freeTerritories == Range(|TerritoryTable|)
    ensures forall j | 0 <= j < |board.continents| ::
              board.continents[j].size == TerritoriesOn(board.Regions(), board.continents[j])
  {
    var cs := NewContinents(players);
    var ts := NewTerritories(cs);
    board := new Board(cs, ts);
    FreshLedger(board);
    SizesRight(board);
  }
}
