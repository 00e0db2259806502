# rist — a verified model of the Risk game core

rist plays the board game Risk between computer players. This project models in
Dafny the part of rist that sets a game up and keeps its books:

- the classic map of six continents and forty-two territories, with its borders;
- the board's ownership ledger: the free list, each territory's holder and
  armies, and each continent's per-player counters;
- the two player records: a set-based one used by the board and the game, and
  a list-based one used by the strategies;
- the random strategy and the dispatch from a player to its strategy;
- the game: its army box per player, the setup, the reinforcements at the start
  of a turn, and the dice-off that decides who begins.

Territories, continents, players, the board and the game are classes whose
fields the operations update in place, as in the source. The source links them
with `Rc`/`Weak` references; here a territory names its neighbours and its holder
by index, and the board's territory index is the key. Every random draw of the
random strategy is an arbitrary choice from the range the source samples. The
dice of the dice-off are a script handed in as a parameter. Every `panic!`,
`assert!`, `unwrap` on `None`, unsigned subtraction below zero and
out-of-range index of the source becomes a failure value: `Fail(e)` for an
operation that changes state, `Failure(e)` for one that computes a value.

In four places the source is evidently wrong, and the model corrects it. The
form as written is kept beside the corrected one, with a lemma that shows the
difference (see "## Findings"). These cases are:

- the map's size for Europe;
- Siberia's one-way border;
- the reinforcement total;
- the dice-off's carried-over high roll.

The second territory of the map is named `"Northwest Rc::new(Territory"` in
src/boards/classic_board.rs:28, evidently a slip for "Northwest Territory".
The model's map uses the intended name. `ClassicBoard.NorthwestLabel` shows
that the five-letter label shown on the board is the same either way.

On three points the code behaves in ways a reader might not expect, and the
model follows the code:

- Player record mutators are not idempotent. `add_territory` and
  `add_continent` of the list-based record append a second copy of an item
  already listed; `remove_*` drops every copy.
- The strategies do not guard their own ranges. An empty range, an unsigned
  underflow or a dangling neighbour aborts inside the strategy itself, and the
  model returns that abort as the strategy's failure.
- `Continent::new` in src/continent.rs:21-28 takes a name, a player count and a
  size, and the struct has no reward field. Every caller passes a fourth
  argument, the bonus, and src/lib.rs:125 reads `continent.armies_reward`. The
  model's continent carries the reward, as the callers and the game expect.

The reinforcement code at src/lib.rs:122-127 caps each continent bonus against
the whole box, not against what is left of it. The total can then exceed the
box, and the unsigned subtraction at src/lib.rs:138 goes below zero. The
model's game step caps each bonus at what is left of the box:
`Games.Game.ArmyAccumulation` grants that capped total, and the code's total is
kept as `Games.GrantAsWritten`.

The body of the board's `claim_territory`, called at
src/boards/classic_board.rs:266-268, is not part of this model.
`Boards.Board.ClaimTerritory` takes its behaviour from the tests at
tests/boards_tests.rs:88-109 and from the board's declared operations:

- it needs one army in reserve;
- it refuses an owned territory;
- it moves one army onto the territory;
- it records the holder;
- it raises the continent counter;
- it hands over the continent when the counter reaches its size.

## Model

| member | source | states |
|---|---|---|
| Continents.Continent.constructor | src/continent.rs:21-28 | a fresh continent has id 0 and one zero counter per player, with the given name, bonus and size |
| Continents.GenerateIds | src/continent.rs:49-53 | every continent's id becomes its position in the list (its last position when listed twice); nothing else changes |
| Territories.Abbreviation | src/territory.rs:30 | the label is the first five characters of the name, or all of a shorter name, upper-cased character by character |
| Territories.AbbreviationIdempotent | src/territory.rs:30 | abbreviating a label leaves it as it is |
| Territories.AbbreviationOfPrefix | src/territory.rs:30 | names that agree on their first five characters share a label |
| Territories.Territory.constructor | src/territory.rs:26-36 | a fresh territory on its continent has no neighbours, no armies, no holder and index 0, and its label is its name's abbreviation |
| Territories.Territory.CreateConnections | src/territory.rs:39-44 | the neighbour list becomes exactly the given territories, in order |
| Territories.Territory.PlaceArmies | src/territory.rs:56-67 | refuses a territory held by another player (TerritoryOccupied), then refuses unless the reserve is strictly above the amount (InsufficientArmies); the outcome is one of these two or success, and success is exactly the remaining case, where the amount moves from reserve to territory; armies are conserved in every case |
| Territories.Territory.Equals | src/territory.rs:103-113 | territories equal by index hash alike, and a territory equals itself |
| Territories.GenerateIds | src/territory.rs:119-123 | every territory's index becomes its position in the list; nothing else changes |
| Players.PlayerStruct.constructor | src/players.rs:41-53 | a fresh player has index 0, an empty reserve, no territories or continents, and is not defeated |
| Players.GenerateIds | src/players.rs:143-147 | every player's index becomes its position in the list; distinct players get distinct positions |
| PlayerStates.PlayerState.constructor | src/players/player_state.rs:25-36 | a fresh record has index 0, an empty reserve and empty lists, and is not defeated |
| PlayerStates.PlayerState.AddTerritory | src/players/player_state.rs:43-45 | the territory is appended, so its count in the list rises by one even when it was already there |
| PlayerStates.PlayerState.RemoveTerritory | src/players/player_state.rs:47-51 | every copy of the territory leaves the list, the others stay in order; removing an absent territory changes nothing |
| PlayerStates.PlayerState.AddContinent | src/players/player_state.rs:57-59 | the continent is appended, so its count in the list rises by one |
| PlayerStates.PlayerState.RemoveContinent | src/players/player_state.rs:61-65 | every copy of the continent leaves the list, the others stay in order; removing an absent one changes nothing |
| PlayerStates.Without | src/players/player_state.rs:47-51 | the item no longer occurs, every other item keeps its count, and the length drops by the item's count |
| PlayerStates.WithoutAppend | src/players/player_state.rs:47-51 | removal distributes over concatenation, so survivors keep their relative order |
| PlayerStates.WithoutAbsent | src/players/player_state.rs:47-51 | removing an item not listed leaves the list unchanged |
| PlayerStates.WithoutIdempotent | src/players/player_state.rs:47-51 | removing twice is removing once |
| PlayerStates.RemoveAfterAdd | src/players/player_state.rs:43-51 | add then remove equals remove alone: the appended copy and any older copy are gone |
| Boards.Board.constructor | src/boards.rs:28-54 | numbers continents and territories by position and lists every territory as free, in order; with distinct entries the board is well-formed and the free list is 0..n-1 |
| Boards.Board.ClaimTerritory | tests/boards_tests.rs:88-109 | failures in order: position off the free list (IllegalDecision), empty reserve (InsufficientArmies), already held (TerritoryOccupied), player without a counter (IndexOutOfRange); on success the entry leaves the free list, one army moves from reserve to territory, the player becomes holder, its continent counter rises by one and the continent joins its set exactly when the counter reaches the size; a failed claim changes nothing; the ledger stays balanced |
| Boards.Board.Record | src/boards.rs:23-24 | the free list loses the entry, the territory gets its holder and the counter rises, keeping the ledger balanced |
| Boards.FreshLedger | src/boards.rs:44-53 | a board with every territory free and unheld and every counter zero has balanced books |
| Boards.BalancedAfterClaim | src/continent.rs:13-14 | one claim keeps the books balanced: the territory is free exactly when unheld, and each counter equals the number of the continent's territories the player holds |
| Boards.FreeAfterRemoval | src/boards.rs:44-47 | taking an entry off a repetition-free free list leaves a repetition-free list of the other entries |
| Boards.ClaimedCountersAddUp | src/continent.rs:13-16 | once every territory is claimed, a continent's counters add up to the number of territories lying on it |
| Boards.JoinMeansWhole | src/continent.rs:13-16 | when a continent's declared size is its true size, a player whose counter reaches the size holds every territory of it |
| ClassicBoard.New | src/boards/classic_board.rs:14-262 | the classic board: six continents with their bonuses and sizes, forty-two territories in map order each on its continent, free and empty with its neighbours, counters at zero, balanced books, and, on this corrected map, every declared size equal to the number of territories on the continent |
| ClassicBoard.NewContinents | src/boards/classic_board.rs:16-21 | the six continents in order with name, bonus and size from the corrected table (Europe at seven), distinct, with zero counters |
| ClassicBoard.NewTerritories | src/boards/classic_board.rs:26-206 | the forty-two territories in map order, distinct, each on its continent, unheld, empty and joined to its neighbours on the corrected map |
| ClassicBoard.SizesRight | src/boards/classic_board.rs:16-21 | on a board laid out from the corrected tables, each continent's size is the number of its territories |
| ClassicBoard.ContinentLayout | src/boards/classic_board.rs:217-260 | the map hands over 9 North American, 4 South American, 7 European, 12 Asian, 6 African and 4 Australian territories, in that order |
| ClassicBoard.ContinentsInRange | src/boards/classic_board.rs:217-260 | there are forty-two territories, each on one of the six continents |
| ClassicBoard.EuropeUndersized | src/boards/classic_board.rs:17 | as written, Europe is declared at six territories but has seven; every other declared size is right |
| ClassicBoard.EuropeJoinsEarly | src/boards/classic_board.rs:46-52 | as written, a player holding six of Europe's seven territories already reaches Europe's declared size |
| ClassicBoard.SizesMatch | src/boards/classic_board.rs:16-21 | with Europe at seven, every continent's declared size equals the number of territories on it |
| ClassicBoard.AsWrittenBorders | src/boards/classic_board.rs:83-206 | every border as written joins two distinct territories of the map and is listed from both sides, except Siberia's link to Afghanistan |
| ClassicBoard.AsWrittenOneWay | src/boards/classic_board.rs:145-155 | Siberia lists Afghanistan but Afghanistan does not list Siberia |
| ClassicBoard.Borders | src/boards/classic_board.rs:83-206 | on the corrected map every border joins two distinct territories and is listed from both sides |
| ClassicBoard.NorthwestLabel | src/boards/classic_board.rs:27-30 | the second territory's name as written and its intended name share the board label |
| RandomPlayers.ClaimTerritory | src/players/random_player.rs:30-34 | picks a position of the free list; an empty list underflows |
| RandomPlayers.PlaceArmies | src/players/random_player.rs:36-55 | no held territory underflows and one held territory is an empty range; on success there are at most held-2 placements, each positive, on a board territory among the held ones but the last, totalling below the reserve; with two or more valid holdings and a reserve it succeeds |
| RandomPlayers.PlacementsFit | src/players/random_player.rs:39-52 | a placement list totalling below the reserve passes every strict-reserve check of a territory placement and leaves exactly the rest |
| RandomPlayers.DecideAttack | src/players/random_player.rs:58-101 | the coin declines; otherwise it aborts exactly when a held territory or the neighbour of a held territory with two or more armies is off the board or unheld, declines exactly when no neighbour of such a territory belongs to another player, and any attack chosen is from a held territory on such a neighbour with 1 to min(3, armies-1) dice |
| RandomPlayers.Capture | src/players/random_player.rs:103-110 | succeeds exactly when the attacker has more armies than dice, then moves at least the dice and fewer than all armies |
| RandomPlayers.Defend | src/players/random_player.rs:112-120 | one die for a single army, otherwise one or two |
| PlayerDispatch.ClaimTerritory | src/players.rs:62-67 | an unimplemented player aborts; a random player picks a free-list position exactly when there is one |
| PlayerDispatch.PlaceArmies | src/players.rs:71-76 | an unimplemented player aborts; a random player gets the random strategy's whole contract: its failure causes (no holding, one holding or an empty reserve, a holding off the board), success whenever it holds two valid territories and has a reserve, and placements that are positive, on held territories of the board, and total below its reserve |
| PlayerDispatch.Attack | src/players.rs:80-85 | an unimplemented player aborts; for a random player the coin declines, it aborts exactly on a dangling or unheld neighbour, an attack chosen is a legal candidate, and without the coin it declines exactly when there is no target |
| PlayerDispatch.Capture | src/players.rs:88-93 | an unimplemented player aborts; a random player moves between the dice and all the attacker's armies |
| PlayerDispatch.Defend | src/players.rs:97-102 | an unimplemented player aborts; a random player defends with one die on a single army, otherwise one or two |
| FirstPlayers.FirstPlayer | src/lib.rs:152-183 | the elimination loop, with its two passes and re-rolls of the tied players, decides exactly the highest-roll-wins, ties-reroll winner of the dice script, a player position below n; too few dice is Undecided |
| FirstPlayers.Step | src/lib.rs:162-180 | one iteration keeps the loop's invariants (player and roll lists of equal length, the winner still to come unchanged) and moves the loop measure down |
| FirstPlayers.EndOfPass | src/lib.rs:170-178 | at the end of a pass the index wraps; after the second pass the players left re-roll from the script, and a script that runs out is Undecided |
| FirstPlayers.WinnerAmong | src/lib.rs:182 | the winner is one of the players who rolled |
| FirstPlayers.SettleAtPeak | src/lib.rs:162-169 | the winner of a round rolled that round's highest value |
| FirstPlayers.WinnerRolledHighest | src/lib.rs:159-169 | the first player's opening roll is at least every other opening roll |
| FirstPlayers.UniqueMaxWins | src/lib.rs:159-169 | a roll strictly above every other in the opening round wins outright |
| FirstPlayers.PeakBounds | src/lib.rs:159-168 | the round's peak bounds every roll and is one of them |
| FirstPlayers.TopMembers | src/lib.rs:163-168 | the rolls kept are exactly the rolls of the round at the peak |
| FirstPlayers.HighestCarriedOver | src/lib.rs:159-178 | as written, two players tying at six and re-rolling five and three make the player of the three begin; the highest re-roll should win |
| Games.ArmiesPerPlayer | src/lib.rs:44 | the table gives a reserve exactly for two to six players; fewer underflow, more run past the table; a reserve fits in a full box |
| Games.StartingArmiesShrink | src/lib.rs:44 | more players start with fewer armies each, and a reserve covers an even share of the classic map's 42 territories |
| Games.Grant | src/lib.rs:111-138 | reinforcements never exceed the box and are either the whole box or the whole entitlement |
| Games.GrantInFull | src/lib.rs:111-114 | the grant is the whole entitlement exactly when the box holds it, and a box of three or more grants at least three |
| Games.GrantAsWritten | src/lib.rs:111-138 | the grant as written never succeeds with more than the box |
| Games.AsWrittenWithinBox | src/lib.rs:122-127 | while the box covers the entitlement, the grant as written is the corrected grant |
| Games.BonusOverdraw | src/lib.rs:122-138 | as written, a box of three, nine territories and Europe held in full take six armies out of three; the box should grant three |
| Games.Reinforcements | src/lib.rs:111-133 | the loop over the held continents, each bonus capped at what is left of the box, computes the grant whatever order the set yields them in |
| Games.Seat | src/lib.rs:74 | every seat reached round the table is a player's position |
| Games.Game.constructor | src/lib.rs:25-35 | a box of 180 armies per player, no one defeated, the game not over, and the players numbered by position |
| Games.Game.Setup | src/lib.rs:39-76 | a player count off the table, a box short of the reserve or an undecided dice-off aborts with that cause; on success every box pays the reserve, the free list empties, claims go round the table from the dice-off's winner, each claim costs its player one reserve army, and the ledger stays balanced |
| Games.Game.Fund | src/lib.rs:48-55 | every reserve is set from the table and taken from its box, and it succeeds exactly when every box covers it |
| Games.Game.ClaimAll | src/lib.rs:64-75 | the claims empty the free list one territory per turn, round the table from the first player, one reserve army per claim, keeping the ledger balanced |
| Games.Game.Turn | src/lib.rs:65-74 | the seated player claims and the turn passes to the next seat |
| Games.Game.Claim | src/lib.rs:65-71 | an empty box aborts (InsufficientArmies), an unimplemented player with armies in its box aborts (Unimplemented); a successful claim needs armies in the box and takes the chosen position `k` off the free list for one reserve army; that territory gains the player as holder, one army, and a place in the player's set, and every other territory is unchanged; the player's counter on its continent rises by one, the continent joins the player's set exactly when the counter reaches its size, and every other continent is unchanged; a failed claim changes neither the player, the free list, a territory nor a continent |
| Games.Game.Take | src/lib.rs:71 | the board's half of a claim: on success position `k` leaves the free list, the territory there gains the player, one army and a place in the player's set, its continent's counter rises and the continent joins at its size, and every other territory and continent is unchanged; a failure changes nothing; the books stay balanced |
| Games.Game.ArmyAccumulation | src/lib.rs:99-139 | the grant moves from the player's box to its reserve and nothing else changes; an empty box grants nothing; a player off the box list aborts with nothing changed |

## Left out

- `Game::play` (src/lib.rs:79-95): an endless loop around printing and reinforcements, with clocks. Its one game step, `army_accumulation`, is modelled.
- `free_move` (src/players.rs:104-109): the random strategy's `free_move` is not part of this model.
- Combat resolution: rolling dice against each other, losses and transferring ownership. The code for it is not part of this model; the strategy decisions that feed it (attack, capture, defend) are modelled.
- Dice rolling (src/dice.rs) and the random generator: dice arrive as a script parameter, uniform draws become arbitrary choices in the sampled range, and the `f32` coin of the attack decision is a `bool` parameter.
- Printing, colours, `Display`, `set_extra_info` and `clear_extra_info`: output only.
- `Rc`/`Weak`/`RefCell` sharing: replaced by object references and indices. A neighbour whose `Weak` reference has died is modelled as an index off the board.
- src/player.rs, src/players/player.rs and src/main.rs: a player trait and its wiring used by the strategy file but not by the game; the strategy reads the list-based record directly.
- Integer widths: counts are unbounded; the only wrap-arounds that matter, unsigned subtractions below zero, are modelled as failures.
- Games.Game.Setup: requires distinct players (each index is its position). The source runs on any list, but duplicate player objects would fund a box twice.
- Boards.Board.ClaimTerritory: the board's `claim_territory` body is not part of this model; its contract follows the tests and the board's declared operations, as described above. The two tests contradict each other. tests/boards_tests.rs:65-85 claims with a fresh player, whose reserve is 0 (src/players.rs:46), and expects success. tests/boards_tests.rs:88-109 makes the identical claim and expects the panic for a reserve below one army. tests/classic_board_tests.rs:20-30 also claims eleven times with three fresh players, whose reserves are 0, and expects no panic. The model follows tests/boards_tests.rs:88-109: an empty reserve is `Fail(InsufficientArmies)`, so each of those eleven claims fails.
- ClassicBoard.New: builds the board from the corrected tables, not the ones written at src/boards/classic_board.rs:16-206. Europe has size 7 instead of 6 (line 17), the second territory is named "Northwest Territory" (line 28), and Siberia does not list Afghanistan (lines 145-155). The tables as written are `ClassicBoard.ContinentTableAsWritten`, `ClassicBoard.TerritoryTableAsWritten` and `ClassicBoard.NeighboursAsWritten`; the lemmas in "## Findings" and `ClassicBoard.NorthwestLabel` relate them to the corrected ones.
- ClassicBoard.NewContinents: builds the continents of the corrected table, with Europe at 7 where src/boards/classic_board.rs:17 declares 6.
- ClassicBoard.NewTerritories: builds the territories of the corrected table. The second one is named "Northwest Territory" where src/boards/classic_board.rs:28 writes "Northwest Rc::new(Territory". Siberia's neighbours leave out Afghanistan, which src/boards/classic_board.rs:145-152 lists.
- Territories.Abbreviation: covers ASCII names only, as every name on the map is. The source slices five bytes, and panics when byte five falls inside a multi-byte character. It then upper-cases with Unicode rules, which can change the length ("ß" becomes "SS"). The model takes five characters and upper-cases ASCII letters.
- Games.Game.ArmyAccumulation: uses the corrected grant. The source's total as written is `Games.GrantAsWritten`, which agrees whenever the box covers the entitlement (`Games.AsWrittenWithinBox`).
- Games.Reinforcements: caps each continent bonus at what is left of the box, where src/lib.rs:122-127 caps each one against the whole box. The code's total is `Games.GrantAsWritten`, and the two agree while the box covers the entitlement (`Games.AsWrittenWithinBox`).
- FirstPlayers.FirstPlayer: resets the carried high roll at each re-roll. The source as written is `FirstPlayers.AsWritten`.

## Findings

| source | as written | input that shows it | evidently intended | confidence | as-written member | corrected member |
|---|---|---|---|---|---|---|
| src/boards/classic_board.rs:17 | Europe is declared with 6 territories, but 7 territories are placed on it (lines 46-52) | a player holding Iceland through Western Europe but not Southern Europe reaches the counter 6 and is handed Europe | Europe's size is 7 | high, not executed | ClassicBoard.EuropeUndersized | ClassicBoard.SizesMatch |
| src/boards/classic_board.rs:145-155 | Siberia lists Afghanistan as a neighbour, Afghanistan does not list Siberia | the border from Siberia to Afghanistan exists one way only | borders are symmetric; Siberia does not border Afghanistan on the classic map | high, not executed | ClassicBoard.AsWrittenOneWay | ClassicBoard.Borders |
| src/lib.rs:111-138 | the territory allowance and each continent bonus are capped against the whole box, not against what is left of it, so their total can exceed the box and the unsigned subtraction at line 138 goes below zero | box 3, nine territories, Europe (bonus 5) held: 3 + 3 = 6 armies taken from a box of 3 | each bonus is capped at what the box still holds, so the grant never exceeds the box | high, not executed | Games.BonusOverdraw | Games.Game.ArmyAccumulation |
| src/lib.rs:159-178 | `highest` keeps the previous round's peak when the tied players re-roll, so a re-roll below it is dropped whatever the others roll | two players roll 6 and 6, then re-roll 5 and 3: the player who rolled 3 begins | the highest re-roll wins: the player who rolled 5 begins | high, not executed | FirstPlayers.HighestCarriedOver | FirstPlayers.FirstPlayer |
