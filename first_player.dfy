/// Who begins: every player rolls a die, the highest roll wins, and the
/// players tied at the top roll again among themselves. The dice are a script
/// read from the front, one value per player and round.
module FirstPlayers {
  import opened Common

  /// One player's roll in a round.
  datatype Roll = Roll(player: nat, pips: nat)

  /// The round in which `players` roll the first values of `dice`, in order.
  function Deal(players: seq<nat>, dice: seq<nat>): (round: seq<Roll>)
    requires |players| <= |dice|
    ensures |round| == |players|
    ensures forall j | 0 <= j < |players| :: round[j] == Roll(players[j], dice[j])
  {
    seq(|players|, j requires 0 <= j < |players| => Roll(players[j], dice[j]))
  }

  function Players(round: seq<Roll>): (players: seq<nat>)
    ensures |players| == |round|
    ensures forall j | 0 <= j < |round| :: players[j] == round[j].player
  {
    seq(|round|, j requires 0 <= j < |round| => round[j].player)
  }

  /// The highest roll of the round, or `floor` when none is higher.
  function Peak(round: seq<Roll>, floor: nat): nat {
    if round == [] then floor
    else Max(Peak(round[..|round| - 1], floor), round[|round| - 1].pips)
  }

  /// The peak bounds every roll and `floor`, and is one of them.
  lemma {:induction false} PeakBounds(round: seq<Roll>, floor: nat)
    ensures Peak(round, floor) >= floor
    ensures forall j | 0 <= j < |round| :: round[j].pips <= Peak(round, floor)
    ensures Peak(round, floor) == floor || exists j | 0 <= j < |round| :: round[j].pips == Peak(round, floor)
    decreases |round|
  {
    if round != [] {
      var init := round[..|round| - 1];
      PeakBounds(init, floor);
      assert forall j | 0 <= j < |init| :: init[j] == round[j];
    }
  }

  /// The rolls equal to `pips`, in round order.
  function Top(round: seq<Roll>, pips: nat): seq<Roll> {
    if round == [] then []
    else
      var last := round[|round| - 1];
      Top(round[..|round| - 1], pips) + if last.pips == pips then [last] else []
  }

  /// The rolls kept are rolls of the round at `pips`, and every roll of the
  /// round at `pips` is kept.
  lemma {:induction false} TopMembers(round: seq<Roll>, pips: nat)
    ensures forall e | e in Top(round, pips) :: e in round && e.pips == pips
    ensures forall j | 0 <= j < |round| && round[j].pips == pips :: round[j] in Top(round, pips)
    decreases |round|
  {
    if round != [] {
      var init := round[..|round| - 1];
      TopMembers(init, pips);
      assert forall j | 0 <= j < |init| :: init[j] == round[j];
      assert forall e | e in init :: e in round;
    }
  }

  /// The highest roll wins; when several share it, those players roll again.
  /// `Failure(Undecided)` when the script runs out.
  function Winner(players: seq<nat>, dice: seq<nat>): Result<nat>
    decreases |dice|, 0
  {
    if |players| == 0 then Failure(IndexOutOfRange)
    else if |dice| < |players| then Failure(Undecided)
    else Settle(Deal(players, dice), dice[|players|..])
  }

  /// The outcome of a round already rolled, with `dice` left for re-rolls.
  function Settle(round: seq<Roll>, dice: seq<nat>): Result<nat>
    decreases |dice|, 1
  {
    var top := Top(round, Peak(round, 0));
    if |top| == 1 then Success(top[0].player) else Winner(Players(top), dice)
  }

  /// The winner is one of the players who rolled.
  lemma {:induction false} WinnerAmong(players: seq<nat>, dice: seq<nat>)
    ensures Winner(players, dice).Success? ==> Winner(players, dice).value in players
    decreases |dice|, 0
  {
    if |players| > 0 && |dice| >= |players| {
      var round := Deal(players, dice);
      assert Players(round) == players;
      SettleAmong(round, dice[|players|..]);
    }
  }

  lemma {:induction false} SettleAmong(round: seq<Roll>, dice: seq<nat>)
    ensures Settle(round, dice).Success? ==> Settle(round, dice).value in Players(round)
    decreases |dice|, 1
  {
    var top := Top(round, Peak(round, 0));
    TopMembers(round, Peak(round, 0));
    assert forall k | 0 <= k < |top| :: top[k] in top;
    if |top| != 1 {
      WinnerAmong(Players(top), dice);
    }
  }

  /// The first pass over a round: a roll stays when it is at least every roll
  /// before it and `floor`.
  function Chain(round: seq<Roll>, floor: nat): seq<Roll> {
    if round == [] then []
    else
      var init := round[..|round| - 1];
      var last := round[|round| - 1];
      if last.pips < Peak(init, floor) then Chain(init, floor) else Chain(init, floor) + [last]
  }

  lemma {:induction false} TopAppend(a: seq<Roll>, b: seq<Roll>, pips: nat)
    ensures Top(a + b, pips) == Top(a, pips) + Top(b, pips)
    decreases |b|
  {
    if b == [] {
      assert a + b == a;
    } else {
      var init := b[..|b| - 1];
      assert (a + b)[..|a + b| - 1] == a + init;
      TopAppend(a, init, pips);
    }
  }

  lemma TopSingle(e: Roll, pips: nat)
    ensures Top([e], pips) == if e.pips == pips then [e] else []
  {
    assert [e][..0] == [];
  }

  /// Keeping the rolls at `pips` a second time changes nothing.
  lemma {:induction false} TopTop(round: seq<Roll>, pips: nat)
    ensures Top(Top(round, pips), pips) == Top(round, pips)
    decreases |round|
  {
    if round != [] {
      var init := round[..|round| - 1];
      var last := round[|round| - 1];
      var rest := if last.pips == pips then [last] else [];
      TopTop(init, pips);
      TopAppend(Top(init, pips), rest, pips);
      if last.pips == pips {
        TopSingle(last, pips);
      }
    }
  }

  /// The first pass drops no roll equal to the peak or above it.
  lemma {:induction false} ChainTop(round: seq<Roll>, floor: nat, pips: nat)
    requires pips >= Peak(round, floor)
    ensures Top(Chain(round, floor), pips) == Top(round, pips)
    decreases |round|
  {
    if round != [] {
      var init := round[..|round| - 1];
      var last := round[|round| - 1];
      ChainTop(init, floor, pips);
      if last.pips >= Peak(init, floor) {
        TopAppend(Chain(init, floor), [last], pips);
        TopSingle(last, pips);
      }
    }
  }

  lemma PeakPrefix(round: seq<Roll>, p: nat, floor: nat)
    requires p <= |round|
    ensures Peak(round[..p], floor) <= Peak(round, floor)
  {
    PeakBounds(round[..p], floor);
    PeakBounds(round, floor);
    assert forall j | 0 <= j < p :: round[..p][j] == round[j];
  }

  lemma {:induction false} ChainMembers(round: seq<Roll>, floor: nat)
    ensures forall e | e in Chain(round, floor) :: e in round
    decreases |round|
  {
    if round != [] {
      var init := round[..|round| - 1];
      ChainMembers(init, floor);
      assert forall j | 0 <= j < |init| :: init[j] == round[j];
      assert forall e | e in init :: e in round;
    }
  }

  /// In the first pass, the rolls at the round's peak are those of the round.
  lemma Pass1Top(round: seq<Roll>, p: nat)
    requires p <= |round|
    ensures Top(Chain(round[..p], 0) + round[p..], Peak(round, 0)) == Top(round, Peak(round, 0))
  {
    var pips := Peak(round, 0);
    var pre, post := round[..p], round[p..];
    PeakPrefix(round, p, 0);
    TopAppend(Chain(pre, 0), post, pips);
    ChainTop(pre, 0, pips);
    TopAppend(pre, post, pips);
    Split(round, p);
  }

  lemma Split<T>(s: seq<T>, p: nat)
    requires p <= |s|
    ensures s[..p] + s[p..] == s
  {
  }

  /// In the second pass, the rolls at the round's peak are those of the round.
  lemma Pass2Top(round: seq<Roll>, q: nat)
    requires q <= |Chain(round, 0)|
    ensures var kept := Chain(round, 0); var pips := Peak(round, 0);
      Top(Top(kept[..q], pips) + kept[q..], pips) == Top(round, pips)
  {
    var kept := Chain(round, 0);
    var pips := Peak(round, 0);
    TopAppend(Top(kept[..q], pips), kept[q..], pips);
    TopTop(kept[..q], pips);
    TopAppend(kept[..q], kept[q..], pips);
    Split(kept, q);
    ChainTop(round, 0, pips);
  }

  /// A round whose peak rolls are the single roll left settles on its player.
  lemma Settled(round: seq<Roll>, field: seq<Roll>, dice: seq<nat>)
    requires |round| >= 1 && |field| == 1
    requires Top(field, Peak(round, 0)) == Top(round, Peak(round, 0))
    ensures Settle(round, dice) == Success(field[0].player)
  {
    var pips := Peak(round, 0);
    PeakBounds(round, 0);
    TopMembers(round, pips);
    if pips == 0 {
      assert round[0].pips == pips;
    }
    var j :| 0 <= j < |round| && round[j].pips == pips;
    assert round[j] in Top(round, pips);
    assert field == [field[0]];
    TopSingle(field[0], pips);
  }

  /// `field` lists `players` and their `rolls` side by side.
  ghost predicate Mirrors(field: seq<Roll>, players: seq<nat>, rolls: seq<nat>) {
    |players| == |field| && |rolls| == |field|
    && forall j | 0 <= j < |field| :: field[j] == Roll(players[j], rolls[j])
  }

  lemma MirrorsRemove(field: seq<Roll>, players: seq<nat>, rolls: seq<nat>, i: nat)
    requires Mirrors(field, players, rolls) && i < |field|
    ensures Mirrors(field[..i] + field[i + 1..], players[..i] + players[i + 1..], rolls[..i] + rolls[i + 1..])
  {
    var field', players', rolls' := field[..i] + field[i + 1..], players[..i] + players[i + 1..], rolls[..i] + rolls[i + 1..];
    forall j | 0 <= j < |field'|
      ensures field'[j] == Roll(players'[j], rolls'[j])
    {
      if j < i {
        assert field'[j] == field[j] && players'[j] == players[j] && rolls'[j] == rolls[j];
      } else {
        assert field'[j] == field[j + 1] && players'[j] == players[j + 1] && rolls'[j] == rolls[j + 1];
      }
    }
  }

  /// The first pass over `round` after `p` of its rolls: the survivors among
  /// them, then the rolls still to come; `i` is the position of the next one
  /// and `highest` the highest roll so far.
  ghost predicate FirstPass(round: seq<Roll>, p: nat, field: seq<Roll>, i: nat, highest: nat) {
    p <= |round| && field == Chain(round[..p], 0) + round[p..]
    && i == |Chain(round[..p], 0)| && highest == Peak(round[..p], 0)
  }

  /// The second pass after `q` survivors of the first: those among them at the
  /// round's peak, then the survivors still to come.
  ghost predicate SecondPass(round: seq<Roll>, q: nat, field: seq<Roll>, i: nat, highest: nat) {
    var kept := Chain(round, 0);
    highest == Peak(round, 0) && q <= |kept|
    && field == Top(kept[..q], highest) + kept[q..] && i == |Top(kept[..q], highest)|
  }

  /// One more roll through the first pass: it stays exactly when it is at
  /// least the highest so far.
  lemma FirstPassStep(round: seq<Roll>, p: nat, field: seq<Roll>, i: nat, highest: nat)
    requires FirstPass(round, p, field, i, highest) && i < |field|
    ensures p < |round| && field[i] == round[p]
    ensures field[i].pips < highest ==> FirstPass(round, p + 1, field[..i] + field[i + 1..], i, highest)
    ensures field[i].pips >= highest ==> FirstPass(round, p + 1, field, i + 1, field[i].pips)
  {
    assert p < |round|;
    assert round[..p + 1][..p] == round[..p];
    assert round[p..] == [round[p]] + round[p + 1..];
  }

  /// One more survivor through the second pass: it stays exactly when it is at
  /// the round's peak, which no roll exceeds.
  lemma SecondPassStep(round: seq<Roll>, q: nat, field: seq<Roll>, i: nat, highest: nat)
    requires SecondPass(round, q, field, i, highest) && i < |field|
    ensures field[i].pips <= highest
    ensures field[i].pips < highest ==> SecondPass(round, q + 1, field[..i] + field[i + 1..], i, highest)
    ensures field[i].pips == highest ==> SecondPass(round, q + 1, field, i + 1, highest)
  {
    var kept := Chain(round, 0);
    assert q < |kept|;
    assert kept[q..] == [kept[q]] + kept[q + 1..];
    assert kept[..q + 1][..q] == kept[..q];
    ChainMembers(round, 0);
    PeakBounds(round, 0);
    assert kept[q] in kept;
  }

  lemma MirrorsPlayers(field: seq<Roll>, players: seq<nat>, rolls: seq<nat>)
    requires Mirrors(field, players, rolls)
    ensures Players(field) == players
  {
  }

  lemma Skip(dice: seq<nat>, used: nat, m: nat)
    requires used + m <= |dice|
    ensures dice[used..][m..] == dice[used + m..]
  {
  }

  /// A fresh round starts its first pass with nothing seen.
  lemma FreshRound(round: seq<Roll>)
    ensures FirstPass(round, 0, round, 0, 0)
  {
    assert round[..0] == [] && round[0..] == round;
  }

  /// The players left roll the next values of the script, or the script has
  /// run out.
  lemma Reroll(players: seq<nat>, dice: seq<nat>)
    requires |players| >= 1
    ensures |dice| < |players| ==> Winner(players, dice) == Failure(Undecided)
    ensures |dice| >= |players| ==>
      Winner(players, dice) == Settle(Deal(players, dice), dice[|players|..])
  {
  }

  /// The first pass ends when every roll of the round has been through it.
  lemma FirstPassDone(round: seq<Roll>, p: nat, field: seq<Roll>, highest: nat)
    requires FirstPass(round, p, field, |field|, highest)
    ensures SecondPass(round, 0, field, 0, highest)
  {
    assert round[..p] == round;
  }

  /// After the second pass, the players left are those tied at the peak, and
  /// the outcome is theirs to roll for.
  lemma SecondPassDone(round: seq<Roll>, q: nat, field: seq<Roll>, highest: nat, dice: seq<nat>)
    requires SecondPass(round, q, field, |field|, highest) && |field| >= 2
    ensures Settle(round, dice) == Winner(Players(field), dice)
  {
    var kept := Chain(round, 0);
    assert q == |kept| && kept[..q] == kept;
    assert field == Top(kept, highest);
    ChainTop(round, 0, highest);
  }

  /// A tie after the second pass: the outcome is that of the round the players
  /// left roll next, or undecided when the script runs out.
  lemma TieStep(round: seq<Roll>, q: nat, field: seq<Roll>, players: seq<nat>, rolls: seq<nat>,
                highest: nat, dice: seq<nat>, used: nat)
    requires SecondPass(round, q, field, |field|, highest) && |field| >= 2
    requires Mirrors(field, players, rolls) && used <= |dice|
    ensures used + |players| > |dice| ==> Settle(round, dice[used..]) == Failure(Undecided)
    ensures used + |players| <= |dice| ==>
      Settle(round, dice[used..]) == Settle(Deal(players, dice[used..]), dice[used + |players|..])
  {
    SecondPassDone(round, q, field, highest, dice[used..]);
    MirrorsPlayers(field, players, rolls);
    Reroll(players, dice[used..]);
    if used + |players| <= |dice| {
      Skip(dice, used, |players|);
    }
  }

  /// When one player is left, in either pass, the round settles on that player.
  lemma Decided(round: seq<Roll>, p: nat, q: nat, field: seq<Roll>, i: nat, highest: nat, dice: seq<nat>)
    requires |round| >= 1 && |field| == 1
    requires FirstPass(round, p, field, i, highest) || SecondPass(round, q, field, i, highest)
    ensures Settle(round, dice) == Success(field[0].player)
  {
    if FirstPass(round, p, field, i, highest) {
      Pass1Top(round, p);
    } else {
      Pass2Top(round, q);
    }
    Settled(round, field, dice);
  }

  /// One comparison of the elimination loop: the roll at position `i` is
  /// dropped, together with its player, when it is below the highest so far;
  /// otherwise it becomes the highest and the position moves on.
  method Compare(players: seq<nat>, rolls: seq<nat>, highest: nat, i: nat, ghost round: seq<Roll>,
                 ghost l: nat, ghost p: nat, ghost q: nat, ghost field: seq<Roll>)
    returns (players': seq<nat>, rolls': seq<nat>, highest': nat, i': nat,
             ghost p': nat, ghost q': nat, ghost field': seq<Roll>)
    requires Mirrors(field, players, rolls) && i < |players|
    requires l == 0 ==> FirstPass(round, p, field, i, highest)
    requires l == 1 ==> SecondPass(round, q, field, i, highest)
    ensures Mirrors(field', players', rolls')
    ensures forall j | 0 <= j < |players'| :: players'[j] in players
    ensures (|players'| == |players| - 1 && i' == i) || (|players'| == |players| && i' == i + 1)
    ensures l == 0 ==> FirstPass(round, p', field', i', highest')
    ensures l == 1 ==> SecondPass(round, q', field', i', highest')
  {
    p', q' := p, q;
    if l == 0 {
      FirstPassStep(round, p, field, i, highest);
      p' := p + 1;
    } else if l == 1 {
      SecondPassStep(round, q, field, i, highest);
      q' := q + 1;
    }
    if rolls[i] < highest {
      MirrorsRemove(field, players, rolls, i);
      players' := players[..i] + players[i + 1..];
      rolls' := rolls[..i] + rolls[i + 1..];
      field' := field[..i] + field[i + 1..];
      highest', i' := highest, i;
    } else {
      players', rolls', field' := players, rolls, field;
      highest', i' := rolls[i], i + 1;
    }
  }

  /// The end of a pass, reached when the position runs past the last player
  /// with more than one left: the second pass follows the first, and a tie
  /// after the second pass makes the players left roll the next values of
  /// the script, or finds the script exhausted.
  method EndOfPass(players: seq<nat>, rolls: seq<nat>, highest: nat, l: nat, used: nat, dice: seq<nat>,
                   ghost round: seq<Roll>, ghost p: nat, ghost q: nat, ghost field: seq<Roll>)
    returns (rolls': seq<nat>, highest': nat, l': nat, used': nat, exhausted: bool,
             ghost round': seq<Roll>, ghost p': nat, ghost q': nat, ghost field': seq<Roll>)
    requires Mirrors(field, players, rolls) && |players| > 1 && l <= 1 && used <= |dice|
    requires l == 0 ==> FirstPass(round, p, field, |players|, highest)
    requires l == 1 ==> SecondPass(round, q, field, |players|, highest)
    ensures exhausted ==> Settle(round, dice[used..]) == Failure(Undecided)
    ensures !exhausted ==>
      && Mirrors(field', players, rolls') && |round'| >= 1 && used' <= |dice| && l' <= 1
      && Settle(round', dice[used'..]) == Settle(round, dice[used..])
      && (l' == 0 ==> FirstPass(round', p', field', 0, highest'))
      && (l' == 1 ==> SecondPass(round', q', field', 0, highest'))
      && (used' > used || (used' == used && l == 0 && l' == 1))
  {
    rolls', highest', used', exhausted := rolls, highest, used, false;
    round', p', q', field' := round, p, q, field;
    l' := l + 1;
    if l' == 2 {
      l' := 0;
      TieStep(round, q, field, players, rolls, highest, dice, used);
      if |dice| - used < |players| {
        exhausted := true;
        return;
      }
      rolls' := dice[used..used + |players|];
      round' := Deal(players, dice[used..]);
      field' := round';
      used' := used + |players|;
      highest' := 0;
      p' := 0;
      FreshRound(round');
    } else {
      FirstPassDone(round, p, field, highest);
      q' := 0;
    }
  }

  /// The state of the elimination loop for `n` players and the script
  /// `dice`, of which `used` values are rolled: the players left and their
  /// rolls, the pass `l` under way at position `i`, and the ghost round and
  /// field that relate them to the outcome.
  ghost predicate Playing(n: nat, dice: seq<nat>, players: seq<nat>, rolls: seq<nat>, highest: nat, i: nat,
                          l: nat, used: nat, round: seq<Roll>, p: nat, q: nat, field: seq<Roll>) {
    && Mirrors(field, players, rolls) && |round| >= 1 && |players| >= 1
    && (forall j | 0 <= j < |players| :: players[j] < n)
    && used <= |dice| && l <= 1 && i <= |players| && (|players| > 1 ==> i < |players|)
    && Winner(Range(n), dice) == Settle(round, dice[used..])
    && (l == 0 ==> FirstPass(round, p, field, i, highest))
    && (l == 1 ==> SecondPass(round, q, field, i, highest))
  }

  /// The loop starts on the opening round, with its first roll taken as the
  /// highest.
  lemma Start(n: nat, dice: seq<nat>)
    requires 1 <= n <= |dice|
    ensures var round := Deal(Range(n), dice);
      Playing(n, dice, Range(n), dice[..n], dice[0], 1, 0, n, round, 1, 0, round)
  {
    var round := Deal(Range(n), dice);
    FreshRound(round);
    FirstPassStep(round, 0, round, 0, 0);
  }

  /// One turn of the elimination loop: a comparison, then the end of the pass
  /// when the position has run past the last player.
  method Step(ghost n: nat, dice: seq<nat>, players: seq<nat>, rolls: seq<nat>, highest: nat, i: nat,
              l: nat, used: nat, ghost round: seq<Roll>, ghost p: nat, ghost q: nat, ghost field: seq<Roll>)
    returns (players': seq<nat>, rolls': seq<nat>, highest': nat, i': nat, l': nat, used': nat,
             exhausted: bool, ghost round': seq<Roll>, ghost p': nat, ghost q': nat, ghost field': seq<Roll>)
    requires Playing(n, dice, players, rolls, highest, i, l, used, round, p, q, field) && |players| > 1
    ensures exhausted ==> Winner(Range(n), dice) == Failure(Undecided)
    ensures !exhausted ==> Playing(n, dice, players', rolls', highest', i', l', used', round', p', q', field')
    ensures !exhausted ==>
      || used' > used
      || (used' == used && |players'| < |players|)
      || (used' == used && |players'| == |players| && l' > l)
      || (used' == used && |players'| == |players| && l' == l && i' > i)
  {
    players', rolls', highest', i', p', q', field' := Compare(players, rolls, highest, i, round, l, p, q, field);
    l', used', exhausted, round' := l, used, false, round;
    if 1 < |players'| && |players'| == i' {
      rolls', highest', l', used', exhausted, round', p', q', field' :=
        EndOfPass(players', rolls', highest', l, used, dice, round, p', q', field');
      i' := 0;
    }
  }

  /// Decides the first player from a script of dice: `n` rolls, then one
  /// re-roll per tied player for every round that ends in a tie. A first pass
  /// keeps the rolls at least as high as every roll before them, a second pass
  /// keeps those equal to the highest, and a tie after the second pass makes
  /// the players left roll again in a fresh round.
  method FirstPlayer(n: nat, dice: seq<nat>) returns (r: Result<nat>)
    ensures r == Winner(Range(n), dice)
    ensures r.Success? ==> r.value < n
  {
    if |dice| < n {
      return Failure(Undecided);
    }
    var rolls := dice[..n];
    var used := n;
    var players: seq<nat> := [];
    for index := 0 to n
      invariant players == Range(index)
    {
      players := players + [index];
    }
    if n == 0 {
      return Failure(IndexOutOfRange);
    }
    var highest := rolls[0];
    var i: nat := 1;
    var l: nat := 0;
    ghost var round := Deal(players, dice);
    ghost var field := round;
    ghost var p: nat := 1;
    ghost var q: nat := 0;
    Start(n, dice);
    while |players| > 1
      invariant Playing(n, dice, players, rolls, highest, i, l, used, round, p, q, field)
      decreases |dice| - used, |players|, 1 - l, |players| - i
    {
      var exhausted;
      players, rolls, highest, i, l, used, exhausted, round, p, q, field :=
        Step(n, dice, players, rolls, highest, i, l, used, round, p, q, field);
      if exhausted {
        return Failure(Undecided);
      }
    }
    Decided(round, p, q, field, i, highest, dice[used..]);
    r := Success(players[0]);
    WinnerAmong(Range(n), dice);
  }

  /// The winner of a round rolled the round's peak.
  lemma SettleAtPeak(round: seq<Roll>, dice: seq<nat>)
    ensures var r := Settle(round, dice);
      r.Success? ==> exists k | 0 <= k < |round| :: round[k].player == r.value && round[k].pips == Peak(round, 0)
  {
    var top := Top(round, Peak(round, 0));
    TopMembers(round, Peak(round, 0));
    if |top| == 1 {
      assert top[0] in top;
    } else {
      WinnerAmong(Players(top), dice);
      var r := Settle(round, dice);
      if r.Success? {
        var m :| 0 <= m < |top| && Players(top)[m] == r.value;
        assert top[m] in top;
      }
    }
  }

  /// The first player rolled the highest value of the opening round.
  lemma WinnerRolledHighest(n: nat, dice: seq<nat>)
    ensures var r := Winner(Range(n), dice);
      r.Success? ==> r.value < n && forall j | 0 <= j < n :: dice[j] <= dice[r.value]
  {
    var r := Winner(Range(n), dice);
    if r.Success? {
      var round := Deal(Range(n), dice);
      SettleAtPeak(round, dice[n..]);
      PeakBounds(round, 0);
    }
  }

  /// No roll of the round is at `pips`, so none is kept.
  lemma {:induction false} TopNone(round: seq<Roll>, pips: nat)
    requires forall m | 0 <= m < |round| :: round[m].pips != pips
    ensures Top(round, pips) == []
    decreases |round|
  {
    if round != [] {
      TopNone(round[..|round| - 1], pips);
    }
  }

  /// Exactly one roll of the round is at `pips`: it alone is kept.
  lemma {:induction false} TopUnique(round: seq<Roll>, pips: nat, j: nat)
    requires j < |round| && round[j].pips == pips
    requires forall m | 0 <= m < |round| && m != j :: round[m].pips != pips
    ensures Top(round, pips) == [round[j]]
    decreases |round|
  {
    var init := round[..|round| - 1];
    if j == |round| - 1 {
      TopNone(init, pips);
    } else {
      TopUnique(init, pips, j);
    }
  }

  /// A roll above every other in the opening round wins outright.
  lemma UniqueMaxWins(n: nat, dice: seq<nat>, j: nat)
    requires j < n <= |dice|
    requires forall m | 0 <= m < n && m != j :: dice[m] < dice[j]
    ensures Winner(Range(n), dice) == Success(j)
  {
    var round := Deal(Range(n), dice);
    PeakBounds(round, 0);
    var pips := Peak(round, 0);
    assert round[j].pips == dice[j];
    if pips != 0 {
      var m :| 0 <= m < |round| && round[m].pips == pips;
    }
    assert pips == dice[j];
    TopUnique(round, pips, j);
  }

  /// The elimination loop as the source writes it: after a tie the players
  /// left re-roll, but `highest` keeps the peak of the round before, so the
  /// first re-roll below it is dropped whatever the others roll.
  function RunAsWritten(players: seq<nat>, rolls: seq<nat>, highest: nat, i: nat, l: nat, dice: seq<nat>): Result<nat>
    requires |rolls| == |players| >= 1 && l <= 1 && i <= |players| && (|players| > 1 ==> i < |players|)
    decreases |dice|, |players|, 1 - l, |players| - i
  {
    if |players| == 1 then Success(players[0])
    else
      var drop := rolls[i] < highest;
      var players' := if drop then RemoveAt(players, i) else players;
      var rolls' := if drop then RemoveAt(rolls, i) else rolls;
      var highest' := if drop then highest else rolls[i];
      var i' := if drop then i else i + 1;
      if 1 < |players'| && |players'| == i' then
        if l == 1 then
          if |dice| < |players'| then Failure(Undecided)
          else RunAsWritten(players', dice[..|players'|], highest', 0, 0, dice[|players'|..])
        else RunAsWritten(players', rolls', highest', 0, 1, dice)
      else RunAsWritten(players', rolls', highest', i', l, dice)
  }

  /// The decision for `n` players from the script `dice`, as written.
  function AsWritten(n: nat, dice: seq<nat>): Result<nat> {
    if |dice| < n then Failure(Undecided)
    else if n == 0 then Failure(IndexOutOfRange)
    else RunAsWritten(Range(n), dice[..n], dice[0], 1, 0, dice[n..])
  }

  /// Two players tie at six and re-roll five and three: as written, the five
  /// is below the six kept from the tie and is dropped, so the player who
  /// re-rolled three begins; the highest re-roll, five, should win.
  lemma HighestCarriedOver()
    ensures AsWritten(2, [6, 6, 5, 3]) == Success(1)
    ensures Winner(Range(2), [6, 6, 5, 3]) == Success(0)
  {
    TieThenFiveAsWritten();
    TieThenFive();
  }

  lemma TieThenFiveAsWritten()
    ensures AsWritten(2, [6, 6, 5, 3]) == Success(1)
  {
    var dice := [6, 6, 5, 3];
    assert dice[..2] == [6, 6] && dice[2..] == [5, 3];
    assert [5, 3][..2] == [5, 3] && [5, 3][2..] == [];
    assert RemoveAt([0, 1], 0) == [1];
    assert RunAsWritten([0, 1], [5, 3], 6, 0, 0, []) == Success(1);
  }

  lemma TieThenFive()
    ensures Winner(Range(2), [6, 6, 5, 3]) == Success(0)
  {
    var dice := [6, 6, 5, 3];
    assert dice[2..] == [5, 3];
    var round := Deal(Range(2), dice);
    assert round == [Roll(0, 6), Roll(1, 6)];
    PairTop(round);
    var again := Deal([0, 1], [5, 3]);
    assert again == [Roll(0, 5), Roll(1, 3)];
    PairTop(again);
    assert Players(round) == [0, 1];
  }

  /// The peak and the rolls at it, for a round of two.
  lemma PairTop(round: seq<Roll>)
    requires |round| == 2
    ensures Peak(round, 0) == Max(round[0].pips, round[1].pips)
    ensures Top(round, Peak(round, 0)) ==
      (if round[0].pips == round[1].pips then round
       else if round[0].pips > round[1].pips then [round[0]] else [round[1]])
  {
    var first := round[..1];
    assert first[..0] == [];
    var pips := Peak(round, 0);
    assert Peak(first, 0) == round[0].pips;
    assert Top(first, pips) == if round[0].pips == pips then [round[0]] else [];
  }
}
