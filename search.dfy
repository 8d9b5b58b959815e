/**
 * The tree-search AI: a depth-limited search over the plies a player can
 * make, trying each with `test_move`, undoing it, and keeping the candidate
 * whose value map is best for the acting player; and the heuristic that
 * values a position, either a finished game (winners share a bonus) or a
 * running one (edge cards, scores, board and hand potential, relative to the
 * other players).
 *
 * Values are Python floats in the game; here they are exact reals.
 */
module Search {
  import opened Wrappers
  import opened Cards
  import opened Grid
  import opened Boards
  import opened Players
  import opened Games

  /* ---------------------------------------------------------------------- */
  /* Finished game                                                          */
  /* ---------------------------------------------------------------------- */

  /** `maxscore` after the scan: the largest total, or 0 when every total is below 0. */
  function Top(totals: seq<int>): (m: int)
    ensures m >= 0
    ensures forall k :: 0 <= k < |totals| ==> totals[k] <= m
    ensures m == 0 || exists k :: 0 <= k < |totals| && totals[k] == m
  {
    if totals == [] then 0
    else
      var m := Top(totals[..|totals| - 1]);
      if totals[|totals| - 1] > m then totals[|totals| - 1] else m
  }

  /** The indices whose total is `m`, in increasing order. */
  function Tied(totals: seq<int>, m: int): (w: seq<nat>)
    ensures forall k :: k in w <==> 0 <= k < |totals| && totals[k] == m
  {
    if totals == [] then []
    else Tied(totals[..|totals| - 1], m) + (if totals[|totals| - 1] == m then [|totals| - 1] else [])
  }

  /** Strictly increasing, hence without repetition. */
  predicate Increasing(w: seq<nat>)
  {
    forall a, b :: 0 <= a < b < |w| ==> w[a] < w[b]
  }

  /** The tied indices are increasing. */
  lemma {:induction false} TiedIncreasing(totals: seq<int>, m: int)
    ensures Increasing(Tied(totals, m))
  {
    if totals != [] {
      var t := Tied(totals[..|totals| - 1], m);
      var w := Tied(totals, m);
      assert w == t + (if totals[|totals| - 1] == m then [|totals| - 1] else []);
      TiedIncreasing(totals[..|totals| - 1], m);
      forall a, b | 0 <= a < b < |w|
        ensures w[a] < w[b]
      {
        assert w[a] == t[a] && t[a] in t;
        if b < |t| {
          assert w[b] == t[b] && t[a] < t[b];
        } else {
          assert w[b] == |totals| - 1;
        }
      }
    }
  }

  /** The winners: the players whose total is `maxscore`. */
  function Winners(totals: seq<int>): seq<nat>
  {
    Tied(totals, Top(totals))
  }

  /** The winners are exactly the players whose total is at least 0 and at least every other total. */
  lemma WinnersAreTop(totals: seq<int>, k: int)
    ensures k in Winners(totals) <==>
      0 <= k < |totals| && totals[k] >= 0 && forall j :: 0 <= j < |totals| ==> totals[j] <= totals[k]
  {
    var m := Top(totals);
    if 0 <= k < |totals| && totals[k] >= 0 && m != 0 {
      var j :| 0 <= j < |totals| && totals[j] == m;
    }
  }

  /** The winners are in turn order, and each is a player. */
  lemma WinnersOrdered(totals: seq<int>)
    ensures Increasing(Winners(totals))
    ensures forall a :: 0 <= a < |Winners(totals)| ==> Winners(totals)[a] < |totals|
  {
    var w := Winners(totals);
    assert w == Tied(totals, Top(totals));
    TiedIncreasing(totals, Top(totals));
    forall a | 0 <= a < |w|
      ensures w[a] < |totals|
    {
      assert w[a] in w;
    }
  }

  /** `x` added up `n` times. */
  function Times(n: nat, x: real): real
  {
    if n == 0 then 0.0 else Times(n - 1, x) + x
  }

  lemma {:induction false} TimesIs(n: nat, x: real)
    ensures Times(n, x) == n as real * x
  {
    if n > 0 {
      TimesIs(n - 1, x);
      assert n as real * x == (n - 1) as real * x + x;
    }
  }

  /** `10000 / len(winners)`: the winners' equal shares of 10000. */
  function Share(count: nat): (r: real)
    requires count > 0
    ensures r > 0.0 && Times(count, r) == 10000.0
  {
    TimesIs(count, 10000.0 / count as real);
    10000.0 / count as real
  }

  /** Each player's value: -500, plus an equal share of 10000 for each winner. */
  function Shares(n: nat, w: seq<nat>, bonus: real): (v: seq<real>)
    ensures |v| == n
  {
    seq(n, k requires 0 <= k < n => if k in w then -500.0 + bonus else -500.0)
  }

  /**
   * The value of a finished game. Losers get -500 and the winners share
   * 10000; there is no winner (and `10000 / len(winners)` raises) exactly when
   * every total is below 0, because `maxscore` starts at 0.
   */
  function TerminalValues(totals: seq<int>): (r: Result<seq<real>, Fault>)
    ensures r.Err? <==> forall k :: 0 <= k < |totals| ==> totals[k] < 0
    ensures r.Err? ==> r.error == NoWinner
    ensures r.Ok? ==> |r.value| == |totals|
  {
    var w := Winners(totals);
    NoWinnerIff(totals);
    if w == [] then
      Err(NoWinner)
    else
      Ok(Shares(|totals|, w, Share(|w|)))
  }

  /** Some player wins as soon as one total is at least 0. */
  lemma SomeWinner(totals: seq<int>, k: nat)
    requires k < |totals| && totals[k] >= 0
    ensures Winners(totals) != []
  {
    var m := Top(totals);
    if m == 0 {
      assert k in Winners(totals);
    } else {
      var j :| 0 <= j < |totals| && totals[j] == m;
      assert j in Winners(totals);
    }
  }

  /** There is no winner exactly when every total is below 0. */
  lemma NoWinnerIff(totals: seq<int>)
    ensures Winners(totals) == [] <==> forall k :: 0 <= k < |totals| ==> totals[k] < 0
  {
    if forall k :: 0 <= k < |totals| ==> totals[k] < 0 {
      TiedNone(totals, Top(totals));
    } else {
      var k :| 0 <= k < |totals| && totals[k] >= 0;
      SomeWinner(totals, k);
    }
  }

  /** Nobody ties at a total above all of them. */
  lemma {:induction false} TiedNone(totals: seq<int>, m: int)
    requires forall k :: 0 <= k < |totals| ==> totals[k] < m
    ensures Tied(totals, m) == []
  {
    if totals != [] {
      TiedNone(totals[..|totals| - 1], m);
    }
  }

  /** One more total: it raises the top or ties with it or is below it. */
  lemma ScanStep(totals: seq<int>, i: nat)
    requires i < |totals|
    ensures var top := Top(totals[..i]);
      && Top(totals[..i + 1]) == (if totals[i] > top then totals[i] else top)
      && Tied(totals[..i + 1], top) == Tied(totals[..i], top) + (if totals[i] == top then [i] else [])
      && (totals[i] > top ==> Tied(totals[..i + 1], totals[i]) == [i])
  {
    var pre := totals[..i];
    assert totals[..i + 1][..i] == pre;
    if totals[i] > Top(pre) {
      TiedNone(pre, totals[i]);
    }
  }

  /** The scan of the totals in turn order: a higher total replaces the winners, an equal one joins them. */
  method ScanWinners(totals: seq<int>) returns (winners: seq<nat>)
    ensures winners == Tied(totals, Top(totals))
  {
    var maxscore := 0;
    winners := [];
    for i := 0 to |totals|
      invariant maxscore == Top(totals[..i]) && winners == Tied(totals[..i], maxscore)
    {
      ScanStep(totals, i);
      if totals[i] > maxscore {
        maxscore := totals[i];
        winners := [i];
      } else if totals[i] == maxscore {
        winners := winners + [i];
      }
    }
    assert totals[..|totals|] == totals;
  }

  /** One more winner adds the bonus to that player's value. */
  lemma SharesAdd(n: nat, w: seq<nat>, x: nat, bonus: real)
    requires x < n && x !in w
    ensures Shares(n, w + [x], bonus) == Shares(n, w, bonus)[x := Shares(n, w, bonus)[x] + bonus]
  {
    var u, v := Shares(n, w + [x], bonus), Shares(n, w, bonus);
    forall k | 0 <= k < n
      ensures u[k] == v[x := v[x] + bonus][k]
    {
      assert k in w + [x] <==> k in w || k == x;
    }
  }

  /** The terminal branch of `heuristic_eval`: the winners, then the bonus shared among them. */
  method TerminalEval(totals: seq<int>) returns (r: Result<seq<real>, Fault>)
    ensures r == TerminalValues(totals)
  {
    var winners := ScanWinners(totals);
    if |winners| == 0 {
      return Err(NoWinner);
    }
    assert winners == Winners(totals);
    WinnersOrdered(totals);
    var bonus := Share(|winners|);
    var values := seq(|totals|, _ => -500.0);
    assert values == Shares(|totals|, [], bonus);
    for j := 0 to |winners|
      invariant values == Shares(|totals|, winners[..j], bonus)
    {
      assert winners[j] !in winners[..j] by {
        forall t | 0 <= t < j
          ensures winners[..j][t] != winners[j]
        {
          assert winners[t] < winners[j];
        }
      }
      assert winners[..j + 1] == winners[..j] + [winners[j]];
      SharesAdd(|totals|, winners[..j], winners[j], bonus);
      values := values[winners[j] := values[winners[j]] + bonus];
    }
    assert winners[..|winners|] == winners;
    return Ok(values);
  }

  /** A winner is valued above every player who did not win, and all winners alike. */
  lemma WinnersValuedAbove(totals: seq<int>, i: nat, j: nat)
    requires TerminalValues(totals).Ok? && i < |totals| && j < |totals|
    requires i in Winners(totals)
    ensures j in Winners(totals) ==> TerminalValues(totals).value[i] == TerminalValues(totals).value[j]
    ensures j !in Winners(totals) ==> TerminalValues(totals).value[i] > TerminalValues(totals).value[j]
  {
    var w := Winners(totals);
    assert TerminalValues(totals).value == Shares(|totals|, w, Share(|w|));
  }

  /** The sum of a sequence of values. */
  function Sum(v: seq<real>): real
  {
    if v == [] then 0.0 else Sum(v[..|v| - 1]) + v[|v| - 1]
  }

  /** Adding `b` to one entry adds `b` to the sum. */
  lemma {:induction false} SumBump(v: seq<real>, i: nat, b: real)
    requires i < |v|
    ensures Sum(v[i := v[i] + b]) == Sum(v) + b
  {
    var u := v[i := v[i] + b];
    if i == |v| - 1 {
      assert u[..|u| - 1] == v[..|v| - 1];
    } else {
      assert u[..|u| - 1] == v[..|v| - 1][i := v[i] + b];
      SumBump(v[..|v| - 1], i, b);
    }
  }

  /** n copies of `c` add up to n times `c`. */
  lemma {:induction false} SumConst(n: nat, c: real)
    ensures Sum(seq(n, _ => c)) == Times(n, c)
  {
    if n > 0 {
      assert seq(n, _ => c)[..n - 1] == seq(n - 1, _ => c);
      SumConst(n - 1, c);
    }
  }

  /** The shares add up to n times the base value plus the bonus once per winner. */
  lemma {:induction false} SharesSum(n: nat, w: seq<nat>, bonus: real)
    requires Increasing(w) && forall k :: 0 <= k < |w| ==> w[k] < n
    ensures Sum(Shares(n, w, bonus)) == Times(n, -500.0) + Times(|w|, bonus)
  {
    if w == [] {
      assert Shares(n, w, bonus) == seq(n, _ => -500.0);
      SumConst(n, -500.0);
    } else {
      var x, w' := w[|w| - 1], w[..|w| - 1];
      assert x !in w' by {
        forall t | 0 <= t < |w'|
          ensures w'[t] != x
        {
          assert w[t] < w[|w| - 1];
        }
      }
      assert w == w' + [x];
      SharesAdd(n, w', x, bonus);
      SharesSum(n, w', bonus);
      SumBump(Shares(n, w', bonus), x, bonus);
    }
  }

  /** The values of a finished game always add up to 10000 - 500 per player. */
  lemma TerminalValuesSum(totals: seq<int>)
    requires TerminalValues(totals).Ok?
    ensures Sum(TerminalValues(totals).value) == 10000.0 - 500.0 * |totals| as real
  {
    var w := Winners(totals);
    WinnersOrdered(totals);
    SharesSum(|totals|, w, Share(|w|));
    TimesIs(|totals|, -500.0);
  }

  /** Three players finishing on 7, 7 and 3 share the win between the first two. */
  lemma TieSharesTheBonus()
    ensures TerminalValues([7, 7, 3]) == Ok([4500.0, 4500.0, -500.0])
  {
    var t := [7, 7, 3];
    assert t[..2] == [7, 7] && t[..2][..1] == [7] && t[..2][..1][..0] == [];
    assert Top([]) == 0 && Top([7]) == 7 && Top([7, 7]) == 7 && Top(t) == 7;
    assert Winners(t) == [0, 1];
    assert Share(2) == 5000.0;
    assert Shares(3, [0, 1], 5000.0) == [4500.0, 4500.0, -500.0];
  }

  /* ---------------------------------------------------------------------- */
  /* Running game                                                           */
  /* ---------------------------------------------------------------------- */

  /**
   * The cells the edge bonus looks at, with their weights, in the order they
   * are visited: on the top and bottom rows the two corners (0.2) and the
   * three central cells (0.5); then on the left and right columns the three
   * central cells (0.5). On a 3x3 board the central cells include the corners,
   * which are then counted more than once.
   */
  function EdgeCells(n: nat): (r: seq<(nat, nat, real)>)
    requires n >= 3
    ensures |r| == 16 && forall k :: 0 <= k < |r| ==> r[k].0 < n && r[k].1 < n
  {
    var last, c := n - 1, n / 2;
    [(0, 0, 0.2), (0, last, 0.2), (0, c - 1, 0.5), (0, c, 0.5), (0, c + 1, 0.5),
     (last, 0, 0.2), (last, last, 0.2), (last, c - 1, 0.5), (last, c, 0.5), (last, c + 1, 0.5),
     (c - 1, 0, 0.5), (c, 0, 0.5), (c + 1, 0, 0.5), (c - 1, last, 0.5), (c, last, 0.5), (c + 1, last, 0.5)]
  }

  /** One 0 per player. */
  function Zeros(n: nat): (r: seq<real>)
    ensures |r| == n && forall k :: 0 <= k < n ==> r[k] == 0.0
  {
    seq(n, _ => 0.0)
  }

  /**
   * Adds each listed cell's weighted card value to its owner's entry; cards
   * of no player count for nothing, and a card owned by someone who is not a
   * player of the game raises.
   */
  function AddEdges(g: Grid, n: nat, values: seq<real>, cells: seq<(nat, nat, real)>): (r: Result<seq<real>, Fault>)
    requires IsSquare(g, n) && forall k :: 0 <= k < |cells| ==> cells[k].0 < n && cells[k].1 < n
    ensures r.Ok? ==> |r.value| == |values|
    ensures r.Err? ==> r.error == UnknownOwner
    decreases cells
  {
    if cells == [] then Ok(values)
    else
      var card := g[cells[0].0][cells[0].1];
      if Stranger(card, |values|) then Err(UnknownOwner)
      else AddEdges(g, n, AddCell(values, card, cells[0].2), cells[1..])
  }

  /** A card owned by someone who is not one of the game's `players` players. */
  predicate Stranger(card: Card, players: nat)
  {
    card.owner.Some? && card.owner.value >= players
  }

  /** The edge loops raise exactly when one of the visited cards belongs to a stranger. */
  lemma {:induction false} AddEdgesFails(g: Grid, n: nat, values: seq<real>, cells: seq<(nat, nat, real)>)
    requires IsSquare(g, n) && forall k :: 0 <= k < |cells| ==> cells[k].0 < n && cells[k].1 < n
    ensures AddEdges(g, n, values, cells).Err? <==>
      exists k :: 0 <= k < |cells| && Stranger(g[cells[k].0][cells[k].1], |values|)
    decreases cells
  {
    if cells != [] {
      var card, rest := g[cells[0].0][cells[0].1], cells[1..];
      AddEdgesFails(g, n, AddCell(values, card, cells[0].2), rest);
      if k :| 0 <= k < |cells| && Stranger(g[cells[k].0][cells[k].1], |values|) {
        if k > 0 {
          assert rest[k - 1] == cells[k];
        }
      }
      if k :| 0 <= k < |rest| && Stranger(g[rest[k].0][rest[k].1], |values|) {
        assert cells[k + 1] == rest[k];
      }
    }
  }

  /** `values[card.player] += weight * card.value` on the entries of the players (None is dropped later). */
  function AddCell(values: seq<real>, card: Card, weight: real): (r: seq<real>)
    ensures |r| == |values|
  {
    if card.owner.Some? && card.owner.value < |values|
    then values[card.owner.value := values[card.owner.value] + weight * card.value as real]
    else values
  }

  /** The edge loops of `heuristic_eval` over the listed cells of the grid `g` of side `n`, for `players` players. */
  method EdgeValues(g: Grid, n: nat, players: nat, cells: seq<(nat, nat, real)>) returns (r: Result<seq<real>, Fault>)
    requires IsSquare(g, n) && forall k :: 0 <= k < |cells| ==> cells[k].0 < n && cells[k].1 < n
    ensures r == AddEdges(g, n, Zeros(players), cells)
  {
    var values := Zeros(players);
    for i := 0 to |cells|
      invariant |values| == players
      invariant AddEdges(g, n, values, cells[i..]) == AddEdges(g, n, Zeros(players), cells)
    {
      var (x, y, w) := cells[i];
      var card := g[x][y];
      assert cells[i..][0] == cells[i] && cells[i..][1..] == cells[i + 1..];
      assert AddEdges(g, n, values, cells[i..]) ==
        if Stranger(card, players) then Err(UnknownOwner) else AddEdges(g, n, AddCell(values, card, w), cells[i + 1..]);
      if Stranger(card, players) {
        return Err(UnknownOwner);
      }
      values := AddCell(values, card, w);
    }
    assert cells[|cells|..] == [];
    return Ok(values);
  }

  /** The sum of the values of the cards in the hand that are not yet played. */
  function Potential(hand: seq<Card>, played: set<nat>): int
  {
    if hand == [] then 0
    else (if hand[0].id in played then 0 else hand[0].value) + Potential(hand[1..], played)
  }

  /**
   * What a player adds to their edge value: their total, 0.4 times the board
   * score weighted by how soon they play again, and 0.4 times their hand's
   * potential.
   */
  function Term(total: int, ring: int, players: nat, wait: int, potential: int): real
  {
    total as real + 0.4 * (ring * (1 + players - wait)) as real + 0.4 * potential as real
  }

  /** Each value doubled, less `c`. */
  function DoubledLess(v: seq<real>, c: real): (r: seq<real>)
    ensures |r| == |v| && forall k :: 0 <= k < |v| ==> r[k] == 2.0 * v[k] - c
  {
    seq(|v|, k requires 0 <= k < |v| => 2.0 * v[k] - c)
  }

  /**
   * Each value doubled minus the sum of all: the player's value less the
   * others'. Differences double, so the order of the players is kept.
   */
  function Relative(v: seq<real>): (r: seq<real>)
    ensures |r| == |v|
    ensures forall i, j :: 0 <= i < |v| && 0 <= j < |v| ==> r[i] - r[j] == 2.0 * (v[i] - v[j])
  {
    DoubledLess(v, Sum(v))
  }

  /** Summing the doubled values less `c` each. */
  lemma {:induction false} SumDoubledLess(v: seq<real>, c: real)
    ensures Sum(DoubledLess(v, c)) == 2.0 * Sum(v) - Times(|v|, c)
  {
    if v != [] {
      var v' := v[..|v| - 1];
      var u, u' := DoubledLess(v, c), DoubledLess(v', c);
      assert forall k :: 0 <= k < |v'| ==> u[..|v| - 1][k] == u'[k];
      assert u[..|v| - 1] == u';
      SumDoubledLess(v', c);
    }
  }

  /** The relative values sum to twice the plain sum less N copies of it: between two players they cancel out. */
  lemma RelativeSum(v: seq<real>)
    ensures Sum(Relative(v)) == 2.0 * Sum(v) - Times(|v|, Sum(v))
    ensures |v| == 2 ==> Sum(Relative(v)) == 0.0
  {
    SumDoubledLess(v, Sum(v));
  }

  /**
   * What the search reads of the game and never changes: the board's size,
   * joker index, listed blanks and final flag, and each player's hand, suit,
   * score, card options and AI flag, in turn order.
   */
  datatype Setting = Setting(n: nat, jp: nat, blanks: seq<Card>, final: bool, hands: seq<seq<Card>>,
                             suits: seq<string>, scores: seq<int>, options: seq<int>, ai: seq<bool>)

  /** What a test move and its undo change: the grid and the shared played and discarded flags. */
  datatype Position = Position(grid: Grid, played: set<nat>, discarded: set<nat>)

  /** A setting a valid game can have: the board geometry, at least one player, one entry per player in each list. */
  predicate SettingOk(c: Setting)
  {
    && Geometry(c.n, c.jp) && 0 < |c.hands|
    && |c.suits| == |c.hands| && |c.scores| == |c.hands| && |c.options| == |c.hands| && |c.ai| == |c.hands|
    && forall k :: 0 <= k < |c.blanks| ==> BlankFits(c.blanks[k], c.n, c.jp)
  }

  /** The setting of a game. */
  ghost function SettingOf(game: Game): (c: Setting)
    reads game.board`blanks, game.board`final, game.players
    ensures c.n == game.board.size && c.jp == game.board.jokerPos
    ensures c.blanks == game.board.blanks && c.final == game.board.final
    ensures |c.hands| == |c.suits| == |c.scores| == |c.options| == |c.ai| == |game.players|
    ensures forall i :: 0 <= i < |game.players| ==>
      && c.hands[i] == game.players[i].hand && c.suits[i] == game.players[i].suit
      && c.scores[i] == game.players[i].score && c.options[i] == game.players[i].cardOptions
      && c.ai[i] == game.players[i].isAI
    ensures && (forall k :: 0 <= k < |game.board.blanks| ==> BlankFits(game.board.blanks[k], game.board.size, game.board.jokerPos))
            && Geometry(game.board.size, game.board.jokerPos) && 0 < |game.players|
            ==> SettingOk(c)
  {
    var ps := game.players;
    Setting(game.board.size, game.board.jokerPos, game.board.blanks, game.board.final,
            seq(|ps|, i requires 0 <= i < |ps| reads ps => ps[i].hand),
            seq(|ps|, i requires 0 <= i < |ps| => ps[i].suit),
            seq(|ps|, i requires 0 <= i < |ps| reads ps => ps[i].score),
            seq(|ps|, i requires 0 <= i < |ps| => ps[i].cardOptions),
            seq(|ps|, i requires 0 <= i < |ps| => ps[i].isAI))
  }

  /** The position of a game. */
  function PositionOf(game: Game): Position
    reads game.board`cards, game.flags
  {
    Position(game.board.cards, game.flags.played, game.flags.discarded)
  }

  /** Each side score plus the player's own score. */
  function Totals(scores: seq<int>, alter: seq<int>): (r: seq<int>)
    requires |scores| == |alter|
    ensures |r| == |alter| && forall i :: 0 <= i < |alter| ==> r[i] == scores[i] + alter[i]
  {
    seq(|alter|, i requires 0 <= i < |alter| == |scores| => scores[i] + alter[i])
  }

  /** Each player's term on a position, with `p` to play next. */
  function Terms(c: Setting, s: Position, alter: seq<int>, p: nat): (r: seq<real>)
    requires SettingOk(c) && IsSquare(s.grid, c.n) && |alter| == |c.hands|
    ensures |r| == |c.hands|
    ensures forall i :: 0 <= i < |r| ==>
      r[i] == Term(c.scores[i] + alter[i], RingScore(s.grid, c.n, c.jp, c.suits[i]), |r|, (i - p) % |r|,
                   Potential(c.hands[i], s.played))
  {
    var n := |c.hands|;
    seq(n, i requires 0 <= i < n && SettingOk(c) && IsSquare(s.grid, c.n) && |alter| == n =>
      Term(c.scores[i] + alter[i], RingScore(s.grid, c.n, c.jp, c.suits[i]), n, (i - p) % n, Potential(c.hands[i], s.played)))
  }

  /** Pointwise sum. */
  function Plus(a: seq<real>, b: seq<real>): (r: seq<real>)
    requires |a| == |b|
    ensures |r| == |a| && forall k :: 0 <= k < |a| ==> r[k] == a[k] + b[k]
  {
    seq(|a|, k requires 0 <= k < |a| == |b| => a[k] + b[k])
  }

  /** The value of a running game: edge values plus terms, relative to the other players; a finalised board raises. */
  function Estimate(c: Setting, s: Position, alter: seq<int>, p: nat): (r: Result<seq<real>, Fault>)
    requires SettingOk(c) && IsSquare(s.grid, c.n) && |alter| == |c.hands|
    ensures r.Ok? ==> |r.value| == |c.hands|
  {
    match AddEdges(s.grid, c.n, Zeros(|c.hands|), EdgeCells(c.n))
    case Err(e) => Err(e)
    case Ok(edge) =>
      if c.final then Err(ScoredFinalisedBoard)
      else Ok(Relative(Plus(edge, Terms(c, s, alter, p))))
  }

  /** `heuristic_eval` on a position: the terminal values of the totals when the game is over, else the estimate. */
  function Leaf(c: Setting, s: Position, alter: seq<int>, p: nat, over: bool): (r: Result<seq<real>, Fault>)
    requires SettingOk(c) && IsSquare(s.grid, c.n) && |alter| == |c.hands|
    ensures r.Ok? ==> |r.value| == |c.hands|
  {
    if over then TerminalValues(Totals(c.scores, alter)) else Estimate(c, s, alter, p)
  }

  /** The per-player loop: each player's term added to their edge value; scoring a finalised board raises. */
  method AddTerms(game: Game, alter: seq<int>, p: nat, edge: seq<real>) returns (r: Result<seq<real>, Fault>)
    requires game.Valid() && |alter| == |game.players| == |edge|
    ensures game.board.final ==> r == Err(ScoredFinalisedBoard)
    ensures !game.board.final ==> r == Ok(Plus(edge, Terms(SettingOf(game), PositionOf(game), alter, p)))
  {
    var n := |game.players|;
    ghost var terms := Terms(SettingOf(game), PositionOf(game), alter, p);
    var values := edge;
    for i := 0 to n
      invariant |values| == n
      invariant i > 0 ==> !game.board.final
      invariant forall k :: 0 <= k < n ==> values[k] == edge[k] + if k < i then terms[k] else 0.0
    {
      var player := game.players[i];
      var s := game.board.Score(player.suit);
      if s.Err? {
        return Err(s.error);
      }
      var wait := (i - p) % n;
      var total := player.score + alter[i];
      var potential := Potential(player.hand, game.flags.played);
      values := values[i := values[i] + Term(total, s.value, n, wait, potential)];
    }
    assert values == Plus(edge, terms);
    return Ok(values);
  }

  /** `values[k] = 2 * v - s` for every player, with `s` the sum before the loop. */
  method MakeRelative(v: seq<real>) returns (values: seq<real>)
    ensures values == Relative(v)
  {
    values := v;
    var s := Sum(v);
    for k := 0 to |v|
      invariant |values| == |v|
      invariant forall j :: 0 <= j < |v| ==> values[j] == if j < k then 2.0 * v[j] - s else v[j]
    {
      values := values[k := 2.0 * values[k] - s];
    }
  }

  /** The running-game branch of `heuristic_eval`. */
  method RunningEval(game: Game, alter: seq<int>, p: nat) returns (r: Result<seq<real>, Fault>)
    requires game.Valid() && |alter| == |game.players|
    ensures r == Estimate(SettingOf(game), PositionOf(game), alter, p)
  {
    var edge := EdgeValues(game.board.cards, game.board.size, |game.players|, EdgeCells(game.board.size));
    if edge.Err? {
      return Err(edge.error);
    }
    var summed := AddTerms(game, alter, p, edge.value);
    if summed.Err? {
      return Err(summed.error);
    }
    var values := MakeRelative(summed.value);
    return Ok(values);
  }

  /** `heuristic_eval`: the value of the position for each player, with `p` to play next. */
  method HeuristicEval(game: Game, alter: seq<int>, p: nat, over: bool) returns (r: Result<seq<real>, Fault>)
    requires game.Valid() && |alter| == |game.players|
    ensures over ==> r == TerminalValues(Totals(SettingOf(game).scores, alter))
    ensures !over ==> r == Estimate(SettingOf(game), PositionOf(game), alter, p)
  {
    if over {
      var scores := seq(|game.players|, i requires 0 <= i < |game.players| reads game.players => game.players[i].score);
      assert scores == SettingOf(game).scores;
      r := TerminalEval(Totals(scores, alter));
    } else {
      r := RunningEval(game, alter, p);
    }
  }

  /* ---------------------------------------------------------------------- */
  /* Tree search                                                            */
  /* ---------------------------------------------------------------------- */

  /** No player holds the joker: the search only ever tries cards from hands. */
  ghost predicate JokerFreeHands(game: Game)
    reads game.players
  {
    forall i, k :: 0 <= i < |game.players| && 0 <= k < |game.players[i].hand| ==>
      !game.players[i].hand[k].kind.Joker?
  }

  /** `get_empty` on a position: the cells of the listed blanks not yet discarded. */
  function EmptyAt(c: Setting, s: Position): (r: seq<Pos>)
    requires SettingOk(c)
    ensures forall q :: q in r ==> 1 <= q.0 <= c.n && 1 <= q.1 <= c.n
  {
    PendingPositions(c.blanks, s.discarded)
  }

  /** What `enum_plies` gives player `p` on a position. */
  function OptionsAt(c: Setting, s: Position, p: nat): (r: Result<seq<Ply>, Fault>)
    requires SettingOk(c) && p < |c.hands|
    ensures r.Ok? ==> 0 < |r.value|
  {
    var r := EnumPlies(c.hands[p], c.options[p], EmptyAt(c, s), c.n);
    if r.Ok? then EnumPliesNonEmpty(c.hands[p], c.options[p], EmptyAt(c, s), c.n); r else r
  }

  /** Every card of the hand is flagged played (true of an empty hand). */
  predicate Done(hand: seq<Card>, played: set<nat>)
  {
    forall k :: 0 <= k < |hand| ==> hand[k].id in played
  }

  /** The side scores after a test move on grid `g`: every player's ring score added when the game ends, else only `q`'s. */
  function SideScores(c: Setting, g: Grid, alter: seq<int>, q: nat, over: bool): (r: seq<int>)
    requires SettingOk(c) && IsSquare(g, c.n) && |alter| == |c.hands| && q < |c.hands|
    ensures |r| == |alter|
    ensures forall i :: 0 <= i < |r| ==>
      r[i] == alter[i] + if over || i == q then RingScore(g, c.n, c.jp, c.suits[i]) else 0
  {
    if over then seq(|alter|, i requires 0 <= i < |alter| && SettingOk(c) && IsSquare(g, c.n) && |alter| == |c.hands| =>
      alter[i] + RingScore(g, c.n, c.jp, c.suits[i]))
    else alter[q := alter[q] + RingScore(g, c.n, c.jp, c.suits[q])]
  }

  /** A test move that went through: the position it leaves, the side scores, who plays next, whether the game ends, and the discard's id. */
  datatype Trial = Trial(after: Position, alter: seq<int>, next: nat, over: bool, discard: nat)

  /**
   * `test_move` as the search sees it, once the board has answered the ply
   * with `m`. A refused ply raises: as `AIError` for an AI player, and, for a
   * human one, because the search cannot unpack the refusal.
   */
  function TrialOf(c: Setting, s: Position, ply: Ply, p: nat, alter: seq<int>, m: Result<Move, UpdateError>): (r: Result<Trial, Fault>)
    requires SettingOk(c) && p < |c.hands| && |alter| == |c.hands|
    requires m.Ok? ==> IsSquare(m.value.grid, c.n)
    ensures r.Ok? <==> m.Ok? && !c.final
    ensures r.Ok? ==> r.value.after == Position(m.value.grid, s.played + {ply.card.id}, s.discarded + {m.value.discard.id})
    ensures r.Ok? ==> r.value.discard == m.value.discard.id && r.value.next == (p + 1) % |c.hands| && |r.value.alter| == |alter|
  {
    match m
    case Err(e) => Err(if c.ai[p] then AIError(e) else Refused(e))
    case Ok(mv) =>
      if c.final then Err(ScoredFinalisedBoard)
      else
        var q := (p + 1) % |c.hands|;
        var played := s.played + {ply.card.id};
        var over := Done(c.hands[q], played);
        Ok(Trial(Position(mv.grid, played, s.discarded + {mv.discard.id}), SideScores(c, mv.grid, alter, q, over), q, over, mv.discard.id))
  }

  /** `test_move` on a position: the grid as `update` leaves it, the card flagged played and the discard discarded. */
  function TestAt(c: Setting, s: Position, ply: Ply, p: nat, alter: seq<int>): (r: Result<Trial, Fault>)
    requires SettingOk(c) && IsSquare(s.grid, c.n) && p < |c.hands| && |alter| == |c.hands|
    ensures r.Ok? ==> IsSquare(r.value.after.grid, c.n) && r.value.next < |c.hands| && |r.value.alter| == |alter|
    ensures r.Ok? ==> r.value.after.played == s.played + {ply.card.id} && r.value.after.discarded == s.discarded + {r.value.discard}
  {
    var m := Apply(s.grid, c.n, c.jp, EmptyAt(c, s), ply.card, ply.row, ply.column);
    if m.Ok? then
      ApplyKeepsSquare(s.grid, c.n, c.jp, EmptyAt(c, s), ply.card, ply.row, ply.column);
      TrialOf(c, s, ply, p, alter, m)
    else TrialOf(c, s, ply, p, alter, m)
  }

  /** The index of the first value map that is greatest for player `p`. */
  function BestOf(vals: seq<seq<real>>, p: nat): (r: nat)
    requires 0 < |vals| && forall k :: 0 <= k < |vals| ==> p < |vals[k]|
    ensures r < |vals|
    ensures forall k :: 0 <= k < |vals| ==> vals[k][p] <= vals[r][p]
    ensures forall k :: 0 <= k < r ==> vals[k][p] < vals[r][p]
    decreases |vals|
  {
    if |vals| == 1 then 0
    else
      var b := BestOf(vals[..|vals| - 1], p);
      if vals[|vals| - 1][p] > vals[b][p] then |vals| - 1 else b
  }

  /** Only one index is first among the maximal ones. */
  lemma FirstMaximalUnique(vals: seq<seq<real>>, p: nat, i: nat)
    requires 0 < |vals| && forall k :: 0 <= k < |vals| ==> p < |vals[k]|
    requires i < |vals| && forall k :: 0 <= k < |vals| ==> vals[k][p] <= vals[i][p]
    requires forall k :: 0 <= k < i ==> vals[k][p] < vals[i][p]
    ensures i == BestOf(vals, p)
  {
  }

  /** What `tree_search` finds on a position: the candidate plies, each one's value map, and the position it leaves. */
  datatype Found = Found(plies: seq<Ply>, vals: seq<seq<real>>, after: Position)

  /**
   * What a search can leave behind of a position: the same grid, and no flag
   * set that was not set before (the undo only ever clears flags).
   */
  predicate Within(a: Position, b: Position)
  {
    a.grid == b.grid && a.played <= b.played && a.discarded <= b.discarded
  }

  /**
   * One candidate on a position: test it, value the result (by the heuristic
   * when the game ends or the depth is spent, by the best map of a search one
   * level deeper otherwise), then undo. The undo puts the grid back but only
   * clears the card's and the discard's flags, so the position it leaves can
   * differ from the one it started on.
   */
  function PlyValue(c: Setting, s: Position, depth: nat, p: nat, alter: seq<int>, ply: Ply): (r: Result<(seq<real>, Position), Fault>)
    requires SettingOk(c) && IsSquare(s.grid, c.n) && p < |c.hands| && |alter| == |c.hands|
    ensures r.Ok? ==> |r.value.0| == |c.hands| && Within(r.value.1, s)
    ensures r.Ok? ==> TestAt(c, s, ply, p, alter).Ok? && ply.card.id !in r.value.1.played
                      && TestAt(c, s, ply, p, alter).value.discard !in r.value.1.discarded
    decreases depth, 2
  {
    match TestAt(c, s, ply, p, alter)
    case Err(e) => Err(e)
    case Ok(t) =>
      match Valued(c, t, depth)
      case Err(e) => Err(e)
      case Ok((v, left)) => Ok((v, Position(s.grid, left.played - {ply.card.id}, left.discarded - {t.discard})))
  }

  /** The value map of a tested position and the position the valuation leaves. */
  function Valued(c: Setting, t: Trial, depth: nat): (r: Result<(seq<real>, Position), Fault>)
    requires SettingOk(c) && IsSquare(t.after.grid, c.n) && t.next < |c.hands| && |t.alter| == |c.hands|
    ensures r.Ok? ==> |r.value.0| == |c.hands| && Within(r.value.1, t.after)
    ensures r.Ok? && (t.over || depth == 0) ==> r.value.1 == t.after
    decreases depth, 0
  {
    if t.over || depth == 0 then
      match Leaf(c, t.after, t.alter, t.next, t.over)
      case Err(e) => Err(e)
      case Ok(v) => Ok((v, t.after))
    else
      match SearchAt(c, t.after, depth - 1, t.next, t.alter)
      case Err(e) => Err(e)
      case Ok(f) => Ok((f.vals[BestOf(f.vals, t.next)], f.after))
  }

  /** The candidates in order, each tried on the position the previous one left. */
  function ScanAt(c: Setting, s: Position, depth: nat, p: nat, alter: seq<int>, cands: seq<Ply>): (r: Result<(seq<seq<real>>, Position), Fault>)
    requires SettingOk(c) && IsSquare(s.grid, c.n) && p < |c.hands| && |alter| == |c.hands|
    ensures r.Ok? ==> |r.value.0| == |cands| && Within(r.value.1, s)
    ensures r.Ok? ==> forall k :: 0 <= k < |cands| ==> |r.value.0[k]| == |c.hands|
    decreases depth, 3, |cands|
  {
    if cands == [] then Ok(([], s))
    else
      match ScanAt(c, s, depth, p, alter, cands[..|cands| - 1])
      case Err(e) => Err(e)
      case Ok((vals, mid)) =>
        match PlyValue(c, mid, depth, p, alter, cands[|cands| - 1])
        case Err(e) => Err(e)
        case Ok((v, next)) => Ok((vals + [v], next))
  }

  /** `tree_search` on a position: every ply `enum_plies` offers, valued in turn. */
  function SearchAt(c: Setting, s: Position, depth: nat, p: nat, alter: seq<int>): (r: Result<Found, Fault>)
    requires SettingOk(c) && IsSquare(s.grid, c.n) && p < |c.hands| && |alter| == |c.hands|
    ensures r.Ok? ==> 0 < |r.value.plies| == |r.value.vals| && Within(r.value.after, s)
    ensures r.Ok? ==> forall k :: 0 <= k < |r.value.vals| ==> |r.value.vals[k]| == |c.hands|
    decreases depth, 4
  {
    match OptionsAt(c, s, p)
    case Err(e) => Err(e)
    case Ok(cands) =>
      match ScanAt(c, s, depth, p, alter, cands)
      case Err(e) => Err(e)
      case Ok((vals, after)) => Ok(Found(cands, vals, after))
  }

  /** A candidate that raises ends the scan with its error, whatever follows. */
  lemma {:induction false} ScanErrSticks(c: Setting, s: Position, depth: nat, p: nat, alter: seq<int>, cands: seq<Ply>, k: nat)
    requires SettingOk(c) && IsSquare(s.grid, c.n) && p < |c.hands| && |alter| == |c.hands|
    requires k <= |cands| && ScanAt(c, s, depth, p, alter, cands[..k]).Err?
    ensures ScanAt(c, s, depth, p, alter, cands) == ScanAt(c, s, depth, p, alter, cands[..k])
    decreases |cands|
  {
    if k < |cands| {
      var init := cands[..|cands| - 1];
      assert init[..k] == cands[..k];
      ScanErrSticks(c, s, depth, p, alter, init, k);
    } else {
      assert cands[..k] == cands;
    }
  }

  /** The scan of one more candidate: its value is appended and it leaves its own position, or its error ends the scan. */
  lemma ScanOneMore(c: Setting, s: Position, depth: nat, p: nat, alter: seq<int>, cands: seq<Ply>, k: nat,
                 vals: seq<seq<real>>, mid: Position)
    requires SettingOk(c) && IsSquare(s.grid, c.n) && p < |c.hands| && |alter| == |c.hands| && k < |cands|
    requires ScanAt(c, s, depth, p, alter, cands[..k]) == Ok((vals, mid))
    ensures IsSquare(mid.grid, c.n)
    ensures var v := PlyValue(c, mid, depth, p, alter, cands[k]);
      && (v.Err? ==> ScanAt(c, s, depth, p, alter, cands[..k + 1]) == Err(v.error))
      && (v.Ok? ==> ScanAt(c, s, depth, p, alter, cands[..k + 1]) == Ok((vals + [v.value.0], v.value.1)))
  {
    var upto := cands[..k + 1];
    assert upto[..|upto| - 1] == cands[..k] && upto[|upto| - 1] == cands[k] && upto != [];
  }

  /**
   * At depth 0 a candidate leaves the grid as it was and the flags less the
   * card's and the discard's ids: the position it started on exactly when
   * neither was flagged before.
   */
  lemma PlyRestores(c: Setting, s: Position, p: nat, alter: seq<int>, ply: Ply)
    requires SettingOk(c) && IsSquare(s.grid, c.n) && p < |c.hands| && |alter| == |c.hands|
    requires PlyValue(c, s, 0, p, alter, ply).Ok?
    ensures TestAt(c, s, ply, p, alter).Ok?
    ensures var t := TestAt(c, s, ply, p, alter).value;
      && PlyValue(c, s, 0, p, alter, ply).value.1 == Position(s.grid, s.played - {ply.card.id}, s.discarded - {t.discard})
      && (PlyValue(c, s, 0, p, alter, ply).value.1 == s <==> ply.card.id !in s.played && t.discard !in s.discarded)
  {
    var t := UndoneAtZero(c, s, p, alter, ply);
    ClearedFlags(s, ply.card.id, t.discard);
  }

  /** Setting two flags and clearing them again gives the flags less those two, which are the old ones exactly when neither was set. */
  lemma ClearedFlags(s: Position, card: nat, discard: nat)
    ensures var left := Position(s.grid, (s.played + {card}) - {card}, (s.discarded + {discard}) - {discard});
      && left == Position(s.grid, s.played - {card}, s.discarded - {discard})
      && (left == s <==> card !in s.played && discard !in s.discarded)
  {
    var left := Position(s.grid, s.played - {card}, s.discarded - {discard});
    if left == s {
      assert card !in left.played && discard !in left.discarded;
    }
  }

  /** At depth 0 the valuation leaves the tested position, so the undo only has the flags and the grid to put back. */
  lemma UndoneAtZero(c: Setting, s: Position, p: nat, alter: seq<int>, ply: Ply) returns (t: Trial)
    requires SettingOk(c) && IsSquare(s.grid, c.n) && p < |c.hands| && |alter| == |c.hands|
    requires PlyValue(c, s, 0, p, alter, ply).Ok?
    ensures TestAt(c, s, ply, p, alter) == Ok(t)
    ensures PlyValue(c, s, 0, p, alter, ply).value.1 == Position(s.grid, t.after.played - {ply.card.id}, t.after.discarded - {t.discard})
  {
    t := TestAt(c, s, ply, p, alter).value;
  }

  /** A candidate valued at once: test it on `s` and take the heuristic of the position the test leaves. */
  function Immediate(c: Setting, s: Position, p: nat, alter: seq<int>, ply: Ply): (r: Result<seq<real>, Fault>)
    requires SettingOk(c) && IsSquare(s.grid, c.n) && p < |c.hands| && |alter| == |c.hands|
    ensures r.Ok? ==> |r.value| == |c.hands|
  {
    match TestAt(c, s, ply, p, alter)
    case Err(e) => Err(e)
    case Ok(t) => Leaf(c, t.after, t.alter, t.next, t.over)
  }

  /**
   * The flags of a position as a real game keeps them: no card of player
   * `p`'s hand is flagged played, and no listed blank still on the grid is
   * flagged discarded. (A placeholder can be flagged discarded while copies
   * of it stay on the grid: one placeholder object fills a whole row.)
   */
  predicate Fresh(c: Setting, s: Position, p: nat)
    requires p < |c.hands| && IsSquare(s.grid, c.n)
  {
    && (forall k :: 0 <= k < |c.hands[p]| ==> c.hands[p][k].id !in s.played)
    && (forall i, j, k :: 0 <= i < c.n && 0 <= j < c.n && 0 <= k < |c.blanks| && s.grid[i][j].id == c.blanks[k].id ==>
          c.blanks[k].id !in s.discarded)
  }

  /**
   * Two positions a search cannot tell apart: the same grid, the same played
   * flags, and the same discarded flags on the listed blanks (the only
   * discarded flags `get_empty` reads).
   */
  predicate Alike(c: Setting, a: Position, b: Position)
  {
    && a.grid == b.grid && a.played == b.played
    && forall k :: 0 <= k < |c.blanks| ==> (c.blanks[k].id in a.discarded <==> c.blanks[k].id in b.discarded)
  }

  /** The heuristic reads the grid and the played flags, never the discarded ones. */
  lemma LeafIgnoresDiscarded(c: Setting, a: Position, b: Position, alter: seq<int>, p: nat, over: bool)
    requires SettingOk(c) && IsSquare(a.grid, c.n) && |alter| == |c.hands|
    requires a.grid == b.grid && a.played == b.played
    ensures Leaf(c, a, alter, p, over) == Leaf(c, b, alter, p, over)
  {
    assert Terms(c, a, alter, p) == Terms(c, b, alter, p);
  }

  /** A candidate valued at once gets the same value on positions a search cannot tell apart. */
  lemma ImmediateAgrees(c: Setting, a: Position, b: Position, p: nat, alter: seq<int>, ply: Ply)
    requires SettingOk(c) && IsSquare(a.grid, c.n) && p < |c.hands| && |alter| == |c.hands|
    requires Alike(c, a, b)
    ensures Immediate(c, a, p, alter, ply) == Immediate(c, b, p, alter, ply)
  {
    PendingReadsBlanksOnly(c.blanks, a.discarded, b.discarded);
    assert EmptyAt(c, a) == EmptyAt(c, b);
    var m := Apply(a.grid, c.n, c.jp, EmptyAt(c, a), ply.card, ply.row, ply.column);
    if m.Ok? {
      ApplyKeepsSquare(a.grid, c.n, c.jp, EmptyAt(c, a), ply.card, ply.row, ply.column);
    }
    assert TestAt(c, a, ply, p, alter) == TrialOf(c, a, ply, p, alter, m);
    assert TestAt(c, b, ply, p, alter) == TrialOf(c, b, ply, p, alter, m);
    var ta, tb := TrialOf(c, a, ply, p, alter, m), TrialOf(c, b, ply, p, alter, m);
    if ta.Ok? {
      assert ta.value.after.grid == tb.value.after.grid && ta.value.after.played == tb.value.after.played;
      assert ta.value.alter == tb.value.alter && ta.value.next == tb.value.next && ta.value.over == tb.value.over;
      LeafIgnoresDiscarded(c, ta.value.after, tb.value.after, ta.value.alter, ta.value.next, ta.value.over);
    }
  }

  /** The discard of a test move is the id of a card on the grid it was made on. */
  lemma TestDiscardsACell(c: Setting, s: Position, ply: Ply, p: nat, alter: seq<int>)
    requires SettingOk(c) && IsSquare(s.grid, c.n) && p < |c.hands| && |alter| == |c.hands|
    requires TestAt(c, s, ply, p, alter).Ok?
    ensures exists i, j :: 0 <= i < c.n && 0 <= j < c.n && TestAt(c, s, ply, p, alter).value.discard == s.grid[i][j].id
  {
    var m := Apply(s.grid, c.n, c.jp, EmptyAt(c, s), ply.card, ply.row, ply.column);
    ApplyDiscardsACell(s.grid, c.n, c.jp, EmptyAt(c, s), ply.card, ply.row, ply.column, m.value);
  }

  /**
   * At depth 0, on fresh flags, a candidate is valued by the heuristic of the
   * position its test move leaves, and its undo gives back a position the
   * search cannot tell from the one it started on.
   */
  lemma PlyAtZero(c: Setting, s: Position, p: nat, alter: seq<int>, ply: Ply)
    requires SettingOk(c) && IsSquare(s.grid, c.n) && p < |c.hands| && |alter| == |c.hands|
    requires Fresh(c, s, p) && ply.card in c.hands[p]
    ensures PlyValue(c, s, 0, p, alter, ply).Ok? <==> Immediate(c, s, p, alter, ply).Ok?
    ensures PlyValue(c, s, 0, p, alter, ply).Err? ==> PlyValue(c, s, 0, p, alter, ply).error == Immediate(c, s, p, alter, ply).error
    ensures PlyValue(c, s, 0, p, alter, ply).Ok? ==>
      && PlyValue(c, s, 0, p, alter, ply).value.0 == Immediate(c, s, p, alter, ply).value
      && Alike(c, PlyValue(c, s, 0, p, alter, ply).value.1, s)
  {
    if PlyValue(c, s, 0, p, alter, ply).Ok? {
      TestDiscardsACell(c, s, ply, p, alter);
      PlyRestores(c, s, p, alter, ply);
    }
  }

  /** The values of a list of results, in order; the first error ends the list with that error. */
  function Collect(rs: seq<Result<seq<real>, Fault>>): (r: Result<seq<seq<real>>, Fault>)
    ensures r.Ok? ==> |r.value| == |rs|
  {
    if rs == [] then Ok([])
    else
      match Collect(rs[..|rs| - 1])
      case Err(e) => Err(e)
      case Ok(vals) =>
        match rs[|rs| - 1]
        case Err(e) => Err(e)
        case Ok(v) => Ok(vals + [v])
  }

  /** Collecting succeeds with every value in place exactly when every result does; otherwise it gives the first error. */
  lemma {:induction false} CollectEach(rs: seq<Result<seq<real>, Fault>>)
    ensures Collect(rs).Ok? <==> forall k :: 0 <= k < |rs| ==> rs[k].Ok?
    ensures Collect(rs).Ok? ==> forall k :: 0 <= k < |rs| ==> rs[k] == Ok(Collect(rs).value[k])
    ensures Collect(rs).Err? ==>
      exists k :: 0 <= k < |rs| && rs[k] == Err(Collect(rs).error) && forall j :: 0 <= j < k ==> rs[j].Ok?
    decreases |rs|
  {
    if rs != [] {
      var init := rs[..|rs| - 1];
      CollectEach(init);
      assert forall k :: 0 <= k < |init| ==> init[k] == rs[k];
    }
  }

  /** Every candidate valued at once on the same position. */
  function Immediates(c: Setting, s: Position, p: nat, alter: seq<int>, cands: seq<Ply>): (r: seq<Result<seq<real>, Fault>>)
    requires SettingOk(c) && IsSquare(s.grid, c.n) && p < |c.hands| && |alter| == |c.hands|
    ensures |r| == |cands|
  {
    seq(|cands|, k requires 0 <= k < |cands| && SettingOk(c) && IsSquare(s.grid, c.n) && p < |c.hands| && |alter| == |c.hands| =>
      Immediate(c, s, p, alter, cands[k]))
  }

  /**
   * At depth 0, on fresh flags, scanning candidates from player `p`'s hand
   * values each one at once on the starting position itself, and leaves a
   * position the search cannot tell from it.
   */
  lemma {:induction false} ScanAtZero(c: Setting, s: Position, p: nat, alter: seq<int>, cands: seq<Ply>)
    requires SettingOk(c) && IsSquare(s.grid, c.n) && p < |c.hands| && |alter| == |c.hands|
    requires Fresh(c, s, p) && forall k :: 0 <= k < |cands| ==> cands[k].card in c.hands[p]
    ensures var r, q := ScanAt(c, s, 0, p, alter, cands), Collect(Immediates(c, s, p, alter, cands));
      && (r.Ok? <==> q.Ok?)
      && (r.Err? ==> r.error == q.error)
      && (r.Ok? ==> r.value.0 == q.value && Alike(c, r.value.1, s))
    decreases |cands|
  {
    if cands != [] {
      var init, last := cands[..|cands| - 1], cands[|cands| - 1];
      ScanAtZero(c, s, p, alter, init);
      assert Immediates(c, s, p, alter, cands)[..|init|] == Immediates(c, s, p, alter, init);
      var r0 := ScanAt(c, s, 0, p, alter, init);
      if r0.Ok? {
        var mid := r0.value.1;
        PlyAtZero(c, mid, p, alter, last);
        ImmediateAgrees(c, mid, s, p, alter, last);
      }
    }
  }

  /**
   * `tree_search` at depth 0 on fresh flags: every ply `enum_plies` offers is
   * valued by the heuristic of the position its test move leaves, the search
   * leaves a position it cannot tell from the one it found, and the best map
   * is the first whose value for `p` is no less than that of any offered ply.
   */
  lemma DepthZeroPicksBest(c: Setting, s: Position, p: nat, alter: seq<int>)
    requires SettingOk(c) && IsSquare(s.grid, c.n) && p < |c.hands| && |alter| == |c.hands|
    requires Fresh(c, s, p) && SearchAt(c, s, 0, p, alter).Ok?
    ensures var f := SearchAt(c, s, 0, p, alter).value;
      && f.plies == OptionsAt(c, s, p).value && Alike(c, f.after, s)
      && forall k :: 0 <= k < |f.plies| ==>
           Immediate(c, s, p, alter, f.plies[k]) == Ok(f.vals[k]) && f.vals[k][p] <= f.vals[BestOf(f.vals, p)][p]
  {
    var cands := OptionsAt(c, s, p).value;
    forall k | 0 <= k < |cands|
      ensures cands[k].card in c.hands[p]
    {
      EnumPliesAccepted(c.hands[p], c.options[p], s.grid, c.n, c.jp, EmptyAt(c, s), cands[k]);
    }
    ScanAtZero(c, s, p, alter, cands);
    CollectEach(Immediates(c, s, p, alter, cands));
  }

  /** Whether the next player's hand is done reads the same on the game and on its setting. */
  lemma HandDoneAgrees(game: Game, c: Setting, q: nat)
    requires game.Valid() && SettingOf(game) == c && q < |c.hands|
    ensures game.HandDone(q) == Done(c.hands[q], game.flags.played)
  {
  }

  /** The side scores of `test_move` read the same on the game and on its setting. */
  lemma TestScoresAgree(game: Game, c: Setting, alter: seq<int>, q: nat, over: bool)
    requires game.Valid() && SettingOf(game) == c && q < |c.hands| && |alter| == |c.hands|
    ensures game.TestScores(alter, q, over) == SideScores(c, game.board.cards, alter, q, over)
  {
    var a, b := game.TestScores(alter, q, over), SideScores(c, game.board.cards, alter, q, over);
    assert forall i :: 0 <= i < |a| ==> a[i] == b[i];
  }

  /** What `test_move` did to a game, once the board answered `m`, read as `TrialOf` on the setting and the position it started from. */
  lemma TestAgrees(game: Game, c: Setting, s: Position, ply: Ply, p: nat, alter: seq<int>,
                   m: Result<Move, UpdateError>, t: Result<TestResult, Fault>)
    requires game.Valid() && SettingOf(game) == c && p < |c.hands| && |alter| == |c.hands|
    requires m.Ok? ==> IsSquare(m.value.grid, c.n)
    requires m.Err? ==> t == if c.ai[p] then Err(AIError(m.error)) else Ok(TestRejected(m.error))
    requires m.Ok? ==> PositionOf(game) == Position(m.value.grid, s.played + {ply.card.id}, s.discarded + {m.value.discard.id})
    requires m.Ok? && c.final ==> t == Err(ScoredFinalisedBoard)
    requires m.Ok? && !c.final ==>
      var q := (p + 1) % |c.hands|;
      t == Ok(Tested(game.TestScores(alter, q, game.HandDone(q)), q, game.HandDone(q), m.value.discard))
    ensures t.Err? ==> TrialOf(c, s, ply, p, alter, m) == Err(t.error)
    ensures t.Ok? && t.value.TestRejected? ==> TrialOf(c, s, ply, p, alter, m) == Err(Refused(t.value.error))
    ensures t.Ok? && t.value.Tested? ==>
      TrialOf(c, s, ply, p, alter, m) == Ok(Trial(PositionOf(game), t.value.alter, t.value.pTurn, t.value.gameover, t.value.discard.id))
  {
    if m.Ok? && !c.final {
      var q := (p + 1) % |c.hands|;
      HandDoneAgrees(game, c, q);
      TestScoresAgree(game, c, alter, q, game.HandDone(q));
    }
  }

  /**
   * The search's choice among the candidate plies: `vals[k]` is the value map
   * of `plies[k]`; the best map is the first that is maximal for player `p`,
   * and the chosen ply is one whose value for `p` equals it.
   */
  ghost predicate Chosen(plies: seq<Ply>, vals: seq<seq<real>>, n: nat, p: nat,
                         first: nat, chosen: nat, best: seq<real>, ply: Ply)
  {
    && |vals| == |plies| && p < n
    && (forall k :: 0 <= k < |vals| ==> |vals[k]| == n)
    && first < |vals| && best == vals[first]
    && (forall k :: 0 <= k < |vals| ==> vals[k][p] <= best[p])
    && (forall k :: 0 <= k < first ==> vals[k][p] < best[p])
    && chosen < |plies| && ply == plies[chosen] && vals[chosen][p] == best[p]
  }

  /**
   * The state of the `tree_search` loop after the first k candidates: `best`
   * is the first value map with the greatest value for `p`, and `bestPlies`
   * lists, at the indices `bestIdx`, every candidate seen that achieves it.
   */
  ghost predicate Scanned(cands: seq<Ply>, vals: seq<seq<real>>, n: nat, p: nat, k: nat,
                          first: nat, best: seq<real>, bestPlies: seq<Ply>, bestIdx: seq<nat>)
  {
    && |vals| == k <= |cands| && p < n
    && (forall j :: 0 <= j < k ==> |vals[j]| == n)
    && |bestIdx| == |bestPlies| && (k == 0 <==> bestPlies == [])
    && (k > 0 ==>
      && first < k && best == vals[first]
      && (forall j :: 0 <= j < k ==> vals[j][p] <= best[p])
      && (forall j :: 0 <= j < first ==> vals[j][p] < best[p])
      && (forall t :: 0 <= t < |bestIdx| ==>
            bestIdx[t] < k && bestPlies[t] == cands[bestIdx[t]] && vals[bestIdx[t]][p] == best[p]))
  }

  /** One loop step: a strictly better value restarts the list of best plies, an equal one joins it, a worse one is passed over. */
  lemma ScannedStep(cands: seq<Ply>, vals: seq<seq<real>>, n: nat, p: nat, k: nat,
                    first: nat, best: seq<real>, bestPlies: seq<Ply>, bestIdx: seq<nat>, v: seq<real>)
    requires Scanned(cands, vals, n, p, k, first, best, bestPlies, bestIdx) && k < |cands| && |v| == n
    ensures k == 0 || v[p] > best[p] ==> Scanned(cands, vals + [v], n, p, k + 1, k, v, [cands[k]], [k])
    ensures k > 0 && v[p] == best[p] ==>
      Scanned(cands, vals + [v], n, p, k + 1, first, best, bestPlies + [cands[k]], bestIdx + [k])
    ensures k > 0 && v[p] < best[p] ==> Scanned(cands, vals + [v], n, p, k + 1, first, best, bestPlies, bestIdx)
  {
    var vals' := vals + [v];
    assert forall j :: 0 <= j < k ==> vals'[j] == vals[j];
  }

  /** At the end of the loop, any of the best plies is a valid choice. */
  lemma ScannedChosen(cands: seq<Ply>, vals: seq<seq<real>>, n: nat, p: nat,
                      first: nat, best: seq<real>, bestPlies: seq<Ply>, bestIdx: seq<nat>, c: nat)
    requires Scanned(cands, vals, n, p, |cands|, first, best, bestPlies, bestIdx) && c < |bestPlies|
    ensures Chosen(cands, vals, n, p, first, bestIdx[c], best, bestPlies[c])
  {
  }

  /** The test half of a candidate: `test_move`, read on the setting and the position it starts from. */
  method TestStep(game: Game, p: nat, alter: seq<int>, ply: Ply) returns (r: Result<Trial, Fault>)
    requires game.Valid() && p < |game.players| && |alter| == |game.players| && !ply.card.kind.Joker?
    modifies game.board`cards, game.board`blanks, game.flags
    ensures game.Valid() && game.board.blanks == old(game.board.blanks) && SettingOf(game) == old(SettingOf(game))
    ensures r == old(TestAt(SettingOf(game), PositionOf(game), ply, p, alter))
    ensures r.Ok? ==> PositionOf(game) == r.value.after
  {
    ghost var c, s := SettingOf(game), PositionOf(game);
    ghost var m := Apply(s.grid, c.n, c.jp, EmptyAt(c, s), ply.card, ply.row, ply.column);
    assert game.board.GetEmpty() == EmptyAt(c, s);
    if m.Ok? {
      ApplyKeepsSquare(s.grid, c.n, c.jp, EmptyAt(c, s), ply.card, ply.row, ply.column);
    }
    assert TestAt(c, s, ply, p, alter) == TrialOf(c, s, ply, p, alter, m);
    var t := game.TestMove(ply, p, alter);
    assert SettingOf(game) == c;
    TestAgrees(game, c, s, ply, p, alter, m, t);
    if t.Err? {
      return Err(t.error);
    }
    if t.value.TestRejected? {
      return Err(Refused(t.value.error));
    }
    var Tested(alter', q, over, discard) := t.value;
    return Ok(Trial(PositionOf(game), alter', q, over, discard.id));
  }

  /** The valuation of a tested position by the heuristic, when the game ends or the depth is spent. */
  method LeafStep(game: Game, t: Trial, ghost c: Setting) returns (r: Result<seq<real>, Fault>)
    requires game.Valid() && SettingOf(game) == c && t.next < |game.players| && |t.alter| == |game.players|
    requires PositionOf(game) == t.after
    ensures r == Leaf(c, t.after, t.alter, t.next, t.over)
  {
    r := HeuristicEval(game, t.alter, t.next, t.over);
    if t.over {
      assert r == TerminalValues(Totals(c.scores, t.alter));
    } else {
      assert r == Estimate(c, t.after, t.alter, t.next);
    }
  }

  /** The valuation of a tested position by a search one level deeper: the best value map it finds for the next player. */
  method DeeperStep(game: Game, depth: nat, t: Trial, ghost c: Setting) returns (r: Result<seq<real>, Fault>)
    requires game.Valid() && JokerFreeHands(game) && SettingOf(game) == c && t.next < |game.players| && |t.alter| == |game.players|
    requires PositionOf(game) == t.after && depth > 0
    modifies game.board`cards, game.board`blanks, game.flags
    decreases depth, 0
    ensures game.Valid() && game.board.blanks == old(game.board.blanks) && SettingOf(game) == c
    ensures var f := SearchAt(c, t.after, depth - 1, t.next, t.alter);
      && (f.Err? ==> r == Err(f.error))
      && (f.Ok? ==> r == Ok(f.value.vals[BestOf(f.value.vals, t.next)]) && PositionOf(game) == f.value.after)
  {
    var sub, _, vals, first, _ := TreeSearch(game, depth - 1, t.next, t.alter, c, t.after);
    ghost var f := SearchAt(c, t.after, depth - 1, t.next, t.alter);
    if f.Ok? {
      assert sub.Ok? && sub.value.0 == vals[first] && vals == f.value.vals;
    }
    r := if sub.Ok? then Ok(sub.value.0) else Err(sub.error);
  }

  /** The valuation half of a candidate: the heuristic when the game ends or the depth is spent, else a search one level deeper. */
  method ValueStep(game: Game, depth: nat, t: Trial, ghost c: Setting) returns (r: Result<seq<real>, Fault>)
    requires game.Valid() && JokerFreeHands(game) && SettingOf(game) == c && t.next < |game.players| && |t.alter| == |game.players|
    requires PositionOf(game) == t.after
    modifies game.board`cards, game.board`blanks, game.flags
    decreases depth, 1
    ensures game.Valid() && game.board.blanks == old(game.board.blanks) && SettingOf(game) == c
    ensures var v := Valued(c, t, depth);
      && (v.Err? ==> r == Err(v.error))
      && (v.Ok? ==> r == Ok(v.value.0) && PositionOf(game) == v.value.1)
  {
    if t.over || depth == 0 {
      r := LeafStep(game, t, c);
    } else {
      r := DeeperStep(game, depth, t, c);
    }
  }

  /**
   * One candidate of `tree_search`: test the ply, value the result (by the
   * heuristic when the game ends or the depth is spent, by a search one level
   * deeper otherwise), then undo: the card's `played` and the discard's
   * `discarded` flags are cleared and the stored grid is put back.
   */
  method TryPly(game: Game, depth: nat, p: nat, alter: seq<int>, ply: Ply, stored: Grid)
    returns (r: Result<seq<real>, Fault>)
    requires game.Valid() && JokerFreeHands(game) && p < |game.players| && |alter| == |game.players|
    requires !ply.card.kind.Joker? && stored == game.board.cards
    modifies game.board`cards, game.board`blanks, game.flags
    decreases depth, 2
    ensures game.Valid() && game.board.blanks == old(game.board.blanks) && SettingOf(game) == old(SettingOf(game))
    ensures var v := old(PlyValue(SettingOf(game), PositionOf(game), depth, p, alter, ply));
      && (v.Err? ==> r == Err(v.error))
      && (v.Ok? ==> r == Ok(v.value.0) && PositionOf(game) == v.value.1)
  {
    var t := TestStep(game, p, alter, ply);
    if t.Err? {
      return Err(t.error);
    }
    var values := ValueStep(game, depth, t.value, SettingOf(game));
    if values.Err? {
      return Err(values.error);
    }
    Undo(game, ply.card.id, t.value.discard, stored);
    return Ok(values.value);
  }

  /** The undo step of `tree_search`: clears the two flags the test set and puts the stored grid back. */
  method Undo(game: Game, card: nat, discard: nat, stored: Grid)
    requires game.Valid() && game.board.GridFits(stored)
    modifies game.board`cards, game.flags
    ensures game.Valid() && game.board.blanks == old(game.board.blanks) && game.board.cards == stored
    ensures game.flags.played == old(game.flags.played) - {card}
    ensures game.flags.discarded == old(game.flags.discarded) - {discard}
  {
    game.flags.played := game.flags.played - {card};
    game.flags.discarded := game.flags.discarded - {discard};
    game.board.Restore(stored);
  }

  /**
   * One round of the loop of `tree_search`: the next candidate is tried with
   * `TryPly`, the scan so far grows by it, and it is compared with the best
   * so far: a strictly better value map restarts the list of best plies, an
   * equal one joins it.
   */
  method TryNext(game: Game, depth: nat, p: nat, alter: seq<int>, cands: seq<Ply>, k: nat, stored: Grid,
                 ghost c: Setting, ghost s: Position, ghost vals: seq<seq<real>>,
                 ghost first: nat, best: seq<real>, bestPlies: seq<Ply>, ghost bestIdx: seq<nat>)
    returns (r: Result<seq<real>, Fault>, best': seq<real>, bestPlies': seq<Ply>, ghost first': nat, ghost bestIdx': seq<nat>)
    requires game.Valid() && JokerFreeHands(game) && p < |game.players| && |alter| == |game.players|
    requires k < |cands| && !cands[k].card.kind.Joker? && stored == game.board.cards
    requires SettingOf(game) == c && IsSquare(s.grid, c.n) && ScanAt(c, s, depth, p, alter, cands[..k]) == Ok((vals, PositionOf(game)))
    requires Scanned(cands, vals, |game.players|, p, k, first, best, bestPlies, bestIdx)
    modifies game.board`cards, game.board`blanks, game.flags
    decreases depth, 3
    ensures game.Valid() && game.board.blanks == old(game.board.blanks) && SettingOf(game) == c
    ensures r.Err? ==> ScanAt(c, s, depth, p, alter, cands[..k + 1]) == Err(r.error)
    ensures r.Ok? ==> ScanAt(c, s, depth, p, alter, cands[..k + 1]) == Ok((vals + [r.value], PositionOf(game)))
    ensures r.Ok? ==> game.board.cards == stored && Scanned(cands, vals + [r.value], |game.players|, p, k + 1, first', best', bestPlies', bestIdx')
  {
    ghost var mid := PositionOf(game);
    ScanOneMore(c, s, depth, p, alter, cands, k, vals, mid);
    r := TryPly(game, depth, p, alter, cands[k], stored);
    best', bestPlies', first', bestIdx' := best, bestPlies, first, bestIdx;
    if r.Err? {
      return;
    }
    var v := r.value;
    ScannedStep(cands, vals, |game.players|, p, k, first, best, bestPlies, bestIdx, v);
    if k == 0 || v[p] > best[p] {
      best', bestPlies', first', bestIdx' := v, [cands[k]], k, [k];
    } else if v[p] == best[p] {
      bestPlies', bestIdx' := bestPlies + [cands[k]], bestIdx + [k];
    }
  }

  /** The loop of `tree_search` over the candidates `cands`, each tried on the grid `stored` and undone. */
  method ScanPlies(game: Game, depth: nat, p: nat, alter: seq<int>, cands: seq<Ply>, stored: Grid,
                   ghost c: Setting, ghost s: Position)
    returns (r: Result<(seq<real>, Ply), Fault>, ghost vals: seq<seq<real>>, ghost first: nat, ghost chosen: nat)
    requires game.Valid() && JokerFreeHands(game) && p < |game.players| && |alter| == |game.players|
    requires 0 < |cands| && (forall k :: 0 <= k < |cands| ==> !cands[k].card.kind.Joker?) && stored == game.board.cards
    requires SettingOf(game) == c && PositionOf(game) == s
    modifies game.board`cards, game.board`blanks, game.flags
    decreases depth, 4
    ensures game.Valid() && game.board.blanks == old(game.board.blanks) && SettingOf(game) == c
    ensures var f := ScanAt(c, s, depth, p, alter, cands);
      && (f.Err? ==> r == Err(f.error))
      && (f.Ok? ==>
            && r.Ok? && vals == f.value.0 && PositionOf(game) == f.value.1
            && first == BestOf(vals, p) && Chosen(cands, vals, |game.players|, p, first, chosen, r.value.0, r.value.1))
  {
    vals, first, chosen := [], 0, 0;
    var best: seq<real> := [];
    var bestPlies: seq<Ply> := [];
    ghost var bestIdx: seq<nat> := [];
    assert cands[..0] == [];
    for k := 0 to |cands|
      invariant game.Valid() && game.board.cards == stored && game.board.blanks == old(game.board.blanks)
      invariant SettingOf(game) == c && ScanAt(c, s, depth, p, alter, cands[..k]) == Ok((vals, PositionOf(game)))
      invariant Scanned(cands, vals, |game.players|, p, k, first, best, bestPlies, bestIdx)
    {
      var v;
      v, best, bestPlies, first, bestIdx := TryNext(game, depth, p, alter, cands, k, stored, c, s, vals, first, best, bestPlies, bestIdx);
      if v.Err? {
        ScanErrSticks(c, s, depth, p, alter, cands, k + 1);
        assert ScanAt(c, s, depth, p, alter, cands) == Err(v.error);
        return Err(v.error), vals, first, chosen;
      }
      vals := vals + [v.value];
    }
    assert cands[..|cands|] == cands;
    var i :| 0 <= i < |bestPlies|;
    chosen := bestIdx[i];
    ScannedChosen(cands, vals, |game.players|, p, first, best, bestPlies, bestIdx, i);
    FirstMaximalUnique(vals, p, first);
    return Ok((best, bestPlies[i])), vals, first, chosen;
  }

  /**
   * `tree_search`: tries every ply `enum_plies` offers player `p`, restores
   * the grid after each, and returns the first value map that is best for
   * `p` together with one of the plies achieving it (any of them: the
   * game picks at random).
   */
  method TreeSearch(game: Game, depth: nat, p: nat, alter: seq<int>, ghost c: Setting, ghost s: Position)
    returns (r: Result<(seq<real>, Ply), Fault>,
             ghost plies: seq<Ply>, ghost vals: seq<seq<real>>, ghost first: nat, ghost chosen: nat)
    requires game.Valid() && JokerFreeHands(game) && p < |game.players| && |alter| == |game.players|
    requires SettingOf(game) == c && PositionOf(game) == s
    modifies game.board`cards, game.board`blanks, game.flags
    decreases depth, 5
    ensures game.Valid() && game.board.blanks == old(game.board.blanks) && SettingOf(game) == c
    ensures OptionsAt(c, s, p).Err? ==> PositionOf(game) == s
    ensures var f := SearchAt(c, s, depth, p, alter);
      && (f.Err? ==> r == Err(f.error))
      && (f.Ok? ==>
            && r.Ok? && plies == f.value.plies && vals == f.value.vals && PositionOf(game) == f.value.after
            && first == BestOf(vals, p) && Chosen(plies, vals, |game.players|, p, first, chosen, r.value.0, r.value.1))
  {
    var player := game.players[p];
    var options := EnumPlies(player.hand, player.cardOptions, game.board.GetEmpty(), game.board.size);
    assert options == OptionsAt(c, s, p);
    plies, vals, first, chosen := [], [], 0, 0;
    if options.Err? {
      return Err(options.error), plies, vals, first, chosen;
    }
    var cands := options.value;
    plies := cands;
    forall k | 0 <= k < |cands|
      ensures !cands[k].card.kind.Joker?
    {
      EnumPliesAccepted(player.hand, player.cardOptions, game.board.cards, game.board.size, game.board.jokerPos,
                        game.board.GetEmpty(), cands[k]);
    }
    var stored := game.board.Snapshot();
    r, vals, first, chosen := ScanPlies(game, depth, p, alter, cands, stored, c, s);
  }
}
