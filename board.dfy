/**
 * The board: a square grid of cards with the joker fixed at its centre, the
 * list of setup blanks, the finalised flag, and the update that places or
 * inserts a card.
 */
module Boards {
  import opened Wrappers
  import opened Cards
  import opened Grid

  /** The blank cells of the default board, 0-based (row, column). */
  const DefaultBlankCells: seq<(nat, nat)> :=
    [(0, 0), (0, 1), (0, 3), (0, 4), (1, 0), (1, 4), (3, 0), (3, 4), (4, 0), (4, 1), (4, 3), (4, 4)]

  /** A listed blank that a board of size n can hold: a Blank inside the grid, off the joker's cell. */
  predicate BlankFits(b: Card, n: nat, jp: nat)
  {
    b.kind.Blank? && 1 <= b.kind.pos.0 <= n && 1 <= b.kind.pos.1 <= n && b.kind.pos != (jp + 1, jp + 1)
  }

  /** `[blank.pos for blank in blanks if not blank.discarded]` */
  function PendingPositions(blanks: seq<Card>, discarded: set<nat>): (r: seq<Pos>)
    requires forall k :: 0 <= k < |blanks| ==> blanks[k].kind.Blank?
    ensures |r| <= |blanks|
    ensures forall p :: p in r <==> exists k :: 0 <= k < |blanks| && blanks[k].id !in discarded && blanks[k].kind.pos == p
  {
    if blanks == [] then []
    else
      var rest := PendingPositions(blanks[1..], discarded);
      assert forall p :: (exists k :: 1 <= k < |blanks| && blanks[k].id !in discarded && blanks[k].kind.pos == p) <==> p in rest by {
        forall p | p in rest
          ensures exists k :: 1 <= k < |blanks| && blanks[k].id !in discarded && blanks[k].kind.pos == p
        {
          var k :| 0 <= k < |blanks[1..]| && blanks[1..][k].id !in discarded && blanks[1..][k].kind.pos == p;
          assert blanks[k + 1] == blanks[1..][k];
        }
        forall p, k | 1 <= k < |blanks| && blanks[k].id !in discarded && blanks[k].kind.pos == p
          ensures p in rest
        {
          assert blanks[1..][k - 1] == blanks[k];
        }
      }
      (if blanks[0].id !in discarded then [blanks[0].kind.pos] else []) + rest
  }

  /** `get_empty` reads the discarded flags of the listed blanks only. */
  lemma {:induction false} PendingReadsBlanksOnly(blanks: seq<Card>, d1: set<nat>, d2: set<nat>)
    requires forall k :: 0 <= k < |blanks| ==> blanks[k].kind.Blank?
    requires forall k :: 0 <= k < |blanks| ==> (blanks[k].id in d1 <==> blanks[k].id in d2)
    ensures PendingPositions(blanks, d1) == PendingPositions(blanks, d2)
  {
    if blanks != [] {
      PendingReadsBlanksOnly(blanks[1..], d1, d2);
    }
  }

  /** The index of the first listed card with this id. */
  function IndexOfId(cs: seq<Card>, id: nat): (r: Option<nat>)
    ensures r.None? <==> forall k :: 0 <= k < |cs| ==> cs[k].id != id
    ensures r.Some? ==> r.value < |cs| && cs[r.value].id == id && forall k :: 0 <= k < r.value ==> cs[k].id != id
  {
    if cs == [] then None
    else if cs[0].id == id then Some(0)
    else match IndexOfId(cs[1..], id)
      case None => None
      case Some(k) => Some(k + 1)
  }

  /** `blanks.remove(card)`: the list without its first entry that is this card; None where Python raises ValueError. */
  function RemoveCard(cs: seq<Card>, id: nat): (r: Option<seq<Card>>)
    ensures r.None? <==> forall k :: 0 <= k < |cs| ==> cs[k].id != id
    ensures r.Some? ==> |r.value| == |cs| - 1 && forall k :: 0 <= k < |r.value| ==> r.value[k] in cs
    ensures r.Some? ==>
      IndexOfId(cs, id).Some? && r.value == cs[..IndexOfId(cs, id).value] + cs[IndexOfId(cs, id).value + 1..]
  {
    match IndexOfId(cs, id)
    case None => None
    case Some(k) => Some(cs[..k] + cs[k + 1..])
  }

  /** The ids lo, lo+1, ..., lo+count-1. */
  function IdRange(lo: nat, count: nat): (r: set<nat>)
    ensures forall i :: i in r <==> lo <= i < lo + count
    decreases count
  {
    if count == 0 then {} else {lo} + IdRange(lo + 1, count - 1)
  }

  /** The grid of a new board before any blank is put down: row i filled with its placeholder, the joker at the centre. */
  function PlaceholderRows(n: nat, firstId: nat): (g: Grid)
    requires n % 2 == 1 && n >= 3
    ensures IsSquare(g, n) && g[n / 2][n / 2] == MakeJoker(firstId + n)
    ensures forall i, j :: 0 <= i < n && 0 <= j < n && (i != n / 2 || j != n / 2) ==> g[i][j] == Placeholder(firstId + i)
  {
    var rows := seq(n, i requires 0 <= i < n => seq(n, _ => Placeholder(firstId + i)));
    rows[n / 2 := rows[n / 2][n / 2 := MakeJoker(firstId + n)]]
  }

  /** The rows of a new board: one placeholder card per row, repeated across it, then the joker at the centre. */
  method PlaceholderGrid(size: nat, firstId: nat) returns (g: Grid)
    requires size % 2 == 1 && size >= 3
    ensures g == PlaceholderRows(size, firstId)
  {
    var jp := size / 2;
    g := [];
    for i := 0 to size
      invariant |g| == i
      invariant forall r :: 0 <= r < i ==> g[r] == seq(size, _ => Placeholder(firstId + r))
    {
      g := g + [seq(size, _ => Placeholder(firstId + i))];
    }
    g := g[jp := g[jp][jp := MakeJoker(firstId + size)]];
  }

  /** The cells are all inside an n-by-n grid. */
  predicate CellsInside(cells: seq<(nat, nat)>, n: nat)
  {
    forall k :: 0 <= k < |cells| ==> cells[k].0 < n && cells[k].1 < n
  }

  /** The blank put down for the k-th listed cell; its id is `nextId + k`, its position 1-based. */
  function BlankFor(cells: seq<(nat, nat)>, k: nat, nextId: nat): Card
    requires k < |cells|
  {
    MakeBlank(nextId + k, (cells[k].0 + 1, cells[k].1 + 1))
  }

  /** The grid after a blank has been put on each listed cell, in order (a later blank on the same cell wins). */
  function PutBlanks(g: Grid, n: nat, cells: seq<(nat, nat)>, nextId: nat): (r: Grid)
    requires IsSquare(g, n) && CellsInside(cells, n)
    ensures IsSquare(r, n)
    decreases |cells|
  {
    if cells == [] then g
    else
      var k := |cells| - 1;
      var h := PutBlanks(g, n, cells[..k], nextId);
      h[cells[k].0 := h[cells[k].0][cells[k].1 := BlankFor(cells, k, nextId)]]
  }

  /** The list of blanks made for the cells, in order. */
  function BlankList(cells: seq<(nat, nat)>, nextId: nat): (r: seq<Card>)
    ensures |r| == |cells| && forall k :: 0 <= k < |cells| ==> r[k] == BlankFor(cells, k, nextId)
  {
    seq(|cells|, k requires 0 <= k < |cells| => BlankFor(cells, k, nextId))
  }

  /** A cell that is not listed keeps what it held. */
  lemma {:induction false} PutBlanksOutside(g: Grid, n: nat, cells: seq<(nat, nat)>, nextId: nat, i: nat, j: nat)
    requires IsSquare(g, n) && CellsInside(cells, n) && i < n && j < n && (i, j) !in cells
    ensures PutBlanks(g, n, cells, nextId)[i][j] == g[i][j]
    decreases |cells|
  {
    if cells != [] {
      var k := |cells| - 1;
      assert (i, j) !in cells[..k] && cells[k] != (i, j);
      PutBlanksOutside(g, n, cells[..k], nextId, i, j);
    }
  }

  /** A listed cell holds a blank remembering that cell. */
  lemma {:induction false} PutBlanksListed(g: Grid, n: nat, cells: seq<(nat, nat)>, nextId: nat, m: nat)
    requires IsSquare(g, n) && CellsInside(cells, n) && m < |cells|
    ensures PutBlanks(g, n, cells, nextId)[cells[m].0][cells[m].1].kind == Blank((cells[m].0 + 1, cells[m].1 + 1))
    decreases |cells|
  {
    var k := |cells| - 1;
    if m < k && cells[m] != cells[k] {
      PutBlanksListed(g, n, cells[..k], nextId, m);
      assert cells[..k][m] == cells[m];
    }
  }

  /** Every cell is either what it held or one of the new blanks. */
  lemma {:induction false} PutBlanksOnlyBlanks(g: Grid, n: nat, cells: seq<(nat, nat)>, nextId: nat, i: nat, j: nat)
    requires IsSquare(g, n) && CellsInside(cells, n) && i < n && j < n
    ensures var c := PutBlanks(g, n, cells, nextId)[i][j];
      c == g[i][j] || (c in BlankList(cells, nextId) && c.kind == Blank((i + 1, j + 1)))
    decreases |cells|
  {
    if cells != [] {
      var k := |cells| - 1;
      PutBlanksOnlyBlanks(g, n, cells[..k], nextId, i, j);
      var c := PutBlanks(g, n, cells, nextId)[i][j];
      if (i, j) == cells[k] {
        assert c == BlankList(cells, nextId)[k];
      } else {
        var c' := PutBlanks(g, n, cells[..k], nextId)[i][j];
        assert c == c';
        if c' != g[i][j] {
          var m :| 0 <= m < k && BlankList(cells[..k], nextId)[m] == c';
          assert BlankList(cells, nextId)[m] == c';
        }
      }
    }
  }

  /** The grid of a new board. */
  function NewGrid(n: nat, cells: seq<(nat, nat)>, firstId: nat): (g: Grid)
    requires n % 2 == 1 && n >= 3 && CellsInside(cells, n)
    ensures IsSquare(g, n)
  {
    PutBlanks(PlaceholderRows(n, firstId), n, cells, firstId + n + 1)
  }

  /** A new board holds the joker at the centre and nowhere else. */
  lemma NewGridJoker(n: nat, cells: seq<(nat, nat)>, firstId: nat)
    requires n % 2 == 1 && n >= 3 && CellsInside(cells, n) && (n / 2, n / 2) !in cells
    ensures JokerOnlyAtCentre(NewGrid(n, cells, firstId), n, n / 2)
    ensures NewGrid(n, cells, firstId)[n / 2][n / 2] == MakeJoker(firstId + n)
  {
    var jp := n / 2;
    var g0: Grid := PlaceholderRows(n, firstId);
    var g: Grid := NewGrid(n, cells, firstId);
    PutBlanksOutside(g0, n, cells, firstId + n + 1, jp, jp);
    forall i, j | 0 <= i < n && 0 <= j < n && (i != jp || j != jp)
      ensures !g[i][j].kind.Joker?
    {
      PutBlanksOnlyBlanks(g0, n, cells, firstId + n + 1, i, j);
    }
  }

  /** A new board holds a blank remembering its cell on every listed cell, and its row's placeholder on every other cell. */
  lemma NewGridCells(n: nat, cells: seq<(nat, nat)>, firstId: nat)
    requires n % 2 == 1 && n >= 3 && CellsInside(cells, n)
    ensures var g := NewGrid(n, cells, firstId);
      && (forall k :: 0 <= k < |cells| ==> g[cells[k].0][cells[k].1].kind == Blank((cells[k].0 + 1, cells[k].1 + 1)))
      && (forall i: nat, j: nat :: i < n && j < n && (i, j) !in cells && (i != n / 2 || j != n / 2) ==>
            g[i][j] == Placeholder(firstId + i))
  {
    var g0: Grid := PlaceholderRows(n, firstId);
    forall k | 0 <= k < |cells|
      ensures NewGrid(n, cells, firstId)[cells[k].0][cells[k].1].kind == Blank((cells[k].0 + 1, cells[k].1 + 1))
    {
      PutBlanksListed(g0, n, cells, firstId + n + 1, k);
    }
    forall i: nat, j: nat | i < n && j < n && (i, j) !in cells && (i != n / 2 || j != n / 2)
      ensures NewGrid(n, cells, firstId)[i][j] == Placeholder(firstId + i)
    {
      PutBlanksOutside(g0, n, cells, firstId + n + 1, i, j);
    }
  }

  /** The grid and blank list of a new board: the placeholder grid with a blank put on each listed cell, in order. */
  method InitialCells(size: nat, blankCells: seq<(nat, nat)>, firstId: nat) returns (g: Grid, bs: seq<Card>)
    requires size % 2 == 1 && size >= 3 && CellsInside(blankCells, size)
    ensures g == NewGrid(size, blankCells, firstId) && bs == BlankList(blankCells, firstId + size + 1)
  {
    var g0 := PlaceholderGrid(size, firstId);
    var nextId := firstId + size + 1;
    g, bs := g0, [];
    for k := 0 to |blankCells|
      invariant g == PutBlanks(g0, size, blankCells[..k], nextId)
      invariant bs == BlankList(blankCells[..k], nextId)
    {
      var x, y := blankCells[k].0, blankCells[k].1;
      var b := MakeBlank(nextId + k, (x + 1, y + 1));
      assert blankCells[..k + 1][..k] == blankCells[..k];
      g := g[x := g[x][y := b]];
      bs := bs + [b];
    }
    assert blankCells[..|blankCells|] == blankCells;
  }

  class Board {
    const size: nat
    const jokerPos: nat
    const joker: Card
    /** The flags of every card, shared with the players and the game. */
    const flags: Flags
    var final: bool
    var cards: Grid
    var blanks: seq<Card>

    /** A grid this board may hold: square, with its own joker at the centre and no joker elsewhere. */
    ghost predicate GridFits(g: Grid)
    {
      Geometry(size, jokerPos) && JokerOnlyAtCentre(g, size, jokerPos) && g[jokerPos][jokerPos] == joker
    }

    ghost predicate Valid()
      reads this`cards, this`blanks
    {
      GridFits(cards) && forall k :: 0 <= k < |blanks| ==> BlankFits(blanks[k], size, jokerPos)
    }

    /** `Board(size, empty)`: `*` placeholders (one card per row), the joker at the centre, a blank on each listed cell. */
    constructor (size: nat, blankCells: seq<(nat, nat)>, flags: Flags, firstId: nat)
      requires size % 2 == 1 && size >= 3
      requires CellsInside(blankCells, size) && (size / 2, size / 2) !in blankCells
      modifies flags
      ensures Valid() && !final
      ensures this.size == size && jokerPos == size / 2 && this.flags == flags
      ensures joker == MakeJoker(firstId + size)
      ensures cards == NewGrid(size, blankCells, firstId)
      ensures blanks == BlankList(blankCells, firstId + size + 1)
      ensures flags.played == old(flags.played) - IdRange(firstId, size + 1 + |blankCells|) + IdRange(firstId + size, 1 + |blankCells|)
      ensures flags.discarded == old(flags.discarded) - IdRange(firstId, size + 1 + |blankCells|)
    {
      var g, bs := InitialCells(size, blankCells, firstId);
      NewGridJoker(size, blankCells, firstId);
      this.size, jokerPos, joker, this.flags := size, size / 2, MakeJoker(firstId + size), flags;
      final, cards, blanks := false, g, bs;
      new;
      var ids := IdRange(firstId, size + 1 + |blankCells|);
      flags.played := flags.played - ids + IdRange(firstId + size, 1 + |blankCells|);
      flags.discarded := flags.discarded - ids;
    }

    /** `get_empty`: the positions of the listed blanks not yet discarded; non-empty exactly in the setup phase. */
    function GetEmpty(): (r: seq<Pos>)
      reads this`cards, this`blanks, flags`discarded
      requires Valid()
      ensures forall p :: p in r ==> 1 <= p.0 <= size && 1 <= p.1 <= size && p != (jokerPos + 1, jokerPos + 1)
      ensures forall p :: p in r <==> exists k :: 0 <= k < |blanks| && blanks[k].id !in flags.discarded && blanks[k].kind.pos == p
    {
      PendingPositions(blanks, flags.discarded)
    }

    /** `score`: the player's ring score, or the exception raised on a finalised board. */
    function Score(suit: string): (r: Result<int, Fault>)
      reads this`final, this`cards, this`blanks
      requires Valid()
      ensures r.Err? <==> final
      ensures r.Err? ==> r.error == ScoredFinalisedBoard
      ensures r.Ok? ==> r.value == RingScore(cards, size, jokerPos, suit)
    {
      if final then Err(ScoredFinalisedBoard) else Ok(RingScore(cards, size, jokerPos, suit))
    }

    method Finalise()
      modifies this`final
      ensures final
    {
      final := true;
    }

    method Unfinalise()
      modifies this`final
      ensures !final
    {
      final := false;
    }

    /** The `cards` getter: a copy of the rows, sharing the cards (and so their flags). */
    method Snapshot() returns (g: Grid)
      requires Valid()
      ensures g == cards && GridFits(g)
    {
      g := cards;
    }

    /** The `cards` setter: puts back a copy of the given rows. */
    method Restore(g: Grid)
      requires Valid() && GridFits(g)
      modifies this`cards
      ensures Valid() && cards == g
    {
      cards := g;
    }

    /**
     * `update`: places (setup phase) or inserts (rotation phase) the ply's card
     * and returns the card that left the grid, or the refusal. The discard is
     * flagged, and on a real (not test) move a discarded blank leaves the list
     * of blanks.
     */
    method Update(ply: Ply, test: bool) returns (r: Result<Card, UpdateError>)
      requires Valid() && !ply.card.kind.Joker?
      modifies this`cards, this`blanks, flags`discarded
      ensures Valid()
      ensures var m := Apply(old(cards), size, jokerPos, old(GetEmpty()), ply.card, ply.row, ply.column);
        && (m.Err? ==> r == Err(m.error) && cards == old(cards) && blanks == old(blanks) &&
                       flags.discarded == old(flags.discarded))
        && (m.Ok? ==> cards == m.value.grid && flags.discarded == old(flags.discarded) + {m.value.discard.id})
        && (m.Ok? && (test || !m.value.discard.kind.Blank?) ==> r == Ok(m.value.discard) && blanks == old(blanks))
        && (m.Ok? && !test && m.value.discard.kind.Blank? ==>
              match RemoveCard(old(blanks), m.value.discard.id)
              case None => r == Err(BlankNotListed) && blanks == old(blanks)
              case Some(rest) => r == Ok(m.value.discard) && blanks == rest)
    {
      var empty := GetEmpty();
      var m := Apply(cards, size, jokerPos, empty, ply.card, ply.row, ply.column);
      if m.Err? {
        return Err(m.error);
      }
      ApplyKeepsJoker(cards, size, jokerPos, empty, ply.card, ply.row, ply.column, m.value);
      var discard := m.value.discard;
      cards := m.value.grid;
      flags.discarded := flags.discarded + {discard.id};
      if !test && discard.kind.Blank? {
        var rest := RemoveCard(blanks, discard.id);
        if rest.None? {
          return Err(BlankNotListed);
        }
        blanks := rest.value;
      }
      return Ok(discard);
    }
  }

  /** The default blank list fits a board of the default size 5. */
  lemma DefaultBlanksFit()
    ensures CellsInside(DefaultBlankCells, 5) && (5 / 2, 5 / 2) !in DefaultBlankCells
  {
  }
}
