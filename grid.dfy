/**
 * The pure geometry of the board: the square grid of cards, edge insertion
 * with the transpose/reverse normalisation and the pinned joker, setup-phase
 * placement into an empty cell, and the weighted scoring ring around the joker.
 */
module Grid {
  import opened Wrappers
  import opened Cards

  type Grid = seq<seq<Card>>

  predicate IsSquare(g: Grid, n: nat)
  {
    |g| == n && forall i :: 0 <= i < n ==> |g[i]| == n
  }

  /** The geometry every board keeps: odd size of at least 3, the joker's index in the middle. */
  predicate Geometry(n: nat, jp: nat)
  {
    n % 2 == 1 && n >= 3 && jp == n / 2
  }

  /** The joker sits at (jp, jp) and nowhere else. */
  predicate JokerOnlyAtCentre(g: Grid, n: nat, jp: nat)
  {
    IsSquare(g, n) && jp < n && g[jp][jp].kind.Joker? &&
    forall i, j :: 0 <= i < n && 0 <= j < n && (i != jp || j != jp) ==> !g[i][j].kind.Joker?
  }

  /** `s[::-1]` */
  function Reverse<T>(s: seq<T>): (r: seq<T>)
    ensures |r| == |s|
    ensures forall k :: 0 <= k < |s| ==> r[k] == s[|s| - 1 - k]
  {
    seq(|s|, k requires 0 <= k < |s| => s[|s| - 1 - k])
  }

  lemma {:induction false} ReversePermutes<T>(s: seq<T>)
    ensures multiset(Reverse(s)) == multiset(s)
  {
    if s != [] {
      ReversePermutes(s[1..]);
      assert Reverse(s) == Reverse(s[1..]) + [s[0]];
      assert s == [s[0]] + s[1..];
    }
  }

  /** `list(map(list, zip(*g)))` on a square grid. */
  function Transpose(g: Grid, n: nat): (t: Grid)
    requires IsSquare(g, n)
    ensures IsSquare(t, n)
    ensures forall i, j :: 0 <= i < n && 0 <= j < n ==> t[i][j] == g[j][i]
  {
    seq(n, i requires 0 <= i < n => seq(n, j requires 0 <= j < n => g[j][i]))
  }

  /** Column `j` of a grid, top to bottom. */
  function Column(g: Grid, j: nat): (col: seq<Card>)
    requires forall i :: 0 <= i < |g| ==> j < |g[i]|
  {
    seq(|g|, i requires 0 <= i < |g| => g[i][j])
  }

  lemma TransposeTwice(g: Grid, n: nat)
    requires IsSquare(g, n)
    ensures Transpose(Transpose(g, n), n) == g
  {
    var t := Transpose(Transpose(g, n), n);
    forall i | 0 <= i < n
      ensures t[i] == g[i]
    {
    }
  }

  /** A line after an insertion, with the cell that fell off its far end. */
  datatype Shifted = Shifted(line: seq<Card>, discard: Card)

  /** `new_row.insert(jp, new_row.pop(jp + 1))` */
  function Repin(s: seq<Card>, jp: nat): (r: seq<Card>)
    requires jp + 1 < |s|
  {
    var popped := s[jp + 1];
    var rest := s[..jp + 1] + s[jp + 2..];
    rest[..jp] + [popped] + rest[jp..]
  }

  lemma RepinSwaps(s: seq<Card>, jp: nat)
    requires jp + 1 < |s|
    ensures |Repin(s, jp)| == |s| && multiset(Repin(s, jp)) == multiset(s)
    ensures Repin(s, jp)[jp] == s[jp + 1] && Repin(s, jp)[jp + 1] == s[jp]
    ensures forall k :: 0 <= k < |s| && k != jp && k != jp + 1 ==> Repin(s, jp)[k] == s[k]
  {
    RepinPermutes(s, jp);
    var rest := s[..jp + 1] + s[jp + 2..];
    var r := Repin(s, jp);
    assert r == rest[..jp] + [s[jp + 1]] + rest[jp..];
    assert forall k :: 0 <= k < jp ==> r[k] == rest[k] == s[k];
    assert forall k :: jp + 1 < k < |s| ==> r[k] == rest[k - 1] == s[k];
  }

  lemma RepinPermutes(s: seq<Card>, jp: nat)
    requires jp + 1 < |s|
    ensures multiset(Repin(s, jp)) == multiset(s)
  {
    var popped := s[jp + 1];
    var front, back := s[..jp + 1], s[jp + 2..];
    var rest := front + back;
    assert s == front + [popped] + back;
    assert rest == rest[..jp] + rest[jp..];
    calc {
      multiset(Repin(s, jp));
      multiset(rest[..jp] + [popped] + rest[jp..]);
      multiset(rest[..jp]) + multiset{popped} + multiset(rest[jp..]);
      multiset(rest) + multiset{popped};
      multiset(front + [popped] + back);
    }
  }

  /** Insertion at index 0 of a line: `[card] + row[:-1]`, the joker put back when pinned; `row[-1]` falls off. */
  function PushFront(row: seq<Card>, c: Card, pin: bool, jp: nat): (r: Shifted)
    requires |row| >= 1 && (pin ==> jp + 1 < |row|)
  {
    var shifted := [c] + row[..|row| - 1];
    Shifted(if pin then Repin(shifted, jp) else shifted, row[|row| - 1])
  }

  /** One line of `Board.update`: reversed when inserting from the far edge, pushed, reversed back. */
  function InsertLine(line: seq<Card>, c: Card, fromNear: bool, pin: bool, jp: nat): (r: Shifted)
    requires |line| >= 1 && (pin ==> jp + 1 < |line|)
    ensures |r.line| == |line|
  {
    var cardRow := if fromNear then line else Reverse(line);
    var s := PushFront(cardRow, c, pin, jp);
    if fromNear then s else Shifted(Reverse(s.line), s.discard)
  }

  /**
   * `after` is `before` with `c` entering at index 0 and every cell moving one
   * step towards the far end. When pinned, the cell at `jp` stays where it is
   * and the cell that would have landed on it lands just past it instead.
   */
  ghost predicate ShiftedFromNear(before: seq<Card>, after: seq<Card>, c: Card, pin: bool, jp: nat)
  {
    |after| == |before| >= 1 && after[0] == c &&
    if !pin then
      forall k :: 1 <= k < |before| ==> after[k] == before[k - 1]
    else
      1 <= jp && jp + 1 < |before| &&
      after[jp] == before[jp] && after[jp + 1] == before[jp - 1] &&
      (forall k :: 1 <= k < jp ==> after[k] == before[k - 1]) &&
      (forall k :: jp + 1 < k < |before| ==> after[k] == before[k - 1])
  }

  /** The mirror image: `c` enters at the last index and every cell moves one step towards index 0. */
  ghost predicate ShiftedFromFar(before: seq<Card>, after: seq<Card>, c: Card, pin: bool, jp: nat)
  {
    |after| == |before| >= 1 && after[|before| - 1] == c &&
    if !pin then
      forall k :: 0 <= k < |before| - 1 ==> after[k] == before[k + 1]
    else
      1 <= jp && jp + 1 < |before| &&
      after[jp] == before[jp] && after[jp - 1] == before[jp + 1] &&
      (forall k :: 0 <= k < jp - 1 ==> after[k] == before[k + 1]) &&
      (forall k :: jp < k < |before| - 1 ==> after[k] == before[k + 1])
  }

  lemma PushFrontShifts(row: seq<Card>, c: Card, pin: bool, jp: nat)
    requires |row| >= 1 && (pin ==> 1 <= jp && jp + 1 < |row|)
    ensures ShiftedFromNear(row, PushFront(row, c, pin, jp).line, c, pin, jp)
    ensures PushFront(row, c, pin, jp).discard == row[|row| - 1]
    ensures multiset(PushFront(row, c, pin, jp).line) + multiset{row[|row| - 1]} == multiset(row) + multiset{c}
  {
    var n := |row|;
    var shifted := [c] + row[..n - 1];
    assert forall k :: 1 <= k < n ==> shifted[k] == row[k - 1];
    PushFrontPermutes(row, c);
    if pin {
      RepinSwaps(shifted, jp);
    }
  }

  lemma PushFrontPermutes(row: seq<Card>, c: Card)
    requires |row| >= 1
    ensures multiset([c] + row[..|row| - 1]) + multiset{row[|row| - 1]} == multiset(row) + multiset{c}
  {
    var n := |row|;
    assert row == row[..n - 1] + [row[n - 1]];
  }

  /** Pushing into the reversed line and reversing back shifts every cell towards index 0. */
  lemma PushFromFarShifts(line: seq<Card>, c: Card, pin: bool, jp: nat)
    requires |line| == 2 * jp + 1 && jp >= 1
    ensures ShiftedFromFar(line, Reverse(PushFront(Reverse(line), c, pin, jp).line), c, pin, jp)
  {
    var rev := Reverse(line);
    PushFrontShifts(rev, c, pin, jp);
    var pushed := PushFront(rev, c, pin, jp).line;
    var after := Reverse(pushed);
    if pin {
      PinnedFromFar(line, rev, pushed, after, c, jp);
    } else {
      UnpinnedFromFar(line, rev, pushed, after, c, jp);
    }
  }

  lemma UnpinnedFromFar(line: seq<Card>, rev: seq<Card>, pushed: seq<Card>, after: seq<Card>, c: Card, jp: nat)
    requires |line| == |rev| == |after| == 2 * jp + 1 && jp >= 1
    requires forall k :: 0 <= k < |line| ==> rev[k] == line[|line| - 1 - k]
    requires ShiftedFromNear(rev, pushed, c, false, jp)
    requires forall k :: 0 <= k < |pushed| ==> after[k] == pushed[|pushed| - 1 - k]
    ensures ShiftedFromFar(line, after, c, false, jp)
  {
    var n := |line|;
    assert after[n - 1] == pushed[0];
    forall k | 0 <= k < n - 1
      ensures after[k] == line[k + 1]
    {
      assert after[k] == pushed[n - 1 - k] == rev[n - 2 - k];
    }
  }

  lemma PinnedFromFar(line: seq<Card>, rev: seq<Card>, pushed: seq<Card>, after: seq<Card>, c: Card, jp: nat)
    requires |line| == |rev| == |after| == 2 * jp + 1 && jp >= 1
    requires forall k :: 0 <= k < |line| ==> rev[k] == line[|line| - 1 - k]
    requires ShiftedFromNear(rev, pushed, c, true, jp)
    requires forall k :: 0 <= k < |pushed| ==> after[k] == pushed[|pushed| - 1 - k]
    ensures ShiftedFromFar(line, after, c, true, jp)
  {
    var n := |line|;
    assert after[n - 1] == pushed[0];
    assert after[jp] == pushed[jp] == rev[jp] == line[jp];
    assert after[jp - 1] == pushed[jp + 1] == rev[jp - 1] == line[jp + 1];
    forall k | 0 <= k < jp - 1
      ensures after[k] == line[k + 1]
    {
      assert after[k] == pushed[n - 1 - k] == rev[n - 2 - k];
    }
    forall k | jp < k < n - 1
      ensures after[k] == line[k + 1]
    {
      assert after[k] == pushed[n - 1 - k] == rev[n - 2 - k];
    }
  }

  /** `after` is `before` shifted away from the inserting end, and `discard` is the cell pushed off the far end. */
  ghost predicate LineShifted(before: seq<Card>, after: seq<Card>, discard: Card, c: Card, fromNear: bool, pin: bool, jp: nat)
  {
    if fromNear then ShiftedFromNear(before, after, c, pin, jp) && discard == before[|before| - 1]
    else ShiftedFromFar(before, after, c, pin, jp) && discard == before[0]
  }

  /** What one line insertion does, stated without the reversals. */
  lemma InsertLineShifts(line: seq<Card>, c: Card, fromNear: bool, pin: bool, jp: nat)
    requires |line| == 2 * jp + 1 && jp >= 1
    ensures var s := InsertLine(line, c, fromNear, pin, jp); LineShifted(line, s.line, s.discard, c, fromNear, pin, jp)
  {
    if fromNear {
      PushFrontShifts(line, c, pin, jp);
    } else {
      var rev := Reverse(line);
      PushFrontShifts(rev, c, pin, jp);
      var s := PushFront(rev, c, pin, jp);
      assert InsertLine(line, c, fromNear, pin, jp) == Shifted(Reverse(s.line), s.discard);
      PushFromFarShifts(line, c, pin, jp);
      assert s.discard == rev[|rev| - 1] == line[0];
    }
  }

  /** An insertion keeps every card: the new line and the discard are the old line and the inserted card. */
  lemma InsertLineKeepsCards(line: seq<Card>, c: Card, fromNear: bool, pin: bool, jp: nat)
    requires |line| == 2 * jp + 1 && jp >= 1
    ensures multiset(InsertLine(line, c, fromNear, pin, jp).line) + multiset{InsertLine(line, c, fromNear, pin, jp).discard}
         == multiset(line) + multiset{c}
  {
    if fromNear {
      PushFrontShifts(line, c, pin, jp);
    } else {
      var rev := Reverse(line);
      PushFrontShifts(rev, c, pin, jp);
      var s := PushFront(rev, c, pin, jp);
      assert InsertLine(line, c, fromNear, pin, jp) == Shifted(Reverse(s.line), s.discard);
      ReversePermutes(line);
      ReversePermutes(s.line);
    }
  }

  /** The positions accepted in the rotation phase: one coordinate an edge sentinel, the other a line index. */
  predicate ValidRotation(n: nat, row: int, col: int)
  {
    (0 < row <= n && (col == 0 || col == n + 1)) || (0 < col <= n && (row == 0 || row == n + 1))
  }

  /** The grid after a move, with the card that left it. */
  datatype Move = Move(grid: Grid, discard: Card)

  /** Insertion into row k (0-based) from its near (left) or far (right) end; the middle row pins the joker. */
  function InsertRow(g: Grid, n: nat, jp: nat, c: Card, k: nat, fromNear: bool): (m: Move)
    requires IsSquare(g, n) && Geometry(n, jp) && k < n
    ensures IsSquare(m.grid, n)
  {
    var s := InsertLine(g[k], c, fromNear, k == jp, jp);
    Move(g[k := s.line], s.discard)
  }

  /** Insertion into column k (0-based) from its near (top) or far (bottom) end, through the transpose. */
  function InsertColumn(g: Grid, n: nat, jp: nat, c: Card, k: nat, fromNear: bool): (m: Move)
    requires IsSquare(g, n) && Geometry(n, jp) && k < n
    ensures IsSquare(m.grid, n)
  {
    var t := Transpose(g, n);
    var s := InsertLine(t[k], c, fromNear, k == jp, jp);
    Move(Transpose(t[k := s.line], n), s.discard)
  }

  /** Rotation-phase `Board.update`: insertion into a row, or into a column through the transpose. */
  function Rotate(g: Grid, n: nat, jp: nat, c: Card, row: int, col: int): (r: Result<Move, UpdateError>)
    requires IsSquare(g, n) && Geometry(n, jp)
  {
    if 0 < row <= n && (col == 0 || col == n + 1) then
      Ok(InsertRow(g, n, jp, c, row - 1, col == 0))
    else if 0 < col <= n && (row == 0 || row == n + 1) then
      Ok(InsertColumn(g, n, jp, c, col - 1, row == 0))
    else
      Err(InvalidRowColumn)
  }

  /** Setup-phase `Board.update`: swap the card into one of the listed empty cells. */
  function Place(g: Grid, n: nat, empty: seq<Pos>, c: Card, row: int, col: int): (r: Result<Move, UpdateError>)
    requires IsSquare(g, n)
    requires forall p :: p in empty ==> 1 <= p.0 <= n && 1 <= p.1 <= n
  {
    if (row, col) !in empty then Err(NotAnEmptyCell(empty))
    else Ok(Move(g[row - 1 := g[row - 1][col - 1 := c]], g[row - 1][col - 1]))
  }

  /** The grid part of `Board.update`: placement while empty cells remain, edge insertion afterwards. */
  function Apply(g: Grid, n: nat, jp: nat, empty: seq<Pos>, c: Card, row: int, col: int): (r: Result<Move, UpdateError>)
    requires IsSquare(g, n) && Geometry(n, jp)
    requires forall p :: p in empty ==> 1 <= p.0 <= n && 1 <= p.1 <= n
  {
    if |empty| > 0 then Place(g, n, empty, c, row, col) else Rotate(g, n, jp, c, row, col)
  }

  /** An accepted update leaves a grid of the same size. */
  lemma ApplyKeepsSquare(g: Grid, n: nat, jp: nat, empty: seq<Pos>, c: Card, row: int, col: int)
    requires IsSquare(g, n) && Geometry(n, jp)
    requires forall p :: p in empty ==> 1 <= p.0 <= n && 1 <= p.1 <= n
    requires Apply(g, n, jp, empty, c, row, col).Ok?
    ensures IsSquare(Apply(g, n, jp, empty, c, row, col).value.grid, n)
  {
  }

  /** Setup phase: refused off the empty cells; otherwise exactly the chosen cell changes. */
  lemma PlaceChangesOneCell(g: Grid, n: nat, empty: seq<Pos>, c: Card, row: int, col: int)
    requires IsSquare(g, n)
    requires forall p :: p in empty ==> 1 <= p.0 <= n && 1 <= p.1 <= n
    ensures Place(g, n, empty, c, row, col).Err? <==> (row, col) !in empty
    ensures Place(g, n, empty, c, row, col).Err? ==> Place(g, n, empty, c, row, col).error == NotAnEmptyCell(empty)
    ensures Place(g, n, empty, c, row, col).Ok? ==>
      var m := Place(g, n, empty, c, row, col).value;
      IsSquare(m.grid, n) && m.grid[row - 1][col - 1] == c && m.discard == g[row - 1][col - 1] &&
      forall i, j :: 0 <= i < n && 0 <= j < n && (i, j) != (row - 1, col - 1) ==> m.grid[i][j] == g[i][j]
  {
  }

  /** Rotation phase: exactly the invalid positions are refused. */
  lemma RotateRefusesExactlyInvalid(g: Grid, n: nat, jp: nat, c: Card, row: int, col: int)
    requires IsSquare(g, n) && Geometry(n, jp)
    ensures Rotate(g, n, jp, c, row, col).Err? <==> !ValidRotation(n, row, col)
    ensures Rotate(g, n, jp, c, row, col).Err? ==> Rotate(g, n, jp, c, row, col).error == InvalidRowColumn
    ensures 0 < row <= n && (col == 0 || col == n + 1) ==>
      Rotate(g, n, jp, c, row, col) == Ok(InsertRow(g, n, jp, c, row - 1, col == 0))
    ensures 0 < col <= n && (row == 0 || row == n + 1) ==>
      Rotate(g, n, jp, c, row, col) == Ok(InsertColumn(g, n, jp, c, col - 1, row == 0))
  {
  }

  /** `m` is `g` with only row k changed, shifted away from the inserting end. */
  ghost predicate RowShifted(g: Grid, m: Grid, n: nat, jp: nat, c: Card, k: nat, fromNear: bool)
    requires IsSquare(g, n) && IsSquare(m, n) && k < n
  {
    && (forall i :: 0 <= i < n && i != k ==> m[i] == g[i])
    && (fromNear ==> ShiftedFromNear(g[k], m[k], c, k == jp, jp))
    && (!fromNear ==> ShiftedFromFar(g[k], m[k], c, k == jp, jp))
  }

  /** `m` is `g` with only column k changed, shifted away from the inserting end. */
  ghost predicate ColumnShifted(g: Grid, m: Grid, n: nat, jp: nat, c: Card, k: nat, fromNear: bool)
    requires IsSquare(g, n) && IsSquare(m, n) && k < n
  {
    && (forall i, j :: 0 <= i < n && 0 <= j < n && j != k ==> m[i][j] == g[i][j])
    && (fromNear ==> ShiftedFromNear(Column(g, k), Column(m, k), c, k == jp, jp))
    && (!fromNear ==> ShiftedFromFar(Column(g, k), Column(m, k), c, k == jp, jp))
  }

  /** Row insertion: only that row changes, shifted away from the inserting end; the far end's cell leaves. */
  lemma InsertRowShifts(g: Grid, n: nat, jp: nat, c: Card, k: nat, fromNear: bool)
    requires IsSquare(g, n) && Geometry(n, jp) && k < n
    ensures var m := InsertRow(g, n, jp, c, k, fromNear);
      IsSquare(m.grid, n) && RowShifted(g, m.grid, n, jp, c, k, fromNear) &&
      m.discard == (if fromNear then g[k][n - 1] else g[k][0])
  {
    var line := g[k];
    var s := InsertLine(line, c, fromNear, k == jp, jp);
    var m := g[k := s.line];
    assert InsertRow(g, n, jp, c, k, fromNear) == Move(m, s.discard);
    assert IsSquare(m, n);
    InsertLineShifts(line, c, fromNear, k == jp, jp);
    assert RowShifted(g, m, n, jp, c, k, fromNear);
  }

  /** Column insertion: only that column changes, shifted away from the inserting end; the far end's cell leaves. */
  lemma InsertColumnShifts(g: Grid, n: nat, jp: nat, c: Card, k: nat, fromNear: bool)
    requires IsSquare(g, n) && Geometry(n, jp) && k < n
    ensures var m := InsertColumn(g, n, jp, c, k, fromNear);
      IsSquare(m.grid, n) && ColumnShifted(g, m.grid, n, jp, c, k, fromNear) &&
      m.discard == (if fromNear then g[n - 1][k] else g[0][k])
  {
    InsertColumnWritesBack(g, n, jp, c, k, fromNear);
    ColumnShiftedBy(g, InsertColumn(g, n, jp, c, k, fromNear).grid, n, jp, c, k, fromNear);
  }

  /** Inserting into column k writes the inserted line back into that column and keeps every other cell. */
  lemma InsertColumnWritesBack(g: Grid, n: nat, jp: nat, c: Card, k: nat, fromNear: bool)
    requires IsSquare(g, n) && Geometry(n, jp) && k < n
    ensures var s := InsertLine(Column(g, k), c, fromNear, k == jp, jp);
      ColumnReplaced(g, InsertColumn(g, n, jp, c, k, fromNear).grid, n, k, s.line) &&
      InsertColumn(g, n, jp, c, k, fromNear).discard == s.discard
  {
    var s := InsertLine(Column(g, k), c, fromNear, k == jp, jp);
    assert Transpose(g, n)[k] == Column(g, k);
    ReplaceColumn(g, n, k, s.line);
  }

  /** `m` is `g` with column k replaced by `line`. */
  ghost predicate ColumnReplaced(g: Grid, m: Grid, n: nat, k: nat, line: seq<Card>)
  {
    && IsSquare(g, n) && IsSquare(m, n) && k < n && Column(m, k) == line
    && forall i, j :: 0 <= i < n && 0 <= j < n && j != k ==> m[i][j] == g[i][j]
  }

  /** Replacing column k by the line the insertion produces shifts that column; the discard is the far end's cell. */
  lemma ColumnShiftedBy(g: Grid, m: Grid, n: nat, jp: nat, c: Card, k: nat, fromNear: bool)
    requires Geometry(n, jp) && IsSquare(g, n) && k < n
    requires ColumnReplaced(g, m, n, k, InsertLine(Column(g, k), c, fromNear, k == jp, jp).line)
    ensures ColumnShifted(g, m, n, jp, c, k, fromNear)
    ensures InsertLine(Column(g, k), c, fromNear, k == jp, jp).discard == (if fromNear then g[n - 1][k] else g[0][k])
  {
    var s := InsertLine(Column(g, k), c, fromNear, k == jp, jp);
    InsertLineShifts(Column(g, k), c, fromNear, k == jp, jp);
    ColumnShiftedFrom(g, m, n, jp, c, k, fromNear, s.line, s.discard);
  }

  /** ColumnShifted, from a column replaced by a shifted copy of itself. */
  lemma ColumnShiftedFrom(g: Grid, m: Grid, n: nat, jp: nat, c: Card, k: nat, fromNear: bool, line: seq<Card>, discard: Card)
    requires ColumnReplaced(g, m, n, k, line)
    requires LineShifted(Column(g, k), line, discard, c, fromNear, k == jp, jp)
    ensures ColumnShifted(g, m, n, jp, c, k, fromNear)
    ensures discard == if fromNear then g[n - 1][k] else g[0][k]
  {
  }

  /** Writing a line into column k through the transpose changes that column and nothing else. */
  lemma ReplaceColumn(g: Grid, n: nat, k: nat, line: seq<Card>)
    requires IsSquare(g, n) && k < n && |line| == n
    ensures ColumnReplaced(g, Transpose(Transpose(g, n)[k := line], n), n, k, line)
  {
    var t := Transpose(g, n);
    var t' := t[k := line];
    var m := Transpose(t', n);
    forall i, j | 0 <= i < n && 0 <= j < n && j != k
      ensures m[i][j] == g[i][j]
    {
      assert m[i][j] == t'[j][i] == t[j][i];
    }
    assert Column(m, k) == line;
  }

  /** A line shift never brings the joker to a new index: it stays pinned or stays out. */
  lemma ShiftKeepsJokerOut(before: seq<Card>, after: seq<Card>, c: Card, fromNear: bool, pin: bool, jp: nat)
    requires fromNear ==> ShiftedFromNear(before, after, c, pin, jp)
    requires !fromNear ==> ShiftedFromFar(before, after, c, pin, jp)
    requires !c.kind.Joker?
    requires forall k :: 0 <= k < |before| && !(pin && k == jp) ==> !before[k].kind.Joker?
    ensures forall k :: 0 <= k < |after| && !(pin && k == jp) ==> !after[k].kind.Joker?
    ensures pin ==> after[jp] == before[jp]
  {
  }

  /** After move `m` on `g`, the joker is still alone at the centre and was not discarded. */
  predicate KeptJoker(g: Grid, n: nat, jp: nat, m: Move)
  {
    JokerOnlyAtCentre(m.grid, n, jp) && IsSquare(g, n) && jp < n && m.grid[jp][jp] == g[jp][jp] && !m.discard.kind.Joker?
  }

  /** The joker stays at the centre through every update, and is never the discard. */
  lemma ApplyKeepsJoker(g: Grid, n: nat, jp: nat, empty: seq<Pos>, c: Card, row: int, col: int, m: Move)
    requires Geometry(n, jp) && JokerOnlyAtCentre(g, n, jp) && !c.kind.Joker?
    requires forall p :: p in empty ==> 1 <= p.0 <= n && 1 <= p.1 <= n && p != (jp + 1, jp + 1)
    requires Apply(g, n, jp, empty, c, row, col) == Ok(m)
    ensures KeptJoker(g, n, jp, m)
  {
    if |empty| > 0 {
      ApplyPlaceKeepsJoker(g, n, jp, empty, c, row, col, m);
    } else if 0 < row <= n && (col == 0 || col == n + 1) {
      ApplyRowKeepsJoker(g, n, jp, empty, c, row, col, m);
    } else {
      ApplyColumnKeepsJoker(g, n, jp, empty, c, row, col, m);
    }
  }

  /** Exactly one cell leaves the board: the discard is a card that was on the grid before the update. */
  lemma ApplyDiscardsACell(g: Grid, n: nat, jp: nat, empty: seq<Pos>, c: Card, row: int, col: int, m: Move)
    requires IsSquare(g, n) && Geometry(n, jp)
    requires forall p :: p in empty ==> 1 <= p.0 <= n && 1 <= p.1 <= n
    requires Apply(g, n, jp, empty, c, row, col) == Ok(m)
    ensures exists i, j :: 0 <= i < n && 0 <= j < n && m.discard == g[i][j]
  {
    if |empty| > 0 {
      assert m == Place(g, n, empty, c, row, col).value;
      PlaceChangesOneCell(g, n, empty, c, row, col);
      assert m.discard == g[row - 1][col - 1];
    } else if 0 < row <= n && (col == 0 || col == n + 1) {
      RotateRow(g, n, jp, c, row, col);
      InsertRowShifts(g, n, jp, c, row - 1, col == 0);
      assert m.discard == g[row - 1][if col == 0 then n - 1 else 0];
    } else {
      assert 0 < col <= n && (row == 0 || row == n + 1);
      RotateColumn(g, n, jp, c, row, col);
      InsertColumnShifts(g, n, jp, c, col - 1, row == 0);
      assert m.discard == g[if row == 0 then n - 1 else 0][col - 1];
    }
  }

  lemma ApplyPlaceKeepsJoker(g: Grid, n: nat, jp: nat, empty: seq<Pos>, c: Card, row: int, col: int, m: Move)
    requires Geometry(n, jp) && JokerOnlyAtCentre(g, n, jp) && !c.kind.Joker? && |empty| > 0
    requires forall p :: p in empty ==> 1 <= p.0 <= n && 1 <= p.1 <= n && p != (jp + 1, jp + 1)
    requires Apply(g, n, jp, empty, c, row, col) == Ok(m)
    ensures KeptJoker(g, n, jp, m)
  {
    assert m == Place(g, n, empty, c, row, col).value;
    PlaceKeepsJoker(g, n, jp, empty, c, row, col);
  }

  lemma ApplyRowKeepsJoker(g: Grid, n: nat, jp: nat, empty: seq<Pos>, c: Card, row: int, col: int, m: Move)
    requires Geometry(n, jp) && JokerOnlyAtCentre(g, n, jp) && !c.kind.Joker? && |empty| == 0
    requires forall p :: p in empty ==> 1 <= p.0 <= n && 1 <= p.1 <= n && p != (jp + 1, jp + 1)
    requires 0 < row <= n && (col == 0 || col == n + 1)
    requires Apply(g, n, jp, empty, c, row, col) == Ok(m)
    ensures KeptJoker(g, n, jp, m)
  {
    RotateRow(g, n, jp, c, row, col);
    RowInsertKeepsJoker(g, n, jp, c, row - 1, col == 0);
  }

  /** A rotation-phase update through a row is the row insertion. */
  lemma RotateRow(g: Grid, n: nat, jp: nat, c: Card, row: int, col: int)
    requires IsSquare(g, n) && Geometry(n, jp)
    requires 0 < row <= n && (col == 0 || col == n + 1)
    ensures Rotate(g, n, jp, c, row, col) == Ok(InsertRow(g, n, jp, c, row - 1, col == 0))
  {
  }

  lemma ApplyColumnKeepsJoker(g: Grid, n: nat, jp: nat, empty: seq<Pos>, c: Card, row: int, col: int, m: Move)
    requires Geometry(n, jp) && JokerOnlyAtCentre(g, n, jp) && !c.kind.Joker? && |empty| == 0
    requires forall p :: p in empty ==> 1 <= p.0 <= n && 1 <= p.1 <= n && p != (jp + 1, jp + 1)
    requires !(0 < row <= n && (col == 0 || col == n + 1))
    requires Apply(g, n, jp, empty, c, row, col) == Ok(m)
    ensures KeptJoker(g, n, jp, m)
  {
    assert 0 < col <= n && (row == 0 || row == n + 1);
    RotateColumn(g, n, jp, c, row, col);
    ColumnInsertKeepsJoker(g, n, jp, c, col - 1, row == 0);
  }

  /** A rotation-phase update through a column is the column insertion. */
  lemma RotateColumn(g: Grid, n: nat, jp: nat, c: Card, row: int, col: int)
    requires IsSquare(g, n) && Geometry(n, jp)
    requires !(0 < row <= n && (col == 0 || col == n + 1)) && 0 < col <= n && (row == 0 || row == n + 1)
    ensures Rotate(g, n, jp, c, row, col) == Ok(InsertColumn(g, n, jp, c, col - 1, row == 0))
  {
  }

  lemma PlaceKeepsJoker(g: Grid, n: nat, jp: nat, empty: seq<Pos>, c: Card, row: int, col: int)
    requires Geometry(n, jp) && JokerOnlyAtCentre(g, n, jp) && !c.kind.Joker?
    requires forall p :: p in empty ==> 1 <= p.0 <= n && 1 <= p.1 <= n && p != (jp + 1, jp + 1)
    requires Place(g, n, empty, c, row, col).Ok?
    ensures KeptJoker(g, n, jp, Place(g, n, empty, c, row, col).value)
  {
    PlaceChangesOneCell(g, n, empty, c, row, col);
    var m := Place(g, n, empty, c, row, col).value;
    assert (row, col) in empty;
    assert (row - 1, col - 1) != (jp, jp);
    forall i, j | 0 <= i < n && 0 <= j < n && (i != jp || j != jp)
      ensures !m.grid[i][j].kind.Joker?
    {
      if (i, j) != (row - 1, col - 1) {
        assert m.grid[i][j] == g[i][j];
      }
    }
  }

  lemma RowInsertKeepsJoker(g: Grid, n: nat, jp: nat, c: Card, k: nat, fromNear: bool)
    requires Geometry(n, jp) && JokerOnlyAtCentre(g, n, jp) && !c.kind.Joker? && k < n
    ensures KeptJoker(g, n, jp, InsertRow(g, n, jp, c, k, fromNear))
  {
    InsertRowShifts(g, n, jp, c, k, fromNear);
    var m := InsertRow(g, n, jp, c, k, fromNear);
    var pin := k == jp;
    ShiftKeepsJokerOut(g[k], m.grid[k], c, fromNear, pin, jp);
    forall i, j | 0 <= i < n && 0 <= j < n && (i != jp || j != jp)
      ensures !m.grid[i][j].kind.Joker?
    {
      if i != k {
        assert m.grid[i] == g[i];
      }
    }
    if !pin {
      assert m.grid[jp] == g[jp];
    }
  }

  lemma ColumnInsertKeepsJoker(g: Grid, n: nat, jp: nat, c: Card, k: nat, fromNear: bool)
    requires Geometry(n, jp) && JokerOnlyAtCentre(g, n, jp) && !c.kind.Joker? && k < n
    ensures KeptJoker(g, n, jp, InsertColumn(g, n, jp, c, k, fromNear))
  {
    InsertColumnShifts(g, n, jp, c, k, fromNear);
    var m := InsertColumn(g, n, jp, c, k, fromNear);
    ColumnShiftKeepsJoker(g, m.grid, n, jp, k, c, fromNear);
    assert m.discard == g[n - 1][k] || m.discard == g[0][k];
    assert n - 1 != jp && 0 != jp;
  }

  /** A grid that differs from g only in column k, shifted there by an insertion, keeps the joker at the centre. */
  lemma ColumnShiftKeepsJoker(g: Grid, m: Grid, n: nat, jp: nat, k: nat, c: Card, fromNear: bool)
    requires Geometry(n, jp) && JokerOnlyAtCentre(g, n, jp) && IsSquare(m, n) && k < n && !c.kind.Joker?
    requires ColumnShifted(g, m, n, jp, c, k, fromNear)
    ensures JokerOnlyAtCentre(m, n, jp) && m[jp][jp] == g[jp][jp]
  {
    var before, after := Column(g, k), Column(m, k);
    forall i | 0 <= i < n && !(k == jp && i == jp)
      ensures !before[i].kind.Joker?
    {
      assert before[i] == g[i][k];
    }
    ShiftKeepsJokerOut(before, after, c, fromNear, k == jp, jp);
    forall i, j | 0 <= i < n && 0 <= j < n && (i != jp || j != jp)
      ensures !m[i][j].kind.Joker?
    {
      if j == k {
        assert m[i][j] == after[i];
      }
    }
    if k == jp {
      assert m[jp][jp] == after[jp] == before[jp];
    }
  }

  /** The value a cell adds to a player's ring score, before weighting: truthy cells of the player's suit. */
  function CellScore(c: Card, suit: string): int
  {
    if Truthy(c) && c.suit == suit then c.value else 0
  }

  /** `scoring_pos`: weight 1 on the joker's diagonal neighbours, weight 2 on its orthogonal ones. */
  function ScoringPositions(jp: nat): seq<(int, seq<(nat, nat)>)>
    requires jp >= 1
  {
    [(1, [(jp - 1, jp - 1), (jp - 1, jp + 1), (jp + 1, jp - 1), (jp + 1, jp + 1)]),
     (2, [(jp - 1, jp), (jp, jp - 1), (jp + 1, jp), (jp, jp + 1)])]
  }

  function SumCells(g: Grid, n: nat, weight: int, cells: seq<(nat, nat)>, suit: string): int
    requires IsSquare(g, n)
    requires forall k :: 0 <= k < |cells| ==> cells[k].0 < n && cells[k].1 < n
  {
    if cells == [] then 0
    else weight * CellScore(g[cells[0].0][cells[0].1], suit) + SumCells(g, n, weight, cells[1..], suit)
  }

  function SumGroups(g: Grid, n: nat, groups: seq<(int, seq<(nat, nat)>)>, suit: string): int
    requires IsSquare(g, n)
    requires forall k, m :: 0 <= k < |groups| && 0 <= m < |groups[k].1| ==> groups[k].1[m].0 < n && groups[k].1[m].1 < n
  {
    if groups == [] then 0
    else SumCells(g, n, groups[0].0, groups[0].1, suit) + SumGroups(g, n, groups[1..], suit)
  }

  /** `Board.score` on a board that is not finalised. */
  function RingScore(g: Grid, n: nat, jp: nat, suit: string): int
    requires IsSquare(g, n) && Geometry(n, jp)
  {
    SumGroups(g, n, ScoringPositions(jp), suit)
  }

  /** How much one cell's card counts in the ring: 1 diagonally next to the joker, 2 orthogonally, 0 elsewhere. */
  function Weight(jp: nat, i: int, j: int): int
  {
    if (i == jp && j == jp) || i < jp - 1 || i > jp + 1 || j < jp - 1 || j > jp + 1 then 0
    else if i == jp || j == jp then 2
    else 1
  }

  lemma SumFourCells(g: Grid, n: nat, weight: int, cells: seq<(nat, nat)>, suit: string)
    requires IsSquare(g, n) && |cells| == 4
    requires forall k :: 0 <= k < |cells| ==> cells[k].0 < n && cells[k].1 < n
    ensures SumCells(g, n, weight, cells, suit) ==
      weight * CellScore(g[cells[0].0][cells[0].1], suit) + weight * CellScore(g[cells[1].0][cells[1].1], suit) +
      weight * CellScore(g[cells[2].0][cells[2].1], suit) + weight * CellScore(g[cells[3].0][cells[3].1], suit)
  {
    var c1 := cells[1..];
    var c2 := c1[1..];
    var c3 := c2[1..];
    assert SumCells(g, n, weight, c3[1..], suit) == 0;
    assert SumCells(g, n, weight, c3, suit) == weight * CellScore(g[cells[3].0][cells[3].1], suit);
    assert SumCells(g, n, weight, c2, suit) == weight * CellScore(g[cells[2].0][cells[2].1], suit) + SumCells(g, n, weight, c3, suit);
    assert SumCells(g, n, weight, c1, suit) == weight * CellScore(g[cells[1].0][cells[1].1], suit) + SumCells(g, n, weight, c2, suit);
  }

  /** The ring score, cell by cell: weight times value for each of the eight neighbours of the joker. */
  lemma RingScoreByWeight(g: Grid, n: nat, jp: nat, suit: string)
    requires IsSquare(g, n) && Geometry(n, jp)
    ensures RingScore(g, n, jp, suit) ==
      Weight(jp, jp - 1, jp - 1) * CellScore(g[jp - 1][jp - 1], suit) + Weight(jp, jp - 1, jp) * CellScore(g[jp - 1][jp], suit) +
      Weight(jp, jp - 1, jp + 1) * CellScore(g[jp - 1][jp + 1], suit) + Weight(jp, jp, jp - 1) * CellScore(g[jp][jp - 1], suit) +
      Weight(jp, jp, jp + 1) * CellScore(g[jp][jp + 1], suit) + Weight(jp, jp + 1, jp - 1) * CellScore(g[jp + 1][jp - 1], suit) +
      Weight(jp, jp + 1, jp) * CellScore(g[jp + 1][jp], suit) + Weight(jp, jp + 1, jp + 1) * CellScore(g[jp + 1][jp + 1], suit)
  {
    var groups: seq<(int, seq<(nat, nat)>)> := ScoringPositions(jp);
    assert SumGroups(g, n, groups[1..][1..], suit) == 0;
    assert SumGroups(g, n, groups[1..], suit) == SumCells(g, n, 2, groups[1].1, suit);
    assert RingScore(g, n, jp, suit) == SumCells(g, n, 1, groups[0].1, suit) + SumCells(g, n, 2, groups[1].1, suit);
    SumFourCells(g, n, 1, groups[0].1, suit);
    SumFourCells(g, n, 2, groups[1].1, suit);
  }

  /** Putting a card on one cell changes a player's score by that cell's weight times the change in its value. */
  lemma RingScoreSetCell(g: Grid, n: nat, jp: nat, suit: string, i: nat, j: nat, c: Card)
    requires IsSquare(g, n) && Geometry(n, jp) && i < n && j < n
    ensures IsSquare(g[i := g[i][j := c]], n)
    ensures RingScore(g[i := g[i][j := c]], n, jp, suit)
         == RingScore(g, n, jp, suit) + Weight(jp, i, j) * (CellScore(c, suit) - CellScore(g[i][j], suit))
  {
    var h := g[i := g[i][j := c]];
    RingScoreByWeight(g, n, jp, suit);
    RingScoreByWeight(h, n, jp, suit);
  }

  /** Two grids that agree on the eight neighbours of the joker give every player the same score. */
  lemma RingScoreOnlyReadsRing(g: Grid, h: Grid, n: nat, jp: nat, suit: string)
    requires IsSquare(g, n) && IsSquare(h, n) && Geometry(n, jp)
    requires forall i, j :: 0 <= i < n && 0 <= j < n && Weight(jp, i, j) != 0 ==> g[i][j] == h[i][j]
    ensures RingScore(g, n, jp, suit) == RingScore(h, n, jp, suit)
  {
    RingScoreByWeight(g, n, jp, suit);
    RingScoreByWeight(h, n, jp, suit);
    assert Weight(jp, jp - 1, jp - 1) != 0 && Weight(jp, jp - 1, jp) != 0 && Weight(jp, jp - 1, jp + 1) != 0;
    assert Weight(jp, jp, jp - 1) != 0 && Weight(jp, jp, jp + 1) != 0;
    assert Weight(jp, jp + 1, jp - 1) != 0 && Weight(jp, jp + 1, jp) != 0 && Weight(jp, jp + 1, jp + 1) != 0;
  }

  /** The edge sentinels of `enum_plies`: top, bottom, left and right, each for lines 1..n. */
  function Sentinels(n: nat): (r: seq<Pos>)
  {
    seq(n, i => (0, i + 1)) + seq(n, i => (n + 1, i + 1)) + seq(n, i => (i + 1, 0)) + seq(n, i => (i + 1, n + 1))
  }

  /** The sentinels are exactly the positions the rotation phase accepts, 4n of them. */
  lemma SentinelsAreValidRotations(n: nat, p: Pos)
    ensures |Sentinels(n)| == 4 * n
    ensures p in Sentinels(n) <==> ValidRotation(n, p.0, p.1)
  {
    var top, bottom, left, right := seq(n, i => (0, i + 1)), seq(n, i => (n + 1, i + 1)), seq(n, i => (i + 1, 0)), seq(n, i => (i + 1, n + 1));
    assert Sentinels(n) == top + bottom + left + right;
    if ValidRotation(n, p.0, p.1) {
      if 0 < p.0 <= n && p.1 == 0 {
        assert left[p.0 - 1] == p;
      } else if 0 < p.0 <= n && p.1 == n + 1 {
        assert right[p.0 - 1] == p;
      } else if p.0 == 0 {
        assert top[p.1 - 1] == p;
      } else {
        assert bottom[p.1 - 1] == p;
      }
    }
  }
}
