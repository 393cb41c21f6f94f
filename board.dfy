/**
 * The pure derivations of src/pages/game_s4.tsx that read the board: the legal
 * destination list, the own-position lookup, `isPosInList` and the board sizes.
 *
 * The board arrives from the server as rows of raw cells: a number (1 marks a
 * blocked cell, 0 an empty one) or a string (the id of the player standing there).
 * The page keeps the raw values; a cell counts as empty when it is falsy.
 */
module Board {
  import opened Wrappers

  datatype Pos = Pos(x: int, y: int)

  /** A raw cell: a number or a string. */
  datatype Cell = Num(n: int) | Id(s: string)

  type Grid = seq<seq<Cell>>

  /** JavaScript falsiness of a raw cell (NaN is not modelled). */
  predicate Falsy(c: Cell) {
    c == Num(0) || c == Id("")
  }

  /** `allGameColsMap[gameType]`: the number of columns (and rows) of each game kind. */
  function GameCols(gameType: Option<string>): (cols: Option<int>)
    ensures cols.Some? ==> cols.value == 9 || cols.value == 15 || cols.value == 21
    ensures gameType == Some("s4p2") || gameType == Some("s4g9") ==> cols == Some(9)
    ensures gameType == Some("s4p4") || gameType == Some("s4g15") ==> cols == Some(15)
    ensures gameType == Some("s4p8") || gameType == Some("s4g21") ==> cols == Some(21)
    ensures cols.None? <==>
              gameType !in {Some("s4p2"), Some("s4g9"), Some("s4p4"), Some("s4g15"), Some("s4p8"), Some("s4g21")}
  {
    match gameType
    case None => None
    case Some(t) =>
      if t == "s4p2" || t == "s4g9" then Some(9)
      else if t == "s4p4" || t == "s4g15" then Some(15)
      else if t == "s4p8" || t == "s4g21" then Some(21)
      else None
  }

  /** `list.findIndex(p => p === x)`: the first index holding `x`, or -1. */
  function FindIndex<T(==)>(list: seq<T>, x: T): (i: int)
    ensures -1 <= i < |list|
    ensures i == -1 <==> x !in list
    ensures 0 <= i ==> list[i] == x && forall j :: 0 <= j < i ==> list[j] != x
  {
    if list == [] then -1
    else if list[0] == x then 0
    else
      var i := FindIndex(list[1..], x);
      if i == -1 then -1 else i + 1
  }

  /** `isPosInList(pos, posList)`. */
  function IsPosInList(pos: Pos, posList: seq<Pos>): (r: bool)
    ensures r <==> pos in posList
  {
    FindIndex(posList, pos) != -1
  }

  // ---------------------------------------------------------------------------
  // The legal destination list

  /** The four neighbours in the order the page lists them. */
  function Neighbours(p: Pos): (ns: seq<Pos>)
    ensures |ns| == 4 && p !in ns
    ensures forall q :: q in ns <==> ((q.y == p.y && (q.x == p.x + 1 || q.x == p.x - 1)) ||
                                      (q.x == p.x && (q.y == p.y + 1 || q.y == p.y - 1)))
  {
    [Pos(p.x + 1, p.y), Pos(p.x - 1, p.y), Pos(p.x, p.y + 1), Pos(p.x, p.y - 1)]
  }

  /** Inside the board size the page uses (an unknown game kind has no size: comparisons with undefined fail). */
  predicate InBounds(q: Pos, sizeX: Option<int>, sizeY: Option<int>) {
    sizeX.Some? && sizeY.Some? && 0 <= q.x < sizeX.value && 0 <= q.y < sizeY.value
  }

  /** In bounds, but the server's board has no such row: `boardGrids[q.y][q.x]` throws. */
  predicate RowMissing(board: Grid, q: Pos, sizeX: Option<int>, sizeY: Option<int>) {
    InBounds(q, sizeX, sizeY) && q.y >= |board|
  }

  /** The filter's test: in bounds and the cell is falsy (a missing column reads as undefined). */
  predicate Vacant(board: Grid, q: Pos, sizeX: Option<int>, sizeY: Option<int>)
    requires !RowMissing(board, q, sizeX, sizeY)
  {
    InBounds(q, sizeX, sizeY) && (q.x >= |board[q.y]| || Falsy(board[q.y][q.x]))
  }

  /** `r` keeps the elements of `s` in order, dropping some. */
  predicate IsSubsequence(r: seq<Pos>, s: seq<Pos>)
    decreases |s|
  {
    if r == [] then true
    else if s == [] then false
    else if r[0] == s[0] then IsSubsequence(r[1..], s[1..])
    else IsSubsequence(r, s[1..])
  }

  /** `ps.filter(...)` with the vacancy test. */
  function FilterVacant(ps: seq<Pos>, board: Grid, sizeX: Option<int>, sizeY: Option<int>): (r: seq<Pos>)
    requires forall q :: q in ps ==> !RowMissing(board, q, sizeX, sizeY)
    ensures forall q :: q in r <==> q in ps && Vacant(board, q, sizeX, sizeY)
    ensures IsSubsequence(r, ps)
  {
    if ps == [] then []
    else
      var rest := FilterVacant(ps[1..], board, sizeX, sizeY);
      if Vacant(board, ps[0], sizeX, sizeY) then [ps[0]] + rest else rest
  }

  /** The cells `(0, y) .. (n - 1, y)` of one row, in order. */
  function RowCells(y: int, n: nat): (r: seq<Pos>)
    ensures |r| == n
    ensures forall i :: 0 <= i < n ==> r[i] == Pos(i, y)
  {
    if n == 0 then [] else RowCells(y, n - 1) + [Pos(n - 1, y)]
  }

  /** The board's `reduce` over rows from `y` on: every cell of every row, row after row. */
  function CellsFrom(board: Grid, y: nat): seq<Pos>
    decreases |board| - y
  {
    if y >= |board| then [] else RowCells(y, |board[y]|) + CellsFrom(board, y + 1)
  }

  function AllCells(board: Grid): seq<Pos> {
    CellsFrom(board, 0)
  }

  /** `a` comes strictly before `b` in row-major order. */
  predicate RowMajorBefore(a: Pos, b: Pos) {
    a.y < b.y || (a.y == b.y && a.x < b.x)
  }

  /** A cell the board has. */
  predicate OnBoard(board: Grid, q: Pos) {
    0 <= q.y < |board| && 0 <= q.x < |board[q.y]|
  }

  /** Each cell comes strictly before every later one in row-major order. */
  predicate RowMajorSorted(s: seq<Pos>) {
    forall i, j :: 0 <= i < j < |s| ==> RowMajorBefore(s[i], s[j])
  }

  /** A row in order followed by sorted cells of later rows is sorted. */
  lemma RowThenLaterSorted(row: seq<Pos>, rest: seq<Pos>, y: int)
    requires forall i :: 0 <= i < |row| ==> row[i] == Pos(i, y)
    requires forall q :: q in rest ==> y < q.y
    requires RowMajorSorted(rest)
    ensures RowMajorSorted(row + rest)
  {
    var all := row + rest;
    forall i, j | 0 <= i < j < |all| ensures RowMajorBefore(all[i], all[j]) {
      if j < |row| {
        assert all[i] == row[i] && all[j] == row[j];
      } else if i < |row| {
        assert all[i] == row[i] && all[j] == rest[j - |row|];
        assert all[j] in rest;
      } else {
        assert all[i] == rest[i - |row|] && all[j] == rest[j - |row|];
      }
    }
  }

  /** The list from row `y` on holds exactly the board's cells of those rows, in strict row-major order. */
  lemma {:induction false} CellsFromSpec(board: Grid, y: nat)
    ensures forall q :: q in CellsFrom(board, y) <==> OnBoard(board, q) && y <= q.y
    ensures RowMajorSorted(CellsFrom(board, y))
    decreases |board| - y
  {
    if y < |board| {
      CellsFromSpec(board, y + 1);
      var row := RowCells(y, |board[y]|);
      var rest := CellsFrom(board, y + 1);
      assert CellsFrom(board, y) == row + rest;
      forall q ensures q in row + rest <==> OnBoard(board, q) && y <= q.y {
        if q in row {
          var i :| 0 <= i < |row| && row[i] == q;
        }
        if OnBoard(board, q) && q.y == y {
          assert row[q.x] == q;
        }
      }
      RowThenLaterSorted(row, rest, y);
    }
  }

  /** Every cell of the board, each once, in row-major order. */
  lemma AllCellsSpec(board: Grid)
    ensures forall q :: q in AllCells(board) <==> OnBoard(board, q)
    ensures RowMajorSorted(AllCells(board))
  {
    CellsFromSpec(board, 0);
  }

  /**
   * `nextStepCanMovedGrids`: empty when the turn is closed; every cell of the board
   * (with no emptiness test) when the player has no position yet; otherwise the
   * neighbours that are in bounds and vacant. `None` when that filter reads a row
   * the board does not have, where the page throws.
   */
  function NextStepGrids(canNextStep: bool, myPos: Option<Pos>, board: Grid,
                         sizeX: Option<int>, sizeY: Option<int>): (r: Option<seq<Pos>>)
    ensures !canNextStep ==> r == Some([])
    ensures canNextStep && myPos.None? ==> r == Some(AllCells(board))
    ensures canNextStep && myPos.Some? ==>
              (r.None? <==> exists q :: q in Neighbours(myPos.value) && RowMissing(board, q, sizeX, sizeY))
    ensures canNextStep && myPos.Some? && r.Some? ==>
              myPos.value !in r.value &&
              IsSubsequence(r.value, Neighbours(myPos.value)) &&
              forall q :: q in r.value <==> q in Neighbours(myPos.value) && Vacant(board, q, sizeX, sizeY)
  {
    if !canNextStep then Some([])
    else match myPos
      case None => Some(AllCells(board))
      case Some(p) =>
        var ns := Neighbours(p);
        if exists q :: q in ns && RowMissing(board, q, sizeX, sizeY) then None
        else Some(FilterVacant(ns, board, sizeX, sizeY))
  }

  // ---------------------------------------------------------------------------
  // The own-position lookup

  /** The cell at `p` carries the player id `id`. */
  predicate HoldsId(board: Grid, p: Pos, id: string) {
    OnBoard(board, p) && board[p.y][p.x] == Id(id)
  }

  /** No cell of rows `from .. to - 1` carries `id`. */
  ghost predicate NoIdInRows(board: Grid, id: string, from: int, to: int) {
    forall q: Pos :: from <= q.y < to ==> !HoldsId(board, q, id)
  }

  /** `p` is the first cell in row-major order that carries `id`. */
  ghost predicate FirstHolder(board: Grid, p: Pos, id: string) {
    HoldsId(board, p, id) && NoIdInRows(board, id, 0, p.y) &&
    forall x :: 0 <= x < p.x ==> board[p.y][x] != Id(id)
  }

  /** The first cell in row-major order that carries `id`, scanning from row `y`. */
  function Locate(board: Grid, id: string, y: nat): (r: Option<Pos>)
    requires y <= |board|
    ensures r.None? ==> NoIdInRows(board, id, y, |board|)
    ensures r.Some? ==> y <= r.value.y && HoldsId(board, r.value, id) && NoIdInRows(board, id, y, r.value.y) &&
                        forall x :: 0 <= x < r.value.x ==> board[r.value.y][x] != Id(id)
    decreases |board| - y
  {
    if y == |board| then None
    else
      var x := FindIndex(board[y], Id(id));
      if x > -1 then Some(Pos(x, y))
      else
        Locate(board, id, y + 1)
  }

  /** The whole-board lookup gives the first holder, and finds one whenever a cell holds the id. */
  lemma LocateSpec(board: Grid, id: string)
    ensures Locate(board, id, 0).Some? ==> FirstHolder(board, Locate(board, id, 0).value, id)
    ensures (exists q :: HoldsId(board, q, id)) ==> Locate(board, id, 0).Some?
  {
  }

  /**
   * The position the page recomputes after a board change: the first cell carrying
   * the account id, or the previous position when none does, when the board has no
   * rows, or when there is no account.
   */
  function ScannedPos(board: Grid, account: Option<string>, previous: Option<Pos>): (r: Option<Pos>)
    ensures r == previous || (account.Some? && r.Some? && FirstHolder(board, r.value, account.value))
    ensures account.Some? && (exists q :: HoldsId(board, q, account.value)) ==>
              r.Some? && FirstHolder(board, r.value, account.value)
  {
    LocateSpec(board, if account.Some? then account.value else "");
    if |board| == 0 || account.None? then previous
    else match Locate(board, account.value, 0)
      case Some(p) => Some(p)
      case None => previous
  }
}
