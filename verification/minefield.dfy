/** The board as the active phase sees it. The board and field classes are not part
    of this model; this module gives the abstract behaviour the phase relies on:
    a square grid of fields, each with a visibility and a mine flag, a one-shot
    mine-placement latch, single-field uncovering and the completion test. */
module Minefield {

  datatype Visibility = Covered | Flagged | Uncovered

  datatype Field = Field(visibility: Visibility, hasMine: bool)

  /** A grid coordinate `(x, z)`. */
  type Pos = (int, int)

  datatype Board = Board(side: int, fields: map<Pos, Field>, placed: bool)

  /** Every coordinate of a square grid with the given side length. */
  function Cells(side: int): set<Pos>
  {
    set x: int, z: int | 0 <= x < side && 0 <= z < side :: (x, z)
  }

  /** The board holds exactly one field per in-bounds coordinate. */
  predicate WellFormed(b: Board)
  {
    b.fields.Keys == Cells(b.side)
  }

  /** The bounds check applied to a click before the board is touched: the coordinate
      is one of the grid's cells. */
  predicate IsValidPos(b: Board, x: int, z: int)
    ensures IsValidPos(b, x, z) <==> (x, z) in Cells(b.side)
  {
    0 <= x < b.side && 0 <= z < b.side
  }

  /** On a well-formed board a coordinate passes the bounds check exactly when it has a field. */
  lemma ValidPosHasField(b: Board, x: int, z: int)
    requires WellFormed(b)
    ensures IsValidPos(b, x, z) <==> (x, z) in b.fields
  {
  }

  /** A fresh board: every field covered and free of mines, no mines placed yet. */
  function NewBoard(side: int): (b: Board)
    ensures WellFormed(b) && !b.placed && b.side == side
    ensures forall p :: p in b.fields ==> b.fields[p] == Field(Covered, false)
  {
    Board(side, map p | p in Cells(side) :: Field(Covered, false), false)
  }

  /** Lazy mine placement. `draw` stands for the coordinates the random source picks;
      the excluded coordinate never receives a mine. Once placed, the board is left alone. */
  function PlaceMines(b: Board, x: int, z: int, draw: set<Pos>): (r: Board)
    ensures r.placed && r.side == b.side && r.fields.Keys == b.fields.Keys
    ensures b.placed ==> r == b
    ensures forall p :: p in b.fields ==> r.fields[p].visibility == b.fields[p].visibility
    ensures !b.placed && (x, z) in r.fields ==> !r.fields[(x, z)].hasMine
    ensures !b.placed ==> forall p :: p in r.fields ==> (r.fields[p].hasMine <==> p in draw && p != (x, z))
  {
    if b.placed then b
    else
      var fields := map p | p in b.fields :: b.fields[p].(hasMine := p in draw && p != (x, z));
      Board(b.side, fields, true)
  }

  /** Sets the visibility of one field and leaves every other field, and every mine, alone. */
  function SetVisibility(b: Board, p: Pos, v: Visibility): (r: Board)
    requires p in b.fields
    ensures r.side == b.side && r.placed == b.placed && r.fields.Keys == b.fields.Keys
    ensures r.fields[p].visibility == v
    ensures forall q :: q in b.fields ==> r.fields[q].hasMine == b.fields[q].hasMine
    ensures forall q :: q in b.fields && q != p ==> r.fields[q] == b.fields[q]
  {
    b.(fields := b.fields[p := b.fields[p].(visibility := v)])
  }

  /** Uncovers a covered field and reports whether it held a mine. */
  function Uncover(b: Board, p: Pos): (r: (Board, bool))
    requires p in b.fields && b.fields[p].visibility == Covered
    ensures r.0.side == b.side && r.0.placed == b.placed && r.0.fields.Keys == b.fields.Keys
    ensures r.0.fields[p] == Field(Uncovered, b.fields[p].hasMine)
    ensures forall q :: q in b.fields && q != p ==> r.0.fields[q] == b.fields[q]
    ensures r.1 <==> b.fields[p].hasMine
  {
    (SetVisibility(b, p, Uncovered), b.fields[p].hasMine)
  }

  /** The fields not yet uncovered, whether covered or flagged. */
  function Hidden(b: Board): set<Pos>
  {
    set p | p in b.fields && b.fields[p].visibility != Uncovered
  }

  /** The fields that hold a mine. */
  function Mines(b: Board): set<Pos>
  {
    set p | p in b.fields && b.fields[p].hasMine
  }

  /** Every mine-free field is uncovered exactly when every field still hidden holds a mine. */
  lemma HiddenOnlyMines(b: Board)
    ensures (forall p :: p in b.fields && !b.fields[p].hasMine ==> b.fields[p].visibility == Uncovered)
            <==> Hidden(b) <= Mines(b)
  {
    if Hidden(b) <= Mines(b) {
      forall p | p in b.fields && !b.fields[p].hasMine
        ensures b.fields[p].visibility == Uncovered
      {
        assert p !in Mines(b);
      }
    }
  }

  /** The win condition: every field without a mine is uncovered, so the board hides
      nothing but mines; whether those mines are flagged plays no part. */
  predicate IsCompleted(b: Board)
    ensures IsCompleted(b) <==> Hidden(b) <= Mines(b)
  {
    HiddenOnlyMines(b);
    forall p :: p in b.fields && !b.fields[p].hasMine ==> b.fields[p].visibility == Uncovered
  }

  /** The fields whose mine has been revealed. */
  function UncoveredMines(b: Board): set<Pos>
  {
    set p | p in b.fields && b.fields[p].visibility == Uncovered && b.fields[p].hasMine
  }

  /** Changing the visibility of a field that is not an uncovered mine into something
      other than Uncovered leaves the set of revealed mines as it was. */
  lemma UncoveredMinesKeptBySafeChange(b: Board, p: Pos, v: Visibility)
    requires p in b.fields
    requires !(b.fields[p].visibility == Uncovered && b.fields[p].hasMine)
    requires v != Uncovered || !b.fields[p].hasMine
    ensures UncoveredMines(SetVisibility(b, p, v)) == UncoveredMines(b)
  {
  }

  /** Uncovering a covered mine adds exactly one revealed mine. */
  lemma UncoveredMinesGrowByOne(b: Board, p: Pos)
    requires p in b.fields
    requires b.fields[p].visibility != Uncovered && b.fields[p].hasMine
    ensures |UncoveredMines(SetVisibility(b, p, Uncovered))| == |UncoveredMines(b)| + 1
  {
    var r := SetVisibility(b, p, Uncovered);
    assert p !in UncoveredMines(b);
    assert UncoveredMines(r) == UncoveredMines(b) + {p};
  }

  /** Mine placement on an untouched board reveals no mine. */
  lemma PlaceMinesRevealsNothing(b: Board, x: int, z: int, draw: set<Pos>)
    requires !b.placed
    requires forall p :: p in b.fields ==> b.fields[p].visibility == Covered
    ensures UncoveredMines(PlaceMines(b, x, z, draw)) == {}
  {
  }
}
