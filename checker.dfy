/** The solution checker: a completeness scan, then rows, columns and 3x3 boxes,
    stopping at the first region the region test rejects.

    The region test itself (`isValidSet`) is not defined by the game script, so
    every member here takes it as a parameter and holds for any such test. */
module Checker {
  import opened Board

  /** What the check reports: the message and highlight the game shows. */
  datatype Verdict = Incomplete | Valid | Invalid(kind: Kind, index: nat)

  /** The 27 regions numbered in the order the checker visits them: rows 0..8
      are 0..8, columns 0..8 are 9..17, boxes 0..8 are 18..26. */
  function KindAt(j: nat): Kind
    requires j < 27
  {
    if j < 9 then Row else if j < 18 then Col else Box
  }

  /** The position of a failing region in visiting order. */
  function Rank(kind: Kind, index: nat): (j: nat)
    requires index < 9
    ensures j < 27 && KindAt(j) == kind && j % 9 == index
  {
    match kind
    case Row => index
    case Col => 9 + index
    case Box => 18 + index
  }

  /** The values of the j-th region visited. */
  function RegionAt(g: Grid, j: nat): seq<int>
    requires IsGrid(g) && j < 27
  {
    Region(g, KindAt(j), j % 9)
  }

  /** The verdict once the grid is known complete and regions before `from`
      have passed: the first region from `from` on that the test rejects. */
  function FirstFailure(g: Grid, isValidSet: seq<int> -> bool, from: nat): (v: Verdict)
    requires IsGrid(g) && from <= 27
    ensures v != Incomplete
    ensures v == Valid <==> forall j :: from <= j < 27 ==> isValidSet(RegionAt(g, j))
    ensures v.Invalid? ==>
              v.index < 9 && from <= Rank(v.kind, v.index) &&
              !isValidSet(RegionAt(g, Rank(v.kind, v.index))) &&
              forall j :: from <= j < Rank(v.kind, v.index) ==> isValidSet(RegionAt(g, j))
    decreases 27 - from
  {
    if from == 27 then Valid
    else if !isValidSet(RegionAt(g, from)) then Invalid(KindAt(from), from % 9)
    else FirstFailure(g, isValidSet, from + 1)
  }

  /** The reference verdict for a grid: Incomplete when any cell is empty,
      otherwise the first rejected region in visiting order, otherwise Valid. */
  function Judge(g: Grid, isValidSet: seq<int> -> bool): (v: Verdict)
    requires IsGrid(g)
    ensures v == Incomplete <==> !Complete(g)
    ensures v == Valid <==> Complete(g) && forall j :: 0 <= j < 27 ==> isValidSet(RegionAt(g, j))
    ensures v.Invalid? ==>
              Complete(g) && v.index < 9 &&
              !isValidSet(Region(g, v.kind, v.index)) &&
              forall j :: 0 <= j < Rank(v.kind, v.index) ==> isValidSet(RegionAt(g, j))
  {
    if !Complete(g) then Incomplete else FirstFailure(g, isValidSet, 0)
  }

  /** If every region from `from` up to `j` passes and region `j` fails, the
      verdict from `from` on names region `j`: the contract of FirstFailure
      determines its result. */
  lemma FirstFailureIsAt(g: Grid, isValidSet: seq<int> -> bool, from: nat, j: nat)
    requires IsGrid(g) && from <= j < 27
    requires forall k :: from <= k < j ==> isValidSet(RegionAt(g, k))
    requires !isValidSet(RegionAt(g, j))
    ensures FirstFailure(g, isValidSet, from) == Invalid(KindAt(j), j % 9)
  {
  }

  /** The phases report in order: a failing row is the lowest failing row; a
      failing column is reported only when every row passed and is the lowest
      failing column; a failing box only when every row and column passed and
      no lower box failed. */
  lemma ReportOrder(g: Grid, isValidSet: seq<int> -> bool)
    requires IsGrid(g)
    ensures Judge(g, isValidSet).Invalid? ==>
              var v := Judge(g, isValidSet);
              (forall r :: 0 <= r < 9 && (v.kind != Row || r < v.index) ==>
                 isValidSet(Region(g, Row, r))) &&
              (v.kind != Row ==>
                 forall c :: 0 <= c < 9 && (v.kind != Col || c < v.index) ==>
                   isValidSet(Region(g, Col, c))) &&
              (v.kind == Box ==>
                 forall b :: 0 <= b < v.index ==> isValidSet(Region(g, Box, b)))
  {
    var v := Judge(g, isValidSet);
    if v.Invalid? {
      forall r | 0 <= r < 9 && (v.kind != Row || r < v.index)
        ensures isValidSet(Region(g, Row, r))
      {
        assert Rank(Row, r) < Rank(v.kind, v.index) && isValidSet(RegionAt(g, Rank(Row, r)));
      }
      if v.kind != Row {
        forall c | 0 <= c < 9 && (v.kind != Col || c < v.index)
          ensures isValidSet(Region(g, Col, c))
        {
          assert Rank(Col, c) < Rank(v.kind, v.index) && isValidSet(RegionAt(g, Rank(Col, c)));
        }
      }
      if v.kind == Box {
        forall b | 0 <= b < v.index
          ensures isValidSet(Region(g, Box, b))
        {
          assert Rank(Box, b) < Rank(v.kind, v.index) && isValidSet(RegionAt(g, Rank(Box, b)));
        }
      }
    }
  }

  /** On a complete grid the lowest failing row is reported, whatever the
      columns and boxes hold (so a grid whose row 0 and column 0 both fail
      reports row 0). */
  lemma LowestFailingRowReported(g: Grid, isValidSet: seq<int> -> bool, row: nat)
    requires IsGrid(g) && Complete(g) && row < 9
    requires forall r :: 0 <= r < row ==> isValidSet(Region(g, Row, r))
    requires !isValidSet(Region(g, Row, row))
    ensures Judge(g, isValidSet) == Invalid(Row, row)
  {
    assert forall k :: 0 <= k < row ==> RegionAt(g, k) == Region(g, Row, k);
    FirstFailureIsAt(g, isValidSet, 0, row);
  }

  /** On a complete grid whose rows all pass, the lowest failing column is
      reported, whatever the boxes hold. */
  lemma LowestFailingColumnReported(g: Grid, isValidSet: seq<int> -> bool, col: nat)
    requires IsGrid(g) && Complete(g) && col < 9
    requires forall r :: 0 <= r < 9 ==> isValidSet(Region(g, Row, r))
    requires forall c :: 0 <= c < col ==> isValidSet(Region(g, Col, c))
    requires !isValidSet(Region(g, Col, col))
    ensures Judge(g, isValidSet) == Invalid(Col, col)
  {
    forall k | 0 <= k < 9 + col
      ensures isValidSet(RegionAt(g, k))
    {
      if k < 9 {
        assert RegionAt(g, k) == Region(g, Row, k);
      } else {
        assert RegionAt(g, k) == Region(g, Col, k - 9);
      }
    }
    assert RegionAt(g, 9 + col) == Region(g, Col, col);
    FirstFailureIsAt(g, isValidSet, 0, 9 + col);
  }

  /** The values of box (boxRow, boxCol), pushed row by row from rows
      [boxRow * 3, boxRow * 3 + 3) and columns [boxCol * 3, boxCol * 3 + 3). */
  method CollectBox(g: Grid, boxRow: nat, boxCol: nat) returns (box: seq<int>)
    requires IsGrid(g) && boxRow < 3 && boxCol < 3
    ensures box == Region(g, Box, boxRow * 3 + boxCol)
  {
    box := [];
    for row := boxRow * 3 to boxRow * 3 + 3
      invariant |box| == (row - boxRow * 3) * 3
      invariant forall i :: 0 <= i < |box| ==> box[i] == g[boxRow * 3 + i / 3][boxCol * 3 + i % 3]
    {
      for col := boxCol * 3 to boxCol * 3 + 3
        invariant |box| == (row - boxRow * 3) * 3 + (col - boxCol * 3)
        invariant forall i :: 0 <= i < |box| ==> box[i] == g[boxRow * 3 + i / 3][boxCol * 3 + i % 3]
      {
        box := box + [g[row][col]];
      }
    }
  }

  /** The checker as the game runs it: nested loops over the grid, returning at
      the first empty cell or the first rejected region. It only reads `g`. */
  method Validate(g: Grid, isValidSet: seq<int> -> bool) returns (v: Verdict)
    requires IsGrid(g)
    ensures v == Judge(g, isValidSet)
  {
    // Completeness scan over all 81 cells.
    for row := 0 to 9
      invariant forall r, c :: 0 <= r < row && 0 <= c < 9 ==> g[r][c] != 0
    {
      for col := 0 to 9
        invariant forall c :: 0 <= c < col ==> g[row][c] != 0
      {
        if g[row][col] == 0 {
          return Incomplete;
        }
      }
    }

    assert Complete(g);
    v := CheckRegions(g, isValidSet);
  }

  /** The region phase of the checker (reached only for a complete grid): rows,
      then columns, then boxes, returning at the first rejected region. */
  method CheckRegions(g: Grid, isValidSet: seq<int> -> bool) returns (v: Verdict)
    requires IsGrid(g)
    ensures v == FirstFailure(g, isValidSet, 0)
  {
    // Rows in ascending order.
    for row := 0 to 9
      invariant forall k :: 0 <= k < row ==> isValidSet(RegionAt(g, k))
    {
      assert g[row] == RegionAt(g, row);
      if !isValidSet(g[row]) {
        FirstFailureIsAt(g, isValidSet, 0, row);
        return Invalid(Row, row);
      }
    }

    // Columns in ascending order.
    for col := 0 to 9
      invariant forall k :: 0 <= k < 9 + col ==> isValidSet(RegionAt(g, k))
    {
      var column := seq(9, r requires 0 <= r < 9 => g[r][col]);
      assert column == RegionAt(g, 9 + col);
      if !isValidSet(column) {
        FirstFailureIsAt(g, isValidSet, 0, 9 + col);
        return Invalid(Col, col);
      }
    }

    // 3x3 boxes, box rows then box columns, each box read row by row.
    for boxRow := 0 to 3
      invariant forall k :: 0 <= k < 18 + boxRow * 3 ==> isValidSet(RegionAt(g, k))
    {
      for boxCol := 0 to 3
        invariant forall k :: 0 <= k < 18 + boxRow * 3 + boxCol ==> isValidSet(RegionAt(g, k))
      {
        var box := CollectBox(g, boxRow, boxCol);
        var index := boxRow * 3 + boxCol;
        assert Rank(Box, index) == 18 + index;
        if !isValidSet(box) {
          FirstFailureIsAt(g, isValidSet, 0, 18 + index);
          return Invalid(Box, index);
        }
      }
    }
    return Valid;
  }
}
