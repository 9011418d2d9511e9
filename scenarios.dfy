/** The checker's verdict on concrete grids, proved: an empty board, the
    classic completed grid, and that grid with one cell overwritten. */
module Scenarios {
  import opened Board
  import opened Checker
  import opened RegionRule
  import Library

  /** A board with every cell empty. */
  const Empty: Grid := seq(9, r => seq(9, c => 0))

  /** The completed grid of the first easy puzzle. */
  const Solved: Grid := [
    [5,3,4,6,7,8,9,1,2],
    [6,7,2,1,9,5,3,4,8],
    [1,9,8,3,4,2,5,6,7],
    [8,5,9,7,6,1,4,2,3],
    [4,2,6,8,5,3,7,9,1],
    [7,1,3,9,2,4,8,5,6],
    [9,6,1,5,3,7,2,8,4],
    [2,8,7,4,1,9,6,3,5],
    [3,4,5,2,8,6,1,7,9]
  ]

  /** The solved grid with its top-left 5 overwritten by a second 3. */
  const Broken: Grid := Solved[0 := Solved[0][0 := 3]]

  /** An empty board is reported incomplete, whatever the region test. */
  lemma EmptyIsIncomplete(isValidSet: seq<int> -> bool)
    ensures IsGrid(Empty) && Judge(Empty, isValidSet) == Incomplete
  {
    assert Empty[0][0] == 0;
  }

  /** The solved grid is a completion of the first easy puzzle: it keeps every
      pre-filled cell. */
  lemma SolvedCompletesEasyPuzzle()
    ensures IsGrid(Solved) && IsGrid(Library.Easy0)
    ensures forall r, c :: 0 <= r < 9 && 0 <= c < 9 && Library.Easy0[r][c] != 0 ==>
              Solved[r][c] == Library.Easy0[r][c]
  {
    forall r, c | 0 <= r < 9 && 0 <= c < 9 && Library.Easy0[r][c] != 0
      ensures Solved[r][c] == Library.Easy0[r][c]
    {
      if r == 0 {} else if r == 1 {} else if r == 2 {} else if r == 3 {} else if r == 4 {}
      else if r == 5 {} else if r == 6 {} else if r == 7 {}
    }
  }

  /** Every cell of the solved grid is filled. */
  lemma SolvedComplete()
    ensures IsGrid(Solved) && Complete(Solved)
  {
    assert forall row :: row in Solved ==> forall x :: x in row ==> x != 0;
    forall r, c | 0 <= r < 9 && 0 <= c < 9
      ensures Solved[r][c] != 0
    {
      assert Solved[r] in Solved && Solved[r][c] in Solved[r];
    }
  }

  // Each region of the solved grid, written out, holds every digit. One lemma
  // per region keeps each proof about the literal grid small.

  lemma SolvedRow0()
    ensures IsGrid(Solved) && HasAllDigits(RegionAt(Solved, 0))
  {
    assert RegionAt(Solved, 0) == Region(Solved, Row, 0) == [5, 3, 4, 6, 7, 8, 9, 1, 2];
  }

  lemma SolvedRow1()
    ensures IsGrid(Solved) && HasAllDigits(RegionAt(Solved, 1))
  {
    assert RegionAt(Solved, 1) == Region(Solved, Row, 1) == [6, 7, 2, 1, 9, 5, 3, 4, 8];
  }

  lemma SolvedRow2()
    ensures IsGrid(Solved) && HasAllDigits(RegionAt(Solved, 2))
  {
    assert RegionAt(Solved, 2) == Region(Solved, Row, 2) == [1, 9, 8, 3, 4, 2, 5, 6, 7];
  }

  lemma SolvedRow3()
    ensures IsGrid(Solved) && HasAllDigits(RegionAt(Solved, 3))
  {
    assert RegionAt(Solved, 3) == Region(Solved, Row, 3) == [8, 5, 9, 7, 6, 1, 4, 2, 3];
  }

  lemma SolvedRow4()
    ensures IsGrid(Solved) && HasAllDigits(RegionAt(Solved, 4))
  {
    assert RegionAt(Solved, 4) == Region(Solved, Row, 4) == [4, 2, 6, 8, 5, 3, 7, 9, 1];
  }

  lemma SolvedRow5()
    ensures IsGrid(Solved) && HasAllDigits(RegionAt(Solved, 5))
  {
    assert RegionAt(Solved, 5) == Region(Solved, Row, 5) == [7, 1, 3, 9, 2, 4, 8, 5, 6];
  }

  lemma SolvedRow6()
    ensures IsGrid(Solved) && HasAllDigits(RegionAt(Solved, 6))
  {
    assert RegionAt(Solved, 6) == Region(Solved, Row, 6) == [9, 6, 1, 5, 3, 7, 2, 8, 4];
  }

  lemma SolvedRow7()
    ensures IsGrid(Solved) && HasAllDigits(RegionAt(Solved, 7))
  {
    assert RegionAt(Solved, 7) == Region(Solved, Row, 7) == [2, 8, 7, 4, 1, 9, 6, 3, 5];
  }

  lemma SolvedRow8()
    ensures IsGrid(Solved) && HasAllDigits(RegionAt(Solved, 8))
  {
    assert RegionAt(Solved, 8) == Region(Solved, Row, 8) == [3, 4, 5, 2, 8, 6, 1, 7, 9];
  }

  lemma SolvedCol0()
    ensures IsGrid(Solved) && HasAllDigits(RegionAt(Solved, 9))
  {
    assert RegionAt(Solved, 9) == Region(Solved, Col, 0) == [5, 6, 1, 8, 4, 7, 9, 2, 3];
  }

  lemma SolvedCol1()
    ensures IsGrid(Solved) && HasAllDigits(RegionAt(Solved, 10))
  {
    assert RegionAt(Solved, 10) == Region(Solved, Col, 1) == [3, 7, 9, 5, 2, 1, 6, 8, 4];
  }

  lemma SolvedCol2()
    ensures IsGrid(Solved) && HasAllDigits(RegionAt(Solved, 11))
  {
    assert RegionAt(Solved, 11) == Region(Solved, Col, 2) == [4, 2, 8, 9, 6, 3, 1, 7, 5];
  }

  lemma SolvedCol3()
    ensures IsGrid(Solved) && HasAllDigits(RegionAt(Solved, 12))
  {
    assert RegionAt(Solved, 12) == Region(Solved, Col, 3) == [6, 1, 3, 7, 8, 9, 5, 4, 2];
  }

  lemma SolvedCol4()
    ensures IsGrid(Solved) && HasAllDigits(RegionAt(Solved, 13))
  {
    assert RegionAt(Solved, 13) == Region(Solved, Col, 4) == [7, 9, 4, 6, 5, 2, 3, 1, 8];
  }

  lemma SolvedCol5()
    ensures IsGrid(Solved) && HasAllDigits(RegionAt(Solved, 14))
  {
    assert RegionAt(Solved, 14) == Region(Solved, Col, 5) == [8, 5, 2, 1, 3, 4, 7, 9, 6];
  }

  lemma SolvedCol6()
    ensures IsGrid(Solved) && HasAllDigits(RegionAt(Solved, 15))
  {
    assert RegionAt(Solved, 15) == Region(Solved, Col, 6) == [9, 3, 5, 4, 7, 8, 2, 6, 1];
  }

  lemma SolvedCol7()
    ensures IsGrid(Solved) && HasAllDigits(RegionAt(Solved, 16))
  {
    assert RegionAt(Solved, 16) == Region(Solved, Col, 7) == [1, 4, 6, 2, 9, 5, 8, 3, 7];
  }

  lemma SolvedCol8()
    ensures IsGrid(Solved) && HasAllDigits(RegionAt(Solved, 17))
  {
    assert RegionAt(Solved, 17) == Region(Solved, Col, 8) == [2, 8, 7, 3, 1, 6, 4, 5, 9];
  }

  lemma SolvedBox0()
    ensures IsGrid(Solved) && HasAllDigits(RegionAt(Solved, 18))
  {
    assert RegionAt(Solved, 18) == Region(Solved, Box, 0) == [5, 3, 4, 6, 7, 2, 1, 9, 8];
  }

  lemma SolvedBox1()
    ensures IsGrid(Solved) && HasAllDigits(RegionAt(Solved, 19))
  {
    assert RegionAt(Solved, 19) == Region(Solved, Box, 1) == [6, 7, 8, 1, 9, 5, 3, 4, 2];
  }

  lemma SolvedBox2()
    ensures IsGrid(Solved) && HasAllDigits(RegionAt(Solved, 20))
  {
    assert RegionAt(Solved, 20) == Region(Solved, Box, 2) == [9, 1, 2, 3, 4, 8, 5, 6, 7];
  }

  lemma SolvedBox3()
    ensures IsGrid(Solved) && HasAllDigits(RegionAt(Solved, 21))
  {
    assert RegionAt(Solved, 21) == Region(Solved, Box, 3) == [8, 5, 9, 4, 2, 6, 7, 1, 3];
  }

  lemma SolvedBox4()
    ensures IsGrid(Solved) && HasAllDigits(RegionAt(Solved, 22))
  {
    assert RegionAt(Solved, 22) == Region(Solved, Box, 4) == [7, 6, 1, 8, 5, 3, 9, 2, 4];
  }

  lemma SolvedBox5()
    ensures IsGrid(Solved) && HasAllDigits(RegionAt(Solved, 23))
  {
    assert RegionAt(Solved, 23) == Region(Solved, Box, 5) == [4, 2, 3, 7, 9, 1, 8, 5, 6];
  }

  lemma SolvedBox6()
    ensures IsGrid(Solved) && HasAllDigits(RegionAt(Solved, 24))
  {
    assert RegionAt(Solved, 24) == Region(Solved, Box, 6) == [9, 6, 1, 2, 8, 7, 3, 4, 5];
  }

  lemma SolvedBox7()
    ensures IsGrid(Solved) && HasAllDigits(RegionAt(Solved, 25))
  {
    assert RegionAt(Solved, 25) == Region(Solved, Box, 7) == [5, 3, 7, 4, 1, 9, 2, 8, 6];
  }

  lemma SolvedBox8()
    ensures IsGrid(Solved) && HasAllDigits(RegionAt(Solved, 26))
  {
    assert RegionAt(Solved, 26) == Region(Solved, Box, 8) == [2, 8, 4, 6, 3, 5, 1, 7, 9];
  }

  /** Under the digit test the classic completed grid is reported valid. */
  lemma SolvedIsValid()
    ensures IsGrid(Solved) && Judge(Solved, HasAllDigits) == Valid
  {
    SolvedComplete();
    SolvedRow0(); SolvedRow1(); SolvedRow2(); SolvedRow3(); SolvedRow4();
    SolvedRow5(); SolvedRow6(); SolvedRow7(); SolvedRow8();
    SolvedCol0(); SolvedCol1(); SolvedCol2(); SolvedCol3(); SolvedCol4();
    SolvedCol5(); SolvedCol6(); SolvedCol7(); SolvedCol8();
    SolvedBox0(); SolvedBox1(); SolvedBox2(); SolvedBox3(); SolvedBox4();
    SolvedBox5(); SolvedBox6(); SolvedBox7(); SolvedBox8();
    forall j | 0 <= j < 27
      ensures HasAllDigits(RegionAt(Solved, j))
    {
      if j == 0 {} else if j == 1 {} else if j == 2 {} else if j == 3 {} else if j == 4 {} else if j == 5 {} else
      if j == 6 {} else if j == 7 {} else if j == 8 {} else if j == 9 {} else if j == 10 {} else if j == 11 {} else
      if j == 12 {} else if j == 13 {} else if j == 14 {} else if j == 15 {} else if j == 16 {} else if j == 17 {} else
      if j == 18 {} else if j == 19 {} else if j == 20 {} else if j == 21 {} else if j == 22 {} else if j == 23 {} else
      if j == 24 {} else if j == 25 {} else {}
    }
  }

  /** Column 0 of the broken grid holds 3 twice (its first and last cells), so
      it is not an ordering of 1..9. */
  lemma BrokenCol0Fails()
    ensures !HasAllDigits(Region(Broken, Col, 0))
  {
    var s := Region(Broken, Col, 0);
    assert s[0] == 3 && s[8] == 3;
    if HasAllDigits(s) {
      AllDigitsArePermutation(s);
      assert false;
    }
  }

  /** Box 0 of the broken grid holds 3 twice (its first two cells), so it is
      not an ordering of 1..9. */
  lemma BrokenBox0Fails()
    ensures !HasAllDigits(Region(Broken, Box, 0))
  {
    var s := Region(Broken, Box, 0);
    assert s[0] == 3 && s[1] == 3;
    if HasAllDigits(s) {
      AllDigitsArePermutation(s);
      assert false;
    }
  }

  /** Overwriting the top-left cell with a second 3 breaks row 0, column 0 and
      box 0 at once; the row is the failure reported. */
  lemma BrokenReportsRow0()
    ensures IsGrid(Broken)
    ensures !HasAllDigits(Region(Broken, Row, 0)) && !HasAllDigits(Region(Broken, Col, 0)) &&
            !HasAllDigits(Region(Broken, Box, 0))
    ensures Judge(Broken, HasAllDigits) == Invalid(Row, 0)
  {
    SolvedComplete();
    assert Complete(Broken);
    assert Region(Broken, Row, 0) == [3, 3, 4, 6, 7, 8, 9, 1, 2];
    assert 5 in Digits;
    BrokenCol0Fails();
    BrokenBox0Fails();
    LowestFailingRowReported(Broken, HasAllDigits, 0);
  }
}
