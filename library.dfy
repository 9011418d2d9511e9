/** The fixed puzzle library, grouped by difficulty tier. */
module Library {
  import opened Board

  /** The difficulty tiers the game offers. */
  datatype Difficulty = Easy | Medium | Hard

  const Easy0: Grid := [
    [5,3,0,0,7,0,0,0,0],
    [6,0,0,1,9,5,0,0,0],
    [0,9,8,0,0,0,0,6,0],
    [8,0,0,0,6,0,0,0,3],
    [4,0,0,8,0,3,0,0,1],
    [7,0,0,0,2,0,0,0,6],
    [0,6,0,0,0,0,2,8,0],
    [0,0,0,4,1,9,0,0,5],
    [0,0,0,0,8,0,0,7,9]
  ]

  const Easy1: Grid := [
    [0,0,0,2,6,0,7,0,1],
    [6,8,0,0,7,0,0,9,0],
    [1,9,0,0,0,4,5,0,0],
    [8,2,0,1,0,0,0,4,0],
    [0,0,4,6,0,2,9,0,0],
    [0,5,0,0,0,3,0,2,8],
    [0,0,9,3,0,0,0,7,4],
    [0,4,0,0,5,0,0,3,6],
    [7,0,3,0,1,8,0,0,0]
  ]

  const Medium0: Grid := [
    [0,2,0,6,0,8,0,0,0],
    [5,8,0,0,0,9,7,0,0],
    [0,0,0,0,4,0,0,0,0],
    [3,7,0,0,0,0,5,0,0],
    [6,0,0,0,7,5,0,0,4],
    [0,0,8,0,0,0,0,1,3],
    [0,0,0,0,1,0,0,0,0],
    [0,0,0,8,0,0,0,5,2],
    [0,0,0,0,0,0,0,7,0]
  ]

  const Hard0: Grid := [
    [0,0,0,0,0,0,0,0,0],
    [0,0,0,0,0,3,0,8,5],
    [0,0,1,0,2,0,0,0,0],
    [0,0,0,5,0,7,0,0,0],
    [0,0,4,0,0,0,1,0,0],
    [0,9,0,0,0,0,0,0,0],
    [5,0,0,0,0,0,0,7,3],
    [0,0,2,0,1,0,0,0,0],
    [0,0,0,0,4,0,0,0,9]
  ]

  /** The puzzles of one tier, in the order the game stores them. */
  function Puzzles(d: Difficulty): (tier: seq<Grid>)
    ensures |tier| >= 1
  {
    match d
    case Easy => [Easy0, Easy1]
    case Medium => [Medium0]
    case Hard => [Hard0]
  }

  /** Every puzzle of every tier is a 9x9 grid of 0 (empty) and digits. */
  lemma PuzzleWellFormed(d: Difficulty, i: nat)
    requires i < |Puzzles(d)|
    ensures WellFormed(Puzzles(d)[i])
  {
    match d
    case Easy =>
      if i == 0 {
        Easy0WellFormed();
      } else {
        Easy1WellFormed();
      }
    case Medium =>
      Medium0WellFormed();
    case Hard =>
      Hard0WellFormed();
  }

  lemma Easy0WellFormed()
    ensures WellFormed(Easy0)
  {
    assert |Easy0| == 9 && ValuesInRange(Easy0);
    RowsWellFormed(Easy0);
  }

  lemma Easy1WellFormed()
    ensures WellFormed(Easy1)
  {
    assert |Easy1| == 9 && ValuesInRange(Easy1);
    RowsWellFormed(Easy1);
  }

  lemma Medium0WellFormed()
    ensures WellFormed(Medium0)
  {
    assert |Medium0| == 9 && ValuesInRange(Medium0);
    RowsWellFormed(Medium0);
  }

  lemma Hard0WellFormed()
    ensures WellFormed(Hard0)
  {
    assert |Hard0| == 9 && ValuesInRange(Hard0);
    RowsWellFormed(Hard0);
  }

  /** Every row has 9 cells and every value in the grid is 0..9. */
  predicate ValuesInRange(g: Grid) {
    forall row :: row in g ==> |row| == 9 && forall x :: x in row ==> 0 <= x <= 9
  }

  /** A 9-row grid whose values are all in range is well formed. */
  lemma RowsWellFormed(g: Grid)
    requires |g| == 9 && ValuesInRange(g)
    ensures WellFormed(g)
  {
    forall r | 0 <= r < 9
      ensures |g[r]| == 9 && forall c :: 0 <= c < 9 ==> 0 <= g[r][c] <= 9
    {
      assert g[r] in g;
      forall c | 0 <= c < 9
        ensures 0 <= g[r][c] <= 9
      {
        assert g[r][c] in g[r];
      }
    }
  }
}
