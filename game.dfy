/** The game's mutable state: the selected difficulty, the puzzle as dealt
    (`original`) and the board the player edits (`current`), with the operations
    that change them. */
module Session {
  import opened Board
  import opened Checker
  import opened Library

  /** The result of reading a typed cell as an integer: a number, or no number
      at all (which the game then treats as 0). */
  datatype Parsed = NotANumber | Number(n: int)

  /** The value a typed cell stores: the number when it is 0..9, otherwise 0. */
  function Stored(input: Parsed): (v: int)
    ensures 0 <= v <= 9
    ensures v != 0 ==> input == Number(v)
    ensures input.Number? && 0 <= input.n <= 9 ==> v == input.n
  {
    match input
    case NotANumber => 0
    case Number(n) => if n < 0 || n > 9 then 0 else n
  }

  /** Every pre-filled cell of the puzzle still holds its puzzle value. */
  predicate KeepsPrefilled(original: Grid, current: Grid)
    requires IsGrid(original) && IsGrid(current)
  {
    forall r, c :: 0 <= r < 9 && 0 <= c < 9 && original[r][c] != 0 ==> current[r][c] == original[r][c]
  }

  class Game {
    var difficulty: Difficulty
    var original: Grid
    var current: Grid

    /** Both boards are 9x9 grids of 0 and digits, and the player has not
        overwritten any pre-filled cell. */
    ghost predicate Valid()
      reads this
    {
      WellFormed(original) && WellFormed(current) && KeepsPrefilled(original, current)
    }

    /** Page load: the difficulty starts at Easy and a first board is dealt.
        `choice` stands for the random pick among the tier's puzzles. */
    constructor (choice: nat)
      requires choice < |Puzzles(Easy)|
      ensures Valid()
      ensures difficulty == Easy
      ensures original == Puzzles(Easy)[choice] && current == Puzzles(Easy)[choice]
    {
      difficulty := Easy;
      PuzzleWellFormed(Easy, choice);
      original := Puzzles(Easy)[choice];
      current := Puzzles(Easy)[choice];
    }

    /** Deals puzzle number `choice` of the current tier: both boards become
        copies of that puzzle. */
    method GenerateBoard(choice: nat)
      requires choice < |Puzzles(difficulty)|
      modifies this
      ensures Valid()
      ensures difficulty == old(difficulty)
      ensures original == Puzzles(difficulty)[choice] && current == Puzzles(difficulty)[choice]
    {
      PuzzleWellFormed(difficulty, choice);
      current := Puzzles(difficulty)[choice];
      original := Puzzles(difficulty)[choice];
    }

    /** Switches tier and deals a new board from it. */
    method ChangeDifficulty(d: Difficulty, choice: nat)
      requires choice < |Puzzles(d)|
      modifies this
      ensures Valid()
      ensures difficulty == d
      ensures original == Puzzles(d)[choice] && current == Puzzles(d)[choice]
    {
      difficulty := d;
      GenerateBoard(choice);
    }

    /** The player typed into the editable cell (row, col): that one cell of
        `current` now holds the typed number if it is 0..9 and 0 otherwise;
        every other cell, the puzzle and the tier are unchanged. */
    method HandleCellInput(row: nat, col: nat, input: Parsed)
      requires Valid()
      requires row < 9 && col < 9 && original[row][col] == 0
      modifies this
      ensures Valid()
      ensures original == old(original) && difficulty == old(difficulty)
      ensures current[row][col] == (if input.Number? && 0 <= input.n <= 9 then input.n else 0)
      ensures forall r, c :: 0 <= r < 9 && 0 <= c < 9 && (r, c) != (row, col) ==>
                current[r][c] == old(current)[r][c]
    {
      var value := Stored(input);
      current := current[row := current[row][col := value]];
    }

    /** Puts the board back to the puzzle as dealt. */
    method ResetBoard()
      requires Valid()
      modifies this
      ensures Valid()
      ensures current == original
      ensures original == old(original) && difficulty == old(difficulty)
    {
      current := original;
    }

    /** Checks the board the player has filled in. The method may not modify
        anything, so the board is left exactly as it was. */
    method CheckSolution(isValidSet: seq<int> -> bool) returns (v: Verdict)
      requires Valid()
      ensures v == Judge(current, isValidSet)
    {
      v := Validate(current, isValidSet);
    }
  }
}
