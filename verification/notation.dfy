/** Coordinate notation: a file letter followed by a rank digit. The rank is
    counted as `8 - row`, so row 0 (white's back rank in this engine) is
    named rank 8. */
module Notation {
  import opened ChessTypes
  import opened BoardOps

  predicate IsDigit(c: char) {
    '0' <= c <= '9'
  }

  /** The two-character name of an on-board square: the letter
      `'a' + col` and the decimal digit of `8 - row`. */
  function PositionToString(pos: Position): (s: string)
    requires IsValidPosition(pos)
    ensures |s| == 2 && 'a' <= s[0] <= 'h' && '1' <= s[1] <= '8'
  {
    [(97 + pos.col) as char, ('0' as int + (8 - pos.row)) as char]
  }

  /** Reads a square name: the column is the code of the first character
      minus 97, the row is 8 minus the digit in the second character. No
      range check is made, so the result may be off the board. `None` stands
      for a result of the TypeScript implementation whose coordinate is not
      a number: a string shorter than two characters, a second character that is not a decimal
      digit, or a first character outside the 16-bit range (whose second
      UTF-16 unit is then not a digit either). */
  function StringToPosition(s: string): (r: Option<Position>)
    ensures r.Some? <==> |s| >= 2 && s[0] as int < 0x1_0000 && IsDigit(s[1])
    ensures r.Some? ==> && r.value.col + 97 == s[0] as int
                        && 8 - r.value.row == s[1] as int - '0' as int
                        && -1 <= r.value.row <= 8
  {
    if |s| < 2 || s[0] as int >= 0x1_0000 || !IsDigit(s[1]) then None
    else Some(Position(8 - (s[1] as int - '0' as int), s[0] as int - 97))
  }

  /** Naming a square and reading the name back gives the square. */
  lemma NameRoundTrip(pos: Position)
    requires IsValidPosition(pos)
    ensures StringToPosition(PositionToString(pos)) == Some(pos)
  {
    var s := PositionToString(pos);
    assert s[0] as int == 97 + pos.col;
    assert s[1] as int == '0' as int + (8 - pos.row);
  }

  /** A string read as an on-board square starts with that square's name,
      and it is read as an on-board square exactly when it starts with a
      file letter a-h and a rank digit 1-8. */
  lemma ParseRoundTrip(s: string)
    requires StringToPosition(s).Some?
    ensures IsValidPosition(StringToPosition(s).value) <==> 'a' <= s[0] <= 'h' && '1' <= s[1] <= '8'
    ensures IsValidPosition(StringToPosition(s).value) ==> PositionToString(StringToPosition(s).value) == s[..2]
  {
    var p := StringToPosition(s).value;
    if IsValidPosition(p) {
      var name := PositionToString(p);
      assert name[0] == s[0] && name[1] == s[1];
      assert name == s[..2];
    }
  }

  /** Distinct squares have distinct names. */
  lemma NamesAreDistinct(p: Position, q: Position)
    requires IsValidPosition(p) && IsValidPosition(q) && p != q
    ensures PositionToString(p) != PositionToString(q)
  {
    NameRoundTrip(p);
    NameRoundTrip(q);
  }

  /** Because rank is `8 - row`, the white king's starting square is named
      e8 rather than e1. */
  lemma WhiteKingHomeIsNamedE8()
    ensures HomeSquare(Position(0, 4)) == Some(Piece(King, White))
    ensures PositionToString(Position(0, 4)) == "e8"
  {
    assert BackRank(4) == King;
    var name := PositionToString(Position(0, 4));
    assert name[0] == 'e' && name[1] == '8';
  }
}
