/**
 Square names: the conversion between a zero-based (column, row) cell and the
 two-character notation ("E2") the rules engine speaks.  Column 0..7 is file
 A..H; row 0 is the top rank as drawn, so rank = 8 - row.

 Both directions do their arithmetic on `u8`, and a debug build panics on a
 failed conversion, an overflow or an underflow.  Those panics are the
 preconditions `Encodable` and `Decodable`; a `char as u8` cast keeps the low
 eight bits of the code point, which `Byte` writes out.
 */
module Notation {

  /** A cell of the drawn grid: `col` counts from the left, `row` from the top. */
  datatype Square = Square(col: nat, row: nat) {

    /** One of the 64 squares of the board. */
    predicate OnBoard() {
      col < 8 && row < 8
    }
  }

  /** Rust's `char::make_ascii_uppercase`: only 'a'..'z' change. */
  function AsciiUpper(c: char): char {
    if 'a' <= c <= 'z' then (c as int - 32) as char else c
  }

  /** A `char as u8` cast: the low eight bits of the code point. */
  function Byte(c: char): nat {
    (c as int) % 256
  }

  /** A file letter, either case. */
  predicate IsFile(c: char) {
    'A' <= c <= 'H' || 'a' <= c <= 'h'
  }

  /** A rank digit. */
  predicate IsRank(c: char) {
    '1' <= c <= '8'
  }

  /** The notation of a board square: a file letter A..H (either case) and a rank digit 1..8. */
  predicate ValidNotation(s: string) {
    |s| == 2 && IsFile(s[0]) && IsRank(s[1])
  }

  /** Valid notation with an upper-case file, the form the encoder writes. */
  predicate CanonicalNotation(s: string) {
    ValidNotation(s) && 'A' <= s[0] <= 'H'
  }

  /** The cells `coordinates_to_string` accepts: `u8::try_from` succeeds,
      `x + 65` does not overflow and `8 - y` does not underflow. */
  predicate Encodable(sq: Square) {
    sq.col + 65 <= 255 && sq.row <= 8
  }

  /** The strings `string_to_coordinates` accepts: two characters exist, and
      neither `upper(s[0]) as u8 - 65`, `s[1] as u8 - 48` nor `8 - (…)` underflows.
      Characters after the second are never looked at. */
  predicate Decodable(s: string) {
    && |s| >= 2
    && Byte(AsciiUpper(s[0])) >= 65
    && 48 <= Byte(s[1]) <= 56
  }

  /** `coordinates_to_string`: the file letter 'A' + col, then the digit of rank 8 - row. */
  function Encode(sq: Square): (s: string)
    requires Encodable(sq)
    ensures |s| == 2
    ensures s[0] as int - 'A' as int == sq.col
    ensures '8' as int - s[1] as int == sq.row
    ensures sq.OnBoard() <==> CanonicalNotation(s)
  {
    var file := (sq.col + 65) as char;
    var rank := (8 - sq.row + 48) as char;
    [file, rank]
  }

  /** `string_to_coordinates`: the file is upper-cased before the ASCII offset
      is removed, and the rank digit is turned back into a row. */
  function Decode(s: string): (sq: Square)
    requires Decodable(s)
    ensures Encodable(sq)
  {
    var x := Byte(AsciiUpper(s[0])) - 65;
    var y := 8 - (Byte(s[1]) - 48);
    Square(x, y)
  }

  /** Round trip from cells: every encodable cell whose file letter is not
      lower-case comes back unchanged; in particular every board square does. */
  lemma EncodeDecode(sq: Square)
    requires Encodable(sq)
    requires !(32 <= sq.col <= 57)
    ensures Decodable(Encode(sq))
    ensures Decode(Encode(sq)) == sq
  {

  }

  /** The board-square round trip on its own. */
  lemma SquareRoundTrip(sq: Square)
    requires sq.OnBoard()
    ensures Decode(Encode(sq)) == sq
  {

  }

  /** The cells `EncodeDecode` excludes: for columns 32..57 the encoder writes
      a lower-case letter, which the decoder upper-cases 32 columns lower. */
  lemma LowerCaseFileShifts(sq: Square)
    requires Encodable(sq) && 32 <= sq.col <= 57
    ensures Decodable(Encode(sq))
    ensures Decode(Encode(sq)) == Square(sq.col - 32, sq.row)
  {
  }

  /** One such cell: column 32 is written "a8" and read back as A8. */
  lemma LowerCaseFileCollides()
    ensures Encode(Square(32, 0)) == "a8"
    ensures Decode("a8") == Square(0, 0)
  {
  }

  /** The encoder is injective on the cells it accepts. */
  lemma EncodeInjective(a: Square, b: Square)
    requires Encodable(a) && Encodable(b)
    requires Encode(a) == Encode(b)
    ensures a == b
  {

  }

  /** Round trip from notation: valid notation decodes onto the board and
      encodes back to itself with the file letter upper-cased. */
  lemma DecodeEncode(s: string)
    requires ValidNotation(s)
    ensures Decodable(s)
    ensures Decode(s).OnBoard()
    ensures Encode(Decode(s)) == [AsciiUpper(s[0]), s[1]]
  {

  }

  /** Canonical notation is a fixed point of decode-then-encode. */
  lemma CanonicalRoundTrip(s: string)
    requires CanonicalNotation(s)
    ensures Encode(Decode(s)) == s
  {

  }

  /** The file letter's case does not matter to the decoder. */
  lemma DecodeIgnoresFileCase(s: string, t: string)
    requires |s| >= 2 && |t| >= 2 && s[1] == t[1]
    requires 'A' <= s[0] <= 'Z' && t[0] as int == s[0] as int + 32
    ensures Decodable(s) <==> Decodable(t)
    ensures Decodable(s) ==> Decode(s) == Decode(t)
  {

  }

  /** For characters below 256 the decoder lands on the board exactly when
      the first two characters are valid notation. */
  lemma DecodesOntoBoardIff(s: string)
    requires |s| >= 2
    requires (s[0] as int) < 256 && (s[1] as int) < 256
    ensures Decodable(s) && Decode(s).OnBoard() <==> ValidNotation(s[..2])
  {

  }

  /** The `as u8` cast truncates: a character outside Latin-1 whose low byte
      is 'A' decodes as file A instead of being refused. */
  lemma TruncatedFileLetter()
    ensures Decodable("\U{141}8")
    ensures Decode("\U{141}8") == Square(0, 0)
  {
  }

  /** Named examples of the encoding. */
  lemma EncodeExamples()
    ensures Encode(Square(0, 0)) == "A8"
    ensures Encode(Square(7, 7)) == "H1"
    ensures Encode(Square(4, 6)) == "E2"
    ensures Encode(Square(0, 8)) == "A0"
  {
  }
}
