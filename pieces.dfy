/** Pieces, squares and boards of the CyberChess variant.
    The component stores a piece as one letter whose case gives the colour
    ('K' is a white King, 'k' a black one) and an empty square as null; here
    a piece is a kind and a colour, and a square is an optional piece. */
module Pieces {

  datatype Option<T> = None | Some(value: T)

  datatype Colour = White | Black

  /** The side that moves after `c`. */
  function Opponent(c: Colour): (o: Colour)
    ensures o != c
  {
    if c == White then Black else White
  }

  datatype Kind = Pawn | Knight | Bishop | Rook | Queen | King

  datatype Piece = Piece(kind: Kind, colour: Colour)

  type Cell = Option<Piece>

  /** A row or column index; row 0 is Black's back rank, row 7 White's. */
  type Coord = x: int | 0 <= x < 8

  datatype Pos = Pos(row: Coord, col: Coord)

  ghost predicate IsBoard(b: seq<seq<Cell>>)
  {
    |b| == 8 && forall r :: 0 <= r < 8 ==> |b[r]| == 8
  }

  function EmptyRank(): seq<Cell>
  {
    [None, None, None, None, None, None, None, None]
  }

  /** An 8x8 grid, indexed board[row][col]. */
  type Board = b: seq<seq<Cell>> | IsBoard(b)
    witness [EmptyRank(), EmptyRank(), EmptyRank(), EmptyRank(),
             EmptyRank(), EmptyRank(), EmptyRank(), EmptyRank()]

  function At(b: Board, p: Pos): Cell
  {
    b[p.row][p.col]
  }

  /** The board `b` with square `p` set to `c` (a copy; `b` is a value). */
  function Put(b: Board, p: Pos, c: Cell): (r: Board)
    ensures At(r, p) == c
    ensures forall q :: q != p ==> At(r, q) == At(b, q)
  {
    b[p.row := b[p.row][p.col := c]]
  }

  predicate IsColourAt(b: Board, p: Pos, c: Colour)
  {
    At(b, p).Some? && At(b, p).value.colour == c
  }

  function BackRank(c: Colour): seq<Cell>
  {
    [Some(Piece(Rook, c)), Some(Piece(Knight, c)), Some(Piece(Bishop, c)), Some(Piece(Queen, c)),
     Some(Piece(King, c)), Some(Piece(Bishop, c)), Some(Piece(Knight, c)), Some(Piece(Rook, c))]
  }

  function PawnRank(c: Colour): seq<Cell>
  {
    [Some(Piece(Pawn, c)), Some(Piece(Pawn, c)), Some(Piece(Pawn, c)), Some(Piece(Pawn, c)),
     Some(Piece(Pawn, c)), Some(Piece(Pawn, c)), Some(Piece(Pawn, c)), Some(Piece(Pawn, c))]
  }

  /** The standard starting position, Black at the top (rows 0-1). */
  const InitialBoard: Board :=
    [BackRank(Black), PawnRank(Black), EmptyRank(), EmptyRank(),
     EmptyRank(), EmptyRank(), PawnRank(White), BackRank(White)]

  function HomeRow(c: Colour): Coord
  {
    if c == White then 7 else 0
  }

  /** The starting position holds exactly one King of each colour, on column 4
      of that colour's back rank. */
  lemma OneKingEachAtStart(c: Colour, p: Pos)
    ensures At(InitialBoard, p) == Some(Piece(King, c)) <==> p == Pos(HomeRow(c), 4)
  {
    var row := InitialBoard[p.row];
    assert row == BackRank(Black) || row == PawnRank(Black) || row == EmptyRank()
        || row == PawnRank(White) || row == BackRank(White);
    assert InitialBoard[HomeRow(c)][4] == Some(Piece(King, c));
  }
}
