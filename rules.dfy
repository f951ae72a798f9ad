/** The rules engine: per-piece move legality on the 8x8 board
    (src/CyberChess.jsx, isWhite / isPathClear / isValidMove).
    The rules are relaxed on purpose: a pawn may also step one square
    backward, and there is no check, castling, en passant or promotion. */
module Rules {
  import opened Pieces

  function Abs(x: int): nat
  {
    if x < 0 then -x else x
  }

  /** -1, 0 or 1: the unit step toward the sign of `x`. */
  function Sign(x: int): int
  {
    if x > 0 then 1 else if x < 0 then -1 else 0
  }

  /** `s * k` for a unit step `s` in {-1, 0, 1}, written without multiplication. */
  function Scale(s: int, k: int): int
  {
    if s > 0 then k else if s < 0 then -k else 0
  }

  function RowDiff(from: Pos, to: Pos): nat { Abs(to.row - from.row) }
  function ColDiff(from: Pos, to: Pos): nat { Abs(to.col - from.col) }

  /** Same row or same column. */
  predicate Straight(from: Pos, to: Pos)
  {
    from.row == to.row || from.col == to.col
  }

  /** |Δrow| = |Δcol|. */
  predicate Diagonal(from: Pos, to: Pos)
  {
    RowDiff(from, to) == ColDiff(from, to)
  }

  /** On a common rank, file or diagonal: the only case in which the path walk is used. */
  predicate Aligned(from: Pos, to: Pos)
  {
    Straight(from, to) || Diagonal(from, to)
  }

  /** Number of unit steps from `from` to `to` along a line. */
  function Distance(from: Pos, to: Pos): nat
  {
    if RowDiff(from, to) < ColDiff(from, to) then ColDiff(from, to) else RowDiff(from, to)
  }

  /** The `k`-th square on the way from `from` to `to`, strictly between the two. */
  function Between(from: Pos, to: Pos, k: int): (p: Pos)
    requires Aligned(from, to) && 0 < k < Distance(from, to)
    ensures p != from && p != to
    ensures Aligned(from, p) && Aligned(p, to)
    ensures Straight(from, to) ==> Straight(from, p) && Straight(p, to)
    ensures Diagonal(from, to) ==> Diagonal(from, p) && Diagonal(p, to)
    ensures Distance(from, p) == k && Distance(p, to) == Distance(from, to) - k
  {
    Pos(from.row + Scale(Sign(to.row - from.row), k), from.col + Scale(Sign(to.col - from.col), k))
  }

  /** Every square strictly between `from` and `to` is empty. */
  predicate PathClear(b: Board, from: Pos, to: Pos)
    requires Aligned(from, to)
  {
    forall k :: 0 < k < Distance(from, to) ==> At(b, Between(from, to, k)).None?
  }

  /** isPathClear: walks from `from` toward `to` in unit steps and answers false
      at the first occupied square met before `to`. */
  method IsPathClear(b: Board, from: Pos, to: Pos) returns (clear: bool)
    requires Aligned(from, to)
    ensures clear <==> PathClear(b, from, to)
  {
    var rowStep := if to.row > from.row then 1 else if to.row < from.row then -1 else 0;
    var colStep := if to.col > from.col then 1 else if to.col < from.col then -1 else 0;
    var currentRow := from.row + rowStep;
    var currentCol := from.col + colStep;
    ghost var k := 1;
    while currentRow != to.row || currentCol != to.col
      invariant Distance(from, to) == 0 || k <= Distance(from, to)
      invariant currentRow == from.row + Scale(rowStep, k) && currentCol == from.col + Scale(colStep, k)
      invariant forall j :: 0 < j < k && j < Distance(from, to) ==> At(b, Between(from, to, j)).None?
      decreases Distance(from, to) - k
    {
      assert 0 < k < Distance(from, to);
      if b[currentRow][currentCol].Some? {
        assert Between(from, to, k) == Pos(currentRow, currentCol);
        return false;
      }
      currentRow := currentRow + rowStep;
      currentCol := currentCol + colStep;
      k := k + 1;
    }
    return true;
  }

  /** The row a pawn of colour `c` moves toward: White up the board, Black down. */
  function Forward(c: Colour): int
  {
    if c == White then -1 else 1
  }

  function StartRow(c: Colour): Coord
  {
    if c == White then 6 else 1
  }

  /** The pawn case of the switch: a straight step forward or backward onto an
      empty square, a double step from the start row over an empty square, or a
      forward diagonal step onto an occupied square. */
  predicate PawnMove(b: Board, from: Pos, to: Pos, c: Colour)
  {
    var fwd := Forward(c);
    (to.col == from.col && At(b, to).None? &&
       (to.row == from.row + fwd
        || to.row == from.row - fwd
        || (from.row == StartRow(c) && to.row == from.row + 2 * fwd
            && At(b, Pos(from.row + fwd, from.col)).None?)))
    || (ColDiff(from, to) == 1 && to.row == from.row + fwd && At(b, to).Some?)
  }

  predicate KnightMove(from: Pos, to: Pos)
  {
    (RowDiff(from, to) == 2 && ColDiff(from, to) == 1) || (RowDiff(from, to) == 1 && ColDiff(from, to) == 2)
  }

  predicate KingMove(from: Pos, to: Pos)
  {
    RowDiff(from, to) <= 1 && ColDiff(from, to) <= 1
  }

  /** The line a sliding piece may travel along (Rook, Bishop, Queen). */
  predicate SlideShape(k: Kind, from: Pos, to: Pos)
  {
    match k
    case Rook => Straight(from, to)
    case Bishop => Diagonal(from, to)
    case Queen => Aligned(from, to)
    case _ => false
  }

  predicate IsSlider(k: Kind)
  {
    k == Rook || k == Bishop || k == Queen
  }

  /** isValidMove: may `piece` go from `from` to `to` on `b`? A square holding a
      piece of the mover's colour is never a legal target. */
  function ValidMove(b: Board, from: Pos, to: Pos, piece: Piece): (legal: bool)
    ensures legal ==> !IsColourAt(b, to, piece.colour)
    ensures legal && At(b, from) == Some(piece) ==> from != to
  {
    !IsColourAt(b, to, piece.colour) &&
    match piece.kind
    case Pawn => PawnMove(b, from, to, piece.colour)
    case Knight => KnightMove(from, to)
    case King => KingMove(from, to)
    case Rook => SlideShape(Rook, from, to) && PathClear(b, from, to)
    case Bishop => SlideShape(Bishop, from, to) && PathClear(b, from, to)
    case Queen => SlideShape(Queen, from, to) && PathClear(b, from, to)
  }

  /** isValidMove as the component runs it: the own-colour test, then the
      per-kind switch, which walks the path for the sliding pieces. */
  method IsValidMove(b: Board, from: Pos, to: Pos, piece: Piece) returns (legal: bool)
    ensures legal == ValidMove(b, from, to, piece)
  {
    if IsColourAt(b, to, piece.colour) {
      return false;
    }
    match piece.kind {
      case Pawn => legal := PawnMove(b, from, to, piece.colour);
      case Knight => legal := KnightMove(from, to);
      case King => legal := KingMove(from, to);
      case _ =>
        legal := SlideShape(piece.kind, from, to);
        if legal {
          legal := IsPathClear(b, from, to);
        }
    }
  }

  // ---------------------------------------------------------------------------
  // Properties of the rules

  /** No piece can "move" onto its own square: the target holds the mover itself. */
  lemma NoNullMove(b: Board, p: Pos, piece: Piece)
    requires At(b, p) == Some(piece)
    ensures !ValidMove(b, p, p, piece)
  {
  }

  /** The pawn rules in full, stated by the column change. */
  lemma PawnRules(b: Board, from: Pos, to: Pos, c: Colour)
    ensures var legal := ValidMove(b, from, to, Piece(Pawn, c));
      && (to.col == from.col ==>
            (legal <==>
               && At(b, to).None?
               && (|| to.row == from.row + Forward(c)
                   || to.row == from.row - Forward(c)
                   || (from.row == StartRow(c) && to.row == from.row + 2 * Forward(c)
                       && At(b, Pos(from.row + Forward(c), from.col)).None?))))
      && (ColDiff(from, to) == 1 ==>
            (legal <==> to.row == from.row + Forward(c) && IsColourAt(b, to, Opponent(c))))
      && (ColDiff(from, to) > 1 ==> !legal)
      && (to.row == from.row ==> !legal)
  {
  }

  /** A White pawn on (6, 4) with (5, 4), (4, 4) and (7, 4) empty may step to
      each of them, and may not step sideways. */
  lemma WhitePawnOnStartSquare(b: Board)
    requires At(b, Pos(5, 4)).None? && At(b, Pos(4, 4)).None? && At(b, Pos(7, 4)).None?
    ensures var pawn := Piece(Pawn, White);
      && ValidMove(b, Pos(6, 4), Pos(5, 4), pawn)
      && ValidMove(b, Pos(6, 4), Pos(4, 4), pawn)
      && ValidMove(b, Pos(6, 4), Pos(7, 4), pawn)
      && !ValidMove(b, Pos(6, 4), Pos(6, 5), pawn)
      && !ValidMove(b, Pos(6, 4), Pos(6, 3), pawn)
  {
  }

  /** Rook, Bishop and Queen: legal exactly when the target is on the piece's
      line, not held by the mover's colour, and the path to it is clear. */
  lemma SlidingRules(b: Board, from: Pos, to: Pos, piece: Piece)
    requires IsSlider(piece.kind)
    ensures ValidMove(b, from, to, piece) <==>
      && !IsColourAt(b, to, piece.colour)
      && (piece.kind == Rook ==> Straight(from, to))
      && (piece.kind == Bishop ==> Diagonal(from, to))
      && Aligned(from, to)
      && PathClear(b, from, to)
  {
  }

  /** A Queen moves exactly as a Rook or a Bishop of its colour would. */
  lemma QueenIsRookOrBishop(b: Board, from: Pos, to: Pos, c: Colour)
    ensures ValidMove(b, from, to, Piece(Queen, c)) <==>
      ValidMove(b, from, to, Piece(Rook, c)) || ValidMove(b, from, to, Piece(Bishop, c))
  {
  }

  /** Putting any piece on a square strictly between the ends of a legal
      sliding move makes that move illegal. */
  lemma BlockedSlide(b: Board, from: Pos, to: Pos, piece: Piece, k: int, blocker: Piece)
    requires IsSlider(piece.kind) && ValidMove(b, from, to, piece)
    requires 0 < k < Distance(from, to)
    ensures !ValidMove(Put(b, Between(from, to, k), Some(blocker)), from, to, piece)
  {
    var b' := Put(b, Between(from, to, k), Some(blocker));
    assert At(b', Between(from, to, k)).Some?;
  }

  /** A Knight's legality depends on the target square alone: it jumps. */
  lemma KnightJumps(b: Board, b': Board, from: Pos, to: Pos, c: Colour)
    requires At(b, to) == At(b', to)
    ensures ValidMove(b, from, to, Piece(Knight, c)) == ValidMove(b', from, to, Piece(Knight, c))
    ensures ValidMove(b, from, to, Piece(Knight, c)) <==>
      !IsColourAt(b, to, c) && {RowDiff(from, to), ColDiff(from, to)} == {1, 2}
  {
  }

  /** A King steps to any of the (at most eight) adjacent squares not held by its colour. */
  lemma KingRules(b: Board, from: Pos, to: Pos, c: Colour)
    ensures ValidMove(b, from, to, Piece(King, c)) <==>
      !IsColourAt(b, to, c) && RowDiff(from, to) <= 1 && ColDiff(from, to) <= 1
  {
  }
}
