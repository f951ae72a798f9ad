/** The move generator (src/CyberChess.jsx, getAllValidMoves): every legal
    move of one colour, origins in row-major order and, for each origin,
    destinations in row-major order. */
module MoveGen {
  import opened Pieces
  import opened Rules

  /** A generated move; `piece` is the piece standing on `from`. */
  datatype Move = Move(from: Pos, to: Pos, piece: Piece)

  /** Row-major number of a square, 0..63. */
  function Index(p: Pos): (i: nat)
    ensures i < 64
  {
    p.row * 8 + p.col
  }

  /** Position of a move in the generator's scan: origin first, destination second. */
  function Key(m: Move): (k: nat)
    ensures k < 4096
  {
    Index(m.from) * 64 + Index(m.to)
  }

  /** `m` is a move the generator produces for colour `c` on `b`. */
  predicate LegalFor(b: Board, c: Colour, m: Move)
  {
    At(b, m.from) == Some(m.piece) && m.piece.colour == c && ValidMove(b, m.from, m.to, m.piece)
  }

  /** Colour `c` has at least one legal move on `b`. */
  ghost predicate HasMove(b: Board, c: Colour)
  {
    exists m :: LegalFor(b, c, m)
  }

  /** Strictly increasing in scan order. */
  predicate ScanOrdered(moves: seq<Move>)
  {
    forall i, j :: 0 <= i < j < |moves| ==> Key(moves[i]) < Key(moves[j])
  }

  lemma IndexInjective(p: Pos, q: Pos)
    requires Index(p) == Index(q)
    ensures p == q
  {
  }

  lemma KeyInjective(m: Move, m': Move)
    requires Key(m) == Key(m')
    ensures m.from == m'.from && m.to == m'.to
  {
    IndexInjective(m.from, m'.from);
    IndexInjective(m.to, m'.to);
  }

  /** `moves` lists, in scan order, exactly the legal moves of `c` whose key is below `bound`. */
  ghost predicate ScannedUpTo(b: Board, c: Colour, moves: seq<Move>, bound: int)
  {
    && (forall m :: m in moves <==> LegalFor(b, c, m) && Key(m) < bound)
    && ScanOrdered(moves)
  }

  /** One pass of the innermost loop body: the move with key `bound` is kept exactly when legal. */
  lemma ScanStep(b: Board, c: Colour, moves: seq<Move>, mv: Move, legal: bool)
    requires ScannedUpTo(b, c, moves, Key(mv))
    requires At(b, mv.from) == Some(mv.piece) && mv.piece.colour == c
    requires legal == ValidMove(b, mv.from, mv.to, mv.piece)
    ensures ScannedUpTo(b, c, if legal then moves + [mv] else moves, Key(mv) + 1)
  {
    var moves' := if legal then moves + [mv] else moves;
    forall m
      ensures m in moves' <==> LegalFor(b, c, m) && Key(m) < Key(mv) + 1
    {
      if LegalFor(b, c, m) && Key(m) == Key(mv) {
        KeyInjective(m, mv);
      }
    }
  }

  /** An origin that does not hold a piece of colour `c` contributes no move. */
  lemma ScanSkipOrigin(b: Board, c: Colour, moves: seq<Move>, from: Pos)
    requires ScannedUpTo(b, c, moves, Index(from) * 64)
    requires !IsColourAt(b, from, c)
    ensures ScannedUpTo(b, c, moves, Index(from) * 64 + 64)
  {
    forall m | LegalFor(b, c, m) && Index(from) * 64 <= Key(m) < Index(from) * 64 + 64
      ensures false
    {
      IndexInjective(m.from, from);
    }
  }

  /** getAllValidMoves: four nested loops over origin row, origin column,
      destination row and destination column, keeping the moves that pass
      the rules engine for pieces of colour `c`. */
  method GetAllValidMoves(b: Board, c: Colour) returns (moves: seq<Move>)
    ensures forall m :: m in moves <==> LegalFor(b, c, m)
    ensures ScanOrdered(moves)
  {
    moves := [];
    for row := 0 to 8
      invariant ScannedUpTo(b, c, moves, row * 512)
    {
      for col := 0 to 8
        invariant ScannedUpTo(b, c, moves, row * 512 + col * 64)
      {
        var from := Pos(row, col);
        var cell := At(b, from);
        if cell.Some? && cell.value.colour == c {
          for toRow := 0 to 8
            invariant ScannedUpTo(b, c, moves, row * 512 + col * 64 + toRow * 8)
          {
            for toCol := 0 to 8
              invariant ScannedUpTo(b, c, moves, row * 512 + col * 64 + toRow * 8 + toCol)
            {
              var to := Pos(toRow, toCol);
              var legal := IsValidMove(b, from, to, cell.value);
              ScanStep(b, c, moves, Move(from, to, cell.value), legal);
              if legal {
                moves := moves + [Move(from, to, cell.value)];
              }
            }
          }
        } else {
          ScanSkipOrigin(b, c, moves, from);
        }
      }
    }
  }

  /** In a scan-ordered list, the head comes strictly before every other member. */
  lemma HeadFirst(xs: seq<Move>, m: Move)
    requires ScanOrdered(xs) && xs != [] && m in xs[1..]
    ensures Key(xs[0]) < Key(m)
  {
    var k :| 0 <= k < |xs[1..]| && xs[1..][k] == m;
    assert xs[k + 1] == m;
  }

  lemma TailOrdered(xs: seq<Move>)
    requires ScanOrdered(xs) && xs != []
    ensures ScanOrdered(xs[1..])
  {
    forall i, j | 0 <= i < j < |xs| - 1 ensures Key(xs[1..][i]) < Key(xs[1..][j]) {
      assert xs[1..][i] == xs[i + 1] && xs[1..][j] == xs[j + 1];
    }
  }

  lemma SameHead(xs: seq<Move>, ys: seq<Move>)
    requires ScanOrdered(xs) && ScanOrdered(ys) && xs != [] && ys != []
    requires forall m :: m in xs <==> m in ys
    ensures xs[0] == ys[0]
  {
    assert xs == [xs[0]] + xs[1..] && ys == [ys[0]] + ys[1..];
    if xs[0] != ys[0] {
      assert ys[0] in ys && ys[0] in xs;
      HeadFirst(xs, ys[0]);
      assert xs[0] in xs && xs[0] in ys;
      HeadFirst(ys, xs[0]);
    }
  }

  lemma SameTail(xs: seq<Move>, ys: seq<Move>)
    requires ScanOrdered(xs) && ScanOrdered(ys) && xs != [] && ys != [] && xs[0] == ys[0]
    requires forall m :: m in xs <==> m in ys
    ensures forall m :: m in xs[1..] <==> m in ys[1..]
  {
    forall m
      ensures m in xs[1..] ==> m in ys[1..]
      ensures m in ys[1..] ==> m in xs[1..]
    {
      if m in xs[1..] {
        HeadFirst(xs, m);
        assert m in xs by { assert xs == [xs[0]] + xs[1..]; }
        assert m in ys[1..] by { assert ys == [ys[0]] + ys[1..]; }
      }
      if m in ys[1..] {
        HeadFirst(ys, m);
        assert m in ys by { assert ys == [ys[0]] + ys[1..]; }
        assert m in xs[1..] by { assert xs == [xs[0]] + xs[1..]; }
      }
    }
  }

  lemma EmptyTogether(xs: seq<Move>, ys: seq<Move>)
    requires forall m :: m in xs <==> m in ys
    ensures xs == [] <==> ys == []
  {
    if xs != [] { assert xs[0] in xs; }
    if ys != [] { assert ys[0] in ys; }
  }

  /** The generator's contract fixes its output: two scan-ordered lists with
      the same members are the same list. */
  lemma {:induction false} ScanOrderDetermines(xs: seq<Move>, ys: seq<Move>)
    requires ScanOrdered(xs) && ScanOrdered(ys)
    requires forall m :: m in xs <==> m in ys
    ensures xs == ys
  {
    if xs != [] && ys != [] {
      SameHead(xs, ys);
      SameTail(xs, ys);
      TailOrdered(xs);
      TailOrdered(ys);
      ScanOrderDetermines(xs[1..], ys[1..]);
      assert xs == [xs[0]] + xs[1..] && ys == [ys[0]] + ys[1..];
    } else {
      EmptyTogether(xs, ys);
    }
  }

  /** No generated move leaves a piece where it stands. */
  lemma GeneratedMovesMove(b: Board, c: Colour, m: Move)
    requires LegalFor(b, c, m)
    ensures m.from != m.to
    ensures !IsColourAt(b, m.to, c)
  {
  }
}
