/** The computer's move-scoring heuristic (src/CyberChess.jsx, evaluateMove):
    ten times the value of the piece on the target square, two more for the
    four centre squares, plus a random jitter in [0, 3). The jitter is a
    parameter here; the component draws it from Math.random. */
module Scoring {
  import opened Pieces
  import opened MoveGen

  /** The pieceValues table: P=1, N=3, B=3, R=5, Q=9, K=100. */
  function PieceValue(k: Kind): (v: nat)
    ensures 1 <= v <= 100
    ensures v == 100 <==> k == King
  {
    match k
    case Pawn => 1
    case Knight => 3
    case Bishop => 3
    case Rook => 5
    case Queen => 9
    case King => 100
  }

  /** (3,3), (3,4), (4,3) and (4,4). */
  predicate IsCentre(p: Pos)
  {
    (p.row == 3 || p.row == 4) && (p.col == 3 || p.col == 4)
  }

  /** The deterministic part of the score of a move onto `to`. */
  function BaseScore(b: Board, to: Pos): nat
  {
    (if At(b, to).Some? then 10 * PieceValue(At(b, to).value.kind) else 0)
    + (if IsCentre(to) then 2 else 0)
  }

  /** evaluateMove with the random draw `jitter` supplied by the caller. */
  function EvaluateMove(b: Board, m: Move, jitter: real): (score: real)
    requires 0.0 <= jitter < 3.0
    ensures score >= 0.0
    ensures At(b, m.to).Some? ==> score >= 10.0 * PieceValue(At(b, m.to).value.kind) as real
    ensures At(b, m.to).Some? ==> score < 10.0 * PieceValue(At(b, m.to).value.kind) as real + 5.0
    ensures At(b, m.to).None? ==> score < 5.0
    ensures At(b, m.to).None? && !IsCentre(m.to) ==> score < 3.0
  {
    BaseScore(b, m.to) as real + jitter
  }

  /** Whatever the two draws, a move whose deterministic score is at least
      3 higher scores strictly more. */
  lemma ScoreGapDecides(b: Board, m1: Move, j1: real, m2: Move, j2: real)
    requires 0.0 <= j1 < 3.0 && 0.0 <= j2 < 3.0
    requires BaseScore(b, m1.to) >= BaseScore(b, m2.to) + 3
    ensures EvaluateMove(b, m1, j1) > EvaluateMove(b, m2, j2)
  {
  }

  /** A Queen capture outscores every non-capturing move to a non-centre
      square, for every draw of the jitter. */
  lemma QueenCaptureBeatsQuietMove(b: Board, m1: Move, j1: real, m2: Move, j2: real)
    requires 0.0 <= j1 < 3.0 && 0.0 <= j2 < 3.0
    requires At(b, m1.to).Some? && At(b, m1.to).value.kind == Queen
    requires At(b, m2.to).None? && !IsCentre(m2.to)
    ensures EvaluateMove(b, m1, j1) > EvaluateMove(b, m2, j2)
  {
  }

  /** A King capture outscores every move that does not capture a King. */
  lemma KingCaptureBeatsAllElse(b: Board, m1: Move, j1: real, m2: Move, j2: real)
    requires 0.0 <= j1 < 3.0 && 0.0 <= j2 < 3.0
    requires At(b, m1.to).Some? && At(b, m1.to).value.kind == King
    requires !(At(b, m2.to).Some? && At(b, m2.to).value.kind == King)
    ensures EvaluateMove(b, m1, j1) > EvaluateMove(b, m2, j2)
  {
  }
}
