/** The computer's choice of move for Black (src/CyberChess.jsx,
    makeComputerMove): score every generated move once and keep the first
    one whose score is strictly higher than every score before it. */
module Computer {
  import opened Pieces
  import opened MoveGen
  import opened Scoring

  /** A random source: the draw used when scoring `m`. Every move in the
      generated list is distinct, so one draw per move is one draw per call
      of evaluateMove. */
  ghost predicate JitterInRange(jitter: Move -> real)
  {
    forall m :: 0.0 <= jitter(m) < 3.0
  }

  function Score(b: Board, m: Move, jitter: Move -> real): real
    requires JitterInRange(jitter)
  {
    EvaluateMove(b, m, jitter(m))
  }

  /** The scan over the generated list: `best` has the highest score, and
      every earlier move scores strictly less (later ties do not replace it). */
  method SelectBestMove(b: Board, moves: seq<Move>, jitter: Move -> real) returns (best: nat)
    requires moves != [] && JitterInRange(jitter)
    ensures best < |moves|
    ensures forall i :: 0 <= i < |moves| ==> Score(b, moves[i], jitter) <= Score(b, moves[best], jitter)
    ensures forall i :: 0 <= i < best ==> Score(b, moves[i], jitter) < Score(b, moves[best], jitter)
  {
    best := 0;
    var bestScore := -1.0;  // stands for -Infinity: no score is negative
    for i := 0 to |moves|
      invariant best < |moves| && (i == 0 ==> best == 0 && bestScore == -1.0)
      invariant i > 0 ==> best < i && bestScore == Score(b, moves[best], jitter)
      invariant forall j :: 0 <= j < i ==> Score(b, moves[j], jitter) <= bestScore
      invariant forall j :: 0 <= j < best ==> Score(b, moves[j], jitter) < bestScore
    {
      var score := EvaluateMove(b, moves[i], jitter(moves[i]));
      if score > bestScore {
        bestScore := score;
        best := i;
      }
    }
  }

  /** `m` is the move the scan keeps among the legal moves of `c`: no legal
      move scores more, and every legal move earlier in scan order scores less. */
  ghost predicate BestFor(b: Board, c: Colour, m: Move, jitter: Move -> real)
    requires JitterInRange(jitter)
  {
    forall m' :: LegalFor(b, c, m') ==>
      && Score(b, m', jitter) <= Score(b, m, jitter)
      && (Key(m') < Key(m) ==> Score(b, m', jitter) < Score(b, m, jitter))
  }

  /** The index chosen by the scan over the generator's list is the best legal move. */
  lemma ListBestIsBest(b: Board, c: Colour, moves: seq<Move>, jitter: Move -> real, best: nat)
    requires JitterInRange(jitter)
    requires forall m :: m in moves <==> LegalFor(b, c, m)
    requires ScanOrdered(moves)
    requires best < |moves|
    requires forall i :: 0 <= i < |moves| ==> Score(b, moves[i], jitter) <= Score(b, moves[best], jitter)
    requires forall i :: 0 <= i < best ==> Score(b, moves[i], jitter) < Score(b, moves[best], jitter)
    ensures LegalFor(b, c, moves[best]) && BestFor(b, c, moves[best], jitter)
  {
    assert moves[best] in moves;
    forall m' | LegalFor(b, c, m')
      ensures Score(b, m', jitter) <= Score(b, moves[best], jitter)
      ensures Key(m') < Key(moves[best]) ==> Score(b, m', jitter) < Score(b, moves[best], jitter)
    {
      var i :| 0 <= i < |moves| && moves[i] == m';
      if Key(m') < Key(moves[best]) {
        assert !(best <= i);
      }
    }
  }

  /** The best move is unique: ties are broken by scan order. */
  lemma BestForUnique(b: Board, c: Colour, m1: Move, m2: Move, jitter: Move -> real)
    requires JitterInRange(jitter)
    requires LegalFor(b, c, m1) && BestFor(b, c, m1, jitter)
    requires LegalFor(b, c, m2) && BestFor(b, c, m2, jitter)
    ensures m1 == m2
  {
    assert Score(b, m1, jitter) == Score(b, m2, jitter);
    assert Key(m1) == Key(m2);
    KeyInjective(m1, m2);
  }

  /** When a King can be captured, the computer captures one. */
  lemma KingCaptureChosen(b: Board, c: Colour, m: Move, k: Move, jitter: Move -> real)
    requires JitterInRange(jitter)
    requires BestFor(b, c, m, jitter)
    requires LegalFor(b, c, k) && At(b, k.to).Some? && At(b, k.to).value.kind == King
    ensures At(b, m.to).Some? && At(b, m.to).value.kind == King
  {
    if !(At(b, m.to).Some? && At(b, m.to).value.kind == King) {
      KingCaptureBeatsAllElse(b, k, jitter(k), m, jitter(m));
    }
  }
}
