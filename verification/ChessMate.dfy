/** The shortcut test for checkmate answers only the first piece giving check.
    It is exact but for one escape, taking that piece en passant. */
module ChessMate {
  import opened Wrappers
  import opened ChessRules
  import opened ChessCheck

  /** `team`, to move, has its one king on `king` and in check; the other side
      has a king too, and the king does not stand on the square a pawn skipped
      (only a board set up by hand could have it there). */
  predicate Facing(p: Position, king: Square, team: Team) {
    && OnBoardOnly(p.squares)
    && OnlyKing(p.squares, king, team)
    && HasBothKings(p.squares)
    && p.turn == team
    && p.target != Some(king)
    && InCheck(p, team)
  }

  /** The pawn that may be taken en passant stands one step past the square it
      skipped: so on every board the program can make. */
  predicate EnPassantShape(p: Position) {
    p.target.Some? ==>
      p.victim.x == p.target.value.x && Abs(p.victim.y - p.target.value.y) == 1
  }

  /** The move takes the first checking piece, a pawn, en passant. */
  predicate TakesCheckerEnPassant(p: Position, planned: Planned, king: Square, team: Team) {
    && planned.Accept?
    && planned.kind == CapturedEnPassant
    && planned.plan.captured == FirstAttacker(p, king, team)
  }

  /** In check, an accepted move is a reach that answers. */
  lemma AcceptedIsAnswer(p: Position, king: Square, team: Team, from: Square, to: Square)
    requires Facing(p, king, team) && PlanMove(p, from, to).Accept?
    ensures Answers(p, from, to, team)
    ensures PlanMove(p, from, to) == PlanReach(p, from, to, p.squares[from], true)
  {
  }

  /** An answer of the side to move is an accepted move: reaching never looks
      like castling. */
  lemma AnswerIsAccepted(p: Position, from: Square, to: Square, team: Team)
    requires OnBoardOnly(p.squares) && HasBothKings(p.squares) && p.turn == team
    requires Answers(p, from, to, team)
    ensures PlanMove(p, from, to).Accept?
    ensures PlanMove(p, from, to) == PlanReach(p, from, to, p.squares[from], true)
  {
  }

  /** An answer by the king goes to a square beside it. */
  lemma KingAnswerSteps(p: Position, king: Square, team: Team, to: Square)
    requires IsKing(p.squares, king, team) && Answers(p, king, to, team)
    ensures KingSteps(p, king, team)
  {
    var dx, dy := to.x - king.x, to.y - king.y;
    assert to != king;
    assert Abs(dx) < 2 && Abs(dy) < 2;
    var i :=
      if dx == 1 then (if dy == 0 then 0 else if dy == 1 then 1 else 7)
      else if dx == 0 then (if dy == 1 then 2 else 6)
      else if dy == 1 then 3 else if dy == 0 then 4 else 5;
    assert Beside(king, i) == to;
  }

  /** Moving anything but the king leaves it where it was. */
  lemma OtherMoveKeepsKing(p: Position, king: Square, team: Team, from: Square, to: Square)
    requires Facing(p, king, team) && from != king && Answers(p, from, to, team)
    ensures
      var after := Apply(p, PlanReach(p, from, to, p.squares[from], true).plan);
      OnBoardOnly(after.squares) && OnlyKing(after.squares, king, team)
      && KingOf(after.squares, team) == Some(king)
  {
    var planned := PlanReach(p, from, to, p.squares[from], true);
    var after := Apply(p, planned.plan).squares;
    ReachKeepsOthers(p, from, to, planned, king);
    assert p.squares[from].kind != King;
    forall s | s in after ensures s.OnBoard() && (IsKing(after, s, team) ==> s == king) {
      ReachKeepsOthers(p, from, to, planned, s);
    }
    KingOfOnly(after, king, team);
  }

  /** A checker left alone goes on checking unless the one newly taken square
      cuts its line. */
  lemma OnlyTheLandingBlocks(p: Position, q: Position, attacker: Square, king: Square, to: Square)
    requires Reaches(p, attacker, king) && king in p.squares && king in q.squares && q.squares[king] == p.squares[king]
    requires attacker in q.squares && q.squares[attacker] == p.squares[attacker]
    requires forall s | s in q.squares :: s == to || s in p.squares
    requires !Reaches(q, attacker, king)
    ensures to in SquaresUpToKing(attacker, king)
  {
    var k :| 1 <= k < Distance(attacker, king) && Ray(attacker, king, k) in q.squares;
    assert Ray(attacker, king, k) !in p.squares;
    assert SquaresUpToKing(attacker, king)[k] == to;
  }

  /** A piece other than the king that ends the check captures the checker,
      lands on it, or lands between it and the king. */
  lemma EndingCheckStopsChecker(
      p: Position, king: Square, team: Team, from: Square, to: Square, attacker: Square)
    requires Facing(p, king, team) && from != king && Answers(p, from, to, team)
    requires IsAttackerOf(p, attacker, king, team)
    ensures
      || to in SquaresUpToKing(attacker, king)
      || (var planned := PlanReach(p, from, to, p.squares[from], true);
          planned.kind == CapturedEnPassant && planned.plan.captured == Some(attacker))
  {
    var planned := PlanReach(p, from, to, p.squares[from], true);
    var after := Apply(p, planned.plan);
    OtherMoveKeepsKing(p, king, team, from, to);
    if to == attacker {
      assert SquaresUpToKing(attacker, king)[0] == Ray(attacker, king, 0) == attacker;
    } else if planned.plan.captured != Some(attacker) {
      forall s | s in after.squares ensures s == to || s in p.squares {
        ReachKeepsOthers(p, from, to, planned, s);
      }
      ReachKeepsOthers(p, from, to, planned, attacker);
      ReachKeepsOthers(p, from, to, planned, king);
      assert !Reaches(after, attacker, king);
      OnlyTheLandingBlocks(p, after, attacker, king, to);
    }
  }

  /** The found answers are never the exception. */
  lemma LandingIsNotTheException(
      p: Position, king: Square, team: Team, from: Square, to: Square, attacker: Square)
    requires EnPassantShape(p) && IsKing(p.squares, king, team)
    requires Answers(p, from, to, team)
    requires IsAttackerOf(p, attacker, king, team) && to in SquaresUpToKing(attacker, king)
    ensures
      var planned := PlanReach(p, from, to, p.squares[from], true);
      !(planned.kind == CapturedEnPassant && planned.plan.captured == Some(attacker))
  {
    var planned := PlanReach(p, from, to, p.squares[from], true);
    if p.squares[attacker].kind == Pawn {
      assert SquaresUpToKing(attacker, king)[0] == Ray(attacker, king, 0) == attacker;
      assert Distance(attacker, king) == 1;
    }
  }

  /** The test says "not mated" exactly when some accepted move is not the
      exception; so "mated" means that nothing is accepted but, perhaps, taking
      the first checking pawn en passant. */
  lemma CheckmateIsExact(p: Position, king: Square, team: Team)
    requires Facing(p, king, team) && EnPassantShape(p)
    ensures IsCheckmated(p, team) <==>
      forall from, to | PlanMove(p, from, to).Accept? ::
        TakesCheckerEnPassant(p, PlanMove(p, from, to), king, team)
  {
    KingOfOnly(p.squares, king, team);
    InCheckHasFirstAttacker(p, king, team);
    var attacker := FirstAttacker(p, king, team).value;
    if IsCheckmated(p, team) {
      forall from, to | PlanMove(p, from, to).Accept?
        ensures TakesCheckerEnPassant(p, PlanMove(p, from, to), king, team)
      {
        AcceptedIsAnswer(p, king, team, from, to);
        if from == king {
          KingAnswerSteps(p, king, team, to);
        } else {
          EndingCheckStopsChecker(p, king, team, from, to, attacker);
        }
      }
    } else if KingSteps(p, king, team) {
      var i: nat :| i < 8 && Answers(p, king, Beside(king, i), team);
      AnswerIsAccepted(p, king, Beside(king, i), team);
    } else {
      var line := SquaresUpToKing(attacker, king);
      var k :| 0 <= k < |line| && AnswersOn(p, line[k], team);
      var from :| from in p.squares && Answers(p, from, line[k], team);
      var to := line[k];
      AnswerIsAccepted(p, from, to, team);
      LandingIsNotTheException(p, king, team, from, to, attacker);
    }
  }

  /** A side the test does not call mated has a move. */
  lemma NotMatedHasMove(p: Position, king: Square, team: Team)
    requires Facing(p, king, team) && !IsCheckmated(p, team)
    ensures exists from, to :: PlanMove(p, from, to).Accept?
  {
    KingOfOnly(p.squares, king, team);
    InCheckHasFirstAttacker(p, king, team);
    var attacker := FirstAttacker(p, king, team).value;
    if KingSteps(p, king, team) {
      var i: nat :| i < 8 && Answers(p, king, Beside(king, i), team);
      AnswerIsAccepted(p, king, Beside(king, i), team);
    } else {
      var line := SquaresUpToKing(attacker, king);
      var k :| 0 <= k < |line| && AnswersOn(p, line[k], team);
      var from :| from in p.squares && Answers(p, from, line[k], team);
      AnswerIsAccepted(p, from, line[k], team);
    }
  }

  /** The exception is real: Black on h5, checked by the pawn that just came to
      g4 and shut in by its own pawns, may take it en passant, and is called
      mated. */
  const ESCAPE := Position(
    map[
      Square(0, 0) := Piece(King, White, true),
      Square(5, 2) := Piece(Pawn, White, true),
      Square(6, 3) := Piece(Pawn, White, true),
      Square(7, 4) := Piece(King, Black, true),
      Square(7, 3) := Piece(Pawn, Black, true),
      Square(6, 4) := Piece(Pawn, Black, true),
      Square(6, 5) := Piece(Pawn, Black, true),
      Square(7, 5) := Piece(Pawn, Black, true)
    ],
    Some(Square(6, 2)), Square(6, 3), Black)

  /** A square holding one of the side's own pieces answers nothing. */
  lemma OwnSquareIsNoAnswer(p: Position, from: Square, to: Square, team: Team)
    requires to in p.squares && p.squares[to].team == team && p.target != Some(to)
    ensures !Answers(p, from, to, team)
  {
  }

  lemma EscapeIsAccepted()
    ensures PlanMove(ESCAPE, Square(7, 3), Square(6, 2)).Accept?
  {
    var b := ESCAPE.squares;
    KingOfOnly(b, Square(0, 0), White);
    KingOfOnly(b, Square(7, 4), Black);
    var after := Apply(ESCAPE, PlanReach(ESCAPE, Square(7, 3), Square(6, 2), b[Square(7, 3)], true).plan);
    KingOfOnly(after.squares, Square(7, 4), Black);
    forall from | from in after.squares && after.squares[from].team == White
      ensures !Reaches(after, from, Square(7, 4))
    {
      assert from in {Square(0, 0), Square(5, 2)};
    }
  }

  /** The king's own capture of the checker runs into the pawn guarding it. */
  lemma EscapeCheckerIsGuarded()
    ensures !Answers(ESCAPE, Square(7, 4), Square(6, 3), Black)
  {
    var king, to := Square(7, 4), Square(6, 3);
    var after := Apply(ESCAPE, PlanReach(ESCAPE, king, to, ESCAPE.squares[king], true).plan);
    KingOfOnly(after.squares, to, Black);
    assert Reaches(after, Square(5, 2), to);
  }

  lemma EscapeHasNoKingStep()
    ensures !KingSteps(ESCAPE, Square(7, 4), Black)
  {
    var king := Square(7, 4);
    forall i: nat | i < 8 ensures !Answers(ESCAPE, king, Beside(king, i), Black) {
      var to := Beside(king, i);
      if to == Square(6, 3) {
        EscapeCheckerIsGuarded();
      } else if to.OnBoard() {
        OwnSquareIsNoAnswer(ESCAPE, king, to, Black);
      }
    }
  }

  lemma EscapeOthersReachNothing()
    ensures !Reaches(ESCAPE, Square(0, 0), Square(7, 4))
    ensures !Reaches(ESCAPE, Square(5, 2), Square(7, 4))
  {
  }

  lemma EscapeIsCheck()
    ensures OnBoardOnly(ESCAPE.squares) && KingOf(ESCAPE.squares, Black) == Some(Square(7, 4))
    ensures InCheck(ESCAPE, Black)
  {
    KingOfOnly(ESCAPE.squares, Square(7, 4), Black);
    assert Reaches(ESCAPE, Square(6, 3), Square(7, 4));
  }

  lemma EscapeCheckerIsFirst()
    ensures InCheck(ESCAPE, Black)
    ensures KingOf(ESCAPE.squares, Black) == Some(Square(7, 4))
    ensures FirstAttacker(ESCAPE, Square(7, 4), Black) == Some(Square(6, 3))
  {
    EscapeIsCheck();
    InCheckHasFirstAttacker(ESCAPE, Square(7, 4), Black);
    EscapeOthersReachNothing();
    var first := FirstAttacker(ESCAPE, Square(7, 4), Black).value;
    assert first in {Square(0, 0), Square(5, 2), Square(6, 3)};
  }

  lemma EscapeCheckerIsNotTaken()
    ensures forall from | from in ESCAPE.squares :: !Answers(ESCAPE, from, Square(6, 3), Black)
  {
    var checker := Square(6, 3);
    forall from | from in ESCAPE.squares ensures !Answers(ESCAPE, from, checker, Black) {
      if from == Square(7, 4) {
        EscapeCheckerIsGuarded();
      } else if ESCAPE.squares[from].team == Black {
        assert ESCAPE.squares[from] == Piece(Pawn, Black, true);
        assert !CanAttack(ESCAPE.squares[from], checker.x - from.x, from.y - checker.y);
      }
    }
  }

  lemma CheckmateMissesEscape()
    ensures IsCheckmated(ESCAPE, Black) && PlanMove(ESCAPE, Square(7, 3), Square(6, 2)).Accept?
  {
    EscapeIsAccepted();
    EscapeHasNoKingStep();
    EscapeCheckerIsFirst();
    EscapeCheckerIsNotTaken();
    assert SquaresUpToKing(Square(6, 3), Square(7, 4)) == [Square(6, 3)];
  }
}
