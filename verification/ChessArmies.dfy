/** What a move costs: the squares each side holds before and after. The side that
    moves keeps its number of pieces, castling or not; the other side loses one when
    the move captures, and its pieces that are left stand where they stood. Squares
    are counted, so that no piece is made or lost by moving two at once. */
module ChessArmies {
  import opened Wrappers
  import opened ChessRules
  import opened ChessCheck
  import opened ChessGame

  /** The squares a side holds. */
  function Army(b: Board, team: Team): set<Square> {
    set s | s in b && b[s].team == team
  }

  predicate Captures(planned: Planned) {
    planned.Accept? && planned.kind != ToEmptySquare
  }

  /** An army after a move, from what the move makes of each square. */
  lemma ArmyIs(b: Board, team: Team, army: set<Square>)
    requires forall s: Square :: s in army <==> s in b && b[s].team == team
    ensures Army(b, team) == army
  {
  }

  /** An ordinary move takes the mover from one square to another... */
  lemma PlainMoverArmy(p: Position, from: Square, to: Square, planned: Planned)
    requires GameInvariant(p) && PlainMove(p, from, to, planned)
    ensures Army(Made(p, planned.plan).squares, p.turn) == Army(p.squares, p.turn) - {from} + {to}
    ensures to !in Army(p.squares, p.turn) && from in Army(p.squares, p.turn)
  {
    CaptureTakesEnemy(p, from, to, planned);
    var after := Made(p, planned.plan).squares;
    var army := Army(p.squares, p.turn) - {from} + {to};
    forall s: Square ensures s in army <==> s in after && after[s].team == p.turn {
      PlainSquares(p, from, to, planned, s);
    }
    ArmyIs(after, p.turn, army);
  }

  /** ...and removes the captured piece, if any, and nothing else. */
  lemma PlainEnemyArmy(p: Position, from: Square, to: Square, planned: Planned)
    requires GameInvariant(p) && PlainMove(p, from, to, planned)
    ensures
      var b, after := p.squares, Made(p, planned.plan).squares;
      var enemy := p.turn.Opponent();
      && Army(after, enemy) == Army(b, enemy) - (if Captures(planned) then {planned.plan.captured.value} else {})
      && (Captures(planned) ==> planned.plan.captured.value in Army(b, enemy))
      && forall s | s in Army(after, enemy) :: after[s] == b[s]
  {
    CaptureTakesEnemy(p, from, to, planned);
    var after, enemy := Made(p, planned.plan).squares, p.turn.Opponent();
    var army := Army(p.squares, enemy) - (if Captures(planned) then {planned.plan.captured.value} else {});
    forall s: Square
      ensures s in army <==> s in after && after[s].team == enemy
      ensures s in army && s in after ==> after[s] == p.squares[s]
    {
      PlainSquares(p, from, to, planned, s);
    }
    ArmyIs(after, enemy, army);
  }

  /** What castling makes of each square. */
  lemma CastlingSquares(p: Position, from: Square, to: Square, planned: Planned, s: Square)
    requires GameInvariant(p) && CastlingMove(p, from, to, planned)
    ensures planned.plan.rookFrom.Some? && planned.plan.rookTo.Some?
    ensures
      var corner, passing := planned.plan.rookFrom.value, planned.plan.rookTo.value;
      var b, after := p.squares, Made(p, planned.plan).squares;
      if s == to then s !in b && s in after && after[s] == Piece(King, p.turn, true)
      else if s == passing then s !in b && s in after && after[s] == Piece(Rook, p.turn, true)
      else if s == from || s == corner then s in b && b[s].team == p.turn && s !in after
      else (s in after <==> s in b) && (s in after ==> after[s] == b[s])
  {
    CastlingShape(p, from, to, planned);
  }

  /** Castling moves the king and the rook... */
  lemma CastlingOwnArmy(p: Position, from: Square, to: Square, planned: Planned)
    requires GameInvariant(p) && CastlingMove(p, from, to, planned)
    ensures planned.plan.rookFrom.Some? && planned.plan.rookTo.Some?
    ensures
      var corner, passing := planned.plan.rookFrom.value, planned.plan.rookTo.value;
      var b, after := p.squares, Made(p, planned.plan).squares;
      && Army(after, p.turn) == Army(b, p.turn) - {from, corner} + {to, passing}
      && {from, corner} <= Army(b, p.turn) && {to, passing} !! Army(b, p.turn)
  {
    CastlingSquares(p, from, to, planned, to);
    var corner, passing := planned.plan.rookFrom.value, planned.plan.rookTo.value;
    var after := Made(p, planned.plan).squares;
    CastlingSquares(p, from, to, planned, from);
    CastlingSquares(p, from, to, planned, corner);
    CastlingSquares(p, from, to, planned, passing);
    var army := Army(p.squares, p.turn) - {from, corner} + {to, passing};
    forall s: Square ensures s in army <==> s in after && after[s].team == p.turn {
      CastlingSquares(p, from, to, planned, s);
    }
    ArmyIs(after, p.turn, army);
  }

  /** ...and touches nothing else. */
  lemma CastlingEnemyArmy(p: Position, from: Square, to: Square, planned: Planned)
    requires GameInvariant(p) && CastlingMove(p, from, to, planned)
    ensures
      var b, after, enemy := p.squares, Made(p, planned.plan).squares, p.turn.Opponent();
      Army(after, enemy) == Army(b, enemy) && forall s | s in Army(after, enemy) :: after[s] == b[s]
  {
    var after, enemy := Made(p, planned.plan).squares, p.turn.Opponent();
    forall s: Square
      ensures s in Army(p.squares, enemy) <==> s in after && after[s].team == enemy
      ensures s in Army(p.squares, enemy) && s in after ==> after[s] == p.squares[s]
    {
      CastlingSquares(p, from, to, planned, s);
    }
    ArmyIs(after, enemy, Army(p.squares, enemy));
  }

  /** Whatever is tried in a game, the side to move keeps its number of pieces;
      the other side loses one exactly when the move captures, and its pieces
      left stand where they stood. Castling loses nothing. */
  lemma TriedLosesAtMostOneEnemy(p: Position, from: Square, to: Square)
    requires GameInvariant(p)
    ensures
      var b, after := p.squares, Tried(p, from, to).squares;
      var enemy := p.turn.Opponent();
      && |Army(after, p.turn)| == |Army(b, p.turn)|
      && |Army(after, enemy)| == |Army(b, enemy)| - (if Captures(PlanMove(p, from, to)) then 1 else 0)
      && forall s | s in Army(after, enemy) :: s in b && after[s] == b[s]
  {
    var planned := PlanMove(p, from, to);
    if planned.Accept? {
      AcceptedIsPlainOrCastling(p, from, to);
      if IsCastlingAttempt(p.squares[from], from, to) {
        CastlingOwnArmy(p, from, to, planned);
        CastlingEnemyArmy(p, from, to, planned);
        var corner, passing := planned.plan.rookFrom.value, planned.plan.rookTo.value;
        CastlingShape(p, from, to, planned);
        var kept := Army(p.squares, p.turn) - {from, corner};
        assert |kept| == |Army(p.squares, p.turn)| - |{from, corner}|;
        assert |kept + {to, passing}| == |kept| + |{to, passing}|;
      } else {
        PlainMoverArmy(p, from, to, planned);
        PlainEnemyArmy(p, from, to, planned);
      }
    }
  }
}
