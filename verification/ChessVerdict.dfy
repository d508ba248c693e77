/** What a game says of a move: the report is exact but for the one capture the shortcut
    test does not look for, in every game from the opening, whatever moves are tried. */
module ChessVerdict {
  import opened Wrappers
  import opened ChessRules
  import opened ChessCheck
  import opened ChessGame
  import opened ChessMate
  import opened ChessPlay

  /** Every check of a real game is one the checkmate test is exact on. */
  lemma GameFaces(moves: seq<(Square, Square)>) returns (king: Square)
    requires var p := Played(Standard(), moves); InCheck(p, p.turn)
    ensures var p := Played(Standard(), moves); Facing(p, king, p.turn) && EnPassantShape(p)
  {
    var p := Played(Standard(), moves);
    EveryGameKeepsInvariant(moves);
    assert HasOneKing(p.squares, p.turn) && HasOneKing(p.squares, p.turn.Opponent());
    king :| king in p.squares && OnlyKing(p.squares, king, p.turn);
    var other :| other in p.squares && OnlyKing(p.squares, other, p.turn.Opponent());
    KingOfOnly(p.squares, king, p.turn);
    KingOfOnly(p.squares, other, p.turn.Opponent());
  }

  /** In every game: a check that is not called mate leaves a move; one called
      mate leaves at most the capture, en passant, of the enemy pawn that
      checks first. */
  lemma GameVerdictIsExact(moves: seq<(Square, Square)>)
    requires var p := Played(Standard(), moves); InCheck(p, p.turn)
    ensures
      var p := Played(Standard(), moves);
      && (FlagOf(p) == Check ==> exists from, to :: PlanMove(p, from, to).Accept?)
      && (FlagOf(p) == Checkmate <==>
            forall from, to | PlanMove(p, from, to).Accept? ::
              TakesCheckerEnPassant(p, PlanMove(p, from, to), KingOf(p.squares, p.turn).value, p.turn))
  {
    var p := Played(Standard(), moves);
    var king := GameFaces(moves);
    KingOfOnly(p.squares, king, p.turn);
    CheckmateIsExact(p, king, p.turn);
    if FlagOf(p) == Check {
      NotMatedHasMove(p, king, p.turn);
    }
  }
}
