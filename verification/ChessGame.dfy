/** What every game keeps, from the opening position on, whatever moves are
    tried. */
module ChessGame {
  import opened Wrappers
  import opened ChessRules
  import opened ChessCheck

  // ---- The opening -----------------------------------------------------------

  const BACK_RANK: seq<Kind> := [Rook, Knight, Bishop, Queen, King, Bishop, Knight, Rook]

  /** What stands on a square at the start. */
  function HomePiece(s: Square): Option<Piece> {
    if !s.OnBoard() then None
    else if s.y == 0 then Some(Piece(BACK_RANK[s.x], White, false))
    else if s.y == 1 then Some(Piece(Pawn, White, false))
    else if s.y == 6 then Some(Piece(Pawn, Black, false))
    else if s.y == 7 then Some(Piece(BACK_RANK[s.x], Black, false))
    else None
  }

  function StandardSquares(): Board {
    map x, y | 0 <= x < 8 && 0 <= y < 8 && HomePiece(Square(x, y)).Some? ::
      Square(x, y) := HomePiece(Square(x, y)).value
  }

  function Standard(): Position {
    Position(StandardSquares(), None, Square(0, 0), White)
  }

  /** What a tried move makes of the position: a refused one leaves it. */
  function Tried(p: Position, from: Square, to: Square): Position {
    var planned := PlanMove(p, from, to);
    if planned.Accept? then Made(p, planned.plan) else p
  }

  function Played(p: Position, moves: seq<(Square, Square)>): Position
    decreases |moves|
  {
    if moves == [] then p
    else Played(Tried(p, moves[0].0, moves[0].1), moves[1..])
  }

  // ---- The invariant -----------------------------------------------------------

  /** A piece that has not moved is one of the opening's, on its own square. */
  predicate UnmovedAreHome(b: Board) {
    forall s | s in b && !b[s].moved :: HomePiece(s) == Some(b[s])
  }

  predicate PawnsOffLastRanks(b: Board) {
    forall s | s in b && b[s].kind == Pawn :: !LastRank(s.y)
  }

  /** The skipped square is empty, and past it stands a pawn of the side that
      just moved. */
  predicate EnPassantIsEnemy(p: Position) {
    p.target.Some? ==>
      var t := p.target.value;
      && t !in p.squares
      && t.y == (if p.turn == Black then 2 else 5)
      && p.victim == Square(t.x, if p.turn == Black then 3 else 4)
      && p.victim in p.squares
      && p.squares[p.victim].kind == Pawn
      && p.squares[p.victim].team == p.turn.Opponent()
  }

  predicate HasOneKing(b: Board, team: Team) {
    exists king | king in b :: OnlyKing(b, king, team)
  }

  predicate GameInvariant(p: Position) {
    && OnBoardOnly(p.squares)
    && HasOneKing(p.squares, White)
    && HasOneKing(p.squares, Black)
    && !InCheck(p, p.turn.Opponent())
    && UnmovedAreHome(p.squares)
    && PawnsOffLastRanks(p.squares)
    && EnPassantIsEnemy(p)
  }

  // ---- Ordinary moves ------------------------------------------------------------

  predicate PlainMove(p: Position, from: Square, to: Square, planned: Planned) {
    && from in p.squares && to.OnBoard()
    && p.squares[from].team == p.turn
    && planned == PlanReach(p, from, to, p.squares[from], true)
    && planned.Accept?
    && LeavesKingSafe(p, planned.plan, p.turn)
  }

  /** A capture takes an enemy piece and never a king: the side not to move is
      not in check, so its king is out of reach. */
  lemma CaptureTakesEnemy(p: Position, from: Square, to: Square, planned: Planned)
    requires GameInvariant(p) && PlainMove(p, from, to, planned)
    ensures planned.plan.captured.Some? ==>
      var c := planned.plan.captured.value;
      c in p.squares && p.squares[c].team == p.turn.Opponent() && p.squares[c].kind != King
    ensures planned.plan.captured.Some? <==> planned.kind != ToEmptySquare
    ensures planned.plan.captured == Some(to) || to !in p.squares
  {
    var enemy := p.turn.Opponent();
    if planned.plan.captured == Some(to) && IsKing(p.squares, to, enemy) {
      var king :| king in p.squares && OnlyKing(p.squares, king, enemy);
      KingOfOnly(p.squares, king, enemy);
      assert Reaches(p, from, to);
    }
  }

  /** What an ordinary move makes of each square. */
  lemma PlainSquares(p: Position, from: Square, to: Square, planned: Planned, s: Square)
    requires PlainMove(p, from, to, planned)
    ensures
      var after := Made(p, planned.plan).squares;
      if s == to then s in after && after[s] == Arrived(p.squares[from], to)
      else if s == from || planned.plan.captured == Some(s) then s !in after
      else (s in after <==> s in p.squares) && (s in after ==> after[s] == p.squares[s])
  {
    ReachKeepsOthers(p, from, to, planned, s);
  }

  lemma PlainMoveKeepsKings(p: Position, from: Square, to: Square, planned: Planned, team: Team)
    requires GameInvariant(p) && PlainMove(p, from, to, planned) && HasOneKing(p.squares, team)
    ensures HasOneKing(Made(p, planned.plan).squares, team)
  {
    CaptureTakesEnemy(p, from, to, planned);
    var king :| king in p.squares && OnlyKing(p.squares, king, team);
    var after := Made(p, planned.plan).squares;
    var now := if king == from then to else king;
    assert IsKing(p.squares, from, team) ==> king == from;
    PlainSquares(p, from, to, planned, to);
    PlainSquares(p, from, to, planned, now);
    forall s | s in after && IsKing(after, s, team) ensures s == now {
      PlainSquares(p, from, to, planned, s);
    }
    assert OnlyKing(after, now, team);
  }

  /** A double step starts from home, so it skips an empty square. */
  lemma DoubleStepSkipsEmpty(p: Position, from: Square, to: Square, planned: Planned)
    requires GameInvariant(p) && PlainMove(p, from, to, planned)
    ensures EnPassantIsEnemy(Made(p, planned.plan))
  {
    var piece := p.squares[from];
    if piece.kind == Pawn && Abs(to.y - from.y) == 2 {
      assert planned.kind == ToEmptySquare && !piece.moved;
      assert HomePiece(from) == Some(piece);
      var skipped := Ray(from, to, 1);
      assert skipped == Square(from.x, (from.y + to.y) / 2);
      assert Distance(from, to) == 2 && skipped !in p.squares;
    }
  }

  lemma PlainMoveKeepsHomes(p: Position, from: Square, to: Square, planned: Planned)
    requires GameInvariant(p) && PlainMove(p, from, to, planned)
    ensures
      var b := Made(p, planned.plan).squares;
      OnBoardOnly(b) && UnmovedAreHome(b) && PawnsOffLastRanks(b)
  {
    var b := Made(p, planned.plan).squares;
    forall s | s in b
      ensures s.OnBoard() && (!b[s].moved ==> HomePiece(s) == Some(b[s])) && (b[s].kind == Pawn ==> !LastRank(s.y))
    {
      PlainSquares(p, from, to, planned, s);
    }
  }

  /** A safe plan leaves the mover, who no longer has the turn, out of check. */
  lemma MoverIsOutOfCheck(p: Position, plan: Plan)
    requires LeavesKingSafe(p, plan, p.turn)
    ensures !InCheck(Made(p, plan), Made(p, plan).turn.Opponent())
  {
    InCheckIgnoresTheRest(Apply(p, plan), Made(p, plan), p.turn);
  }

  lemma PlainMoveKeepsInvariant(p: Position, from: Square, to: Square, planned: Planned)
    requires GameInvariant(p) && PlainMove(p, from, to, planned)
    ensures GameInvariant(Made(p, planned.plan))
  {
    PlainMoveKeepsHomes(p, from, to, planned);
    PlainMoveKeepsKings(p, from, to, planned, White);
    PlainMoveKeepsKings(p, from, to, planned, Black);
    DoubleStepSkipsEmpty(p, from, to, planned);
    MoverIsOutOfCheck(p, planned.plan);
  }

  // ---- Castling --------------------------------------------------------------------

  predicate CastlingMove(p: Position, from: Square, to: Square, planned: Planned) {
    && from in p.squares && from.OnBoard()
    && p.squares[from].team == p.turn
    && IsCastlingAttempt(p.squares[from], from, to)
    && planned == PlanCastle(p, from, to, p.squares[from])
    && planned.Accept?
  }

  function BackRankOf(team: Team): int {
    if team == White then 0 else 7
  }

  /** An unmoved rook met first from the king's square on is in its corner. */
  lemma RookIsInCorner(b: Board, team: Team, step: int, corner: Square)
    requires UnmovedAreHome(b) && (step == 1 || step == -1)
    requires FirstAlong(b, Square(4 + step, BackRankOf(team)), step) == Some(corner)
    requires b[corner] == Piece(Rook, team, false)
    ensures corner == Square(if step == 1 then 7 else 0, BackRankOf(team))
    ensures Square(4 + step, BackRankOf(team)) !in b && Square(4 + 2 * step, BackRankOf(team)) !in b
  {
    var passing := Square(4 + step, BackRankOf(team));
    var n := FirstAlongNearest(b, passing, step);
    assert HomePiece(corner) == Some(b[corner]);
    assert AlongRank(passing, step, 0) == passing && AlongRank(passing, step, 1) == Square(4 + 2 * step, BackRankOf(team));
  }

  /** Castling is only ever from the king's own square with the rook in its own
      corner and nothing between. */
  lemma CastlingShape(p: Position, from: Square, to: Square, planned: Planned)
    requires GameInvariant(p) && CastlingMove(p, from, to, planned)
    ensures
      var rank := BackRankOf(p.turn);
      var long := to.x < from.x;
      var corner := Square(if long then 0 else 7, rank);
      var passing := Square(if long then 3 else 5, rank);
      && from == Square(4, rank) && to == Square(if long then 2 else 6, rank)
      && planned == Accept(ToEmptySquare, false, Plan(from, to, None, Some(corner), Some(passing)))
      && corner in p.squares && p.squares[corner] == Piece(Rook, p.turn, false)
      && passing !in p.squares && to !in p.squares
      && LeavesKingSafe(p, StepPlan(from, to), p.turn)
  {
    assert HomePiece(from) == Some(p.squares[from]);
    var step := if to.x < from.x then -1 else 1;
    var corner := FirstAlong(p.squares, Square(from.x + step, from.y), step).value;
    RookIsInCorner(p.squares, p.turn, step, corner);
  }

  /** A corner is never strictly between two squares of the board. */
  lemma CornerIsNeverBetween(from: Square, to: Square, k: int, corner: Square)
    requires from.OnBoard() && to.OnBoard() && OnLine(from, to) && 1 <= k < Distance(from, to)
    requires corner.x in {0, 7} && corner.y in {0, 7}
    ensures Ray(from, to, k) != corner
  {
  }

  /** The king is tested with the rook still in its corner; moving the rook to
      the square the king passed opens no line to it. */
  lemma RookMoveOpensNoLine(b: Position, after: Position, king: Square, corner: Square, passing: Square, team: Team)
    requires OnBoardOnly(b.squares) && king.OnBoard() && IsKing(b.squares, king, team)
    requires corner in b.squares && b.squares[corner].team == team && passing !in b.squares
    requires corner.x in {0, 7} && corner.y in {0, 7} && corner != king && passing != king
    requires after.squares == (b.squares - {corner})[passing := b.squares[corner].(moved := true)]
    ensures IsAttacked(after, king, team.Opponent()) ==> IsAttacked(b, king, team.Opponent())
  {
    if IsAttacked(after, king, team.Opponent()) {
      var from :| from in after.squares && after.squares[from].team == team.Opponent()
        && Reaches(after, from, king);
      assert from in b.squares && b.squares[from] == after.squares[from];
      if OnLine(from, king) {
        forall k | 1 <= k < Distance(from, king) ensures Ray(from, king, k) !in b.squares {
          assert Ray(from, king, k) !in after.squares;
          CornerIsNeverBetween(from, king, k, corner);
        }
      }
      assert Reaches(b, from, king);
    }
  }

  lemma CastledKingIsSafe(p: Position, from: Square, to: Square, planned: Planned)
    requires GameInvariant(p) && CastlingMove(p, from, to, planned)
    ensures LeavesKingSafe(p, planned.plan, p.turn)
    ensures OnlyKing(Apply(p, planned.plan).squares, to, p.turn)
  {
    CastlingShape(p, from, to, planned);
    var tested, after := Apply(p, StepPlan(from, to)), Apply(p, planned.plan);
    assert IsKing(p.squares, from, p.turn) && HasOneKing(p.squares, p.turn);
    var king :| king in p.squares && OnlyKing(p.squares, king, p.turn);
    assert king == from;
    assert OnlyKing(tested.squares, to, p.turn);
    assert OnlyKing(after.squares, to, p.turn);
    KingOfOnly(tested.squares, to, p.turn);
    KingOfOnly(after.squares, to, p.turn);
    var corner, passing := planned.plan.rookFrom.value, planned.plan.rookTo.value;
    RookMoveOpensNoLine(tested, after, to, corner, passing, p.turn);
  }

  lemma CastlingKeepsInvariant(p: Position, from: Square, to: Square, planned: Planned)
    requires GameInvariant(p) && CastlingMove(p, from, to, planned)
    ensures GameInvariant(Made(p, planned.plan))
  {
    CastlingShape(p, from, to, planned);
    CastledKingIsSafe(p, from, to, planned);
    MoverIsOutOfCheck(p, planned.plan);
    var next := Made(p, planned.plan);
    var enemy := p.turn.Opponent();
    assert HasOneKing(p.squares, enemy);
    var other :| other in p.squares && OnlyKing(p.squares, other, enemy);
    assert OnlyKing(next.squares, other, enemy);
  }

  // ---- Every game -----------------------------------------------------------------------

  lemma AcceptedIsPlainOrCastling(p: Position, from: Square, to: Square)
    requires PlanMove(p, from, to).Accept?
    ensures from in p.squares && p.squares[from].team == p.turn
    ensures
      var planned := PlanMove(p, from, to);
      if IsCastlingAttempt(p.squares[from], from, to)
      then CastlingMove(p, from, to, planned) else PlainMove(p, from, to, planned)
  {
  }

  lemma TriedKeepsInvariant(p: Position, from: Square, to: Square)
    requires GameInvariant(p)
    ensures GameInvariant(Tried(p, from, to))
  {
    var planned := PlanMove(p, from, to);
    if planned.Accept? {
      AcceptedIsPlainOrCastling(p, from, to);
      if IsCastlingAttempt(p.squares[from], from, to) {
        CastlingKeepsInvariant(p, from, to, planned);
      } else {
        PlainMoveKeepsInvariant(p, from, to, planned);
      }
    }
  }

  /** At the start no White piece reaches the black king: White stands on the
      first two ranks, and every line to e8 is shut by e7 or its neighbours. */
  lemma StandardKingIsSafe(from: Square)
    requires from in StandardSquares() && HomePiece(from).value.team == White
    ensures !Reaches(Standard(), from, Square(4, 7))
  {
    var king := Square(4, 7);
    assert from.y <= 1;
    if OnLine(from, king) {
      var last := Distance(from, king) - 1;
      assert Ray(from, king, last).y == 6 && 0 <= Ray(from, king, last).x < 8;
      assert Ray(from, king, last) in StandardSquares();
    }
  }

  lemma StandardHasKings()
    ensures OnlyKing(StandardSquares(), Square(4, 0), White)
    ensures OnlyKing(StandardSquares(), Square(4, 7), Black)
  {
    var b := StandardSquares();
    assert HomePiece(Square(4, 0)) == Some(Piece(King, White, false));
    assert HomePiece(Square(4, 7)) == Some(Piece(King, Black, false));
    assert Square(4, 0) in b && Square(4, 7) in b;
  }

  lemma StandardIsQuiet()
    ensures !InCheck(Standard(), Black)
  {
    var p := Standard();
    StandardHasKings();
    KingOfOnly(p.squares, Square(4, 7), Black);
    forall from | from in p.squares && p.squares[from].team == White
      ensures !Reaches(p, from, Square(4, 7))
    {
      StandardKingIsSafe(from);
    }
  }

  lemma StandardHomes(s: Square)
    requires s in StandardSquares()
    ensures s.OnBoard() && HomePiece(s) == Some(StandardSquares()[s])
    ensures StandardSquares()[s].kind == Pawn ==> !LastRank(s.y)
  {
  }

  lemma StandardHasInvariant()
    ensures GameInvariant(Standard())
  {
    StandardIsQuiet();
    StandardHasKings();
    var b := Standard().squares;
    forall s | s in b
      ensures s.OnBoard() && HomePiece(s) == Some(b[s]) && (b[s].kind == Pawn ==> !LastRank(s.y))
    {
      StandardHomes(s);
    }
  }

  lemma {:induction false} PlayedKeepsInvariant(p: Position, moves: seq<(Square, Square)>)
    requires GameInvariant(p)
    ensures GameInvariant(Played(p, moves))
    decreases |moves|
  {
    if moves != [] {
      TriedKeepsInvariant(p, moves[0].0, moves[0].1);
      PlayedKeepsInvariant(Tried(p, moves[0].0, moves[0].1), moves[1..]);
    }
  }

  /** In every game from the opening each side has exactly one king, the side
      that just moved is not in check, unmoved pieces stand at home, no pawn
      stands on a last rank, and the en passant chance is a real one. */
  lemma EveryGameKeepsInvariant(moves: seq<(Square, Square)>)
    ensures GameInvariant(Played(Standard(), moves))
  {
    StandardHasInvariant();
    PlayedKeepsInvariant(Standard(), moves);
  }
}
