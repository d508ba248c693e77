/** Which moves are legal and what they leave, square by square, in the geometry of the
    pieces' steps; the planning of a move accepts these and no others. */
module ChessLegal {
  import opened Wrappers
  import opened ChessRules
  import opened ChessMoves

  // ---- An ordinary move --------------------------------------------------------

  /** A pawn takes the pawn that has just passed the square it goes to. */
  predicate TakesInPassing(p: Position, from: Square, to: Square) {
    && from in p.squares && p.squares[from].kind == Pawn && PawnTakes(from, to, p.squares[from].team)
    && p.target == Some(to) && p.victim in p.squares && p.squares[p.victim].kind == Pawn
  }

  ghost predicate MayGo(p: Position, from: Square, to: Square) {
    to.OnBoard() && (TakesInPassing(p, from, to) || Goes(p.squares, from, to))
  }

  /** Where what the move takes stands. */
  function Taken(p: Position, from: Square, to: Square): Option<Square> {
    if TakesInPassing(p, from, to) then Some(p.victim) else if to in p.squares then Some(to) else None
  }

  /** A pawn on the first or last rank becomes a queen. */
  function Landed(piece: Piece, to: Square): Piece {
    if piece.kind == Pawn && (to.y == 0 || to.y == 7) then Piece(Queen, piece.team, true)
    else Piece(piece.kind, piece.team, true)
  }

  /** The mover stands where it went, what it took is gone, the rest stands. */
  function BoardAfter(p: Position, from: Square, to: Square): Board
    requires from in p.squares
  {
    map s | s in p.squares.Keys + {to} && s != from && (s == to || Taken(p, from, to) != Some(s)) ::
      if s == to then Landed(p.squares[from], to) else p.squares[s]
  }

  /** The square a pawn's double step passes. */
  function Passed(p: Position, from: Square, to: Square): Option<Square>
    requires from in p.squares
  {
    if p.squares[from].kind == Pawn && (to.y == from.y + 2 || to.y == from.y - 2) then
      Some(Square(from.x, (from.y + to.y) / 2))
    else None
  }

  /** The planning accepts exactly these, says what they take and whether a pawn is
      promoted. */
  lemma PlanIffMayGo(p: Position, from: Square, to: Square)
    requires from in p.squares
    ensures
      var planned := PlanReach(p, from, to, p.squares[from], true);
      && (planned.Accept? <==> MayGo(p, from, to))
      && (planned.Accept? ==>
            && planned.plan == Plan(from, to, Taken(p, from, to), None, None)
            && (planned.promotes <==> p.squares[from].kind == Pawn && (to.y == 0 || to.y == 7))
            && planned.kind == (if TakesInPassing(p, from, to) then CapturedEnPassant
                                else if to in p.squares then Captured else ToEmptySquare))
  {
    ReachesIffGoes(p, from, to);
    if p.squares[from].kind == Pawn {
      PawnTakesIff(p.squares, from, to, p.squares[from]);
    }
  }

  lemma AppliedSquares(p: Position, from: Square, to: Square)
    requires from in p.squares && from != to
    ensures ApplySquares(p.squares, Plan(from, to, Taken(p, from, to), None, None)) == BoardAfter(p, from, to)
  {
  }

  lemma MayGoElsewhere(p: Position, from: Square, to: Square)
    requires MayGo(p, from, to)
    ensures from in p.squares && from != to
  {
  }

  lemma AppliedIsAfter(p: Position, from: Square, to: Square)
    requires MayGo(p, from, to)
    ensures
      var after := Apply(p, Plan(from, to, Taken(p, from, to), None, None));
      && after.squares == BoardAfter(p, from, to) && after.target == Passed(p, from, to)
      && (after.target.Some? ==> after.victim == to)
  {
    MayGoElsewhere(p, from, to);
    AppliedSquares(p, from, to);
  }

  // ---- Check -----------------------------------------------------------------------

  /** An enemy piece goes to where the king stands. */
  ghost predicate Threatened(b: Board, team: Team) {
    && KingOf(b, team).Some?
    && exists from :: from in b && b[from].team == team.Opponent() && Goes(b, from, KingOf(b, team).value)
  }

  lemma InCheckIffThreatened(p: Position, team: Team)
    ensures InCheck(p, team) <==> Threatened(p.squares, team)
  {
    if KingOf(p.squares, team).Some? {
      AttackedIffGoes(p, KingOf(p.squares, team).value, team.Opponent());
    }
  }

  // ---- Castling ---------------------------------------------------------------------

  function OnRank(from: Square, step: int, n: int): Square {
    Square(if step > 0 then from.x + n else from.x - n, from.y)
  }

  predicate EmptyUpTo(b: Board, from: Square, step: int, n: nat) {
    forall k {:trigger OnRank(from, step, k)} | 0 < k < n :: OnRank(from, step, k) !in b
  }

  /** `n` squares along the rank the first piece stands. */
  predicate FirstPiece(b: Board, from: Square, step: int, n: nat) {
    n > 0 && OnRank(from, step, n).OnBoard() && OnRank(from, step, n) in b && EmptyUpTo(b, from, step, n)
  }

  /** The search along the rank ends at the first piece, or off the board. */
  lemma {:induction false} FirstAlongIsFirst(b: Board, from: Square, step: int, m: nat) returns (n: nat)
    requires (step == 1 || step == -1) && from.OnBoard() && m > 0 && EmptyUpTo(b, from, step, m)
    ensures EmptyUpTo(b, from, step, n) && n > 0
    ensures
      match FirstAlong(b, OnRank(from, step, m), step)
      case Some(s) => FirstPiece(b, from, step, n) && s == OnRank(from, step, n)
      case None => !OnRank(from, step, n).OnBoard()
    decreases 10 - m
  {
    var s := OnRank(from, step, m);
    n := m;
    if s.OnBoard() && s !in b {
      assert Square(s.x + step, s.y) == OnRank(from, step, m + 1);
      n := FirstAlongIsFirst(b, from, step, m + 1);
    }
  }

  predicate TwoAside(from: Square, to: Square) {
    to == Square(from.x + 2, from.y) || to == Square(from.x - 2, from.y)
  }

  function Side(from: Square, to: Square): int {
    if to.x < from.x then -1 else 1
  }

  /** The board with the king moved, and nothing else. */
  function KingAt(b: Board, from: Square, s: Square): Board
    requires from in b
  {
    (b - {from})[s := Piece(b[from].kind, b[from].team, true)]
  }

  predicate OwnUnmovedRook(b: Board, s: Square, team: Team) {
    s in b && b[s] == Piece(Rook, team, false)
  }

  /** An unmoved king, not in check, the first piece on that side an unmoved rook of its
      own, and no check where it passes or ends. */
  ghost predicate MayCastle(b: Board, from: Square, to: Square) {
    var step := Side(from, to);
    && from in b && !b[from].moved && !Threatened(b, b[from].team)
    && MeetsOwnRook(b, from, step, b[from].team)
    && !Threatened(KingAt(b, from, OnRank(from, step, 1)), b[from].team)
    && !Threatened(KingAt(b, from, to), b[from].team)
  }

  ghost predicate MeetsOwnRook(b: Board, from: Square, step: int, team: Team) {
    exists n: nat :: FirstPiece(b, from, step, n) && OwnUnmovedRook(b, OnRank(from, step, n), team)
  }

  lemma FirstPieceIsOne(b: Board, from: Square, step: int, n: nat, m: nat)
    requires (step == 1 || step == -1) && from.OnBoard() && EmptyUpTo(b, from, step, n) && FirstPiece(b, from, step, m)
    requires n > 0 && (OnRank(from, step, n).OnBoard() ==> FirstPiece(b, from, step, n))
    ensures n == m
  {
    assert OnRank(from, step, m) in b;
  }

  lemma KingStepIsSafe(p: Position, from: Square, s: Square, team: Team)
    requires from in p.squares && p.squares[from].kind == King && s != from
    ensures LeavesKingSafe(p, StepPlan(from, s), team) <==> !Threatened(KingAt(p.squares, from, s), team)
  {
    var after := Apply(p, StepPlan(from, s));
    assert after.squares == KingAt(p.squares, from, s);
    InCheckIffThreatened(after, team);
  }

  /** The first piece from where the king passes on is an unmoved rook of its own. */
  lemma RookIsMetFirst(b: Board, from: Square, step: int, team: Team)
    requires (step == 1 || step == -1) && from.OnBoard()
    ensures
      var first := FirstAlong(b, OnRank(from, step, 1), step);
      (first.Some? && OwnUnmovedRook(b, first.value, team)) <==> MeetsOwnRook(b, from, step, team)
  {
    var n := FirstAlongIsFirst(b, from, step, 1);
    if MeetsOwnRook(b, from, step, team) {
      var m: nat :| FirstPiece(b, from, step, m) && OwnUnmovedRook(b, OnRank(from, step, m), team);
      FirstPieceIsOne(b, from, step, n, m);
    }
  }

  lemma CastleIffMayCastle(p: Position, from: Square, to: Square)
    requires from in p.squares && from.OnBoard() && p.squares[from].kind == King && TwoAside(from, to)
    ensures PlanCastle(p, from, to, p.squares[from]).Accept? <==> MayCastle(p.squares, from, to)
  {
    var step, team := Side(from, to), p.squares[from].team;
    var passing := OnRank(from, step, 1);
    assert passing == Square(from.x + step, from.y);
    InCheckIffThreatened(p, team);
    KingStepIsSafe(p, from, passing, team);
    KingStepIsSafe(p, from, to, team);
    RookIsMetFirst(p.squares, from, step, team);
  }

  /** The plan of a castling names the rook met first and where the king passes. */
  lemma CastlePlan(p: Position, from: Square, to: Square) returns (n: nat)
    requires from in p.squares && from.OnBoard() && p.squares[from].kind == King && TwoAside(from, to)
    requires PlanCastle(p, from, to, p.squares[from]).Accept?
    ensures
      var (step, team) := (Side(from, to), p.squares[from].team);
      && FirstPiece(p.squares, from, step, n) && OwnUnmovedRook(p.squares, OnRank(from, step, n), team)
      && PlanCastle(p, from, to, p.squares[from]).plan
           == Plan(from, to, None, Some(OnRank(from, step, n)), Some(OnRank(from, step, 1)))
  {
    var step := Side(from, to);
    var passing := OnRank(from, step, 1);
    assert passing == Square(from.x + step, from.y);
    n := FirstAlongIsFirst(p.squares, from, step, 1);
  }

  /** The king two squares aside, the rook next to it on the other side. */
  function CastledBoard(b: Board, from: Square, to: Square, rook: Square, team: Team): Board {
    (b - {from, rook})[to := Piece(King, team, true)][OnRank(from, Side(from, to), 1) := Piece(Rook, team, true)]
  }

  lemma CastlingPlaces(b: Board, from: Square, to: Square, rook: Square, team: Team)
    requires from in b && b[from] == Piece(King, team, false) && OwnUnmovedRook(b, rook, team)
    requires TwoAside(from, to) && rook != to && rook != from
    ensures ApplySquares(b, Plan(from, to, None, Some(rook), Some(OnRank(from, Side(from, to), 1))))
      == CastledBoard(b, from, to, rook, team)
  {
    var landed := (b - {from})[to := Piece(King, team, true)];
    assert landed[rook] == b[rook];
    assert landed - {rook} == (b - {from, rook})[to := Piece(King, team, true)];
  }

  /** Castled: the rook met first stands where the king passed. */
  lemma CastledSquares(p: Position, from: Square, to: Square) returns (n: nat)
    requires from in p.squares && from.OnBoard() && p.squares[from].kind == King && TwoAside(from, to)
    requires PlanCastle(p, from, to, p.squares[from]).Accept?
    ensures
      var (step, team) := (Side(from, to), p.squares[from].team);
      var (rook, after) := (OnRank(from, step, n), Apply(p, PlanCastle(p, from, to, p.squares[from]).plan));
      && FirstPiece(p.squares, from, step, n) && OwnUnmovedRook(p.squares, rook, team) && after.target == None
      && (rook != to ==> after.squares == CastledBoard(p.squares, from, to, rook, team))
  {
    n := CastlePlan(p, from, to);
    var rook := OnRank(from, Side(from, to), n);
    assert !p.squares[from].moved;
    if rook != to {
      CastlingPlaces(p.squares, from, to, rook, p.squares[from].team);
    }
  }

  // ---- Legal moves --------------------------------------------------------------------

  predicate IsCastling(b: Board, from: Square, to: Square) {
    from in b && b[from].kind == King && TwoAside(from, to)
  }

  ghost predicate IsLegal(p: Position, from: Square, to: Square) {
    && from.OnBoard() && to.OnBoard() && HasBothKings(p.squares)
    && from in p.squares && p.squares[from].team == p.turn
    && if IsCastling(p.squares, from, to) then MayCastle(p.squares, from, to)
       else MayGo(p, from, to) && !Threatened(BoardAfter(p, from, to), p.turn)
  }

  /** A move is accepted exactly when it is legal. */
  lemma AcceptedIffLegal(p: Position, from: Square, to: Square)
    ensures PlanMove(p, from, to).Accept? <==> IsLegal(p, from, to)
  {
    if from in p.squares && from.OnBoard() && to.OnBoard() {
      if IsCastling(p.squares, from, to) {
        CastleIffMayCastle(p, from, to);
      } else {
        PlanIffMayGo(p, from, to);
        if MayGo(p, from, to) {
          AppliedIsAfter(p, from, to);
          InCheckIffThreatened(Apply(p, Plan(from, to, Taken(p, from, to), None, None)), p.turn);
        }
      }
    }
  }

  /** And leaves the board it should: the piece moved and promoted, what it took gone,
      the rest as it was, the square a double step passed, the turn passed. */
  lemma LegalMoveLeaves(p: Position, from: Square, to: Square)
    requires PlanMove(p, from, to).Accept? && !IsCastling(p.squares, from, to)
    ensures from in p.squares
    ensures
      var after := Made(p, PlanMove(p, from, to).plan);
      && after.squares == BoardAfter(p, from, to) && after.target == Passed(p, from, to)
      && (after.target.Some? ==> after.victim == to) && after.turn != p.turn
  {
    PlanIffMayGo(p, from, to);
    AppliedIsAfter(p, from, to);
  }

  // ---- Why a move is refused ------------------------------------------------------------

  /** The board with nothing but what stands on the two squares. */
  function OnlyThese(b: Board, from: Square, to: Square): Board {
    map s | s in b && s in {from, to} :: b[s]
  }

  lemma NothingBetweenThese(b: Board, from: Square, to: Square)
    ensures PathClear(OnlyThese(b, from, to), from, to)
  {
    if OnLine(from, to) {
      forall k | 1 <= k < Distance(from, to) ensures Ray(from, to, k) !in OnlyThese(b, from, to) {
        assert Ray(from, to, k) != from && Ray(from, to, k) != to;
      }
    }
  }

  /** The piece would go there were nothing in between. */
  lemma GoesAloneIff(p: Position, from: Square, to: Square)
    requires from in p.squares && to.OnBoard() && to != from && (to in p.squares ==> p.squares[to].team != p.squares[from].team)
    ensures
      var (piece, dx) := (p.squares[from], to.x - from.x);
      Goes(OnlyThese(p.squares, from, to), from, to) <==>
        if to in p.squares then CanAttack(piece, dx, Forward(piece, from, to)) else CanGoTo(piece, dx, Forward(piece, from, to))
  {
    var alone := p.(squares := OnlyThese(p.squares, from, to));
    NothingBetweenThese(p.squares, from, to);
    ReachesIffGoes(alone, from, to);
  }

  /** An own piece stands there, unless a pawn takes in passing. */
  predicate OwnStands(p: Position, from: Square, to: Square)
    requires from in p.squares
  {
    to in p.squares && p.squares[to].team == p.squares[from].team && !TakesInPassing(p, from, to)
  }

  /** A piece's own move is refused because one of its own stands there, else because it
      does not go that way, else because something stands in between. */
  lemma ReachRefusedBecause(p: Position, from: Square, to: Square)
    requires from in p.squares && to.OnBoard() && !MayGo(p, from, to)
    ensures
      PlanReach(p, from, to, p.squares[from], true) == Refuse(
        if OwnStands(p, from, to) then WouldCaptureOwnPiece
        else if !Goes(OnlyThese(p.squares, from, to), from, to) then BadDirection
        else PathBlocked)
  {
    PlanIffMayGo(p, from, to);
    if p.squares[from].kind == Pawn {
      PawnTakesIff(p.squares, from, to, p.squares[from]);
    }
    if !OwnStands(p, from, to) {
      GoesAloneIff(p, from, to);
    }
  }

  /** Of the reasons a move that is no castling is refused the first that is so is given. */
  lemma MoveRefusedBecause(p: Position, from: Square, to: Square)
    requires !IsLegal(p, from, to) && !IsCastling(p.squares, from, to)
    ensures PlanMove(p, from, to) == Refuse(
      if !from.OnBoard() || !to.OnBoard() then OffBoard
      else if !HasBothKings(p.squares) then InvalidBoardState
      else if from !in p.squares then NoPiece
      else if p.squares[from].team != p.turn then NotYours
      else if MayGo(p, from, to) then WouldSelfCheck
      else if OwnStands(p, from, to) then WouldCaptureOwnPiece
      else if !Goes(OnlyThese(p.squares, from, to), from, to) then BadDirection
      else PathBlocked)
  {
    AcceptedIffLegal(p, from, to);
    if from.OnBoard() && to.OnBoard() && from in p.squares {
      PlanIffMayGo(p, from, to);
      if !MayGo(p, from, to) {
        ReachRefusedBecause(p, from, to);
      }
    }
  }

  /** The first piece along the rank, if any. */
  ghost predicate MeetsFirst(b: Board, from: Square, step: int, first: Option<Square>) {
    match first
    case Some(s) => exists n: nat :: FirstPiece(b, from, step, n) && s == OnRank(from, step, n)
    case None => forall n: nat :: n > 0 && OnRank(from, step, n).OnBoard() ==> OnRank(from, step, n) !in b
  }

  lemma SearchMeetsFirst(b: Board, from: Square, step: int)
    requires (step == 1 || step == -1) && from.OnBoard()
    ensures MeetsFirst(b, from, step, FirstAlong(b, OnRank(from, step, 1), step))
  {
    var n := FirstAlongIsFirst(b, from, step, 1);
    if FirstAlong(b, OnRank(from, step, 1), step).None? {
      forall m: nat | m > 0 && OnRank(from, step, m).OnBoard() ensures OnRank(from, step, m) !in b {
        assert m < n;
      }
    }
  }

  /** And of the reasons a castling is refused. */
  lemma CastlingRefusedBecause(p: Position, from: Square, to: Square) returns (first: Option<Square>)
    requires from in p.squares && from.OnBoard() && p.squares[from].kind == King && TwoAside(from, to)
    requires !MayCastle(p.squares, from, to)
    ensures MeetsFirst(p.squares, from, Side(from, to), first) && (first.Some? ==> first.value in p.squares)
    ensures
      var (b, king) := (p.squares, p.squares[from]);
      PlanCastle(p, from, to, king) == Refuse(
        if Threatened(b, king.team) then CantCastleOutOfCheck
        else if king.moved then CantCastleAfterMoving
        else if first.None? then NoPiece
        else if b[first.value].kind != Rook || b[first.value].team != king.team then PathBlocked
        else if b[first.value].moved then CantCastleAfterMoving
        else if Threatened(KingAt(b, from, OnRank(from, Side(from, to), 1)), king.team) then CantCastleThroughCheck
        else WouldSelfCheck)
  {
    var step, team := Side(from, to), p.squares[from].team;
    var passing := OnRank(from, step, 1);
    assert passing == Square(from.x + step, from.y);
    first := FirstAlong(p.squares, passing, step);
    SearchMeetsFirst(p.squares, from, step);
    CastleIffMayCastle(p, from, to);
    InCheckIffThreatened(p, team);
    KingStepIsSafe(p, from, passing, team);
  }
}
