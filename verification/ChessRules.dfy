/** The rules for moving on one chess position, as pure queries: what a piece
    reaches, what attacks a square, what a planned move leaves behind, and the
    shortcut test for checkmate. */
module ChessRules {
  import opened Wrappers

  const SIZE := 8

  datatype Team = White | Black {
    function Opponent(): Team {
      if White? then Black else White
    }
  }

  datatype Kind = Pawn | Rook | Knight | Bishop | Queen | King

  datatype Piece = Piece(kind: Kind, team: Team, moved: bool)

  /** `x` is the file, `y` the rank; White starts on ranks 0 and 1. */
  datatype Square = Square(x: int, y: int) {
    predicate OnBoard() {
      0 <= x < SIZE && 0 <= y < SIZE
    }
  }

  /** The occupied squares. */
  type Board = map<Square, Piece>

  /** `target` is the square a pawn skipped with the last move, `victim` where
      that pawn stands now. */
  datatype Position = Position(squares: Board, target: Option<Square>, victim: Square, turn: Team)

  datatype Refusal =
    | OffBoard | InvalidBoardState | NoPiece | NotYours
    | WouldCaptureOwnPiece | BadDirection | PathBlocked | WouldSelfCheck
    | CantCastleOutOfCheck | CantCastleThroughCheck | CantCastleAfterMoving

  datatype MoveKind = ToEmptySquare | Captured | CapturedEnPassant

  /** A move worked out but not yet made. */
  datatype Plan = Plan(from: Square, to: Square, captured: Option<Square>,
                       rookFrom: Option<Square>, rookTo: Option<Square>)

  datatype Planned =
    | Refuse(reason: Refusal)
    | Accept(kind: MoveKind, promotes: bool, plan: Plan)

  function StepPlan(from: Square, to: Square): Plan {
    Plan(from, to, None, None, None)
  }

  // ---- Geometry ------------------------------------------------------------

  function Abs(n: int): nat {
    if n < 0 then -n else n
  }

  /** `a` moved `k` towards the side `d` points to. */
  function Toward(a: int, d: int, k: int): int {
    if d > 0 then a + k else if d < 0 then a - k else a
  }

  /** The square `k` steps from `from` on the way to `to`. */
  function Ray(from: Square, to: Square, k: int): Square {
    Square(Toward(from.x, to.x - from.x, k), Toward(from.y, to.y - from.y, k))
  }

  predicate OnLine(from: Square, to: Square) {
    to.x == from.x || to.y == from.y || Abs(to.x - from.x) == Abs(to.y - from.y)
  }

  function Distance(from: Square, to: Square): nat {
    var ax, ay := Abs(to.x - from.x), Abs(to.y - from.y);
    if ax < ay then ay else ax
  }

  /** Every square strictly between the two is empty when they share a rank,
      file or diagonal; a knight's jump has no path. */
  predicate PathClear(b: Board, from: Square, to: Square) {
    OnLine(from, to) ==> forall k | 1 <= k < Distance(from, to) :: Ray(from, to, k) !in b
  }

  /** The attacker's own square, then each square of its line short of the
      king; a knight's check is just the knight's square. */
  function SquaresUpToKing(from: Square, king: Square): (r: seq<Square>)
  {
    var count := if OnLine(from, king) then Distance(from, king) else 1;
    seq(count, k => Ray(from, king, k))
  }

  // ---- What a piece can do ---------------------------------------------------

  function Forward(piece: Piece, from: Square, to: Square): int {
    if piece.team == White then to.y - from.y else from.y - to.y
  }

  predicate CanGoTo(piece: Piece, dx: int, forward: int) {
    var ax, af := Abs(dx), Abs(forward);
    match piece.kind
    case Pawn => dx == 0 && (forward == 1 || (forward == 2 && !piece.moved))
    case Rook => (dx != 0) != (forward != 0)
    case Knight => (ax == 1 && af == 2) || (ax == 2 && af == 1)
    case Bishop => ax == af
    case Queen => dx == 0 || forward == 0 || ax == af
    case King => ax < 2 && af < 2
  }

  predicate CanAttack(piece: Piece, dx: int, forward: int) {
    if piece.kind == Pawn then Abs(dx) == 1 && forward == 1 else CanGoTo(piece, dx, forward)
  }

  predicate LastRank(y: int) {
    y == 0 || y == SIZE - 1
  }

  predicate TakesEnPassant(p: Position, from: Square, to: Square, piece: Piece) {
    && piece.kind == Pawn
    && p.target == Some(to)
    && CanAttack(piece, to.x - from.x, Forward(piece, from, to))
    && p.victim in p.squares
    && p.squares[p.victim].kind == Pawn
  }

  /** Whether `piece` can reach `to` by its own movement, whatever that does to
      its king. */
  function PlanReach(p: Position, from: Square, to: Square, piece: Piece, allowEnPassant: bool): Planned {
    if !to.OnBoard() then Refuse(OffBoard) else
    var dx, forward := to.x - from.x, Forward(piece, from, to);
    var promotes := piece.kind == Pawn && LastRank(to.y);
    if allowEnPassant && TakesEnPassant(p, from, to, piece) then
      if PathClear(p.squares, from, to)
      then Accept(CapturedEnPassant, promotes, StepPlan(from, to).(captured := Some(p.victim)))
      else Refuse(PathBlocked)
    else if to in p.squares then
      if p.squares[to].team == piece.team then Refuse(WouldCaptureOwnPiece)
      else if !CanAttack(piece, dx, forward) then Refuse(BadDirection)
      else if !PathClear(p.squares, from, to) then Refuse(PathBlocked)
      else Accept(Captured, promotes, StepPlan(from, to).(captured := Some(to)))
    else if !CanGoTo(piece, dx, forward) then Refuse(BadDirection)
    else if !PathClear(p.squares, from, to) then Refuse(PathBlocked)
    else Accept(ToEmptySquare, promotes, StepPlan(from, to))
  }

  /** The piece on `from` reaches `to` without an en passant chance. */
  predicate Reaches(p: Position, from: Square, to: Square) {
    from in p.squares && PlanReach(p, from, to, p.squares[from], false).Accept?
  }

  predicate IsAttacked(p: Position, square: Square, enemy: Team) {
    exists from | from in p.squares :: p.squares[from].team == enemy && Reaches(p, from, square)
  }

  // ---- Square order ----------------------------------------------------------

  /** The squares are kept rank by rank, file by file. */
  function SquareAt(i: nat): Square {
    Square(i % SIZE, i / SIZE)
  }

  function Index(s: Square): int {
    s.y * SIZE + s.x
  }

  predicate IsKing(b: Board, s: Square, team: Team) {
    s in b && b[s].kind == King && b[s].team == team
  }

  function KingFrom(b: Board, team: Team, i: nat): (r: Option<Square>)
    requires i <= 64
    decreases 64 - i
  {
    if i == 64 then None
    else if IsKing(b, SquareAt(i), team) then Some(SquareAt(i))
    else KingFrom(b, team, i + 1)
  }

  /** The team's king, the first in square order. */
  function KingOf(b: Board, team: Team): Option<Square> {
    KingFrom(b, team, 0)
  }

  predicate InCheck(p: Position, team: Team) {
    match KingOf(p.squares, team)
    case Some(king) => IsAttacked(p, king, team.Opponent())
    case None => false
  }

  // ---- Making a planned move -------------------------------------------------

  function Lifted(b: Board, s: Option<Square>): Board {
    if s.Some? then b - {s.value} else b
  }

  function Arrived(piece: Piece, to: Square): Piece {
    Piece(if piece.kind == Pawn && LastRank(to.y) then Queen else piece.kind, piece.team, true)
  }

  /** The rook's half of castling, once the king has moved. */
  function WithRook(b: Board, plan: Plan): Board {
    if plan.rookFrom.Some? && plan.rookTo.Some? && plan.rookFrom.value in b then
      (b - {plan.rookFrom.value})[plan.rookTo.value := b[plan.rookFrom.value].(moved := true)]
    else b
  }

  function ApplySquares(b: Board, plan: Plan): Board
    requires plan.from in b
  {
    WithRook((Lifted(b, plan.captured) - {plan.from})[plan.to := Arrived(b[plan.from], plan.to)], plan)
  }

  function Apply(p: Position, plan: Plan): Position {
    if plan.from !in p.squares then p else
    var piece := p.squares[plan.from];
    var after := ApplySquares(p.squares, plan);
    if piece.kind == Pawn && Abs(plan.to.y - plan.from.y) == 2 then
      Position(after, Some(Square(plan.from.x, (plan.from.y + plan.to.y) / 2)), plan.to, p.turn)
    else
      Position(after, None, p.victim, p.turn)
  }

  predicate LeavesKingSafe(p: Position, plan: Plan, team: Team) {
    !InCheck(Apply(p, plan), team)
  }

  // ---- Castling ---------------------------------------------------------------

  /** `s` lies `n` squares further along its rank than where it was. */
  function AlongRank(s: Square, step: int, n: nat): Square {
    Square(if step > 0 then s.x + n else s.x - n, s.y)
  }

  /** The first occupied square from `s` on along its rank. */
  function FirstAlong(b: Board, s: Square, step: int): (r: Option<Square>)
    requires step == 1 || step == -1
    ensures r.Some? ==> r.value in b && r.value.OnBoard()
    decreases if step == 1 then SIZE - s.x else s.x + 1
  {
    if !s.OnBoard() then None
    else if s in b then Some(s)
    else FirstAlong(b, Square(s.x + step, s.y), step)
  }

  /** Castling with the piece met on `square`, the king passing `passing`. */
  function CastleWith(p: Position, from: Square, to: Square, team: Team, passing: Square, square: Square): Planned
    requires square in p.squares
  {
    var other := p.squares[square];
    if other.kind != Rook || other.team != team then Refuse(PathBlocked)
    else if other.moved then Refuse(CantCastleAfterMoving)
    else if !LeavesKingSafe(p, StepPlan(from, passing), team) then Refuse(CantCastleThroughCheck)
    else if !LeavesKingSafe(p, StepPlan(from, to), team) then Refuse(WouldSelfCheck)
    else Accept(ToEmptySquare, false, Plan(from, to, None, Some(square), Some(passing)))
  }

  function PlanCastle(p: Position, from: Square, to: Square, king: Piece): Planned {
    if InCheck(p, king.team) then Refuse(CantCastleOutOfCheck)
    else if king.moved then Refuse(CantCastleAfterMoving)
    else
      var step := if to.x < from.x then -1 else 1;
      var passing := Square(from.x + step, from.y);
      match FirstAlong(p.squares, passing, step)
      case None => Refuse(NoPiece)
      case Some(square) => CastleWith(p, from, to, king.team, passing, square)
  }

  // ---- One move -----------------------------------------------------------------

  predicate IsCastlingAttempt(piece: Piece, from: Square, to: Square) {
    piece.kind == King && Abs(to.x - from.x) == 2 && to.y == from.y
  }

  predicate HasBothKings(b: Board) {
    KingOf(b, White).Some? && KingOf(b, Black).Some?
  }

  function PlanMove(p: Position, from: Square, to: Square): Planned {
    if !from.OnBoard() || !to.OnBoard() then Refuse(OffBoard)
    else if !HasBothKings(p.squares) then Refuse(InvalidBoardState)
    else if from !in p.squares then Refuse(NoPiece)
    else
      var piece := p.squares[from];
      if piece.team != p.turn then Refuse(NotYours)
      else if IsCastlingAttempt(piece, from, to) then PlanCastle(p, from, to, piece)
      else
        var planned := PlanReach(p, from, to, piece, true);
        if planned.Accept? && !LeavesKingSafe(p, planned.plan, piece.team) then Refuse(WouldSelfCheck)
        else planned
  }

  /** The position after an accepted plan: made, and the turn passed. */
  function Made(p: Position, plan: Plan): Position {
    Apply(p, plan).(turn := p.turn.Opponent())
  }

  // ---- Checkmate ------------------------------------------------------------------

  /** A piece of `team` standing on `from` has an answer landing on `to`. */
  predicate Answers(p: Position, from: Square, to: Square, team: Team) {
    && from in p.squares
    && p.squares[from].team == team
    && var planned := PlanReach(p, from, to, p.squares[from], true);
       planned.Accept? && LeavesKingSafe(p, planned.plan, team)
  }

  const KING_STEPS: seq<(int, int)> :=
    [(1, 0), (1, 1), (0, 1), (-1, 1), (-1, 0), (-1, -1), (0, -1), (1, -1)]

  function Beside(king: Square, i: nat): Square
    requires i < 8
  {
    Square(king.x + KING_STEPS[i].0, king.y + KING_STEPS[i].1)
  }

  predicate KingSteps(p: Position, king: Square, team: Team) {
    exists i: nat | i < 8 :: Answers(p, king, Beside(king, i), team)
  }

  predicate IsAttackerOf(p: Position, from: Square, king: Square, team: Team) {
    from in p.squares && p.squares[from].team != team && Reaches(p, from, king)
  }

  function AttackerFrom(p: Position, king: Square, team: Team, i: nat): (r: Option<Square>)
    requires i <= 64
    decreases 64 - i
  {
    if i == 64 then None
    else if IsAttackerOf(p, SquareAt(i), king, team) then Some(SquareAt(i))
    else AttackerFrom(p, king, team, i + 1)
  }

  /** The first piece, in square order, that gives check. */
  function FirstAttacker(p: Position, king: Square, team: Team): Option<Square> {
    AttackerFrom(p, king, team, 0)
  }

  /** Some piece of `team` has an answer landing on `to`. */
  predicate AnswersOn(p: Position, to: Square, team: Team) {
    exists from | from in p.squares :: Answers(p, from, to, team)
  }

  predicate SomeAnswered(p: Position, line: seq<Square>, team: Team) {
    exists k | 0 <= k < |line| :: AnswersOn(p, line[k], team)
  }

  predicate SomeoneAnswers(p: Position, attacker: Square, king: Square, team: Team) {
    SomeAnswered(p, SquaresUpToKing(attacker, king), team)
  }

  /** The shortcut: the king steps aside, or some piece lands on the first
      checking piece or between it and the king; castling is never tried. */
  predicate IsCheckmated(p: Position, team: Team) {
    match KingOf(p.squares, team)
    case None => false
    case Some(king) =>
      if KingSteps(p, king, team) then false else
      match FirstAttacker(p, king, team)
      case None => false
      case Some(attacker) => !SomeoneAnswers(p, attacker, king, team)
  }
}
