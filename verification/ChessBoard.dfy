/** The board the game plays on: 64 squares changed in place, every query and
    every move proved against the rules. */
module ChessPlay {
  import opened Wrappers
  import opened ChessRules
  import opened ChessCheck
  import opened ChessGame

  datatype Flag = Quiet | Check | Checkmate

  datatype MoveResult = Refused(reason: Refusal) | Moved(kind: MoveKind, promotes: bool, flag: Flag)

  /** What a move did to the side now to move. */
  function FlagOf(p: Position): Flag {
    if !InCheck(p, p.turn) then Quiet else if IsCheckmated(p, p.turn) then Checkmate else Check
  }

  /** The pieces of 64 cells, keyed by square. */
  function BoardOf(cells: seq<Option<Piece>>): Board
    requires |cells| == 64
  {
    map i | 0 <= i < 64 && cells[i].Some? :: SquareAt(i) := cells[i].value
  }

  lemma BoardOfAt(cells: seq<Option<Piece>>, s: Square)
    requires |cells| == 64 && s.OnBoard()
    ensures s in BoardOf(cells) <==> cells[Index(s)].Some?
    ensures s in BoardOf(cells) ==> BoardOf(cells)[s] == cells[Index(s)].value
  {
    SquareAtIndex(s);
  }

  lemma BoardOfIsOnBoard(cells: seq<Option<Piece>>)
    requires |cells| == 64
    ensures OnBoardOnly(BoardOf(cells))
  {
  }

  lemma BoardOfUpdate(cells: seq<Option<Piece>>, s: Square, piece: Option<Piece>)
    requires |cells| == 64 && s.OnBoard()
    ensures BoardOf(cells[Index(s) := piece])
      == if piece.Some? then BoardOf(cells)[s := piece.value] else BoardOf(cells) - {s}
  {
    var after := BoardOf(cells[Index(s) := piece]);
    forall t: Square
      ensures t in after <==> if t == s then piece.Some? else t in BoardOf(cells)
      ensures t in after ==> after[t] == if t == s then piece.value else BoardOf(cells)[t]
    {
      if t.OnBoard() {
        BoardOfAt(cells, t);
        BoardOfAt(cells[Index(s) := piece], t);
        assert t != s ==> Index(t) != Index(s);
      }
    }
  }

  predicate Attacks(p: Position, from: Square, square: Square, enemy: Team) {
    from in p.squares && p.squares[from].team == enemy && Reaches(p, from, square)
  }

  /** Going through the squares in order finds an attacker when there is one. */
  lemma NoneAttacks(p: Position, square: Square, enemy: Team)
    requires OnBoardOnly(p.squares) && forall j: nat | j < 64 :: !Attacks(p, SquareAt(j), square, enemy)
    ensures !IsAttacked(p, square, enemy)
  {
    forall from | from in p.squares ensures !Attacks(p, from, square, enemy) {
      SquareAtIndex(from);
      assert from == SquareAt(Index(from));
    }
  }

  lemma NoneAnswers(p: Position, to: Square, team: Team)
    requires OnBoardOnly(p.squares) && forall j: nat | j < 64 :: !Answers(p, SquareAt(j), to, team)
    ensures !AnswersOn(p, to, team)
  {
    forall from | from in p.squares ensures !Answers(p, from, to, team) {
      SquareAtIndex(from);
      assert from == SquareAt(Index(from));
    }
  }

  // ---- Setting up -------------------------------------------------------------------

  /** The opening's pieces on the first `n` files. */
  function HomeFiles(n: nat): Board {
    map x, y | 0 <= x < 8 && 0 <= y < 8 && x < n && HomePiece(Square(x, y)).Some? ::
      Square(x, y) := HomePiece(Square(x, y)).value
  }

  lemma OneMoreFile(n: nat)
    requires n < 8
    ensures HomeFiles(n + 1) == HomeFiles(n)
      [Square(n, 0) := Piece(BACK_RANK[n], White, false)][Square(n, 1) := Piece(Pawn, White, false)]
      [Square(n, 6) := Piece(Pawn, Black, false)][Square(n, 7) := Piece(BACK_RANK[n], Black, false)]
  {
    var b := HomeFiles(n)
      [Square(n, 0) := Piece(BACK_RANK[n], White, false)][Square(n, 1) := Piece(Pawn, White, false)]
      [Square(n, 6) := Piece(Pawn, Black, false)][Square(n, 7) := Piece(BACK_RANK[n], Black, false)];
    forall s: Square
      ensures s in HomeFiles(n + 1) <==> s in b
      ensures s in b ==> HomeFiles(n + 1)[s] == b[s]
    {
      assert s == Square(s.x, s.y);
    }
  }

  lemma AllFiles()
    ensures HomeFiles(0) == map[] && HomeFiles(8) == StandardSquares()
  {
    forall s: Square
      ensures s !in HomeFiles(0) && (s in HomeFiles(8) <==> s in StandardSquares())
      ensures s in HomeFiles(8) ==> HomeFiles(8)[s] == StandardSquares()[s]
    {
      assert s == Square(s.x, s.y);
    }
  }

  class ChessBoard {
    const squares: array<Option<Piece>>
    var enPassantTarget: Option<Square>
    var enPassantVictim: Square
    var turn: Team

    ghost predicate Valid()
      reads this
    {
      squares.Length == 64
    }

    ghost function Pieces(): Board
      requires Valid()
      reads this, squares
    {
      BoardOf(squares[..])
    }

    ghost function Now(): Position
      requires Valid()
      reads this, squares
    {
      Position(Pieces(), enPassantTarget, enPassantVictim, turn)
    }

    constructor Empty(turn: Team)
      ensures Valid() && fresh(squares)
      ensures Now() == Position(map[], None, Square(0, 0), turn)
    {
      squares := new Option<Piece>[64](_ => None);
      this.enPassantTarget := None;
      this.enPassantVictim := Square(0, 0);
      this.turn := turn;
    }

    /** The opening position, White to move. */
    constructor Standard()
      ensures Valid() && fresh(squares)
      ensures Now() == ChessGame.Standard()
    {
      squares := new Option<Piece>[64](_ => None);
      this.enPassantTarget := None;
      this.enPassantVictim := Square(0, 0);
      this.turn := White;
      new;
      AllFiles();
      assert Pieces() == map[];
      for x := 0 to 8
        invariant Valid() && Pieces() == HomeFiles(x) && fresh(squares)
        invariant enPassantTarget == None && enPassantVictim == Square(0, 0) && turn == White
      {
        OneMoreFile(x);
        Place(Square(x, 0), Some(Piece(BACK_RANK[x], White, false)));
        Place(Square(x, 1), Some(Piece(Pawn, White, false)));
        Place(Square(x, 6), Some(Piece(Pawn, Black, false)));
        Place(Square(x, 7), Some(Piece(BACK_RANK[x], Black, false)));
      }
    }

    constructor Clone(other: ChessBoard)
      requires other.Valid()
      ensures Valid() && fresh(squares)
      ensures Now() == other.Now()
    {
      squares := new Option<Piece>[64](i requires 0 <= i < 64 && other.squares.Length == 64 reads other.squares => other.squares[i]);
      this.enPassantTarget := other.enPassantTarget;
      this.enPassantVictim := other.enPassantVictim;
      this.turn := other.turn;
      new;
      assert squares[..] == other.squares[..];
    }

    /** The piece on `square` (none off the board). */
    method Get(square: Square) returns (piece: Option<Piece>)
      requires Valid()
      ensures piece == if square in Pieces() then Some(Pieces()[square]) else None
    {
      BoardOfIsOnBoard(squares[..]);
      if square.OnBoard() {
        BoardOfAt(squares[..], square);
        piece := squares[Index(square)];
      } else {
        piece := None;
      }
    }

    /** Put `piece` (or nothing) on `square`. */
    method Place(square: Square, piece: Option<Piece>)
      requires Valid() && square.OnBoard()
      modifies squares
      ensures Pieces() == if piece.Some? then old(Pieces())[square := piece.value] else old(Pieces()) - {square}
    {
      BoardOfUpdate(squares[..], square, piece);
      squares[Index(square)] := piece;
      assert squares[..] == old(squares[..])[Index(square) := piece];
    }

    method IsPiece(i: nat, kind: Kind, team: Team) returns (r: bool)
      requires Valid() && i < 64
      ensures r == (SquareAt(i) in Pieces() && Pieces()[SquareAt(i)].kind == kind && Pieces()[SquareAt(i)].team == team)
    {
      var piece := Get(SquareAt(i));
      r := piece.Some? && piece.value.kind == kind && piece.value.team == team;
    }

    method FindKing(team: Team) returns (king: Option<Square>)
      requires Valid()
      ensures king == KingOf(Pieces(), team)
    {
      for i := 0 to 64
        invariant KingOf(Pieces(), team) == KingFrom(Pieces(), team, i)
      {
        var found := IsPiece(i, King, team);
        if found {
          return Some(SquareAt(i));
        }
      }
      king := None;
    }

    method PathIsClear(from: Square, to: Square) returns (clear: bool)
      requires Valid()
      ensures clear == PathClear(Pieces(), from, to)
    {
      var dx, dy := to.x - from.x, to.y - from.y;
      if !(dx == 0 || dy == 0 || Abs(dx) == Abs(dy)) {
        return true;
      }
      var square := Square(Toward(from.x, dx, 1), Toward(from.y, dy, 1));
      ghost var k := 1;
      while square != to
        invariant square == Ray(from, to, k)
        invariant 1 <= k && (k <= Distance(from, to) || from == to)
        invariant forall j | 1 <= j < k :: Ray(from, to, j) !in Pieces()
        decreases Distance(from, to) - k
      {
        var piece := Get(square);
        if piece.Some? {
          assert k < Distance(from, to);
          return false;
        }
        square := Square(Toward(square.x, dx, 1), Toward(square.y, dy, 1));
        k := k + 1;
      }
      clear := true;
      assert k == Distance(from, to) || from == to;
    }

    method PlanReach(from: Square, to: Square, piece: Piece, allowEnPassant: bool) returns (planned: Planned)
      requires Valid()
      ensures planned == ChessRules.PlanReach(Now(), from, to, piece, allowEnPassant)
    {
      if !to.OnBoard() {
        return Refuse(OffBoard);
      }
      var dx, forward := to.x - from.x, Forward(piece, from, to);
      var plan, kind := StepPlan(from, to), ToEmptySquare;
      var target := Get(to);
      var victim := Get(enPassantVictim);
      if allowEnPassant && piece.kind == Pawn && enPassantTarget == Some(to) && CanAttack(piece, dx, forward)
         && victim.Some? && victim.value.kind == Pawn {
        plan, kind := plan.(captured := Some(enPassantVictim)), CapturedEnPassant;
      } else if target.Some? {
        if target.value.team == piece.team {
          return Refuse(WouldCaptureOwnPiece);
        }
        if !CanAttack(piece, dx, forward) {
          return Refuse(BadDirection);
        }
        plan, kind := plan.(captured := Some(to)), Captured;
      } else if !CanGoTo(piece, dx, forward) {
        return Refuse(BadDirection);
      }
      var clear := PathIsClear(from, to);
      if !clear {
        return Refuse(PathBlocked);
      }
      planned := Accept(kind, piece.kind == Pawn && LastRank(to.y), plan);
    }

    method IsAttackedFrom(from: Square, square: Square, enemy: Team) returns (attacked: bool)
      requires Valid()
      ensures attacked == Attacks(Now(), from, square, enemy)
    {
      var piece := Get(from);
      attacked := false;
      if piece.Some? && piece.value.team == enemy {
        var planned := PlanReach(from, square, piece.value, false);
        attacked := planned.Accept?;
      }
    }

    method AttackedBy(square: Square, enemy: Team) returns (attacked: bool)
      requires Valid()
      ensures attacked == IsAttacked(Now(), square, enemy)
    {
      for i := 0 to 64
        invariant forall j: nat | j < i :: !Attacks(Now(), SquareAt(j), square, enemy)
      {
        attacked := IsAttackedFrom(SquareAt(i), square, enemy);
        if attacked {
          return;
        }
      }
      attacked := false;
      BoardOfIsOnBoard(squares[..]);
      NoneAttacks(Now(), square, enemy);
    }

    method IsInCheck(team: Team) returns (check: bool)
      requires Valid()
      ensures check == InCheck(Now(), team)
    {
      var king := FindKing(team);
      match king
      case Some(square) => check := AttackedBy(square, team.Opponent());
      case None => check := false;
    }

    method MoveRook(plan: Plan)
      requires Valid()
      requires plan.rookTo.Some? ==> plan.rookTo.value.OnBoard()
      modifies squares
      ensures Pieces() == WithRook(old(Pieces()), plan)
    {
      if plan.rookFrom.Some? && plan.rookTo.Some? {
        var rook := Get(plan.rookFrom.value);
        if rook.Some? {
          BoardOfIsOnBoard(squares[..]);
          Place(plan.rookFrom.value, None);
          Place(plan.rookTo.value, Some(rook.value.(moved := true)));
        }
      }
    }

    method MovePieces(plan: Plan, piece: Piece)
      requires Valid()
      requires plan.from in Pieces() && Pieces()[plan.from] == piece
      requires plan.from.OnBoard() && plan.to.OnBoard()
      requires plan.captured.Some? ==> plan.captured.value.OnBoard()
      requires plan.rookTo.Some? ==> plan.rookTo.value.OnBoard()
      modifies squares
      ensures Pieces() == ApplySquares(old(Pieces()), plan)
    {
      if plan.captured.Some? {
        Place(plan.captured.value, None);
      }
      Place(plan.from, None);
      Place(plan.to, Some(Arrived(piece, plan.to)));
      MoveRook(plan);
    }

    method Apply(plan: Plan)
      requires Valid()
      requires plan.from.OnBoard() && plan.to.OnBoard()
      requires plan.captured.Some? ==> plan.captured.value.OnBoard()
      requires plan.rookTo.Some? ==> plan.rookTo.value.OnBoard()
      modifies this, squares
      ensures Now() == ChessRules.Apply(old(Now()), plan)
    {
      var found := Get(plan.from);
      if found.None? {
        return;
      }
      var piece := found.value;
      MovePieces(plan, piece);
      enPassantTarget := None;
      if piece.kind == Pawn && Abs(plan.to.y - plan.from.y) == 2 {
        enPassantTarget := Some(Square(plan.from.x, (plan.from.y + plan.to.y) / 2));
        enPassantVictim := plan.to;
      }
    }

    method KingStaysSafe(plan: Plan, team: Team) returns (safe: bool)
      requires Valid()
      requires plan.from.OnBoard() && plan.to.OnBoard()
      requires plan.captured.Some? ==> plan.captured.value.OnBoard()
      requires plan.rookTo.Some? ==> plan.rookTo.value.OnBoard()
      ensures safe == LeavesKingSafe(Now(), plan, team)
    {
      var after := new ChessBoard.Clone(this);
      after.Apply(plan);
      var check := after.IsInCheck(team);
      safe := !check;
    }

    method CastleWith(from: Square, to: Square, team: Team, passing: Square, square: Square, other: Piece)
      returns (planned: Planned)
      requires Valid() && from.OnBoard() && to.OnBoard() && passing.OnBoard()
      requires square in Pieces() && Pieces()[square] == other
      ensures planned == ChessRules.CastleWith(Now(), from, to, team, passing, square)
    {
      if other.kind != Rook || other.team != team {
        return Refuse(PathBlocked);
      }
      if other.moved {
        return Refuse(CantCastleAfterMoving);
      }
      var safe := KingStaysSafe(StepPlan(from, passing), team);
      if !safe {
        return Refuse(CantCastleThroughCheck);
      }
      safe := KingStaysSafe(StepPlan(from, to), team);
      if !safe {
        return Refuse(WouldSelfCheck);
      }
      planned := Accept(ToEmptySquare, false, Plan(from, to, None, Some(square), Some(passing)));
    }

    /** The nearest piece from `start` on along its rank. */
    method NextOnRank(start: Square, step: int) returns (found: Option<Square>)
      requires Valid() && (step == 1 || step == -1)
      ensures found == FirstAlong(Pieces(), start, step)
    {
      var square := start;
      while square.OnBoard()
        invariant FirstAlong(Pieces(), start, step) == FirstAlong(Pieces(), square, step)
        decreases if step == 1 then SIZE - square.x else square.x + 1
      {
        var other := Get(square);
        if other.Some? {
          return Some(square);
        }
        square := Square(square.x + step, square.y);
      }
      found := None;
    }

    method PlanCastle(from: Square, to: Square, king: Piece) returns (planned: Planned)
      requires Valid() && from.OnBoard() && to.OnBoard()
      requires Abs(to.x - from.x) == 2 && to.y == from.y
      ensures planned == ChessRules.PlanCastle(Now(), from, to, king)
    {
      var check := IsInCheck(king.team);
      if check {
        return Refuse(CantCastleOutOfCheck);
      }
      if king.moved {
        return Refuse(CantCastleAfterMoving);
      }
      var step := if to.x < from.x then -1 else 1;
      var passing := Square(from.x + step, from.y);
      var square := NextOnRank(passing, step);
      if square.None? {
        return Refuse(NoPiece);
      }
      var other := Get(square.value);
      planned := CastleWith(from, to, king.team, passing, square.value, other.value);
    }

    method PlanMove(from: Square, to: Square) returns (planned: Planned)
      requires Valid()
      ensures planned == ChessRules.PlanMove(Now(), from, to)
    {
      BoardOfIsOnBoard(squares[..]);
      if !from.OnBoard() || !to.OnBoard() {
        return Refuse(OffBoard);
      }
      var white := FindKing(White);
      var black := FindKing(Black);
      if white.None? || black.None? {
        return Refuse(InvalidBoardState);
      }
      var piece := Get(from);
      if piece.None? {
        return Refuse(NoPiece);
      }
      if piece.value.team != turn {
        return Refuse(NotYours);
      }
      if piece.value.kind == King && Abs(to.x - from.x) == 2 && to.y == from.y {
        planned := PlanCastle(from, to, piece.value);
        return;
      }
      planned := PlanReach(from, to, piece.value, true);
      if planned.Accept? {
        var safe := KingStaysSafe(planned.plan, piece.value.team);
        if !safe {
          planned := Refuse(WouldSelfCheck);
        }
      }
    }

    method HasAnswer(from: Square, to: Square, team: Team) returns (r: bool)
      requires Valid() && from.OnBoard()
      ensures r == Answers(Now(), from, to, team)
    {
      BoardOfIsOnBoard(squares[..]);
      var piece := Get(from);
      if piece.None? || piece.value.team != team {
        return false;
      }
      var planned := PlanReach(from, to, piece.value, true);
      r := false;
      if planned.Accept? {
        r := KingStaysSafe(planned.plan, team);
      }
    }

    method AnyoneAnswers(to: Square, team: Team) returns (r: bool)
      requires Valid()
      ensures r == AnswersOn(Now(), to, team)
    {
      for i := 0 to 64
        invariant forall j: nat | j < i :: !Answers(Now(), SquareAt(j), to, team)
      {
        r := HasAnswer(SquareAt(i), to, team);
        if r {
          assert SquareAt(i) in Pieces();
          return;
        }
      }
      r := false;
      BoardOfIsOnBoard(squares[..]);
      NoneAnswers(Now(), to, team);
    }

    method KingHasStep(king: Square, team: Team) returns (r: bool)
      requires Valid() && king.OnBoard()
      ensures r == KingSteps(Now(), king, team)
    {
      for n := 0 to 8
        invariant forall j: nat | j < n :: !Answers(Now(), king, Beside(king, j), team)
      {
        r := HasAnswer(king, Beside(king, n), team);
        if r {
          return;
        }
      }
      r := false;
    }

    method SquareIsAnswered(line: seq<Square>, team: Team) returns (r: bool)
      requires Valid()
      ensures r == SomeAnswered(Now(), line, team)
    {
      for k := 0 to |line|
        invariant forall j | 0 <= j < k :: !AnswersOn(Now(), line[j], team)
      {
        r := AnyoneAnswers(line[k], team);
        if r {
          return;
        }
      }
      r := false;
    }

    method AttackerIsAnswered(attacker: Square, king: Square, team: Team) returns (r: bool)
      requires Valid()
      ensures r == SomeoneAnswers(Now(), attacker, king, team)
    {
      r := SquareIsAnswered(SquaresUpToKing(attacker, king), team);
    }

    method IsCheckmated(team: Team) returns (mated: bool)
      requires Valid()
      ensures mated == ChessRules.IsCheckmated(Now(), team)
    {
      var found := FindKing(team);
      if found.None? {
        return false;
      }
      BoardOfIsOnBoard(squares[..]);
      KingOfFinds(Pieces(), team);
      var king := found.value;
      var steps := KingHasStep(king, team);
      if steps {
        return false;
      }
      for i := 0 to 64
        invariant FirstAttacker(Now(), king, team) == AttackerFrom(Now(), king, team, i)
      {
        var from := SquareAt(i);
        var piece := Get(from);
        if piece.Some? && piece.value.team != team {
          var reach := PlanReach(from, king, piece.value, false);
          if reach.Accept? {
            var answered := AttackerIsAnswered(from, king, team);
            return !answered;
          }
        }
      }
      mated := false;
    }

    /** A refused move leaves the board as it was; an accepted one is made,
        passes the turn, and says what it did to the other side. */
    method MakeMove(from: Square, to: Square) returns (result: MoveResult)
      requires Valid()
      modifies this, squares
      ensures Now() == Tried(old(Now()), from, to)
      ensures
        var planned := ChessRules.PlanMove(old(Now()), from, to);
        result == if planned.Accept? then Moved(planned.kind, planned.promotes, FlagOf(Now())) else Refused(planned.reason)
    {
      BoardOfIsOnBoard(squares[..]);
      var planned := PlanMove(from, to);
      if planned.Refuse? {
        return Refused(planned.reason);
      }
      Apply(planned.plan);
      turn := turn.Opponent();
      var flag := Quiet;
      var check := IsInCheck(turn);
      if check {
        var mated := IsCheckmated(turn);
        flag := if mated then Checkmate else Check;
      }
      result := Moved(planned.kind, planned.promotes, flag);
    }

    /** Tries one move after another. */
    method PlayAll(moves: seq<(Square, Square)>)
      requires Valid()
      modifies this, squares
      ensures Now() == Played(old(Now()), moves)
    {
      ghost var start := Now();
      assert moves[..0] == [];
      for i := 0 to |moves|
        invariant Valid() && Now() == Played(start, moves[..i])
      {
        assert moves[..i + 1] == moves[..i] + [moves[i]];
        PlayedOneMore(start, moves[..i], moves[i]);
        var result := MakeMove(moves[i].0, moves[i].1);
      }
      assert moves[..|moves|] == moves;
    }
  }

  lemma {:induction false} PlayedOneMore(p: Position, moves: seq<(Square, Square)>, move: (Square, Square))
    ensures Played(p, moves + [move]) == Tried(Played(p, moves), move.0, move.1)
    decreases |moves|
  {
    var all := moves + [move];
    if moves == [] {
      assert all == [move] && all[1..] == [];
    } else {
      assert all[1..] == moves[1..] + [move] && all[0] == moves[0];
      PlayedOneMore(Tried(p, moves[0].0, moves[0].1), moves[1..], move);
    }
  }

  /** A game played on a board: whatever moves are tried, it keeps what every game keeps. */
  method PlayGame(moves: seq<(Square, Square)>) returns (board: ChessBoard)
    ensures fresh(board) && board.Valid() && board.Now() == Played(Standard(), moves) && GameInvariant(board.Now())
  {
    board := new ChessBoard.Standard();
    board.PlayAll(moves);
    EveryGameKeepsInvariant(moves);
  }
}
