/** The rules of a move in plain geometry, and that these are what the board plays by:
    what each piece reaches, which moves are accepted, what stands where afterwards. */
module ChessMoves {
  import opened Wrappers
  import opened ChessRules

  // ---- What a piece reaches --------------------------------------------------

  function Along(s: Square, dx: int, dy: int, n: int): Square {
    Square(s.x + n * dx, s.y + n * dy)
  }

  predicate Straight(dx: int, dy: int) {
    (dx, dy) in {(1, 0), (-1, 0), (0, 1), (0, -1)}
  }

  predicate Diagonal(dx: int, dy: int) {
    (dx, dy) in {(1, 1), (1, -1), (-1, 1), (-1, -1)}
  }

  /** `n` steps of (`dx`, `dy`) lead from one square to the other over empty ones. */
  predicate Slides(b: Board, from: Square, to: Square, dx: int, dy: int, n: nat) {
    n > 0 && to == Along(from, dx, dy, n) && forall k | 0 < k < n :: Along(from, dx, dy, k) !in b
  }

  ghost predicate SlidesStraight(b: Board, from: Square, to: Square) {
    exists dx, dy, n :: Straight(dx, dy) && Slides(b, from, to, dx, dy, n)
  }

  ghost predicate SlidesDiagonally(b: Board, from: Square, to: Square) {
    exists dx, dy, n :: Diagonal(dx, dy) && Slides(b, from, to, dx, dy, n)
  }

  function Ahead(team: Team): int {
    if team == White then 1 else -1
  }

  predicate PawnSteps(b: Board, from: Square, to: Square, pawn: Piece) {
    var up := Ahead(pawn.team);
    || (to == Square(from.x, from.y + up) && to !in b)
    || (to == Square(from.x, from.y + 2 * up) && !pawn.moved && Square(from.x, from.y + up) !in b && to !in b)
  }

  predicate PawnTakes(from: Square, to: Square, team: Team) {
    to == Square(from.x - 1, from.y + Ahead(team)) || to == Square(from.x + 1, from.y + Ahead(team))
  }

  /** What the piece on `from` reaches, were the piece on `to` not its own. */
  ghost predicate Steps(b: Board, from: Square, to: Square)
    requires from in b
  {
    match b[from].kind
    case Rook => SlidesStraight(b, from, to)
    case Bishop => SlidesDiagonally(b, from, to)
    case Queen => SlidesStraight(b, from, to) || SlidesDiagonally(b, from, to)
    case King => to != from && -1 <= to.x - from.x <= 1 && -1 <= to.y - from.y <= 1
    case Knight => (to.x - from.x) * (to.x - from.x) + (to.y - from.y) * (to.y - from.y) == 5
    case Pawn => if to in b then PawnTakes(from, to, b[from].team) else PawnSteps(b, from, to, b[from])
  }

  /** Its own kind of step, to a square of the board none of its own stands on. */
  ghost predicate Goes(b: Board, from: Square, to: Square) {
    from in b && to.OnBoard() && (to in b ==> b[to].team != b[from].team) && Steps(b, from, to)
  }

  // ---- The ray between two squares -------------------------------------------

  lemma AlongIsRay(from: Square, to: Square, dx: int, dy: int, n: nat)
    requires n > 0 && (Straight(dx, dy) || Diagonal(dx, dy)) && to == Along(from, dx, dy, n)
    ensures OnLine(from, to) && Distance(from, to) == n && to != from
    ensures forall k | 0 < k < n :: Ray(from, to, k) == Along(from, dx, dy, k)
    ensures Straight(dx, dy) <==> (to.x != from.x) != (to.y != from.y)
    ensures Diagonal(dx, dy) <==> Abs(to.x - from.x) == Abs(to.y - from.y)
  {
  }

  lemma RayIsAlong(b: Board, from: Square, to: Square) returns (dx: int, dy: int, n: nat)
    requires OnLine(from, to) && to != from && PathClear(b, from, to)
    ensures (Straight(dx, dy) || Diagonal(dx, dy)) && Slides(b, from, to, dx, dy, n)
  {
    dx := if to.x > from.x then 1 else if to.x < from.x then -1 else 0;
    dy := if to.y > from.y then 1 else if to.y < from.y then -1 else 0;
    n := Distance(from, to);
    assert to == Along(from, dx, dy, n);
    forall k | 0 < k < n ensures Along(from, dx, dy, k) !in b {
      assert Ray(from, to, k) !in b;
      assert Ray(from, to, k) == Along(from, dx, dy, k);
    }
  }

  lemma SlidingIsClear(b: Board, from: Square, to: Square, dx: int, dy: int, n: nat)
    requires (Straight(dx, dy) || Diagonal(dx, dy)) && Slides(b, from, to, dx, dy, n)
    ensures OnLine(from, to) && PathClear(b, from, to) && to != from
  {
    AlongIsRay(from, to, dx, dy, n);
  }

  lemma StraightIff(b: Board, from: Square, to: Square)
    ensures SlidesStraight(b, from, to) <==> (to.x != from.x) != (to.y != from.y) && PathClear(b, from, to)
  {
    if (to.x != from.x) != (to.y != from.y) && PathClear(b, from, to) {
      var dx, dy, n := RayIsAlong(b, from, to);
      AlongIsRay(from, to, dx, dy, n);
    }
    if SlidesStraight(b, from, to) {
      var dx, dy, n :| Straight(dx, dy) && Slides(b, from, to, dx, dy, n);
      SlidingIsClear(b, from, to, dx, dy, n);
      AlongIsRay(from, to, dx, dy, n);
    }
  }

  lemma DiagonalIff(b: Board, from: Square, to: Square)
    ensures SlidesDiagonally(b, from, to) <==>
      to != from && Abs(to.x - from.x) == Abs(to.y - from.y) && PathClear(b, from, to)
  {
    if to != from && Abs(to.x - from.x) == Abs(to.y - from.y) && PathClear(b, from, to) {
      var dx, dy, n := RayIsAlong(b, from, to);
      AlongIsRay(from, to, dx, dy, n);
    }
    if SlidesDiagonally(b, from, to) {
      var dx, dy, n :| Diagonal(dx, dy) && Slides(b, from, to, dx, dy, n);
      SlidingIsClear(b, from, to, dx, dy, n);
      AlongIsRay(from, to, dx, dy, n);
    }
  }

  lemma KnightIff(dx: int, dy: int)
    ensures dx * dx + dy * dy == 5 <==> (Abs(dx) == 1 && Abs(dy) == 2) || (Abs(dx) == 2 && Abs(dy) == 1)
  {
    if Abs(dx) > 2 {
      assert dx * dx > 5 by {
        assert Abs(dx) * Abs(dx) == dx * dx;
      }
    } else if Abs(dy) > 2 {
      assert dy * dy > 5 by {
        assert Abs(dy) * Abs(dy) == dy * dy;
      }
    }
  }

  lemma NearIsClear(b: Board, from: Square, to: Square)
    requires Distance(from, to) <= 1
    ensures PathClear(b, from, to)
  {
  }

  lemma KnightIsClear(b: Board, from: Square, to: Square)
    requires (Abs(to.x - from.x) == 1 && Abs(to.y - from.y) == 2) || (Abs(to.x - from.x) == 2 && Abs(to.y - from.y) == 1)
    ensures PathClear(b, from, to)
  {
  }

  lemma TwoAheadIsClear(b: Board, from: Square, to: Square, team: Team)
    requires to == Square(from.x, from.y + 2 * Ahead(team))
    ensures PathClear(b, from, to) <==> Square(from.x, from.y + Ahead(team)) !in b
  {
    assert Ray(from, to, 1) == Square(from.x, from.y + Ahead(team));
    assert Distance(from, to) == 2;
  }

  /** What a piece other than a pawn steps to is what the rules let it go to or attack. */
  lemma PieceStepsIff(b: Board, from: Square, to: Square)
    requires from in b && b[from].kind != Pawn && to != from
    ensures Steps(b, from, to) <==>
      CanGoTo(b[from], to.x - from.x, Forward(b[from], from, to)) && PathClear(b, from, to)
  {
    match b[from].kind
    case Rook =>
      StraightIff(b, from, to);
    case Bishop =>
      DiagonalIff(b, from, to);
    case Queen =>
      StraightIff(b, from, to);
      DiagonalIff(b, from, to);
    case King =>
      if Distance(from, to) <= 1 {
        NearIsClear(b, from, to);
      }
    case Knight =>
      KnightIff(to.x - from.x, to.y - from.y);
      if Steps(b, from, to) {
        KnightIsClear(b, from, to);
      }
  }

  lemma PawnStepsIff(b: Board, from: Square, to: Square)
    requires from in b && b[from].kind == Pawn && to !in b
    ensures PawnSteps(b, from, to, b[from]) <==>
      CanGoTo(b[from], to.x - from.x, Forward(b[from], from, to)) && PathClear(b, from, to)
  {
    var up := Ahead(b[from].team);
    if to == Square(from.x, from.y + up) {
      NearIsClear(b, from, to);
    }
    if to == Square(from.x, from.y + 2 * up) {
      TwoAheadIsClear(b, from, to, b[from].team);
    }
  }

  lemma PawnTakesIff(b: Board, from: Square, to: Square, pawn: Piece)
    requires pawn.kind == Pawn
    ensures PawnTakes(from, to, pawn.team) <==> CanAttack(pawn, to.x - from.x, Forward(pawn, from, to))
    ensures PawnTakes(from, to, pawn.team) ==> PathClear(b, from, to)
  {
    if PawnTakes(from, to, pawn.team) {
      NearIsClear(b, from, to);
    }
  }

  /** The planning of a move without an en passant chance accepts exactly the steps of
      the piece's kind, to squares none of its own stands on, over empty ones. */
  lemma ReachesIffGoes(p: Position, from: Square, to: Square)
    ensures Reaches(p, from, to) <==> Goes(p.squares, from, to)
  {
    if from in p.squares && to.OnBoard() && to != from {
      if p.squares[from].kind != Pawn {
        PieceStepsIff(p.squares, from, to);
      } else if to in p.squares {
        PawnTakesIff(p.squares, from, to, p.squares[from]);
      } else {
        PawnStepsIff(p.squares, from, to);
      }
    }
  }

  /** A square is attacked exactly when an enemy piece goes there. */
  lemma AttackedIffGoes(p: Position, square: Square, enemy: Team)
    ensures IsAttacked(p, square, enemy) <==>
      exists from :: from in p.squares && p.squares[from].team == enemy && Goes(p.squares, from, square)
  {
    if IsAttacked(p, square, enemy) {
      var from :| from in p.squares && p.squares[from].team == enemy && Reaches(p, from, square);
      ReachesIffGoes(p, from, square);
    }
    if from :| from in p.squares && p.squares[from].team == enemy && Goes(p.squares, from, square) {
      ReachesIffGoes(p, from, square);
    }
  }
}
