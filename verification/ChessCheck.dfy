/** What "the king", "in check" and "the first attacker" mean once the square
    order is taken away. */
module ChessCheck {
  import opened Wrappers
  import opened ChessRules

  /** Pieces stand on the board only. */
  predicate OnBoardOnly(b: Board) {
    forall s | s in b :: s.OnBoard()
  }

  /** `king` is where the one king of `team` stands. */
  predicate OnlyKing(b: Board, king: Square, team: Team) {
    IsKing(b, king, team) && forall s | s in b && IsKing(b, s, team) :: s == king
  }

  lemma {:induction false} KingFromFinds(b: Board, team: Team, i: nat)
    requires i <= 64
    ensures KingFrom(b, team, i).Some? ==> IsKing(b, KingFrom(b, team, i).value, team)
    ensures KingFrom(b, team, i).None? ==> forall j: nat | i <= j < 64 :: !IsKing(b, SquareAt(j), team)
    decreases 64 - i
  {
    if i < 64 && !IsKing(b, SquareAt(i), team) {
      KingFromFinds(b, team, i + 1);
    }
  }

  lemma SquareAtIndex(s: Square)
    requires s.OnBoard()
    ensures 0 <= Index(s) < 64 && SquareAt(Index(s)) == s
  {
  }

  /** The search in square order finds a king exactly when there is one. */
  lemma KingOfFinds(b: Board, team: Team)
    requires OnBoardOnly(b)
    ensures KingOf(b, team).Some? ==> IsKing(b, KingOf(b, team).value, team)
    ensures KingOf(b, team).None? ==> forall s | s in b :: !IsKing(b, s, team)
  {
    KingFromFinds(b, team, 0);
    if KingOf(b, team).None? {
      forall s | s in b ensures !IsKing(b, s, team) {
        SquareAtIndex(s);
      }
    }
  }

  /** With one king the order plays no part: the search finds that king. */
  lemma KingOfOnly(b: Board, king: Square, team: Team)
    requires OnBoardOnly(b) && OnlyKing(b, king, team)
    ensures KingOf(b, team) == Some(king)
  {
    KingOfFinds(b, team);
  }

  lemma {:induction false} AttackerFromFinds(p: Position, king: Square, team: Team, i: nat)
    requires i <= 64
    ensures AttackerFrom(p, king, team, i).Some? ==>
      IsAttackerOf(p, AttackerFrom(p, king, team, i).value, king, team)
    ensures AttackerFrom(p, king, team, i).None? ==>
      forall j: nat | i <= j < 64 :: !IsAttackerOf(p, SquareAt(j), king, team)
    decreases 64 - i
  {
    if i < 64 && !IsAttackerOf(p, SquareAt(i), king, team) {
      AttackerFromFinds(p, king, team, i + 1);
    }
  }

  /** The king is in check exactly when there is a first attacker to answer. */
  lemma InCheckHasFirstAttacker(p: Position, king: Square, team: Team)
    requires OnBoardOnly(p.squares) && KingOf(p.squares, team) == Some(king)
    ensures FirstAttacker(p, king, team).Some? <==> InCheck(p, team)
    ensures FirstAttacker(p, king, team).Some? ==>
      IsAttackerOf(p, FirstAttacker(p, king, team).value, king, team)
  {
    AttackerFromFinds(p, king, team, 0);
    if FirstAttacker(p, king, team).None? {
      forall from | from in p.squares
        ensures !(p.squares[from].team == team.Opponent() && Reaches(p, from, king))
      {
        SquareAtIndex(from);
        assert !IsAttackerOf(p, SquareAt(Index(from)), king, team);
      }
    }
  }

  /** Who reaches whom is a matter of the squares alone. */
  lemma ReachIgnoresTheRest(p: Position, q: Position, from: Square, to: Square)
    requires p.squares == q.squares
    ensures Reaches(p, from, to) == Reaches(q, from, to)
  {
  }

  lemma InCheckIgnoresTheRest(p: Position, q: Position, team: Team)
    requires p.squares == q.squares
    ensures InCheck(p, team) == InCheck(q, team)
  {
    forall from, to ensures Reaches(p, from, to) == Reaches(q, from, to) {
      ReachIgnoresTheRest(p, q, from, to);
    }
  }

  /** What a reached square's plan makes of each square. */
  lemma ReachKeepsOthers(p: Position, from: Square, to: Square, planned: Planned, s: Square)
    requires from in p.squares && planned == PlanReach(p, from, to, p.squares[from], true) && planned.Accept?
    ensures
      var after := Apply(p, planned.plan).squares;
      if s == to then s in after && after[s] == Arrived(p.squares[from], to)
      else if s == from || planned.plan.captured == Some(s) then s !in after
      else (s in after <==> s in p.squares) && (s in after ==> after[s] == p.squares[s])
    ensures planned.plan.captured.Some? ==>
      var c := planned.plan.captured.value;
      if planned.kind == CapturedEnPassant then c in p.squares && p.squares[c].kind == Pawn
      else c == to && c in p.squares && p.squares[c].team != p.squares[from].team
    ensures to.OnBoard()
  {
  }

  /** The scan along a rank stops at the nearest piece, or runs off the board
      having met none. */
  lemma {:induction false} FirstAlongNearest(b: Board, s: Square, step: int) returns (n: nat)
    requires step == 1 || step == -1
    ensures FirstAlong(b, s, step).Some? ==> FirstAlong(b, s, step).value == AlongRank(s, step, n)
    ensures FirstAlong(b, s, step).None? ==> !AlongRank(s, step, n).OnBoard()
    ensures forall m: nat | m < n :: AlongRank(s, step, m).OnBoard() && AlongRank(s, step, m) !in b
    decreases if step == 1 then SIZE - s.x else s.x + 1
  {
    if !s.OnBoard() || s in b {
      n := 0;
    } else {
      var next := Square(s.x + step, s.y);
      var n' := FirstAlongNearest(b, next, step);
      n := n' + 1;
      forall m: nat | m < n
        ensures AlongRank(s, step, m).OnBoard() && AlongRank(s, step, m) !in b
      {
        assert m > 0 ==> AlongRank(s, step, m) == AlongRank(next, step, m - 1);
      }
    }
  }
}
