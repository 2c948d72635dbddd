/**
 * The computer opponent's greedy move choice: the score of a move, the
 * loop that keeps every best-scoring move, and the scan of the board that
 * collects the side's legal moves. The board and the rules engine's
 * legalMovesFrom are parameters: the engine is not part of this model.
 */
module MoveSelection {
  import opened Options

  datatype Position = Position(row: int, column: int)

  /** What the GUI reads of a piece: its colour and its one-letter symbol. */
  datatype Piece = Piece(isWhite: bool, symbol: string)

  datatype Move = Move(from: Position, to: Position)

  /** game.board().get */
  type Board = Position -> Option<Piece>

  /** game.legalMovesFrom */
  type LegalMoves = Position -> seq<Position>

  /** Integer.MIN_VALUE, the loop's initial best score. */
  const MinInt: int := -0x8000_0000

  /** Material value by symbol; an empty square or an unknown symbol is worth 0. */
  function PieceValue(p: Option<Piece>): (v: int)
    ensures 0 <= v <= 20000
    ensures v == 0 <==> p.None? || p.value.symbol !in {"P", "N", "B", "R", "Q", "K"}
    ensures v % 100 == 0
  {
    if p.None? then 0
    else match p.value.symbol
      case "P" => 100
      case "N" => 300
      case "B" => 300
      case "R" => 500
      case "Q" => 900
      case "K" => 20000
      case _ => 0
  }

  /** The material order: pawn, then knight and bishop alike, rook, queen, and the king above all. */
  lemma ValueOrder(white: bool)
    ensures PieceValue(Some(Piece(white, "P"))) < PieceValue(Some(Piece(white, "N")))
    ensures PieceValue(Some(Piece(white, "N"))) == PieceValue(Some(Piece(white, "B")))
    ensures PieceValue(Some(Piece(white, "B"))) < PieceValue(Some(Piece(white, "R")))
    ensures PieceValue(Some(Piece(white, "R"))) < PieceValue(Some(Piece(white, "Q")))
    ensures PieceValue(Some(Piece(white, "Q"))) < PieceValue(Some(Piece(white, "K")))
  {
  }

  predicate OnBoard(pos: Position) {
    0 <= pos.row < 8 && 0 <= pos.column < 8
  }

  /** Distance from the centre of the board in half-squares: 1, 3, 5 or 7 on the board. */
  function Ring(pos: Position): int {
    var dr := if 2 * pos.row - 7 < 0 then 7 - 2 * pos.row else 2 * pos.row - 7;
    var dc := if 2 * pos.column - 7 < 0 then 7 - 2 * pos.column else 2 * pos.column - 7;
    if dr < dc then dc else dr
  }

  /** Bonus for moving to the four central squares (10) or the ring around them (4). */
  function CenterBonus(pos: Position): (b: int)
    ensures b == 0 || b == 4 || b == 10
    ensures b == 10 <==> 3 <= pos.row <= 4 && 3 <= pos.column <= 4
    ensures b > 0 <==> 2 <= pos.row <= 5 && 2 <= pos.column <= 5
  {
    var r, c := pos.row, pos.column;
    if (r == 3 || r == 4) && (c == 3 || c == 4) then 10
    else if (r >= 2 && r <= 5) && (c >= 2 && c <= 5) then 4
    else 0
  }

  /** The bonus read as rings around the centre of the board. */
  lemma CenterBonusByRing(pos: Position)
    requires OnBoard(pos)
    ensures CenterBonus(pos) == (if Ring(pos) == 1 then 10 else if Ring(pos) == 3 then 4 else 0)
  {
  }

  /** The score of one move at the given search depth. */
  function Score(board: Board, depth: int, mv: Move): (s: int)
    ensures s - (depth - 1) * 2 == PieceValue(board(mv.to)) + CenterBonus(mv.to)
    ensures 1 <= depth <= 4 ==> 0 <= s <= 20016
  {
    PieceValue(board(mv.to)) + CenterBonus(mv.to) + (depth - 1) * 2
  }

  /** The highest score among a non-empty list of moves. */
  function MaxScore(board: Board, depth: int, moves: seq<Move>): int
    requires |moves| > 0
    decreases |moves|
  {
    var last := Score(board, depth, moves[|moves| - 1]);
    if |moves| == 1 then last
    else
      var m := MaxScore(board, depth, moves[..|moves| - 1]);
      if last > m then last else m
  }

  /** No move outscores MaxScore, and some move attains it. */
  lemma {:induction false} MaxScoreIsMax(board: Board, depth: int, moves: seq<Move>)
    requires |moves| > 0
    ensures forall k :: 0 <= k < |moves| ==> Score(board, depth, moves[k]) <= MaxScore(board, depth, moves)
    ensures exists k :: 0 <= k < |moves| && Score(board, depth, moves[k]) == MaxScore(board, depth, moves)
    decreases |moves|
  {
    var n := |moves|;
    if n > 1 {
      var init := moves[..n - 1];
      MaxScoreIsMax(board, depth, init);
      var m := MaxScore(board, depth, init);
      var last := Score(board, depth, moves[n - 1]);
      assert MaxScore(board, depth, moves) == if last > m then last else m;
      forall k | 0 <= k < n
        ensures Score(board, depth, moves[k]) <= MaxScore(board, depth, moves)
      {
        if k < n - 1 {
          assert moves[k] == init[k];
        }
      }
      if last > m {
        assert Score(board, depth, moves[n - 1]) == MaxScore(board, depth, moves);
      } else {
        var k :| 0 <= k < n - 1 && Score(board, depth, init[k]) == m;
        assert moves[k] == init[k];
        assert Score(board, depth, moves[k]) == MaxScore(board, depth, moves);
      }
    }
  }

  /** The moves that score exactly target, in input order. */
  function Filter(board: Board, depth: int, moves: seq<Move>, target: int): seq<Move>
    decreases |moves|
  {
    if |moves| == 0 then []
    else
      var last := moves[|moves| - 1];
      Filter(board, depth, moves[..|moves| - 1], target) + (if Score(board, depth, last) == target then [last] else [])
  }

  lemma {:induction false} FilterMembers(board: Board, depth: int, moves: seq<Move>, target: int)
    ensures forall mv :: mv in Filter(board, depth, moves, target) <==> mv in moves && Score(board, depth, mv) == target
    decreases |moves|
  {
    if |moves| > 0 {
      var init := moves[..|moves| - 1];
      FilterMembers(board, depth, init, target);
      assert moves == init + [moves[|moves| - 1]];
    }
  }

  /** Every move that no other move outscores, in input order. */
  function BestMoves(board: Board, depth: int, moves: seq<Move>): (r: seq<Move>)
    ensures |r| > 0 <==> |moves| > 0
    ensures forall mv :: mv in r <==> mv in moves && forall k :: 0 <= k < |moves| ==> Score(board, depth, moves[k]) <= Score(board, depth, mv)
  {
    if |moves| == 0 then []
    else
      var m := MaxScore(board, depth, moves);
      MaxScoreIsMax(board, depth, moves);
      FilterMembers(board, depth, moves, m);
      var k :| 0 <= k < |moves| && Score(board, depth, moves[k]) == m;
      assert moves[k] in Filter(board, depth, moves, m);
      Filter(board, depth, moves, m)
  }

  /**
   * The selector picks the best capture available: a best move takes at
   * least as much material as any other move, because piece values differ
   * by at least 100 and the centre bonus by at most 10.
   */
  lemma BestMovesCaptureMost(board: Board, depth: int, moves: seq<Move>, c: Move, best: Move)
    requires c in moves && best in BestMoves(board, depth, moves)
    ensures PieceValue(board(c.to)) <= PieceValue(board(best.to))
  {
    var k :| 0 <= k < |moves| && moves[k] == c;
    assert Score(board, depth, c) <= Score(board, depth, best);
  }

  lemma MaxScoreSnoc(board: Board, depth: int, moves: seq<Move>, i: nat)
    requires 0 < i < |moves|
    ensures MaxScore(board, depth, moves[..i + 1]) ==
              if Score(board, depth, moves[i]) > MaxScore(board, depth, moves[..i]) then Score(board, depth, moves[i])
              else MaxScore(board, depth, moves[..i])
  {
    assert moves[..i + 1][..i] == moves[..i];
  }

  lemma FilterSnoc(board: Board, depth: int, moves: seq<Move>, i: nat, target: int)
    requires i < |moves|
    ensures Filter(board, depth, moves[..i + 1], target) ==
              Filter(board, depth, moves[..i], target) + (if Score(board, depth, moves[i]) == target then [moves[i]] else [])
  {
    assert moves[..i + 1][..i] == moves[..i];
  }

  /** Filtering keeps input order: the kept moves of a + b are those of a, then those of b. */
  lemma {:induction false} FilterAppend(board: Board, depth: int, a: seq<Move>, b: seq<Move>, target: int)
    ensures Filter(board, depth, a + b, target) == Filter(board, depth, a, target) + Filter(board, depth, b, target)
    decreases |b|
  {
    if |b| == 0 {
      assert a + b == a;
    } else {
      var init := b[..|b| - 1];
      assert (a + b)[..|a + b| - 1] == a + init;
      assert (a + b)[|a + b| - 1] == b[|b| - 1];
      FilterAppend(board, depth, a, init, target);
    }
  }

  lemma {:induction false} FilterNone(board: Board, depth: int, moves: seq<Move>, target: int)
    requires forall k :: 0 <= k < |moves| ==> Score(board, depth, moves[k]) < target
    ensures Filter(board, depth, moves, target) == []
    decreases |moves|
  {
    if |moves| > 0 {
      var init := moves[..|moves| - 1];
      assert forall k :: 0 <= k < |init| ==> init[k] == moves[k];
      FilterNone(board, depth, init, target);
    }
  }

  lemma {:induction false} MaxScoreShift(board: Board, d1: int, d2: int, moves: seq<Move>)
    requires |moves| > 0
    ensures MaxScore(board, d2, moves) == MaxScore(board, d1, moves) + (d2 - d1) * 2
    decreases |moves|
  {
    if |moves| > 1 {
      MaxScoreShift(board, d1, d2, moves[..|moves| - 1]);
    }
  }

  lemma {:induction false} FilterShift(board: Board, d1: int, d2: int, moves: seq<Move>, target: int)
    ensures Filter(board, d2, moves, target + (d2 - d1) * 2) == Filter(board, d1, moves, target)
    decreases |moves|
  {
    if |moves| > 0 {
      FilterShift(board, d1, d2, moves[..|moves| - 1], target);
    }
  }

  /**
   * The depth only adds the same amount to every score, so it never
   * changes which moves are kept.
   */
  lemma BestMovesIgnoreDepth(board: Board, d1: int, d2: int, moves: seq<Move>)
    ensures BestMoves(board, d1, moves) == BestMoves(board, d2, moves)
  {
    if |moves| > 0 {
      MaxScoreShift(board, d1, d2, moves);
      FilterShift(board, d1, d2, moves, MaxScore(board, d1, moves));
    }
  }

  /** The max-score, tie-collecting loop of the opponent's background task. */
  method SelectBest(board: Board, depth: int, moves: seq<Move>) returns (bestScore: int, bestList: seq<Move>)
    requires 1 <= depth <= 4
    ensures |moves| == 0 ==> bestScore == MinInt
    ensures |moves| > 0 ==> bestScore == MaxScore(board, depth, moves)
    ensures bestList == BestMoves(board, depth, moves)
  {
    bestScore := MinInt;
    bestList := [];
    var i := 0;
    while i < |moves|
      invariant 0 <= i <= |moves|
      invariant i == 0 ==> bestScore == MinInt && bestList == []
      invariant i > 0 ==> bestScore == MaxScore(board, depth, moves[..i])
      invariant bestList == Filter(board, depth, moves[..i], bestScore)
    {
      var mv := moves[i];
      var score := Score(board, depth, mv);
      if i > 0 {
        MaxScoreSnoc(board, depth, moves, i);
      }
      FilterSnoc(board, depth, moves, i, score);
      FilterSnoc(board, depth, moves, i, bestScore);
      if score > bestScore {
        if i > 0 {
          MaxScoreIsMax(board, depth, moves[..i]);
          FilterNone(board, depth, moves[..i], score);
        } else {
          assert moves[..1] == [mv];
        }
        bestScore := score;
        bestList := [mv];
      } else if score == bestScore {
        bestList := bestList + [mv];
      }
      i := i + 1;
    }
    assert moves[..|moves|] == moves;
  }

  /**
   * The opponent's choice: none when there is no legal move, otherwise
   * one of the best moves. draw stands for the value of
   * Random.nextInt(bestList.size()); it is reduced modulo the size, so
   * every index of the list is a possible choice.
   */
  method ChooseMove(board: Board, depth: int, moves: seq<Move>, draw: nat) returns (chosen: Option<Move>)
    requires 1 <= depth <= 4
    ensures chosen.None? <==> |moves| == 0
    ensures chosen.Some? ==> chosen.value in BestMoves(board, depth, moves)
    ensures draw < |BestMoves(board, depth, moves)| ==> chosen == Some(BestMoves(board, depth, moves)[draw])
  {
    if |moves| == 0 {
      return None;
    }
    var _, bestList := SelectBest(board, depth, moves);
    var index := draw % |bestList|;
    if draw < |bestList| {
      SmallRemainder(draw, |bestList|);
    }
    chosen := Some(bestList[index]);
  }

  lemma SmallRemainder(a: nat, n: nat)
    requires a < n
    ensures a % n == a
  {
  }

  predicate Owns(board: Board, whiteSide: bool, pos: Position) {
    board(pos).Some? && board(pos).value.isWhite == whiteSide
  }

  function MovesTo(from: Position, tos: seq<Position>): seq<Move>
    decreases |tos|
  {
    if |tos| == 0 then [] else MovesTo(from, tos[..|tos| - 1]) + [Move(from, tos[|tos| - 1])]
  }

  lemma {:induction false} MovesToMembers(from: Position, tos: seq<Position>, mv: Move)
    ensures mv in MovesTo(from, tos) <==> mv.from == from && mv.to in tos
    decreases |tos|
  {
    if |tos| > 0 {
      var init := tos[..|tos| - 1];
      MovesToMembers(from, init, mv);
      assert tos == init + [tos[|tos| - 1]];
    }
  }

  /** The piece on the move's origin is the side's own, and the engine lists the move's destination. */
  predicate Listed(board: Board, legal: LegalMoves, whiteSide: bool, mv: Move) {
    Owns(board, whiteSide, mv.from) && mv.to in legal(mv.from)
  }

  function MovesFrom(board: Board, legal: LegalMoves, whiteSide: bool, from: Position): seq<Move> {
    if Owns(board, whiteSide, from) then MovesTo(from, legal(from)) else []
  }

  /** The moves the scan collects from the first c squares of row r. */
  function RowMoves(board: Board, legal: LegalMoves, whiteSide: bool, r: int, c: nat): seq<Move> {
    if c == 0 then [] else RowMoves(board, legal, whiteSide, r, c - 1) + MovesFrom(board, legal, whiteSide, Position(r, c - 1))
  }

  /** The moves the scan collects from the first r rows. */
  function RowsMoves(board: Board, legal: LegalMoves, whiteSide: bool, r: nat): seq<Move> {
    if r == 0 then [] else RowsMoves(board, legal, whiteSide, r - 1) + RowMoves(board, legal, whiteSide, r - 1, 8)
  }

  /** collectAllLegalMovesForSide, as a value: nothing when it is not this side's turn. */
  function AllMoves(board: Board, legal: LegalMoves, whiteSide: bool, whiteToMove: bool): seq<Move> {
    if whiteSide != whiteToMove then [] else RowsMoves(board, legal, whiteSide, 8)
  }

  lemma {:induction false} RowMovesMembers(board: Board, legal: LegalMoves, whiteSide: bool, r: int, c: nat, mv: Move)
    ensures mv in RowMoves(board, legal, whiteSide, r, c) <==>
              mv.from.row == r && 0 <= mv.from.column < c && Listed(board, legal, whiteSide, mv)
  {
    if c > 0 {
      var sq := Position(r, c - 1);
      var done := RowMoves(board, legal, whiteSide, r, c - 1);
      var here := MovesFrom(board, legal, whiteSide, sq);
      assert RowMoves(board, legal, whiteSide, r, c) == done + here;
      assert mv in done + here <==> mv in done || mv in here;
      RowMovesMembers(board, legal, whiteSide, r, c - 1, mv);
      MovesToMembers(sq, legal(sq), mv);
    }
  }

  lemma {:induction false} RowsMovesSound(board: Board, legal: LegalMoves, whiteSide: bool, r: nat, mv: Move)
    requires mv in RowsMoves(board, legal, whiteSide, r)
    ensures 0 <= mv.from.row < r && 0 <= mv.from.column < 8 && Listed(board, legal, whiteSide, mv)
  {
    var done := RowsMoves(board, legal, whiteSide, r - 1);
    var row := RowMoves(board, legal, whiteSide, r - 1, 8);
    assert RowsMoves(board, legal, whiteSide, r) == done + row;
    if mv in done {
      RowsMovesSound(board, legal, whiteSide, r - 1, mv);
    } else {
      RowMovesMembers(board, legal, whiteSide, r - 1, 8, mv);
    }
  }

  lemma {:induction false} RowsMovesComplete(board: Board, legal: LegalMoves, whiteSide: bool, r: nat, mv: Move)
    requires 0 <= mv.from.row < r && 0 <= mv.from.column < 8 && Listed(board, legal, whiteSide, mv)
    ensures mv in RowsMoves(board, legal, whiteSide, r)
  {
    var done := RowsMoves(board, legal, whiteSide, r - 1);
    var row := RowMoves(board, legal, whiteSide, r - 1, 8);
    assert RowsMoves(board, legal, whiteSide, r) == done + row;
    if mv.from.row < r - 1 {
      RowsMovesComplete(board, legal, whiteSide, r - 1, mv);
    } else {
      RowMovesMembers(board, legal, whiteSide, r - 1, 8, mv);
    }
  }

  lemma RowsMovesMembers(board: Board, legal: LegalMoves, whiteSide: bool, r: nat, mv: Move)
    ensures mv in RowsMoves(board, legal, whiteSide, r) <==>
              0 <= mv.from.row < r && 0 <= mv.from.column < 8 && Listed(board, legal, whiteSide, mv)
  {
    if mv in RowsMoves(board, legal, whiteSide, r) {
      RowsMovesSound(board, legal, whiteSide, r, mv);
    }
    if 0 <= mv.from.row < r && 0 <= mv.from.column < 8 && Listed(board, legal, whiteSide, mv) {
      RowsMovesComplete(board, legal, whiteSide, r, mv);
    }
  }

  /**
   * A move is collected exactly when it is this side's turn, it starts on
   * a square of the board holding one of the side's pieces, and the
   * engine lists its destination as legal from there.
   */
  lemma AllMovesMembers(board: Board, legal: LegalMoves, whiteSide: bool, whiteToMove: bool, mv: Move)
    ensures mv in AllMoves(board, legal, whiteSide, whiteToMove) <==>
              whiteSide == whiteToMove && OnBoard(mv.from) && Owns(board, whiteSide, mv.from) && mv.to in legal(mv.from)
  {
    RowsMovesMembers(board, legal, whiteSide, 8, mv);
  }

  lemma MovesToSnoc(from: Position, tos: seq<Position>, j: nat)
    requires j < |tos|
    ensures MovesTo(from, tos[..j + 1]) == MovesTo(from, tos[..j]) + [Move(from, tos[j])]
  {
    assert tos[..j + 1][..j] == tos[..j];
  }

  lemma AppendAssoc(a: seq<Move>, b: seq<Move>, c: seq<Move>)
    ensures (a + b) + c == a + (b + c)
  {
  }

  /** The nested row/column scan of collectAllLegalMovesForSide. */
  method CollectAllLegalMovesForSide(board: Board, legal: LegalMoves, whiteSide: bool, whiteToMove: bool) returns (moves: seq<Move>)
    ensures moves == AllMoves(board, legal, whiteSide, whiteToMove)
  {
    moves := [];
    if whiteSide != whiteToMove {
      return;
    }
    var r := 0;
    while r < 8
      invariant 0 <= r <= 8
      invariant moves == RowsMoves(board, legal, whiteSide, r)
    {
      ghost var rowStart := moves;
      var c := 0;
      while c < 8
        invariant 0 <= c <= 8
        invariant moves == rowStart + RowMoves(board, legal, whiteSide, r, c)
      {
        var from := Position(r, c);
        ghost var before := moves;
        var piece := board(from);
        if piece.Some? && piece.value.isWhite == whiteSide {
          var tos := legal(from);
          var j := 0;
          while j < |tos|
            invariant 0 <= j <= |tos|
            invariant moves == before + MovesTo(from, tos[..j])
          {
            MovesToSnoc(from, tos, j);
            AppendAssoc(before, MovesTo(from, tos[..j]), [Move(from, tos[j])]);
            moves := moves + [Move(from, tos[j])];
            j := j + 1;
          }
          assert tos[..|tos|] == tos;
        }
        ghost var here := MovesFrom(board, legal, whiteSide, from);
        assert moves == before + here;
        assert RowMoves(board, legal, whiteSide, r, c + 1) == RowMoves(board, legal, whiteSide, r, c) + here;
        AppendAssoc(rowStart, RowMoves(board, legal, whiteSide, r, c), here);
        c := c + 1;
      }
      assert RowsMoves(board, legal, whiteSide, r + 1) == rowStart + RowMoves(board, legal, whiteSide, r, 8);
      r := r + 1;
    }
  }

}
