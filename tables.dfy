/**
 * Small fixed tables of the GUI: the piece chosen in the promotion dialog,
 * the Unicode glyph drawn for a piece, and how the end of a game is
 * classified for the closing announcement.
 */
module GuiTables {
  import opened Options
  import MoveSelection

  // ---------------------------------------------------------------------------
  // Promotion dialog

  /** The dialog's buttons, in order: queen, rook, bishop, knight. */
  const PromotionLabels: seq<string> := ["Rainha", "Torre", "Bispo", "Cavalo"]

  /** The piece a button's label names. */
  function LabelPiece(name: string): char
  {
    match name
    case "Rainha" => 'Q'
    case "Torre" => 'R'
    case "Bispo" => 'B'
    case "Cavalo" => 'N'
    case _ => 'Q'
  }

  predicate PromotionSymbol(c: char)
  {
    c == 'Q' || c == 'R' || c == 'B' || c == 'N'
  }

  /**
   * The piece for the dialog's answer: the index of the button pressed, or
   * any other value (a closed dialog) for the default, a queen.
   */
  function PromotionPiece(choice: int): (c: char)
    ensures PromotionSymbol(c)
    ensures !(1 <= choice <= 3) ==> c == 'Q'
    ensures 0 <= choice < |PromotionLabels| ==> c == LabelPiece(PromotionLabels[choice])
  {
    match choice
    case 1 => 'R'
    case 2 => 'B'
    case 3 => 'N'
    case _ => 'Q'
  }

  /** The button that yields a promotion symbol. */
  function PromotionOption(c: char): (choice: int)
    requires PromotionSymbol(c)
    ensures 0 <= choice < |PromotionLabels|
  {
    if c == 'Q' then 0 else if c == 'R' then 1 else if c == 'B' then 2 else 3
  }

  /** Each button gives a different piece, and every piece has its button. */
  lemma PromotionRoundTrip(c: char, choice: int)
    ensures PromotionSymbol(c) ==> PromotionPiece(PromotionOption(c)) == c
    ensures 0 <= choice < |PromotionLabels| ==> PromotionOption(PromotionPiece(choice)) == choice
  {
  }

  // ---------------------------------------------------------------------------
  // Piece glyphs

  /** Whether sym is one of the six piece symbols the board knows. */
  predicate KnownSymbol(sym: string)
  {
    sym == "K" || sym == "Q" || sym == "R" || sym == "B" || sym == "N" || sym == "P"
  }

  /**
   * The chess glyph of a piece: white king, queen, rook, bishop, knight and
   * pawn are U+2654..U+2659, the black ones U+265A..U+265F; an unknown
   * symbol has none.
   */
  function ToUnicode(sym: string, white: bool): (r: string)
    ensures r == [] <==> !KnownSymbol(sym)
    ensures |r| <= 1
    ensures r != [] ==> (if white then '\U{2654}' <= r[0] <= '\U{2659}' else '\U{265A}' <= r[0] <= '\U{265F}')
    ensures forall i :: 0 <= i < 6 && sym == ["KQRBNP"[i]] ==> r == [((if white then 0x2654 else 0x265A) + i) as char]
  {
    match sym
    case "K" => if white then "\U{2654}" else "\U{265A}"
    case "Q" => if white then "\U{2655}" else "\U{265B}"
    case "R" => if white then "\U{2656}" else "\U{265C}"
    case "B" => if white then "\U{2657}" else "\U{265D}"
    case "N" => if white then "\U{2658}" else "\U{265E}"
    case "P" => if white then "\U{2659}" else "\U{265F}"
    case _ => ""
  }

  /** Different pieces are drawn differently: the glyph determines symbol and colour. */
  lemma ToUnicodeInjective(a: string, wa: bool, b: string, wb: bool)
    requires ToUnicode(a, wa) == ToUnicode(b, wb) != []
    ensures a == b && wa == wb
  {
    var g := ToUnicode(a, wa)[0];
    assert ToUnicode(b, wb)[0] == g;
  }

  /** The pieces the board can draw are exactly the pieces the computer player gives a value to. */
  lemma GlyphIffValued(sym: string, white: bool)
    ensures ToUnicode(sym, white) != [] <==>
      MoveSelection.PieceValue(Some(MoveSelection.Piece(white, sym))) > 0
  {
  }

  // ---------------------------------------------------------------------------
  // End of game

  function StartsWith(s: string, prefix: string): (b: bool)
    ensures b <==> exists rest :: s == prefix + rest
  {
    if |prefix| <= |s| && s[..|prefix|] == prefix then
      assert s == prefix + s[|prefix|..];
      true
    else
      false
  }

  /** Whether part occurs in s: it is a prefix of some suffix of s. */
  function Contains(s: string, part: string): (b: bool)
    ensures b <==> exists i :: 0 <= i <= |s| && part <= s[i..]
  {
    if part <= s then
      assert s[0..] == s;
      true
    else if s == [] then
      false
    else
      var b := Contains(s[1..], part);
      assert forall i :: 1 <= i <= |s| ==> s[1..][i - 1..] == s[i..];
      assert b ==> exists i :: 1 <= i <= |s| && part <= s[i..];
      b
  }

  /** How a finished game ended, from the announcement's point of view. */
  datatype Ending =
    | TimeLoss(whiteLost: bool)
    | Checkmate(whiteMated: bool)
    | Stalemate

  /**
   * The announcement made after a move: nothing while the game goes on; a
   * loss on time when the last history entry starts with "Timeout" (White's
   * when the entry mentions "White"); otherwise mate of the side to move if
   * it is in check, else stalemate.
   */
  function Announcement(gameOver: bool, history: seq<string>, whiteToMove: bool, sideToMoveInCheck: bool): (r: Option<Ending>)
    ensures r.None? <==> !gameOver
    ensures r.Some? && r.value.TimeLoss? <==>
      gameOver && |history| > 0 && StartsWith(history[|history|-1], "Timeout")
    ensures r.Some? && r.value.TimeLoss? ==>
      (r.value.whiteLost <==> Contains(history[|history|-1], "White"))
    ensures r.Some? && r.value.Checkmate? ==> sideToMoveInCheck && r.value.whiteMated == whiteToMove
    ensures r == Some(Stalemate) ==> !sideToMoveInCheck
  {
    if !gameOver then None
    else if |history| > 0 && StartsWith(history[|history|-1], "Timeout") then
      Some(TimeLoss(Contains(history[|history|-1], "White")))
    else if sideToMoveInCheck then Some(Checkmate(whiteToMove))
    else Some(Stalemate)
  }

  /** The Portuguese name of a side, as the messages use it. */
  function SideName(white: bool): string
  {
    if white then "Brancas" else "Pretas"
  }

  /**
   * The message shown for an ending: its opening words say how the game
   * ended, and the word after them names the losing side.
   */
  function EndMessage(e: Ending): (m: string)
    ensures e.TimeLoss? ==> StartsWith(m, "Tempo esgotado \U{2014} " + SideName(e.whiteLost))
    ensures e.Checkmate? ==> StartsWith(m, "Xeque-mate! " + SideName(e.whiteMated))
    ensures e.Stalemate? ==> StartsWith(m, "Empate")
  {
    match e
    case TimeLoss(whiteLost) =>
      "Tempo esgotado \U{2014} " + (if whiteLost then "Brancas perdem por tempo." else "Pretas perdem por tempo.")
    case Checkmate(whiteMated) =>
      "Xeque-mate! " + (if whiteMated then "Brancas" else "Pretas") + " est\U{e3}o em mate."
    case Stalemate => "Empate por afogamento (stalemate)."
  }

  /** Different endings are announced with different messages. */
  lemma EndMessageInjective(a: Ending, b: Ending)
    requires EndMessage(a) == EndMessage(b)
    ensures a == b
  {
    var m := EndMessage(a);
    if a.TimeLoss? || b.TimeLoss? {
      assert m[0] == 'T' <==> a.TimeLoss?;
      assert m[0] == 'T' <==> b.TimeLoss?;
      assert m[17] == 'B' <==> a == TimeLoss(true);
      assert m[17] == 'B' <==> b == TimeLoss(true);
    } else if a.Checkmate? || b.Checkmate? {
      assert m[0] == 'X' <==> a.Checkmate?;
      assert m[0] == 'X' <==> b.Checkmate?;
      assert m[12] == 'B' <==> a == Checkmate(true);
      assert m[12] == 'B' <==> b == Checkmate(true);
    }
  }
}
