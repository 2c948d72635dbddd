/**
 * The move-history text shown beside the board (the history loop of
 * ChessGUI.refresh): the notation strings laid out as numbered move pairs,
 * one pair per line.
 */
module MoveHistory {
  import opened Decimal

  /** The move number that opens a line: "12. ". */
  function Opening(n: nat): string {
    Digits(n) + ". "
  }

  /** A line holding White's move and Black's reply. */
  function PairLine(n: nat, white: string, black: string): string {
    Opening(n) + white + " " + black + " \n"
  }

  /** A last line holding White's move only. */
  function HalfLine(n: nat, white: string): string {
    Opening(n) + white + " "
  }

  /** What the loop appends for entry i, when move numbers start at first. */
  function NumberedChunk(i: nat, first: nat, entry: string): string {
    (if i % 2 == 0 then Opening(first + i / 2) else "") + entry + " " + (if i % 2 == 1 then "\n" else "")
  }

  /** What the loop appends for entry i: numbering starts at move 1. */
  function Chunk(i: nat, entry: string): string {
    NumberedChunk(i, 1, entry)
  }

  /** The text the loop builds, entry by entry. */
  function Layout(h: seq<string>): string
    decreases |h|
  {
    if |h| == 0 then "" else Layout(h[..|h| - 1]) + Chunk(|h| - 1, h[|h| - 1])
  }

  /**
   * The reference layout: one line per move pair, numbered from first;
   * a full pair ends in a newline, a final lone white move does not.
   */
  function Lines(h: seq<string>, first: nat): seq<string>
    decreases |h|
  {
    if |h| == 0 then []
    else if |h| == 1 then [HalfLine(first, h[0])]
    else [PairLine(first, h[0], h[1])] + Lines(h[2..], first + 1)
  }

  lemma {:induction false} LinesLength(h: seq<string>, first: nat)
    ensures |Lines(h, first)| == (|h| + 1) / 2
    decreases |h|
  {
    if |h| >= 2 {
      LinesLength(h[2..], first + 1);
    }
  }

  /** Line k of the reference layout opens with move number first + k. */
  lemma {:induction false} LineOpening(h: seq<string>, first: nat, k: nat)
    requires k < |Lines(h, first)|
    ensures Opening(first + k) <= Lines(h, first)[k]
    decreases |h|
  {
    if |h| == 1 {
      assert Lines(h, first) == [HalfLine(first, h[0])];
      OpeningStartsLines(first, h[0], "");
    } else {
      var rest := Lines(h[2..], first + 1);
      assert Lines(h, first) == [PairLine(first, h[0], h[1])] + rest;
      if k == 0 {
        OpeningStartsLines(first, h[0], h[1]);
      } else {
        LineOpening(h[2..], first + 1, k - 1);
        assert Lines(h, first)[k] == rest[k - 1];
        assert first + 1 + (k - 1) == first + k;
      }
    }
  }

  /** The reference layout has ceiling(n/2) lines, and line k opens with move number first + k. */
  lemma LinesNumbered(h: seq<string>, first: nat)
    ensures |Lines(h, first)| == (|h| + 1) / 2
    ensures forall k :: 0 <= k < |Lines(h, first)| ==> Opening(first + k) <= Lines(h, first)[k]
  {
    LinesLength(h, first);
    forall k | 0 <= k < |Lines(h, first)|
      ensures Opening(first + k) <= Lines(h, first)[k]
    {
      LineOpening(h, first, k);
    }
  }

  lemma PrefixGrows(p: string, s: string, t: string)
    requires p <= s
    ensures p <= s + t
  {
    assert (s + t)[..|p|] == s[..|p|];
  }

  lemma OpeningStartsLines(n: nat, white: string, black: string)
    ensures Opening(n) <= HalfLine(n, white)
    ensures Opening(n) <= PairLine(n, white, black)
    ensures PairLine(n, white, black)[|PairLine(n, white, black)| - 1] == '\n'
  {
    var o := Opening(n);
    PrefixGrows(o, o, white);
    PrefixGrows(o, o + white, " ");
    PrefixGrows(o, o + white + " ", black);
    PrefixGrows(o, o + white + " " + black, " \n");
  }

  /** Line k of the reference layout, for a full move pair k, ends with a newline. */
  lemma {:induction false} LineEnd(h: seq<string>, first: nat, k: nat)
    requires k < |h| / 2
    ensures k < |Lines(h, first)|
    ensures |Lines(h, first)[k]| > 0 && Lines(h, first)[k][|Lines(h, first)[k]| - 1] == '\n'
    decreases |h|
  {
    var rest := Lines(h[2..], first + 1);
    assert Lines(h, first) == [PairLine(first, h[0], h[1])] + rest;
    if k == 0 {
      OpeningStartsLines(first, h[0], h[1]);
    } else {
      LineEnd(h[2..], first + 1, k - 1);
    }
  }

  /** Each of the floor(n/2) full move pairs ends its line with a newline. */
  lemma LinesEndInNewline(h: seq<string>, first: nat)
    ensures |Lines(h, first)| == (|h| + 1) / 2
    ensures forall k :: 0 <= k < |h| / 2 ==> |Lines(h, first)[k]| > 0 && Lines(h, first)[k][|Lines(h, first)[k]| - 1] == '\n'
  {
    LinesLength(h, first);
    forall k | 0 <= k < |h| / 2
      ensures |Lines(h, first)[k]| > 0 && Lines(h, first)[k][|Lines(h, first)[k]| - 1] == '\n'
    {
      LineEnd(h, first, k);
    }
  }

  function Concat(ls: seq<string>): string {
    if ls == [] then "" else ls[0] + Concat(ls[1..])
  }

  function PairedLayout(h: seq<string>): string {
    Concat(Lines(h, 1))
  }

  /** Appending an entry appends exactly that entry's chunk to the paired layout. */
  lemma {:induction false} PairedSnoc(h: seq<string>, e: string, first: nat)
    ensures Concat(Lines(h + [e], first)) == Concat(Lines(h, first)) + NumberedChunk(|h|, first, e)
    decreases |h|
  {
    if |h| == 0 {
      PairedSnocEmpty(h, e, first);
    } else if |h| == 1 {
      PairedSnocSingle(h, e, first);
    } else {
      PairedSnoc(h[2..], e, first + 1);
      PairedSnocStep(h, e, first);
    }
  }

  lemma PairedSnocEmpty(h: seq<string>, e: string, first: nat)
    requires |h| == 0
    ensures Concat(Lines(h + [e], first)) == Concat(Lines(h, first)) + NumberedChunk(|h|, first, e)
  {
    assert h + [e] == [e];
    var line := HalfLine(first, e);
    assert Lines([e], first) == [line];
    ConcatCons(line, []);
    RightUnit(line);
    assert NumberedChunk(0, first, e) == Opening(first) + e + " " + "";
    assert line == "" + NumberedChunk(0, first, e);
  }

  lemma PairedSnocSingle(h: seq<string>, e: string, first: nat)
    requires |h| == 1
    ensures Concat(Lines(h + [e], first)) == Concat(Lines(h, first)) + NumberedChunk(|h|, first, e)
  {
    var x := h[0];
    var half := HalfLine(first, x);
    var line := PairLine(first, x, e);
    assert h + [e] == [x, e];
    assert Lines([x, e], first) == [line] by {
      assert [x, e][2..] == [];
    }
    assert Lines(h, first) == [half];
    calc {
      Concat(Lines(h + [e], first));
      == { ConcatCons(line, []); }
      line + Concat([]);
      == { RightUnit(line); }
      line;
      == { PairAlgebra(Opening(first), x, e); }
      half + NumberedChunk(1, first, e);
      == { ConcatCons(half, []); RightUnit(half); }
      Concat([half]) + NumberedChunk(1, first, e);
    }
  }

  lemma RightUnit(s: string)
    ensures s + Concat([]) == s
  {
    assert s + [] == s;
  }

  /** Completing a lone white move with Black's reply turns it into a full line. */
  lemma PairAlgebra(o: string, x: string, e: string)
    ensures o + x + " " + e + " \n" == (o + x + " ") + ("" + e + " " + "\n")
  {
    assert "" + e == e;
    assert " \n" == " " + "\n";
  }

  lemma StringAssoc(a: string, b: string, c: string)
    ensures a + (b + c) == (a + b) + c
  {
  }

  lemma PairedSnocStep(h: seq<string>, e: string, first: nat)
    requires |h| >= 2
    requires Concat(Lines(h[2..] + [e], first + 1)) == Concat(Lines(h[2..], first + 1)) + NumberedChunk(|h| - 2, first + 1, e)
    ensures Concat(Lines(h + [e], first)) == Concat(Lines(h, first)) + NumberedChunk(|h|, first, e)
  {
    var line := PairLine(first, h[0], h[1]);
    var restE := Lines(h[2..] + [e], first + 1);
    var rest := Lines(h[2..], first + 1);
    var c := NumberedChunk(|h|, first, e);
    assert Lines(h + [e], first) == [line] + restE by {
      assert (h + [e])[2..] == h[2..] + [e];
      assert (h + [e])[0] == h[0] && (h + [e])[1] == h[1];
    }
    assert Lines(h, first) == [line] + rest;
    assert Concat(restE) == Concat(rest) + c by {
      ChunkShift(|h|, first, e);
    }
    calc {
      Concat(Lines(h + [e], first));
      == { ConcatCons(line, restE); }
      line + Concat(restE);
      ==
      line + (Concat(rest) + c);
      == { StringAssoc(line, Concat(rest), c); }
      (line + Concat(rest)) + c;
      == { ConcatCons(line, rest); }
      Concat(Lines(h, first)) + c;
    }
  }

  lemma ConcatCons(line: string, rest: seq<string>)
    ensures Concat([line] + rest) == line + Concat(rest)
  {
    assert ([line] + rest)[1..] == rest;
  }

  lemma ChunkShift(i: nat, first: nat, e: string)
    requires i >= 2
    ensures NumberedChunk(i - 2, first + 1, e) == NumberedChunk(i, first, e)
  {
    assert (i - 2) % 2 == i % 2;
    assert first + 1 + (i - 2) / 2 == first + i / 2;
  }

  /** The entry-by-entry text is the paired layout. */
  lemma {:induction false} LayoutIsPaired(h: seq<string>)
    ensures Layout(h) == PairedLayout(h)
    decreases |h|
  {
    if |h| > 0 {
      var init := h[..|h| - 1];
      LayoutIsPaired(init);
      PairedSnoc(init, h[|h| - 1], 1);
      assert init + [h[|h| - 1]] == h;
    }
  }

  /** Number of occurrences of c in s. */
  function Count(c: char, s: string): (n: nat)
    ensures n == 0 <==> c !in s
  {
    if s == [] then 0 else (if s[0] == c then 1 else 0) + Count(c, s[1..])
  }

  lemma {:induction false} CountConcat(c: char, a: string, b: string)
    ensures Count(c, a + b) == Count(c, a) + Count(c, b)
  {
    if a == [] {
      assert a + b == b;
    } else {
      assert (a + b)[0] == a[0];
      assert (a + b)[1..] == a[1..] + b;
      CountConcat(c, a[1..], b);
    }
  }

  lemma {:induction false} ChunkNewlines(i: nat, e: string)
    requires '\n' !in e
    ensures Count('\n', Chunk(i, e)) == i % 2
  {
    var num := if i % 2 == 0 then Opening(1 + i / 2) else "";
    var tail := if i % 2 == 1 then "\n" else "";
    assert '\n' !in num by {
      if i % 2 == 0 {
        var d := Digits(1 + i / 2);
        assert forall k :: 0 <= k < |d| ==> d[k] != '\n';
      }
    }
    CountConcat('\n', num, e);
    CountConcat('\n', num + e, " ");
    CountConcat('\n', num + e + " ", tail);
    assert Count('\n', tail) == i % 2 by {
      if i % 2 == 1 { assert Count('\n', tail[1..]) == 0; }
    }
  }

  /** Entries without newlines give one newline per full move pair. */
  lemma {:induction false} LayoutNewlines(h: seq<string>)
    requires forall i :: 0 <= i < |h| ==> '\n' !in h[i]
    ensures Count('\n', Layout(h)) == |h| / 2
    decreases |h|
  {
    if |h| > 0 {
      var init := h[..|h| - 1];
      assert Layout(h) == Layout(init) + Chunk(|h| - 1, h[|h| - 1]);
      LayoutNewlines(init);
      CountConcat('\n', Layout(init), Chunk(|h| - 1, h[|h| - 1]));
      ChunkNewlines(|h| - 1, h[|h| - 1]);
      Halves(|h| - 1);
    }
  }

  lemma Halves(n: nat)
    ensures (n + 1) / 2 == n / 2 + n % 2
    ensures (n + 2) / 2 == n / 2 + 1 && (n + 2) % 2 == n % 2
  {
  }

  lemma ChunkAppend(before: string, number: string, entry: string, lineEnd: string)
    ensures ((before + number) + entry) + lineEnd == before + ((number + entry) + lineEnd)
  {
  }

  lemma LayoutSnoc(h: seq<string>, i: nat)
    requires i < |h|
    ensures Layout(h[..i + 1]) == Layout(h[..i]) + Chunk(i, h[i])
  {
    assert h[..i + 1][..i] == h[..i];
  }

  /** The history loop of refresh, appending to a buffer entry by entry. */
  method HistoryText(hist: seq<string>) returns (text: string)
    ensures text == Layout(hist)
    ensures text == PairedLayout(hist)
    ensures hist == [] ==> text == ""
  {
    text := "";
    var i := 0;
    while i < |hist|
      invariant 0 <= i <= |hist|
      invariant text == Layout(hist[..i])
    {
      ghost var before := text;
      ghost var number := if i % 2 == 0 then Opening(1 + i / 2) else "";
      ghost var lineEnd := if i % 2 == 1 then "\n" else "";
      if i % 2 == 0 {
        text := text + Digits(i / 2 + 1) + ". ";
      }
      assert text == before + number by {
        if i % 2 == 0 {
          StringAssoc(before, Digits(i / 2 + 1), ". ");
        }
      }
      ghost var numbered := text;
      text := text + hist[i] + " ";
      assert text == numbered + (hist[i] + " ");
      ghost var entered := text;
      if i % 2 == 1 {
        text := text + "\n";
      }
      assert text == entered + lineEnd;
      assert text == before + Chunk(i, hist[i]) by {
        ChunkAppend(before, number, hist[i] + " ", lineEnd);
        assert Chunk(i, hist[i]) == number + hist[i] + " " + lineEnd;
      }
      LayoutSnoc(hist, i);
      i := i + 1;
    }
    assert hist[..|hist|] == hist;
    LayoutIsPaired(hist);
  }

}
