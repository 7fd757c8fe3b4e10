/** The input area of `UIManager::build_document`: two loops wrap the encoded text at the terminal
    width, and a third draws the cursor. Both loops are compared with wrapping the code points. */
module Wrap {
  import opened Seqs
  import opened Utf8
  import opened TextLines
  import InputLine

  /** The prompt in front of the input, "> ". */
  const PROMPT: seq<CodePoint> := [62, 32]

  // ---------------------------------------------------------------------------------------------
  // Wrapping code points: the reference
  // ---------------------------------------------------------------------------------------------

  /** One line cut into rows of `cols` elements; an empty line is one empty row. */
  function WrapLine<T>(line: seq<T>, cols: nat): (rows: seq<seq<T>>)
    requires cols > 0
    ensures |rows| >= 1
  {
    if |line| <= cols then [line] else [line[..cols]] + WrapLine(line[cols..], cols)
  }

  function WrapLines<T>(lines: seq<seq<T>>, cols: nat): (rows: seq<seq<T>>)
    requires cols > 0
    ensures lines != [] ==> rows != []
  {
    if lines == [] then [] else WrapLine(lines[0], cols) + WrapLines(lines[1..], cols)
  }

  /** The rows of a text: each of its lines, wrapped. */
  function Rows<T(==)>(text: seq<T>, nl: T, cols: nat): (rows: seq<seq<T>>)
    requires cols > 0
    ensures rows != []
  {
    WrapLines(Lines(text, nl), cols)
  }

  /** A line takes as many rows as fit it and no more: all but the last are full, and none is longer
      than `cols`. */
  lemma {:induction false} WrapLineShape<T>(line: seq<T>, cols: nat)
    requires cols > 0
    ensures var n := |WrapLine(line, cols)|; line != [] ==> (n - 1) * cols < |line| <= n * cols
    ensures line == [] ==> WrapLine(line, cols) == [[]]
    ensures forall k | 0 <= k < |WrapLine(line, cols)| :: |WrapLine(line, cols)[k]| <= cols
    ensures forall k | 0 <= k < |WrapLine(line, cols)| - 1 :: |WrapLine(line, cols)[k]| == cols
    decreases |line|
  {
    if |line| > cols {
      WrapLineShape(line[cols..], cols);
      var n := |WrapLine(line[cols..], cols)|;
      assert (n + 1) * cols == n * cols + cols;
    }
  }

  lemma {:induction false} RowsFit<T>(lines: seq<seq<T>>, cols: nat)
    requires cols > 0
    ensures forall k | 0 <= k < |WrapLines(lines, cols)| :: |WrapLines(lines, cols)[k]| <= cols
  {
    if lines != [] {
      WrapLineShape(lines[0], cols);
      RowsFit(lines[1..], cols);
    }
  }

  /** No row of a text is longer than the terminal is wide. */
  lemma NoRowTooLong<T>(text: seq<T>, nl: T, cols: nat)
    requires cols > 0
    ensures forall k | 0 <= k < |Rows(text, nl, cols)| :: |Rows(text, nl, cols)[k]| <= cols
  {
    RowsFit(Lines(text, nl), cols);
  }

  lemma {:induction false} WrapLinesConcat<T>(a: seq<seq<T>>, b: seq<seq<T>>, cols: nat)
    requires cols > 0
    ensures WrapLines(a + b, cols) == WrapLines(a, cols) + WrapLines(b, cols)
  {
    if a == [] {
      assert a + b == b;
    } else {
      assert (a + b)[1..] == a[1..] + b;
      WrapLinesConcat(a[1..], b, cols);
      Reassociate(WrapLine(a[0], cols), WrapLines(a[1..], cols), WrapLines(b, cols));
    }
  }

  /** The rows with `x` put at the end of the last one, or on a row of its own if that one is full. */
  function Extended<T>(rows: seq<seq<T>>, x: T, cols: nat): seq<seq<T>>
    requires rows != []
  {
    var m := |rows| - 1;
    if |rows[m]| < cols then rows[..m] + [rows[m] + [x]] else rows + [[x]]
  }

  lemma {:induction false} WrapLineSnoc<T>(line: seq<T>, x: T, cols: nat)
    requires cols > 0
    ensures WrapLine(line + [x], cols) == Extended(WrapLine(line, cols), x, cols)
    decreases |line|
  {
    if |line| > cols {
      var head, tail := line[..cols], line[cols..];
      WrapLineSnoc(tail, x, cols);
      assert (line + [x])[..cols] == head && (line + [x])[cols..] == tail + [x];
      ExtendedBehind([head], WrapLine(tail, cols), x, cols);
    } else if |line| == cols {
      assert (line + [x])[..cols] == line && (line + [x])[cols..] == [x];
    }
  }

  lemma ExtendedBehind<T>(a: seq<seq<T>>, rows: seq<seq<T>>, x: T, cols: nat)
    requires rows != []
    ensures Extended(a + rows, x, cols) == a + Extended(rows, x, cols)
  {
    var m := |rows| - 1;
    assert (a + rows)[..|a| + m] == a + rows[..m];
    assert (a + rows)[|a| + m] == rows[m];
  }

  lemma WrapOneLine<T>(line: seq<T>, cols: nat)
    requires cols > 0
    ensures WrapLines([line], cols) == WrapLine(line, cols)
  {
    assert WrapLines([line], cols) == WrapLine(line, cols) + [];
  }

  lemma WrapEmptyLine<T>(cols: nat)
    requires cols > 0
    ensures WrapLine<T>([], cols) == [[]]
  {
  }

  /** The greedy step of the loops, for one more code point of the text. */
  lemma RowsSnoc<T>(text: seq<T>, x: T, nl: T, cols: nat)
    requires cols > 0
    ensures x == nl ==> Rows(text + [x], nl, cols) == Rows(text, nl, cols) + [[]]
    ensures x != nl ==> Rows(text + [x], nl, cols) == Extended(Rows(text, nl, cols), x, cols)
  {
    hide Lines, WrapLines, WrapLine, Extended;
    var lines := Lines(text, nl);
    LinesSnoc(text, x, nl);
    if x == nl {
      WrapLinesConcat(lines, [[]], cols);
      WrapOneLine<T>([], cols);
      WrapEmptyLine<T>(cols);
    } else {
      var m := |lines| - 1;
      var last, init := lines[m], lines[..m];
      assert lines == init + [last];
      assert Merge(lines, [[x]]) == init + [last + [x]];
      WrapLinesConcat(init, [last], cols);
      WrapLinesConcat(init, [last + [x]], cols);
      WrapOneLine(last, cols);
      WrapOneLine(last + [x], cols);
      WrapLineSnoc(last, x, cols);
      ExtendedBehind(WrapLines(init, cols), WrapLine(last, cols), x, cols);
    }
  }

  // ---------------------------------------------------------------------------------------------
  // Rows as ranges of a text
  // ---------------------------------------------------------------------------------------------

  datatype VLine = VLine(start: nat, end: nat)

  /** A range without a separator in it. */
  ghost predicate PlainRange<T>(text: seq<T>, nl: T, l: VLine) {
    l.start <= l.end <= |text| && nl !in text[l.start..l.end]
  }

  /** `b` begins where `a` ends, or one later if a separator stands there. */
  ghost predicate Follows<T>(text: seq<T>, nl: T, a: VLine, b: VLine) {
    a.end < |text| && b.start == a.end + if text[a.end] == nl then 1 else 0
  }

  ghost predicate Chain<T>(text: seq<T>, nl: T, lines: seq<VLine>) {
    && lines != [] && lines[0].start == 0
    && (forall j | 0 <= j < |lines| :: PlainRange(text, nl, lines[j]))
    && (forall j | 1 <= j < |lines| :: Follows(text, nl, lines[j - 1], lines[j]))
  }

  /** The ranges cover the text in order, leaving out one separator at each hard break and nothing at a
      soft one; none contains a separator. */
  ghost predicate Tiles<T>(text: seq<T>, nl: T, lines: seq<VLine>) {
    Chain(text, nl, lines) && lines[|lines| - 1].end == |text|
  }

  ghost predicate IsRow<T>(text: seq<T>, l: VLine, row: seq<T>) {
    l.start <= l.end <= |text| && text[l.start..l.end] == row
  }

  /** The ranges are the rows of the wrapped text. */
  ghost predicate Cuts<T>(text: seq<T>, lines: seq<VLine>, rows: seq<seq<T>>) {
    |lines| == |rows| && forall j | 0 <= j < |lines| :: IsRow(text, lines[j], rows[j])
  }

  /** What the loop makes of its ranges for one more element of the text. */
  function Grown<T(==)>(lines: seq<VLine>, at: nat, x: T, nl: T, cols: nat): seq<VLine>
    requires lines != []
  {
    var m := |lines| - 1;
    if x == nl then lines + [VLine(at + 1, at + 1)]
    else if at - lines[m].start < cols then lines[..m] + [VLine(lines[m].start, at + 1)]
    else lines + [VLine(at, at + 1)]
  }

  lemma GrownTiles<T>(text: seq<T>, x: T, nl: T, cols: nat, lines: seq<VLine>)
    requires Tiles(text, nl, lines)
    ensures Tiles(text + [x], nl, Grown(lines, |text|, x, nl, cols))
  {
    hide Chain;
    var longer, m, at := text + [x], |lines| - 1, |text|;
    ChainStays(text, x, nl, lines);
    ChainFacts(text, nl, lines);
    if x == nl {
      assert longer[at + 1..at + 1] == [];
      ChainAppend(longer, nl, lines, VLine(at + 1, at + 1));
    } else if at - lines[m].start < cols {
      assert longer[lines[m].start..at + 1] == text[lines[m].start..lines[m].end] + [x];
      ChainLengthen(longer, nl, lines, VLine(lines[m].start, at + 1));
    } else {
      assert longer[at..at + 1] == [x];
      ChainAppend(longer, nl, lines, VLine(at, at + 1));
    }
  }

  lemma ChainFacts<T>(text: seq<T>, nl: T, lines: seq<VLine>)
    requires Chain(text, nl, lines)
    ensures lines != [] && PlainRange(text, nl, lines[|lines| - 1])
  {
  }

  lemma ChainStays<T>(text: seq<T>, x: T, nl: T, lines: seq<VLine>)
    requires Chain(text, nl, lines)
    ensures Chain(text + [x], nl, lines)
  {
    forall j | 0 <= j < |lines|
      ensures PlainRange(text + [x], nl, lines[j])
    {
      assert PlainRange(text, nl, lines[j]);
      assert (text + [x])[lines[j].start..lines[j].end] == text[lines[j].start..lines[j].end];
    }
    forall j | 1 <= j < |lines|
      ensures Follows(text + [x], nl, lines[j - 1], lines[j])
    {
      assert Follows(text, nl, lines[j - 1], lines[j]);
    }
  }

  lemma ChainAppend<T>(text: seq<T>, nl: T, lines: seq<VLine>, l: VLine)
    requires Chain(text, nl, lines) && PlainRange(text, nl, l) && Follows(text, nl, lines[|lines| - 1], l)
    ensures Chain(text, nl, lines + [l])
  {
    hide PlainRange, Follows;
  }

  lemma ChainLengthen<T>(text: seq<T>, nl: T, lines: seq<VLine>, l: VLine)
    requires Chain(text, nl, lines) && PlainRange(text, nl, l) && l.start == lines[|lines| - 1].start
    ensures Chain(text, nl, lines[..|lines| - 1] + [l])
  {
    hide PlainRange;
    var m := |lines| - 1;
    if m > 0 { assert Follows(text, nl, lines[m - 1], lines[m]); }
  }

  lemma GrownCuts<T>(text: seq<T>, x: T, nl: T, cols: nat, lines: seq<VLine>)
    requires cols > 0 && Tiles(text, nl, lines) && Cuts(text, lines, Rows(text, nl, cols))
    ensures Cuts(text + [x], Grown(lines, |text|, x, nl, cols), Rows(text + [x], nl, cols))
  {
    hide Rows, Chain;
    RowsSnoc(text, x, nl, cols);
    var longer, rows, m, at := text + [x], Rows(text, nl, cols), |lines| - 1, |text|;
    CutsStay(text, x, lines, rows);
    ChainFacts(text, nl, lines);
    assert IsRow(text, lines[m], rows[m]);
    if x == nl {
      assert IsRow(longer, VLine(at + 1, at + 1), []);
      CutsAppend(longer, lines, rows, VLine(at + 1, at + 1), []);
    } else if at - lines[m].start < cols {
      assert longer[lines[m].start..at + 1] == rows[m] + [x];
      CutsLengthen(longer, lines, rows, VLine(lines[m].start, at + 1), rows[m] + [x]);
    } else {
      assert longer[at..at + 1] == [x];
      CutsAppend(longer, lines, rows, VLine(at, at + 1), [x]);
    }
  }

  lemma CutsStay<T>(text: seq<T>, x: T, lines: seq<VLine>, rows: seq<seq<T>>)
    requires Cuts(text, lines, rows)
    ensures Cuts(text + [x], lines, rows)
  {
    forall j | 0 <= j < |lines|
      ensures IsRow(text + [x], lines[j], rows[j])
    {
      assert IsRow(text, lines[j], rows[j]);
      assert (text + [x])[lines[j].start..lines[j].end] == text[lines[j].start..lines[j].end];
    }
  }

  lemma CutsAppend<T>(text: seq<T>, lines: seq<VLine>, rows: seq<seq<T>>, l: VLine, row: seq<T>)
    requires Cuts(text, lines, rows) && IsRow(text, l, row)
    ensures Cuts(text, lines + [l], rows + [row])
  {
    hide IsRow;
  }

  lemma CutsLengthen<T>(text: seq<T>, lines: seq<VLine>, rows: seq<seq<T>>, l: VLine, row: seq<T>)
    requires Cuts(text, lines, rows) && lines != [] && IsRow(text, l, row)
    ensures Cuts(text, lines[..|lines| - 1] + [l], rows[..|rows| - 1] + [row])
  {
    hide IsRow;
  }

  /** The ranges put together again, with a separator wherever one was left out. */
  function Rebuilt<T>(text: seq<T>, nl: T, lines: seq<VLine>): seq<T>
    requires forall j | 0 <= j < |lines| :: lines[j].start <= lines[j].end <= |text|
  {
    if lines == [] then []
    else
      var m := |lines| - 1;
      var gap := if m > 0 && lines[m].start > lines[m - 1].end then [nl] else [];
      Rebuilt(text, nl, lines[..m]) + gap + text[lines[m].start..lines[m].end]
  }

  lemma {:induction false} ChainRebuilds<T>(text: seq<T>, nl: T, lines: seq<VLine>, n: nat)
    requires Chain(text, nl, lines) && 1 <= n <= |lines|
    ensures lines[n - 1].end <= |text|
    ensures forall j | 0 <= j < n :: lines[..n][j].start <= lines[..n][j].end <= |text|
    ensures Rebuilt(text, nl, lines[..n]) == text[..lines[n - 1].end]
  {
    var last := lines[n - 1];
    assert PlainRange(text, nl, last);
    assert lines[..n][..n - 1] == lines[..n - 1];
    forall j | 0 <= j < n
      ensures lines[..n][j].start <= lines[..n][j].end <= |text|
    {
      assert PlainRange(text, nl, lines[j]);
    }
    if n > 1 {
      var before := lines[n - 2];
      assert Follows(text, nl, before, last);
      ChainRebuilds(text, nl, lines, n - 1);
      var gap := if last.start > before.end then [nl] else [];
      assert text[..last.start] == text[..before.end] + gap;
      assert text[..last.end] == text[..last.start] + text[last.start..last.end];
    }
  }

  /** Nothing of the text is lost: its ranges, with a separator put back at each hard break, are the
      text. */
  lemma TilesRebuild<T>(text: seq<T>, nl: T, lines: seq<VLine>)
    requires Tiles(text, nl, lines)
    ensures forall j | 0 <= j < |lines| :: lines[j].start <= lines[j].end <= |text|
    ensures Rebuilt(text, nl, lines) == text
  {
    ChainRebuilds(text, nl, lines, |lines|);
    assert lines[..|lines|] == lines && text[..|text|] == text;
  }

  // ---------------------------------------------------------------------------------------------
  // Code points as bytes
  // ---------------------------------------------------------------------------------------------

  const NEWLINE_BYTE: Byte := 10

  /** How many bytes the loops take a character to have, from its first byte. */
  function CpLen(c: Byte): (n: nat)
    ensures 1 <= n <= 4
  {
    if IsLead2(c) then 2 else if IsLead3(c) then 3 else if IsLead4(c) then 4 else 1
  }

  /** The byte offset of code point `k`. */
  ghost function Offset(cs: seq<CodePoint>, k: nat): nat
    requires k <= |cs|
  {
    |Encode(cs[..k])|
  }

  ghost function ByteLine(cs: seq<CodePoint>, l: VLine): VLine
    requires l.start <= |cs| && l.end <= |cs|
  {
    VLine(Offset(cs, l.start), Offset(cs, l.end))
  }

  /** A slice between code point boundaries is the encoding of the code points between them. */
  lemma SliceOfEncoding(cs: seq<CodePoint>, a: nat, b: nat)
    requires a <= b <= |cs|
    ensures Offset(cs, a) <= Offset(cs, b) <= |Encode(cs)|
    ensures Encode(cs)[Offset(cs, a)..Offset(cs, b)] == Encode(cs[a..b])
  {
    hide EncodeOne;
    assert cs == cs[..b] + cs[b..] && cs[..b] == cs[..a] + cs[a..b];
    FlatMapConcat(EncodeOne, cs[..b], cs[b..]);
    FlatMapConcat(EncodeOne, cs[..a], cs[a..b]);
  }

  lemma EncodeSingle(cp: CodePoint)
    ensures Encode([cp]) == EncodeOne(cp)
  {
    hide EncodeOne;
    FlatMapSnoc(EncodeOne, [], cp);
    assert [] + [cp] == [cp];
  }

  lemma NewlineByteIsNewline(cp: CodePoint)
    requires cp <= MAX_CODE_POINT
    ensures NEWLINE_BYTE in EncodeOne(cp) <==> cp == NEWLINE
    ensures EncodeOne(cp)[0] == NEWLINE_BYTE <==> cp == NEWLINE
  {
    LowBytesAreAbove(cp);
  }

  lemma LowBytesAreAbove(cp: CodePoint)
    requires cp <= MAX_CODE_POINT
    ensures Low(cp) != NEWLINE_BYTE && Middle(cp) != NEWLINE_BYTE && High(cp) != NEWLINE_BYTE
    ensures Lead2(cp) != NEWLINE_BYTE && Lead3(cp) != NEWLINE_BYTE && Lead4(cp) != NEWLINE_BYTE
    ensures cp < 0x80 ==> (LowByte(cp) == NEWLINE_BYTE <==> cp == NEWLINE)
  {
  }

  lemma {:induction false} NoNewlineByte(cs: seq<CodePoint>)
    requires Encodable(cs)
    ensures NEWLINE_BYTE in Encode(cs) <==> NEWLINE in cs
  {
    hide EncodeOne;
    if cs != [] {
      NewlineByteIsNewline(cs[0]);
      NoNewlineByte(cs[1..]);
    }
  }

  /** What the loops see at a code point boundary: the lead byte tells the length of the encoding. */
  lemma AtBoundary(cs: seq<CodePoint>, k: nat)
    requires Encodable(cs) && k < |cs|
    ensures Offset(cs, k) < |Encode(cs)|
    ensures Offset(cs, k + 1) == Offset(cs, k) + CpLen(Encode(cs)[Offset(cs, k)]) <= |Encode(cs)|
    ensures Encode(cs)[Offset(cs, k)..Offset(cs, k + 1)] == EncodeOne(cs[k])
    ensures Encode(cs)[Offset(cs, k)] == NEWLINE_BYTE <==> cs[k] == NEWLINE
  {
    hide EncodeOne, IsLead2, IsLead3, IsLead4, IsAscii;
    SliceOfEncoding(cs, k, k + 1);
    SliceOfEncoding(cs, 0, k + 1);
    assert cs[k..k + 1] == [cs[k]];
    EncodeSingle(cs[k]);
    EncodedSequence(cs[k]);
    NewlineByteIsNewline(cs[k]);
    var c := EncodeOne(cs[k])[0];
    assert Encode(cs)[Offset(cs, k)..Offset(cs, k + 1)][0] == c;
    LeadsAreExclusive(c);
  }

  // ---------------------------------------------------------------------------------------------
  // The two loops
  // ---------------------------------------------------------------------------------------------

  lemma PromptRows(cols: nat)
    requires cols > 0
    ensures Rows(PROMPT, NEWLINE, cols) == if cols == 1 then [[62], [32]] else [PROMPT]
  {
    OneLine(PROMPT, NEWLINE);
    assert WrapLines([PROMPT], cols) == WrapLine(PROMPT, cols) + [];
  }

  /** `count_visual_lines`: the prompt is only a starting column. One short for a single column, where
      the prompt itself takes two rows; otherwise the number of rows. */
  method CountVisualLines(txt: seq<Byte>, termCols: int, ghost cs: seq<CodePoint>) returns (lines: nat)
    requires Encodable(cs) && txt == Encode(cs)
    ensures var cols := if termCols <= 0 then 80 else termCols;
            |Rows(PROMPT + cs, NEWLINE, cols)| == lines + if cols == 1 then 1 else 0
  {
    hide Rows, Encode, CpLen;
    var cols := if termCols <= 0 then 80 else termCols;
    lines := 1;
    var col := 2;
    var i := 0;
    ghost var k := 0;
    PromptRows(cols);
    StartOfSplit(cs, cols);
    assert PROMPT + cs[..0] == PROMPT;
    while i < |txt|
      invariant k <= |cs| && i == Offset(cs, k)
      invariant var rows := Rows(PROMPT + cs[..k], NEWLINE, cols);
                && |rows| == lines + (if cols == 1 then 1 else 0)
                && (col == |rows[|rows| - 1]| || (cols == 1 && col == 2 && |rows[|rows| - 1]| == 1))
      decreases |cs| - k
    {
      assert k < |cs| by { assert cs[..|cs|] == cs; }
      AtBoundary(cs, k);
      assert PROMPT + cs[..k + 1] == (PROMPT + cs[..k]) + [cs[k]];
      RowsSnoc(PROMPT + cs[..k], cs[k], NEWLINE, cols);
      var c := txt[i];
      k := k + 1;
      if c == NEWLINE_BYTE {
        lines, col, i := lines + 1, 0, i + 1;
        NewlineLength();
        continue;
      }
      col := col + 1;
      if col > cols { lines, col := lines + 1, 1; }
      i := i + CpLen(c);
    }
    assert k == |cs| by { if k < |cs| { AtBoundary(cs, k); } }
    assert cs[..|cs|] == cs;
  }

  lemma NewlineLength()
    ensures CpLen(NEWLINE_BYTE) == 1
  {
  }

  /** Every range of code points as a range of bytes. */
  ghost predicate AreByteLines(cs: seq<CodePoint>, marks: seq<VLine>, vlines: seq<VLine>) {
    && |vlines| == |marks|
    && (forall j | 0 <= j < |marks| ::
          marks[j].start <= |cs| && marks[j].end <= |cs| && vlines[j] == ByteLine(cs, marks[j]))
  }

  /** The `vlines` split. `marks` are the same ranges counted in code points. */
  method SplitVLines(full: seq<Byte>, cols: nat, ghost cs: seq<CodePoint>)
    returns (vlines: seq<VLine>, ghost marks: seq<VLine>)
    requires Encodable(cs) && full == Encode(cs) && cols > 0
    ensures |vlines| == |Rows(cs, NEWLINE, cols)|
    ensures AreByteLines(cs, marks, vlines)
    ensures Tiles(cs, NEWLINE, marks) && Cuts(cs, marks, Rows(cs, NEWLINE, cols))
  {
    hide Rows, Encode, CpLen, Tiles, Cuts;
    vlines := [];
    var col := 0;
    var lineStart := 0;
    var i := 0;
    ghost var k := 0;
    marks := [VLine(0, 0)];
    StartOfSplit(cs, cols);
    while i < |full|
      invariant k <= |cs| && i == Offset(cs, k)
      invariant |marks| >= 1 && marks[|marks| - 1].start <= k && marks[|marks| - 1].end == k
      invariant col == k - marks[|marks| - 1].start && lineStart == Offset(cs, marks[|marks| - 1].start)
      invariant AreByteLines(cs, marks[..|marks| - 1], vlines)
      invariant Tiles(cs[..k], NEWLINE, marks) && Cuts(cs[..k], marks, Rows(cs[..k], NEWLINE, cols))
      decreases |cs| - k
    {
      assert k < |cs| by { assert cs[..|cs|] == cs; }
      AtBoundary(cs, k);
      assert cs[..k + 1] == cs[..k] + [cs[k]];
      GrownTiles(cs[..k], cs[k], NEWLINE, cols, marks);
      GrownCuts(cs[..k], cs[k], NEWLINE, cols, marks);
      ghost var m := |marks| - 1;
      ghost var last := marks[m];
      assert marks == marks[..m] + [last];
      marks := Grown(marks, k, cs[k], NEWLINE, cols);
      k := k + 1;
      var c := full[i];
      if c == NEWLINE_BYTE {
        vlines := vlines + [VLine(lineStart, i)];
        NewlineLength();
        i := i + 1;
        lineStart := i;
        col := 0;
        continue;
      }
      col := col + 1;
      if col > cols {
        vlines := vlines + [VLine(lineStart, i)];
        lineStart := i;
        col := 1;
      }
      i := i + CpLen(c);
    }
    assert k == |cs| by { if k < |cs| { AtBoundary(cs, k); } }
    assert cs[..|cs|] == cs;
    vlines := vlines + [VLine(lineStart, |full|)];
    CutsLength(cs, marks, Rows(cs, NEWLINE, cols));
  }

  lemma CutsLength<T>(text: seq<T>, lines: seq<VLine>, rows: seq<seq<T>>)
    requires Cuts(text, lines, rows)
    ensures |lines| == |rows|
  {
  }

  lemma StartOfSplit(cs: seq<CodePoint>, cols: nat)
    requires cols > 0
    ensures Offset(cs, 0) == 0
    ensures Tiles(cs[..0], NEWLINE, [VLine(0, 0)])
    ensures Cuts(cs[..0], [VLine(0, 0)], Rows(cs[..0], NEWLINE, cols))
  {
    var none: seq<CodePoint> := [];
    assert cs[..0] == none;
    assert WrapLines([none], cols) == WrapLine(none, cols) + [];
  }

  // ---------------------------------------------------------------------------------------------
  // Drawing
  // ---------------------------------------------------------------------------------------------

  /** One drawn row; `at` is what the cursor highlights. */
  datatype Element =
    | Plain(text: seq<Byte>)
    | WithCursor(before: seq<Byte>, at: seq<Byte>, after: seq<Byte>)

  /** The row that shows a cursor in front of code point `p`: the first that ends at `p` or later. */
  ghost predicate IsCursorRow(marks: seq<VLine>, p: nat, row: nat) {
    row < |marks| && marks[row].start <= p <= marks[row].end && forall j | 0 <= j < row :: marks[j].end < p
  }

  lemma {:induction false} EndsGrow<T>(text: seq<T>, nl: T, marks: seq<VLine>, i: nat, j: nat)
    requires Chain(text, nl, marks) && i < j < |marks|
    ensures marks[i].end <= marks[j].start
  {
    assert Follows(text, nl, marks[j - 1], marks[j]);
    if i < j - 1 {
      EndsGrow(text, nl, marks, i, j - 1);
      assert PlainRange(text, nl, marks[j - 1]);
    }
  }

  /** At a soft wrap the cursor is on the row in front of it, so behind its last code point. */
  lemma CursorAtSoftWrap<T>(text: seq<T>, nl: T, marks: seq<VLine>, j: nat, row: nat)
    requires Chain(text, nl, marks) && j + 1 < |marks|
    requires marks[j].start < marks[j].end == marks[j + 1].start
    ensures IsCursorRow(marks, marks[j].end, row) <==> row == j
  {
    forall i | 0 <= i < j
      ensures marks[i].end < marks[j].end
    {
      EndsGrow(text, nl, marks, i, j);
    }
  }

  /** A drawn row without the cursor. */
  ghost predicate DrawsPlain(cs: seq<CodePoint>, l: VLine, el: Element)
    requires l.start <= l.end <= |cs|
  {
    el == Plain(Encode(cs[l.start..l.end]))
  }

  /** A drawn row with the cursor: on a whole code point, or on a blank behind the row. */
  ghost predicate DrawsCursor(cs: seq<CodePoint>, l: VLine, p: nat, el: Element)
    requires l.start <= p <= l.end <= |cs|
  {
    el == if p < l.end then WithCursor(Encode(cs[l.start..p]), EncodeOne(cs[p]), Encode(cs[p + 1..l.end]))
          else WithCursor(Encode(cs[l.start..l.end]), [32], [])
  }

  /** Byte offsets of boundaries order like the boundaries. */
  lemma OffsetsOrder(cs: seq<CodePoint>, a: nat, b: nat)
    requires a <= |cs| && b <= |cs|
    ensures Offset(cs, a) <= Offset(cs, b) <==> a <= b
  {
    if a < b {
      OffsetGrows(cs, a, b);
    } else if b < a {
      OffsetGrows(cs, b, a);
    }
  }

  lemma OffsetGrows(cs: seq<CodePoint>, a: nat, b: nat)
    requires a < b <= |cs|
    ensures Offset(cs, a) < Offset(cs, b)
  {
    hide EncodeOne;
    assert cs[..a + 1] == cs[..a] + [cs[a]];
    FlatMapSnoc(EncodeOne, cs[..a], cs[a]);
    SliceOfEncoding(cs, a + 1, b);
  }

  /** Splitting a drawn line at the cursor. */
  method DrawCursorLine(lineText: seq<Byte>, rel: nat, ghost cs: seq<CodePoint>, ghost l: VLine, ghost p: nat)
    returns (el: Element)
    requires Encodable(cs) && l.start <= p <= l.end <= |cs|
    requires lineText == Encode(cs[l.start..l.end]) && rel == Offset(cs, p) - Offset(cs, l.start)
    ensures DrawsCursor(cs, l, p, el)
  {
    hide Encode, EncodeOne, CpLen;
    SliceOfEncoding(cs, l.start, p);
    SliceLength(cs, l.start, p);
    if p < l.end { AroundCursor(cs, l, p); } else { assert cs[l.start..p] == cs[l.start..l.end]; }
    if rel < |lineText| {
      var b := lineText[..rel];
      var cpLen := CpLen(lineText[rel]);
      var a := lineText[rel..rel + cpLen];
      var r := lineText[rel + cpLen..];
      el := WithCursor(b, a, r);
    } else {
      el := WithCursor(lineText, [32], []);
    }
  }

  lemma SliceLength(cs: seq<CodePoint>, a: nat, b: nat)
    requires a <= b <= |cs|
    ensures |Encode(cs[a..b])| == Offset(cs, b) - Offset(cs, a)
  {
    SliceOfEncoding(cs, a, b);
  }

  /** A row with the cursor inside falls into the part before, the code point, and the part behind. */
  lemma AroundCursor(cs: seq<CodePoint>, l: VLine, p: nat)
    requires Encodable(cs) && l.start <= p < l.end <= |cs|
    ensures Encode(cs[l.start..l.end]) == Encode(cs[l.start..p]) + EncodeOne(cs[p]) + Encode(cs[p + 1..l.end])
    ensures CpLen(EncodeOne(cs[p])[0]) == |EncodeOne(cs[p])|
  {
    hide EncodeOne;
    assert cs[l.start..l.end] == cs[l.start..p] + [cs[p]] + cs[p + 1..l.end];
    FlatMapConcat(EncodeOne, cs[l.start..p] + [cs[p]], cs[p + 1..l.end]);
    FlatMapSnoc(EncodeOne, cs[l.start..p], cs[p]);
    EncodedSequence(cs[p]);
    LeadsAreExclusive(EncodeOne(cs[p])[0]);
  }

  /** The drawing loop: the cursor appears on exactly one row. */
  method DrawLines(full: seq<Byte>, vlines: seq<VLine>, cursorInFull: nat,
                   ghost cs: seq<CodePoint>, ghost marks: seq<VLine>, ghost p: nat)
    returns (els: seq<Element>, ghost row: nat)
    requires Encodable(cs) && full == Encode(cs) && p <= |cs| && cursorInFull == Offset(cs, p)
    requires Tiles(cs, NEWLINE, marks) && AreByteLines(cs, marks, vlines)
    ensures |els| == |marks| && IsCursorRow(marks, p, row)
    ensures forall j | 0 <= j < |marks| :: marks[j].start <= marks[j].end <= |cs|
    ensures DrawsCursor(cs, marks[row], p, els[row])
    ensures forall j | 0 <= j < |marks| && j != row :: DrawsPlain(cs, marks[j], els[j])
  {
    hide Encode, EncodeOne, CpLen, DrawsCursor;
    forall j | 0 <= j < |marks|
      ensures marks[j].start <= marks[j].end <= |cs|
    {
      assert PlainRange(cs, NEWLINE, marks[j]);
    }
    els := [];
    row := |marks|;
    var cursorPlaced := false;
    for k := 0 to |vlines|
      invariant |els| == k
      invariant !cursorPlaced ==> row == |marks| && forall j | 0 <= j < k :: marks[j].end < p
      invariant cursorPlaced ==> row < k && IsCursorRow(marks, p, row) && DrawsCursor(cs, marks[row], p, els[row])
      invariant forall j | 0 <= j < k && j != row :: DrawsPlain(cs, marks[j], els[j])
    {
      var vl := vlines[k];
      SliceOfEncoding(cs, marks[k].start, marks[k].end);
      var lineText := full[vl.start..vl.end];
      OffsetsOrder(cs, marks[k].start, p);
      OffsetsOrder(cs, p, marks[k].end);
      if k > 0 { assert Follows(cs, NEWLINE, marks[k - 1], marks[k]); }
      if !cursorPlaced && cursorInFull >= vl.start && cursorInFull <= vl.end {
        cursorPlaced := true;
        row := k;
        var rel := cursorInFull - vl.start;
        var el := DrawCursorLine(lineText, rel, cs, marks[k], p);
        els := els + [el];
      } else {
        els := els + [Plain(lineText)];
      }
    }
  }

  // ---------------------------------------------------------------------------------------------
  // The input area as a whole
  // ---------------------------------------------------------------------------------------------

  /** What is drawn for a buffer and a cursor: its wrapped rows, the cursor on exactly one of them. */
  ghost predicate Draws(buf: seq<CodePoint>, cursor: nat, cols: nat, els: seq<Element>, marks: seq<VLine>, row: nat)
    requires cols > 0 && cursor <= |buf|
  {
    var cs := PROMPT + buf;
    && |els| == |marks| && Tiles(cs, NEWLINE, marks) && Cuts(cs, marks, Rows(cs, NEWLINE, cols))
    && (forall j | 0 <= j < |marks| :: marks[j].start <= marks[j].end <= |cs|)
    && IsCursorRow(marks, cursor + 2, row) && DrawsCursor(cs, marks[row], cursor + 2, els[row])
    && (forall j | 0 <= j < |marks| && j != row :: DrawsPlain(cs, marks[j], els[j]))
  }

  /** The part of `build_document` that lays out the input: the height reserved for it, and its rows.
      The two loops agree on the number of rows at every width but a single column. */
  method LayoutInput(inputText: seq<Byte>, byteOff: nat, termCols: nat, ghost buf: seq<CodePoint>, ghost cursor: nat)
    returns (counted: nat, inputLines: int, els: seq<Element>, ghost marks: seq<VLine>, ghost row: nat)
    requires termCols > 0 && Encodable(buf) && cursor <= |buf|
    requires inputText == Encode(buf) && byteOff == |Encode(buf[..cursor])|
    ensures Draws(buf, cursor, termCols, els, marks, row)
    ensures |els| == |Rows(PROMPT + buf, NEWLINE, termCols)|
    ensures counted == |els| <==> termCols != 1
    ensures inputLines == (if counted < 1 then 1 else if counted > 5 then 5 else counted)
    ensures counted <= |els| <= counted + 1
  {
    hide Rows, Tiles, Encode, DrawsCursor, DrawsPlain;
    ghost var cs := PROMPT + buf;
    counted := CountVisualLines(inputText, termCols, buf);
    inputLines := Clamp(counted);
    var full := [62, 32] + inputText;
    PromptInFront(buf, cursor);
    var vlines;
    vlines, marks := SplitVLines(full, termCols, cs);
    els, row := DrawLines(full, vlines, 2 + byteOff, cs, marks, cursor + 2);
  }

  /** The same for an editor on a screen; a screen without a width counts as 80 columns wide. */
  method BuildInput(line: InputLine.InputLine, dimx: int)
    returns (inputLines: int, els: seq<Element>, ghost marks: seq<VLine>, ghost row: nat)
    requires line.Valid() && line.State().HoldsEncodable()
    ensures var cols := if dimx > 0 then dimx else 80; Draws(line.buf, line.cursor, cols, els, marks, row)
    ensures var cols := if dimx > 0 then dimx else 80; |els| == |Rows(PROMPT + line.buf, NEWLINE, cols)|
    ensures var n := |els| - if dimx == 1 then 1 else 0;
            inputLines == if n < 1 then 1 else if n > 5 then 5 else n
  {
    hide Draws;
    var termCols := if dimx > 0 then dimx else 80;
    var inputText := line.Text();
    var byteOff := line.CursorByteOffset();
    var counted;
    counted, inputLines, els, marks, row := LayoutInput(inputText, byteOff, termCols, line.buf, line.cursor);
  }

  /** The height reserved for the input: one to five lines. */
  function Clamp(lines: int): int { Max(1, Min(5, lines)) }

  lemma PromptInFront(buf: seq<CodePoint>, cursor: nat)
    requires Encodable(buf) && cursor <= |buf|
    ensures Encodable(PROMPT + buf)
    ensures [62, 32] + Encode(buf) == Encode(PROMPT + buf)
    ensures Offset(PROMPT + buf, cursor + 2) == 2 + |Encode(buf[..cursor])|
  {
    FlatMapConcat(EncodeOne, PROMPT, buf);
    FlatMapConcat(EncodeOne, PROMPT, buf[..cursor]);
    assert (PROMPT + buf)[..cursor + 2] == PROMPT + buf[..cursor];
    PromptBytes();
  }

  lemma PromptBytes()
    ensures Encode(PROMPT) == [62, 32]
  {
    assert PROMPT == [62] + [32];
    FlatMapSnoc(EncodeOne, [62], 32);
    EncodeSingle(62);
    assert EncodeOne(62) == [62] && EncodeOne(32) == [32];
  }
}
