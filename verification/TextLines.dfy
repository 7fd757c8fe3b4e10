/** A text as a list of lines: the plain model behind the editor's flat buffer. */
module TextLines {
  import opened Seqs

  /** Adds an element at the front of the first line. */
  function Push<T>(x: T, l: seq<seq<T>>): (r: seq<seq<T>>)
    requires l != []
  {
    [[x] + l[0]] + l[1..]
  }

  /** The pieces between separators; always at least one. */
  function Lines<T(==)>(s: seq<T>, nl: T): (lines: seq<seq<T>>)
    ensures |lines| >= 1
  {
    if s == [] then [[]]
    else
      var rest := Lines(s[1..], nl);
      if s[0] == nl then [[]] + rest else Push(s[0], rest)
  }

  /** The line a cursor stands on. */
  function Row<T(==)>(s: seq<T>, cursor: nat, nl: T): nat
    requires cursor <= |s|
  {
    |Lines(s[..cursor], nl)| - 1
  }

  /** How far into its line a cursor stands. */
  function Col<T(==)>(s: seq<T>, cursor: nat, nl: T): nat
    requires cursor <= |s|
  {
    |Lines(s[..cursor], nl)[Row(s, cursor, nl)]|
  }

  /** The offset of column `col` of line `row`. */
  function At<T(==)>(lines: seq<seq<T>>, row: nat, col: nat): nat
    requires row < |lines|
  {
    if row == 0 then col else |lines[0]| + 1 + At(lines[1..], row - 1, col)
  }

  // ---------------------------------------------------------------------------------------------

  /** Two lists of lines whose touching ends become one line. */
  function Merge<T>(la: seq<seq<T>>, lb: seq<seq<T>>): (l: seq<seq<T>>)
    requires la != [] && lb != []
    ensures |l| == |la| + |lb| - 1
  {
    la[..|la| - 1] + [la[|la| - 1] + lb[0]] + lb[1..]
  }

  lemma MergePrepend<T>(x: seq<T>, la: seq<seq<T>>, lb: seq<seq<T>>)
    requires la != [] && lb != []
    ensures Merge([x] + la, lb) == [x] + Merge(la, lb)
  {
    var m := |la|;
    assert ([x] + la)[..m] == [x] + la[..m - 1];
    assert ([x] + la)[m] == la[m - 1];
  }

  lemma MergePush<T>(x: T, la: seq<seq<T>>, lb: seq<seq<T>>)
    requires la != [] && lb != []
    ensures Merge(Push(x, la), lb) == Push(x, Merge(la, lb))
  {
    if |la| == 1 {
      Reassociate([x], la[0], lb[0]);
    } else {
      MergePrepend([x] + la[0], la[1..], lb);
      MergePrepend(la[0], la[1..], lb);
      assert la == [la[0]] + la[1..];
    }
  }

  /** Two texts side by side: the last line of the first and the first line of the second merge. */
  lemma {:induction false} LinesConcat<T>(a: seq<T>, b: seq<T>, nl: T)
    ensures Lines(a + b, nl) == Merge(Lines(a, nl), Lines(b, nl))
  {
    if a == [] {
      assert a + b == b;
      assert Lines(a, nl) == [[]] && [] + Lines(b, nl)[0] == Lines(b, nl)[0];
    } else {
      assert (a + b)[1..] == a[1..] + b && (a + b)[0] == a[0];
      LinesConcat(a[1..], b, nl);
      if a[0] == nl {
        MergePrepend([], Lines(a[1..], nl), Lines(b, nl));
      } else {
        MergePush(a[0], Lines(a[1..], nl), Lines(b, nl));
      }
    }
  }

  /** A text is one line exactly when it has no separator. */
  lemma {:induction false} OneLine<T>(s: seq<T>, nl: T)
    ensures |Lines(s, nl)| == 1 <==> nl !in s
    ensures nl !in s ==> Lines(s, nl) == [s]
  {
    if s != [] {
      OneLine(s[1..], nl);
      assert s == [s[0]] + s[1..];
    }
  }

  lemma MergeEmptyHead<T>(la: seq<seq<T>>, lb: seq<seq<T>>)
    requires la != []
    ensures Merge(la, [[]] + lb) == la + lb
  {
    var last := la[|la| - 1];
    assert last + [] == last;
    assert la == la[..|la| - 1] + [last];
  }

  /** A separator divides the list of lines. */
  lemma SplitLines<T>(a: seq<T>, b: seq<T>, nl: T)
    ensures Lines(a + [nl] + b, nl) == Lines(a, nl) + Lines(b, nl)
  {
    assert Lines([nl] + b, nl) == [[]] + Lines(b, nl) by {
      assert ([nl] + b)[1..] == b;
    }
    MergeEmptyHead(Lines(a, nl), Lines(b, nl));
    LinesConcat(a, [nl] + b, nl);
    Reassociate(a, [nl], b);
  }

  /** One more element either starts a line or extends the last one. */
  lemma LinesSnoc<T>(s: seq<T>, x: T, nl: T)
    ensures x == nl ==> Lines(s + [x], nl) == Lines(s, nl) + [[]]
    ensures x != nl ==> Lines(s + [x], nl) == Merge(Lines(s, nl), [[x]])
  {
    if x == nl {
      SplitLines(s, [], nl);
      assert s + [x] == s + [nl] + [];
    } else {
      OneLine([x], nl);
      LinesConcat(s, [x], nl);
    }
  }

  /** No line contains the separator. */
  lemma {:induction false} LinesArePlain<T>(s: seq<T>, nl: T, k: nat)
    requires k < |Lines(s, nl)|
    ensures nl !in Lines(s, nl)[k]
  {
    if s != [] {
      if s[0] == nl {
        if k > 0 { LinesArePlain(s[1..], nl, k - 1); }
      } else {
        LinesArePlain(s[1..], nl, k);
      }
    }
  }

  /** A text with a separator is its first line, the separator, and the text of the other lines. */
  lemma {:induction false} FirstLine<T>(s: seq<T>, nl: T) returns (rest: seq<T>)
    requires |Lines(s, nl)| > 1
    ensures s == Lines(s, nl)[0] + [nl] + rest
    ensures Lines(rest, nl) == Lines(s, nl)[1..]
  {
    if s[0] == nl {
      rest := s[1..];
    } else {
      rest := FirstLine(s[1..], nl);
      assert s == [s[0]] + s[1..];
    }
  }

  /** The lines, each but the last followed by a separator, are the text. */
  function Joined<T>(lines: seq<seq<T>>, nl: T): seq<T>
    requires lines != []
  {
    if |lines| == 1 then lines[0] else lines[0] + [nl] + Joined(lines[1..], nl)
  }

  lemma {:induction false} JoinLines<T>(s: seq<T>, nl: T)
    ensures Joined(Lines(s, nl), nl) == s
    decreases |s|
  {
    if |Lines(s, nl)| > 1 {
      var rest := FirstLine(s, nl);
      JoinLines(rest, nl);
    } else {
      OneLine(s, nl);
    }
  }

  // ---------------------------------------------------------------------------------------------
  // Cursor positions and (row, column) pairs
  // ---------------------------------------------------------------------------------------------

  /** Every cursor position is a place on one of the lines. */
  lemma PlaceInText<T>(s: seq<T>, cursor: nat, nl: T)
    requires cursor <= |s|
    ensures Row(s, cursor, nl) < |Lines(s, nl)|
    ensures Col(s, cursor, nl) <= |Lines(s, nl)[Row(s, cursor, nl)]|
  {
    LinesConcat(s[..cursor], s[cursor..], nl);
    assert s == s[..cursor] + s[cursor..];
  }

  /** Different cursor positions are different places. */
  lemma PlaceIsUnique<T>(s: seq<T>, c: nat, d: nat, nl: T)
    requires c <= d <= |s|
    requires Row(s, c, nl) == Row(s, d, nl) && Col(s, c, nl) == Col(s, d, nl)
    ensures c == d
  {
    var w := s[c..d];
    assert s[..d] == s[..c] + w;
    LinesConcat(s[..c], w, nl);
    OneLine(w, nl);
  }

  lemma {:induction false} FirstRow<T>(s: seq<T>, col: nat, nl: T)
    requires col <= |Lines(s, nl)[0]|
    ensures col <= |s| && Row(s, col, nl) == 0 && Col(s, col, nl) == col
  {
    if col > 0 {
      FirstRow(s[1..], col - 1, nl);
      assert s[..col] == [s[0]] + s[1..][..col - 1];
      assert s[..col][1..] == s[1..][..col - 1];
    }
  }

  /** Every place on a line is a cursor position. */
  lemma {:induction false} PlaceAt<T>(s: seq<T>, row: nat, col: nat, nl: T)
    requires row < |Lines(s, nl)| && col <= |Lines(s, nl)[row]|
    ensures var c := At(Lines(s, nl), row, col); c <= |s| && Row(s, c, nl) == row && Col(s, c, nl) == col
    decreases row
  {
    if row == 0 {
      FirstRow(s, col, nl);
    } else {
      var rest := FirstLine(s, nl);
      LinesArePlain(s, nl, 0);
      PlaceAt(rest, row - 1, col, nl);
      PlaceBehindFirst(s, Lines(s, nl)[0], rest, At(Lines(rest, nl), row - 1, col), nl);
    }
  }

  /** A position behind the first line is the same place one row down. */
  lemma PlaceBehindFirst<T>(s: seq<T>, first: seq<T>, rest: seq<T>, c: nat, nl: T)
    requires s == first + [nl] + rest && nl !in first && c <= |rest|
    ensures Row(s, |first| + 1 + c, nl) == 1 + Row(rest, c, nl)
    ensures Col(s, |first| + 1 + c, nl) == Col(rest, c, nl)
  {
    assert s[..|first| + 1 + c] == first + [nl] + rest[..c];
    SplitLines(first, rest[..c], nl);
    OneLine(first, nl);
  }

  /** Positions and places correspond one to one. */
  lemma AtOfPlace<T>(s: seq<T>, cursor: nat, nl: T)
    requires cursor <= |s|
    ensures Row(s, cursor, nl) < |Lines(s, nl)|
    ensures At(Lines(s, nl), Row(s, cursor, nl), Col(s, cursor, nl)) == cursor
  {
    PlaceInText(s, cursor, nl);
    var at := At(Lines(s, nl), Row(s, cursor, nl), Col(s, cursor, nl));
    PlaceAt(s, Row(s, cursor, nl), Col(s, cursor, nl), nl);
    if at <= cursor { PlaceIsUnique(s, at, cursor, nl); } else { PlaceIsUnique(s, cursor, at, nl); }
  }

  // ---------------------------------------------------------------------------------------------
  // Places found by looking for separators around a position
  // ---------------------------------------------------------------------------------------------

  predicate IsLineStart<T(==)>(s: seq<T>, start: nat, nl: T) {
    start <= |s| && (start == 0 || s[start - 1] == nl)
  }

  lemma LineStartCol<T>(s: seq<T>, start: nat, nl: T)
    requires IsLineStart(s, start, nl)
    ensures Col(s, start, nl) == 0
    ensures start > 0 ==> Row(s, start, nl) == Row(s, start - 1, nl) + 1
  {
    if start > 0 {
      assert s[..start] == s[..start - 1] + [nl];
      LinesSnoc(s[..start - 1], nl, nl);
    }
  }

  /** On the line that begins at `start`, the column is the distance to `start`. */
  lemma PlaceFromStart<T>(s: seq<T>, start: nat, c: nat, nl: T)
    requires IsLineStart(s, start, nl) && start <= c <= |s| && nl !in s[start..c]
    ensures Row(s, c, nl) == Row(s, start, nl) && Col(s, c, nl) == c - start
  {
    var w := s[start..c];
    LineStartCol(s, start, nl);
    assert s[..c] == s[..start] + w;
    LinesConcat(s[..start], w, nl);
    OneLine(w, nl);
  }

  /** The piece from a line start to the next separator, or to the end, is that row's line. */
  lemma LineFromStart<T>(s: seq<T>, start: nat, end: nat, nl: T)
    requires IsLineStart(s, start, nl) && start <= end <= |s| && nl !in s[start..end]
    requires end < |s| ==> s[end] == nl
    ensures Row(s, start, nl) < |Lines(s, nl)| && Lines(s, nl)[Row(s, start, nl)] == s[start..end]
  {
    LastLineOf(s, start, end, nl);
    hide Lines;
    var p := s[..end];
    if end == |s| {
      assert p == s;
    } else {
      assert s == p + [nl] + s[end + 1..];
      SplitLines(p, s[end + 1..], nl);
    }
  }

  lemma LastLineOf<T>(s: seq<T>, start: nat, end: nat, nl: T)
    requires IsLineStart(s, start, nl) && start <= end <= |s| && nl !in s[start..end]
    ensures var l := Lines(s[..end], nl); |l| - 1 == Row(s, start, nl) && l[|l| - 1] == s[start..end]
  {
    LineStartCol(s, start, nl);
    OneLine(s[start..end], nl);
    LinesConcat(s[..start], s[start..end], nl);
    hide Lines;
    assert s[..end] == s[..start] + s[start..end];
    assert [] + s[start..end] == s[start..end];
  }

  /** A cursor is on the first row exactly when no separator is in front of it, and on the last row
      exactly when none is behind it. */
  lemma EdgeRows<T>(s: seq<T>, c: nat, nl: T)
    requires c <= |s|
    ensures Row(s, c, nl) == 0 <==> nl !in s[..c]
    ensures Row(s, c, nl) == |Lines(s, nl)| - 1 <==> nl !in s[c..]
  {
    OneLine(s[..c], nl);
    OneLine(s[c..], nl);
    assert s == s[..c] + s[c..];
    LinesConcat(s[..c], s[c..], nl);
  }

  /** On the line that begins at `start`, a column is an offset from `start`. */
  lemma AtFromStart<T>(s: seq<T>, start: nat, c: nat, nl: T)
    requires IsLineStart(s, start, nl) && start <= c <= |s| && nl !in s[start..c]
    ensures Row(s, start, nl) < |Lines(s, nl)| && At(Lines(s, nl), Row(s, start, nl), c - start) == c
  {
    hide Row, Col, Lines, At;
    PlaceFromStart(s, start, c, nl);
    AtOfPlace(s, c, nl);
  }

  /** The separator in front of the cursor's line, and the one in front of that, find the row above. */
  lemma RowAbove<T>(s: seq<T>, c: nat, brk: nat, start: nat, nl: T)
    requires brk < c <= |s| && s[brk] == nl && nl !in s[brk + 1..c]
    requires IsLineStart(s, start, nl) && start <= brk && nl !in s[start..brk]
    ensures Row(s, c, nl) == Row(s, start, nl) + 1 && Col(s, c, nl) == c - brk - 1
    ensures Row(s, start, nl) < |Lines(s, nl)| && Lines(s, nl)[Row(s, start, nl)] == s[start..brk]
  {
    hide Row, Col, Lines, At;
    PlaceFromStart(s, brk + 1, c, nl);
    LineStartCol(s, brk + 1, nl);
    PlaceFromStart(s, start, brk, nl);
    LineFromStart(s, start, brk, nl);
  }

  /** The separator behind the cursor, and the one behind that, find the row below. */
  lemma RowBelow<T>(s: seq<T>, start: nat, c: nat, brk: nat, end: nat, nl: T)
    requires IsLineStart(s, start, nl) && start <= c <= brk < end <= |s| && s[brk] == nl
    requires nl !in s[start..c] && nl !in s[c..brk] && nl !in s[brk + 1..end]
    requires end < |s| ==> s[end] == nl
    ensures Row(s, brk + 1, nl) == Row(s, c, nl) + 1 && Col(s, c, nl) == c - start
    ensures Row(s, brk + 1, nl) < |Lines(s, nl)| && Lines(s, nl)[Row(s, brk + 1, nl)] == s[brk + 1..end]
  {
    hide Row, Col, Lines, At;
    PlaceFromStart(s, start, c, nl);
    assert s[start..brk] == s[start..c] + s[c..brk];
    PlaceFromStart(s, start, brk, nl);
    LineStartCol(s, brk + 1, nl);
    LineFromStart(s, brk + 1, end, nl);
  }
}
