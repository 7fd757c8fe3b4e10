/** The input editor: `InputLine`. A flat buffer of code points with a cursor, and a bounded history
    of committed lines that can be browsed without losing the draft. */
module InputLine {
  import opened Seqs
  import opened Utf8
  import opened TextLines

  // ---------------------------------------------------------------------------------------------
  // `u32string::find` and `u32string::rfind`
  // ---------------------------------------------------------------------------------------------

  function Find<T(==)>(s: seq<T>, x: T, from: nat): (r: Option<nat>)
    ensures r.None? ==> from >= |s| || x !in s[from..]
    ensures r.Some? ==> from <= r.value < |s| && s[r.value] == x && x !in s[from..r.value]
    decreases |s| - from
  {
    if from >= |s| then None
    else if s[from] == x then Some(from)
    else
      var r := Find(s, x, from + 1);
      assert s[from..] == [s[from]] + s[from + 1..];
      assert r.Some? ==> s[from..r.value] == [s[from]] + s[from + 1..r.value];
      r
  }

  /** The last occurrence at or before `upTo`. */
  function RFind<T(==)>(s: seq<T>, x: T, upTo: nat): (r: Option<nat>)
    requires upTo < |s|
    ensures r.None? ==> x !in s[..upTo + 1]
    ensures r.Some? ==> r.value <= upTo && s[r.value] == x && x !in s[r.value + 1..upTo + 1]
  {
    if s[upTo] == x then Some(upTo)
    else if upTo == 0 then None
    else
      var r := RFind(s, x, upTo - 1);
      assert s[..upTo + 1] == s[..upTo] + [s[upTo]];
      assert r.Some? ==> s[r.value + 1..upTo + 1] == s[r.value + 1..upTo] + [s[upTo]];
      r
  }

  /** One behind the last separator in front of `c`, or 0. */
  function LineStart<T(==)>(s: seq<T>, x: T, c: nat): (start: nat)
    requires c <= |s|
    ensures start <= c && IsLineStart(s, start, x) && x !in s[start..c]
  {
    if c == 0 then 0
    else
      var p := RFind(s, x, c - 1);
      if p.None? then 0 else p.value + 1
  }

  // ---------------------------------------------------------------------------------------------
  // The editor as a value
  // ---------------------------------------------------------------------------------------------

  datatype Editor = Editor(
    buf: seq<CodePoint>, cursor: nat,
    history: seq<seq<CodePoint>>, histPos: int, saved: seq<CodePoint>, maxHistory: int)
  {
    /** The cursor is inside the buffer, the browse position inside the history. */
    ghost predicate Valid() {
      && cursor <= |buf|
      && -1 <= histPos < |history|
      && |history| <= Max(0, maxHistory)
      && (forall k | 0 <= k < |history| :: history[k] != [])
    }

    /** Everything the editor holds fits in four bytes per code point. */
    ghost predicate HoldsEncodable() {
      Encodable(buf) && Encodable(saved) && forall k | 0 <= k < |history| :: Encodable(history[k])
    }

    /** The buffer with `piece` put in at the cursor; ends any browsing. */
    function Put(piece: seq<CodePoint>): Editor
      requires cursor <= |buf|
    {
      this.(buf := buf[..cursor] + piece + buf[cursor..], cursor := cursor + |piece|, histPos := -1)
    }

    /** The buffer without the code point at `k`. */
    function Without(k: nat): Editor
      requires k < |buf|
    {
      this.(buf := buf[..k] + buf[k + 1..], cursor := if cursor > k then cursor - 1 else cursor)
    }

    function Rows(): (lines: seq<seq<CodePoint>>)
      ensures |lines| >= 1
    {
      Lines(buf, NEWLINE)
    }

    /** The cursor on line `row`, in the column it has now or at the end of a shorter line. */
    function OnRow(row: nat): Editor
      requires cursor <= |buf| && row < |Rows()|
    {
      this.(cursor := At(Rows(), row, Min(Col(buf, cursor, NEWLINE), |Rows()[row]|)))
    }

    /** Is there a line above? */
    predicate CanGoUp()
      requires cursor <= |buf|
    {
      Row(buf, cursor, NEWLINE) > 0
    }

    predicate CanGoDown()
      requires cursor <= |buf|
    {
      Row(buf, cursor, NEWLINE) < |Rows()| - 1
    }

    function Up(): Editor
      requires cursor <= |buf|
    {
      PlaceInText(buf, cursor, NEWLINE);
      if CanGoUp() then OnRow(Row(buf, cursor, NEWLINE) - 1) else this
    }

    function Down(): Editor
      requires cursor <= |buf|
    {
      if CanGoDown() then OnRow(Row(buf, cursor, NEWLINE) + 1) else this
    }

    /** The history entry at `pos` in the buffer, or the draft for -1, with the cursor at its end. */
    function Browse(pos: int): Editor
      requires -1 <= pos < |history|
    {
      var draft := if histPos == -1 then buf else saved;
      var text := if pos == -1 then draft else history[pos];
      Editor(text, |text|, history, pos, draft, maxHistory)
    }

    function Prev(): Editor
      requires Valid()
    {
      if histPos + 1 < |history| then Browse(histPos + 1) else this
    }

    function Next(): Editor
      requires Valid()
    {
      if histPos == -1 then this else Browse(histPos - 1)
    }

    function Commit(): Editor {
      var longer := if buf == [] then history else [buf] + history;
      var kept := if |longer| > Max(0, maxHistory) && buf != [] then longer[..|longer| - 1] else longer;
      Editor([], 0, kept, -1, saved, maxHistory)
    }

    function WithText(text: seq<CodePoint>): Editor {
      this.(buf := text, cursor := |text|, histPos := -1)
    }
  }

  // ---------------------------------------------------------------------------------------------
  // Up and down find the line by its separators
  // ---------------------------------------------------------------------------------------------

  /** The line found by two backward searches is the previous row. */
  lemma UpLandsOnPreviousRow(e: Editor, nl: nat, prevStart: nat)
    requires nl < e.cursor <= |e.buf| && e.buf[nl] == NEWLINE && NEWLINE !in e.buf[nl + 1..e.cursor]
    requires IsLineStart(e.buf, prevStart, NEWLINE) && prevStart <= nl && NEWLINE !in e.buf[prevStart..nl]
    ensures e.CanGoUp()
    ensures e.Up() == e.(cursor := prevStart + Min(e.cursor - nl - 1, nl - prevStart))
  {
    hide Row, Col, Lines, At;
    var c := prevStart + Min(e.cursor - nl - 1, nl - prevStart);
    RowAbove(e.buf, e.cursor, nl, prevStart, NEWLINE);
    assert e.buf[prevStart..c] <= e.buf[prevStart..nl];
    AtFromStart(e.buf, prevStart, c, NEWLINE);
  }

  /** The line found by two forward searches is the next row. */
  lemma DownLandsOnNextRow(e: Editor, lineStart: nat, nl: nat, nextEnd: nat)
    requires IsLineStart(e.buf, lineStart, NEWLINE) && lineStart <= e.cursor <= nl < nextEnd <= |e.buf|
    requires NEWLINE !in e.buf[lineStart..e.cursor] && NEWLINE !in e.buf[e.cursor..nl] && e.buf[nl] == NEWLINE
    requires NEWLINE !in e.buf[nl + 1..nextEnd] && (nextEnd < |e.buf| ==> e.buf[nextEnd] == NEWLINE)
    ensures e.CanGoDown()
    ensures e.Down() == e.(cursor := nl + 1 + Min(e.cursor - lineStart, nextEnd - nl - 1))
  {
    hide Row, Col, Lines, At;
    var c := nl + 1 + Min(e.cursor - lineStart, nextEnd - nl - 1);
    RowBelow(e.buf, lineStart, e.cursor, nl, nextEnd, NEWLINE);
    assert e.buf[nl + 1..c] <= e.buf[nl + 1..nextEnd];
    AtFromStart(e.buf, nl + 1, c, NEWLINE);
  }

  // ---------------------------------------------------------------------------------------------
  // The editor as an object
  // ---------------------------------------------------------------------------------------------

  class InputLine {
    var buf: seq<CodePoint>
    var cursor: nat
    var history: seq<seq<CodePoint>>
    /** -1: not browsing */
    var histPos: int
    var savedInput: seq<CodePoint>
    const maxHistory: int

    function State(): Editor
      reads this
    {
      Editor(buf, cursor, history, histPos, savedInput, maxHistory)
    }

    ghost predicate Valid()
      reads this
    {
      State().Valid()
    }

    constructor (maxHistory: int)
      ensures Valid() && State() == Editor([], 0, [], -1, [], maxHistory)
    {
      buf, cursor, history, histPos, savedInput := [], 0, [], -1, [];
      this.maxHistory := maxHistory;
    }

    method Insert(ch: CodePoint)
      requires Valid()
      modifies this
      ensures Valid() && State() == old(State()).Put([ch])
    {
      buf := buf[..cursor] + [ch] + buf[cursor..];
      cursor := cursor + 1;
      histPos := -1;
    }

    /** Text that decodes to nothing changes nothing, not even the browse position. */
    method InsertText(utf8: seq<Byte>)
      requires Valid()
      modifies this
      ensures Valid()
      ensures State() == if Decode(utf8) == [] then old(State()) else old(State()).Put(Decode(utf8))
    {
      var decoded := FromUtf8(utf8);
      if decoded == [] { return; }
      buf := buf[..cursor] + decoded + buf[cursor..];
      cursor := cursor + |decoded|;
      histPos := -1;
    }

    method Backspace()
      requires Valid()
      modifies this
      ensures Valid()
      ensures State() == if old(cursor) == 0 then old(State()) else old(State()).Without(old(cursor) - 1)
    {
      if cursor == 0 { return; }
      buf := buf[..cursor - 1] + buf[cursor..];
      cursor := cursor - 1;
    }

    method DelForward()
      requires Valid()
      modifies this
      ensures Valid()
      ensures State() == if old(cursor) == |old(buf)| then old(State()) else old(State()).Without(old(cursor))
    {
      if cursor >= |buf| { return; }
      buf := buf[..cursor] + buf[cursor + 1..];
    }

    method MoveLeft()
      requires Valid()
      modifies this
      ensures Valid() && State() == old(State()).(cursor := Max(0, old(cursor) - 1))
    {
      if cursor > 0 { cursor := cursor - 1; }
    }

    method MoveRight()
      requires Valid()
      modifies this
      ensures Valid() && State() == old(State()).(cursor := Min(|old(buf)|, old(cursor) + 1))
    {
      if cursor < |buf| { cursor := cursor + 1; }
    }

    method MoveHome()
      requires Valid()
      modifies this
      ensures Valid() && State() == old(State()).(cursor := 0)
    {
      cursor := 0;
    }

    method MoveEnd()
      requires Valid()
      modifies this
      ensures Valid() && State() == old(State()).(cursor := |old(buf)|)
    {
      cursor := |buf|;
    }

    method MoveUp() returns (moved: bool)
      requires Valid()
      modifies this
      ensures Valid() && State() == old(State()).Up()
      ensures moved <==> old(State()).CanGoUp()
    {
      hide Row, Col, Lines, At;
      EdgeRows(buf, cursor, NEWLINE);
      if cursor == 0 { return false; }
      var curLineStart := RFind(buf, NEWLINE, cursor - 1);
      if curLineStart.None? { return false; }
      var nl := curLineStart.value;
      var col := cursor - nl - 1;
      var prevLineStart := LineStart(buf, NEWLINE, nl);
      var prevLineLen := nl - prevLineStart;
      UpLandsOnPreviousRow(State(), nl, prevLineStart);
      cursor := prevLineStart + Min(col, prevLineLen);
      return true;
    }

    method MoveDown() returns (moved: bool)
      requires Valid()
      modifies this
      ensures Valid() && State() == old(State()).Down()
      ensures moved <==> old(State()).CanGoDown()
    {
      hide Row, Col, Lines, At;
      EdgeRows(buf, cursor, NEWLINE);
      var nextNl := Find(buf, NEWLINE, cursor);
      if nextNl.None? {
        assert cursor == |buf| ==> buf[cursor..] == [];
        return false;
      }
      var curLineStart := LineStart(buf, NEWLINE, cursor);
      var col := cursor - curLineStart;
      var nextLineStart := nextNl.value + 1;
      var end := Find(buf, NEWLINE, nextLineStart);
      var nextLineEnd := if end.None? then |buf| else end.value;
      assert end.None? ==> buf[nextLineStart..nextLineEnd] == buf[nextLineStart..];
      var nextLineLen := nextLineEnd - nextLineStart;
      DownLandsOnNextRow(State(), curLineStart, nextNl.value, nextLineEnd);
      cursor := nextLineStart + Min(col, nextLineLen);
      return true;
    }

    method HistoryPrev()
      requires Valid()
      modifies this
      ensures Valid() && State() == old(State()).Prev()
    {
      if history == [] { return; }
      if histPos == -1 {
        savedInput := buf;
        histPos := 0;
      } else if histPos < |history| - 1 {
        histPos := histPos + 1;
      } else {
        return;
      }
      buf := history[histPos];
      cursor := |buf|;
    }

    method HistoryNext()
      requires Valid()
      modifies this
      ensures Valid() && State() == old(State()).Next()
    {
      if histPos == -1 { return; }
      if histPos == 0 {
        histPos := -1;
        buf := savedInput;
      } else {
        histPos := histPos - 1;
        buf := history[histPos];
      }
      cursor := |buf|;
    }

    method Commit() returns (line: seq<Byte>)
      requires Valid()
      modifies this
      ensures Valid() && State() == old(State()).Commit() && line == Encode(old(buf))
    {
      line := ToUtf8(buf);
      if buf != [] {
        history := [buf] + history;
        if |history| > maxHistory { history := history[..|history| - 1]; }
      }
      buf, cursor, histPos := [], 0, -1;
    }

    method Clear()
      requires Valid()
      modifies this
      ensures Valid() && State() == old(State()).WithText([])
    {
      buf, cursor, histPos := [], 0, -1;
    }

    method SetText(utf8: seq<Byte>)
      requires Valid()
      modifies this
      ensures Valid() && State() == old(State()).WithText(Decode(utf8))
    {
      buf := FromUtf8(utf8);
      cursor := |buf|;
      histPos := -1;
    }

    method Text() returns (utf8: seq<Byte>)
      ensures utf8 == Encode(buf)
    {
      utf8 := ToUtf8(buf);
    }

    /** The offset splits the encoded text where the cursor splits the buffer. */
    method CursorByteOffset() returns (offset: nat)
      requires Valid()
      ensures offset == |Encode(buf[..cursor])| <= |Encode(buf)|
      ensures Encode(buf)[..offset] == Encode(buf[..cursor]) && Encode(buf)[offset..] == Encode(buf[cursor..])
    {
      var prefix := ToUtf8(buf[..cursor]);
      offset := |prefix|;
      assert buf == buf[..cursor] + buf[cursor..];
      FlatMapConcat(EncodeOne, buf[..cursor], buf[cursor..]);
    }
  }

  // ---------------------------------------------------------------------------------------------
  // What up and down mean
  // ---------------------------------------------------------------------------------------------

  /** Up changes the row by one and keeps the column as far as the line above allows. */
  lemma UpMovesOneRow(e: Editor)
    requires e.cursor <= |e.buf| && e.CanGoUp()
    ensures e.Up() == e.(cursor := e.Up().cursor) && e.Up().cursor <= |e.buf|
    ensures var row := Row(e.buf, e.cursor, NEWLINE) - 1;
            row < |e.Rows()| && Row(e.buf, e.Up().cursor, NEWLINE) == row
            && Col(e.buf, e.Up().cursor, NEWLINE) == Min(Col(e.buf, e.cursor, NEWLINE), |e.Rows()[row]|)
  {
    hide Row, Col, Lines, At;
    var row := Row(e.buf, e.cursor, NEWLINE) - 1;
    PlaceInText(e.buf, e.cursor, NEWLINE);
    PlaceAt(e.buf, row, Min(Col(e.buf, e.cursor, NEWLINE), |e.Rows()[row]|), NEWLINE);
  }

  lemma DownMovesOneRow(e: Editor)
    requires e.cursor <= |e.buf| && e.CanGoDown()
    ensures e.Down() == e.(cursor := e.Down().cursor) && e.Down().cursor <= |e.buf|
    ensures var row := Row(e.buf, e.cursor, NEWLINE) + 1;
            row < |e.Rows()| && Row(e.buf, e.Down().cursor, NEWLINE) == row
            && Col(e.buf, e.Down().cursor, NEWLINE) == Min(Col(e.buf, e.cursor, NEWLINE), |e.Rows()[row]|)
  {
    hide Row, Col, Lines, At;
    var row := Row(e.buf, e.cursor, NEWLINE) + 1;
    PlaceAt(e.buf, row, Min(Col(e.buf, e.cursor, NEWLINE), |e.Rows()[row]|), NEWLINE);
  }

  /** Up and then down comes back exactly when the line above is long enough for the column. */
  lemma UpThenDown(e: Editor)
    requires e.cursor <= |e.buf| && e.CanGoUp()
    ensures e.Up().cursor <= |e.buf| && e.Up().CanGoDown() && Row(e.buf, e.cursor, NEWLINE) - 1 < |e.Rows()|
    ensures e.Up().Down() == e
            <==> Col(e.buf, e.cursor, NEWLINE) <= |e.Rows()[Row(e.buf, e.cursor, NEWLINE) - 1]|
  {
    hide Row, Col, Lines, At;
    PlaceInText(e.buf, e.cursor, NEWLINE);
    UpMovesOneRow(e);
    DownMovesOneRow(e.Up());
    AtOfPlace(e.buf, e.cursor, NEWLINE);
  }

  /** Down and then up comes back exactly when the line below is long enough for the column. */
  lemma DownThenUp(e: Editor)
    requires e.cursor <= |e.buf| && e.CanGoDown()
    ensures e.Down().cursor <= |e.buf| && e.Down().CanGoUp()
    ensures e.Down().Up() == e
            <==> Col(e.buf, e.cursor, NEWLINE) <= |e.Rows()[Row(e.buf, e.cursor, NEWLINE) + 1]|
  {
    hide Row, Col, Lines, At;
    PlaceInText(e.buf, e.cursor, NEWLINE);
    DownMovesOneRow(e);
    UpMovesOneRow(e.Down());
    AtOfPlace(e.buf, e.cursor, NEWLINE);
  }

  // ---------------------------------------------------------------------------------------------
  // What one edit undoes
  // ---------------------------------------------------------------------------------------------

  /** Backspacing once per code point takes inserted text out again. */
  lemma {:induction false} BackspaceUndoesPut(e: Editor, piece: seq<CodePoint>)
    requires e.cursor <= |e.buf|
    ensures Backspaces(e.Put(piece), |piece|) == e.(histPos := -1)
    decreases |piece|
  {
    if piece == [] {
      assert e.buf[..e.cursor] + [] + e.buf[e.cursor..] == e.buf;
    } else {
      var shorter := piece[..|piece| - 1];
      assert e.Put(piece).Without(e.Put(piece).cursor - 1) == e.Put(shorter);
      BackspaceUndoesPut(e, shorter);
    }
  }

  /** `n` presses of backspace, each with something in front of the cursor. */
  function Backspaces(e: Editor, n: nat): Editor
    requires n <= e.cursor <= |e.buf|
    decreases n
  {
    if n == 0 then e else Backspaces(e.Without(e.cursor - 1), n - 1)
  }

  // ---------------------------------------------------------------------------------------------
  // History
  // ---------------------------------------------------------------------------------------------

  function PrevTimes(e: Editor, k: nat): (r: Editor)
    requires e.Valid()
    ensures r.Valid()
  {
    if k == 0 then e else PrevTimes(e, k - 1).Prev()
  }

  function NextTimes(e: Editor, k: nat): (r: Editor)
    requires e.Valid()
    ensures r.Valid()
  {
    if k == 0 then e else NextTimes(e, k - 1).Next()
  }

  /** Going back shows the entries from the newest to the oldest and stops there. */
  lemma {:induction false} PrevShowsEntries(e: Editor, k: nat)
    requires e.Valid() && e.histPos == -1 && k <= |e.history|
    ensures PrevTimes(e, k) == if k == 0 then e else e.Browse(k - 1)
  {
    if k > 0 {
      PrevShowsEntries(e, k - 1);
    }
  }

  /** Past the oldest entry nothing changes any more. */
  lemma {:induction false} PrevStopsAtOldest(e: Editor, k: nat)
    requires e.Valid() && e.histPos == -1 && k >= |e.history|
    ensures PrevTimes(e, k) == PrevTimes(e, |e.history|)
  {
    if k > |e.history| {
      PrevStopsAtOldest(e, k - 1);
      PrevShowsEntries(e, |e.history|);
    }
  }

  lemma {:induction false} NextWalksBack(e: Editor, at: nat, k: nat)
    requires e.Valid() && e.histPos == -1 && at < |e.history| && k <= at + 1
    ensures NextTimes(e.Browse(at), k) == e.Browse(at - k)
  {
    if k > 0 {
      NextWalksBack(e, at, k - 1);
    }
  }

  /** Browsing back and forth by the same amount restores the draft, with the cursor at its end. */
  lemma HistoryRoundTrip(e: Editor, k: nat)
    requires e.Valid() && e.histPos == -1 && k <= |e.history|
    ensures var r := NextTimes(PrevTimes(e, k), k);
            r == if k == 0 then e else e.(cursor := |e.buf|, saved := e.buf)
  {
    PrevShowsEntries(e, k);
    if k > 0 {
      NextWalksBack(e, k - 1, k);
    }
  }

  // ---------------------------------------------------------------------------------------------
  // Every run of the editor
  // ---------------------------------------------------------------------------------------------

  datatype Key =
    | Insert(ch: CodePoint) | InsertText(utf8: seq<Byte>) | Backspace | DelForward
    | Left | Right | Home | End | Up | Down | Prev | Next | Commit | Clear | SetText(utf8: seq<Byte>)

  /** What each method does, as the class states it. */
  function Press(e: Editor, key: Key): Editor
    requires e.Valid()
  {
    match key
    case Insert(ch) => e.Put([ch])
    case InsertText(utf8) => if Decode(utf8) == [] then e else e.Put(Decode(utf8))
    case Backspace => if e.cursor == 0 then e else e.Without(e.cursor - 1)
    case DelForward => if e.cursor == |e.buf| then e else e.Without(e.cursor)
    case Left => e.(cursor := Max(0, e.cursor - 1))
    case Right => e.(cursor := Min(|e.buf|, e.cursor + 1))
    case Home => e.(cursor := 0)
    case End => e.(cursor := |e.buf|)
    case Up => e.Up()
    case Down => e.Down()
    case Prev => e.Prev()
    case Next => e.Next()
    case Commit => e.Commit()
    case Clear => e.WithText([])
    case SetText(utf8) => e.WithText(Decode(utf8))
  }

  lemma PressKeepsValid(e: Editor, key: Key)
    requires e.Valid()
    ensures Press(e, key).Valid()
  {
    hide Row, Col, Lines, At;
    match key
    case Up => if e.CanGoUp() { UpMovesOneRow(e); }
    case Down => if e.CanGoDown() { DownMovesOneRow(e); }
    case _ =>
  }

  lemma PressKeepsEncodable(e: Editor, key: Key)
    requires e.Valid() && e.HoldsEncodable() && (key.Insert? ==> key.ch <= MAX_CODE_POINT)
    ensures Press(e, key).HoldsEncodable()
  {
    hide Row, Col, Lines, At;
    match key
    case InsertText(utf8) => DecodeIsClean(utf8);
    case SetText(utf8) => DecodeIsClean(utf8);
    case _ =>
  }

  function Run(e: Editor, keys: seq<Key>): (r: Editor)
    requires e.Valid()
    ensures r.Valid()
  {
    if keys == [] then e
    else
      var before := Run(e, keys[..|keys| - 1]);
      PressKeepsValid(before, keys[|keys| - 1]);
      Press(before, keys[|keys| - 1])
  }

  /** A text that the keys of a run can have put into the editor is one that four bytes per code point
      can carry, provided single insertions are. */
  lemma {:induction false} RunHoldsEncodable(maxHistory: int, keys: seq<Key>)
    requires forall k | 0 <= k < |keys| :: keys[k].Insert? ==> keys[k].ch <= MAX_CODE_POINT
    ensures Run(Editor([], 0, [], -1, [], maxHistory), keys).HoldsEncodable()
  {
    if keys != [] {
      RunHoldsEncodable(maxHistory, keys[..|keys| - 1]);
      PressKeepsEncodable(Run(Editor([], 0, [], -1, [], maxHistory), keys[..|keys| - 1]), keys[|keys| - 1]);
    }
  }

  /** The non-empty lines committed in a run, newest first. */
  function Committed(e: Editor, keys: seq<Key>): seq<seq<CodePoint>>
    requires e.Valid()
  {
    if keys == [] then []
    else
      var init := keys[..|keys| - 1];
      var before := Run(e, init);
      if keys[|keys| - 1].Commit? && before.buf != [] then [before.buf] + Committed(e, init)
      else Committed(e, init)
  }

  lemma PressKeepsLimit(e: Editor, key: Key)
    requires e.Valid()
    ensures Press(e, key).maxHistory == e.maxHistory
    ensures (key.Commit? && e.buf != []) || Press(e, key).history == e.history
  {
    hide Row, Col, Lines, At;
  }

  lemma {:induction false} RunKeepsLimit(e: Editor, keys: seq<Key>)
    requires e.Valid()
    ensures Run(e, keys).maxHistory == e.maxHistory
  {
    if keys != [] {
      RunKeepsLimit(e, keys[..|keys| - 1]);
      PressKeepsLimit(Run(e, keys[..|keys| - 1]), keys[|keys| - 1]);
    }
  }

  lemma CommitKeepsNewest(e: Editor, committed: seq<seq<CodePoint>>)
    requires e.buf != [] && e.history == committed[..Min(|committed|, Max(0, e.maxHistory))]
    ensures var longer := [e.buf] + committed;
            e.Commit().history == longer[..Min(|longer|, Max(0, e.maxHistory))]
  {
    var m := Max(0, e.maxHistory);
    var longer := [e.buf] + committed;
    if |committed| >= m > 0 {
      assert ([e.buf] + committed[..m])[..m] == longer[..m];
    }
  }

  /** The history is the newest `maxHistory` of all lines ever committed. */
  lemma {:induction false} HistoryIsNewestCommitted(maxHistory: int, keys: seq<Key>)
    ensures var e := Editor([], 0, [], -1, [], maxHistory);
            Run(e, keys).history == Committed(e, keys)[..Min(|Committed(e, keys)|, Max(0, maxHistory))]
  {
    if keys != [] {
      var e, init := Editor([], 0, [], -1, [], maxHistory), keys[..|keys| - 1];
      HistoryIsNewestCommitted(maxHistory, init);
      PressKeepsLimit(Run(e, init), keys[|keys| - 1]);
      RunKeepsLimit(e, init);
      if keys[|keys| - 1].Commit? && Run(e, init).buf != [] {
        CommitKeepsNewest(Run(e, init), Committed(e, init));
      }
    }
  }

  // ---------------------------------------------------------------------------------------------
  // What browsing shows, told from the keys
  // ---------------------------------------------------------------------------------------------

  function Fresh(maxHistory: int): (e: Editor)
    ensures e.Valid()
  {
    Editor([], 0, [], -1, [], maxHistory)
  }

  lemma HistoryEntry(maxHistory: int, keys: seq<Key>, i: nat)
    requires i < |Run(Fresh(maxHistory), keys).history|
    ensures i < |Committed(Fresh(maxHistory), keys)|
    ensures Run(Fresh(maxHistory), keys).history[i] == Committed(Fresh(maxHistory), keys)[i]
  {
    HistoryIsNewestCommitted(maxHistory, keys);
  }

  /** In every run that ends at the draft, the k-th step back shows the k-th newest line that has been
      committed, with the cursor at its end. */
  lemma BackShowsCommitted(maxHistory: int, keys: seq<Key>, k: nat)
    requires Run(Fresh(maxHistory), keys).histPos == -1
    requires 1 <= k <= |Run(Fresh(maxHistory), keys).history|
    ensures var e := Fresh(maxHistory); var r := PrevTimes(Run(e, keys), k);
            k <= |Committed(e, keys)| && r.buf == Committed(e, keys)[k - 1] && r.cursor == |r.buf|
  {
    hide Run, Committed;
    var now := Run(Fresh(maxHistory), keys);
    PrevShowsEntries(now, k);
    HistoryEntry(maxHistory, keys, k - 1);
  }

  /** And j steps forward from there show the newer ones, and at last the draft. */
  lemma ForthShowsCommitted(maxHistory: int, keys: seq<Key>, k: nat, j: nat)
    requires Run(Fresh(maxHistory), keys).histPos == -1
    requires 1 <= j <= k <= |Run(Fresh(maxHistory), keys).history|
    ensures var e := Fresh(maxHistory); var r := NextTimes(PrevTimes(Run(e, keys), k), j);
            && k <= |Committed(e, keys)| && r.cursor == |r.buf|
            && r.buf == if j < k then Committed(e, keys)[k - j - 1] else Run(e, keys).buf
  {
    hide Run, Committed;
    var now := Run(Fresh(maxHistory), keys);
    PrevShowsEntries(now, k);
    NextWalksBack(now, k - 1, j);
    HistoryEntry(maxHistory, keys, k - 1);
    if j < k { HistoryEntry(maxHistory, keys, k - j - 1); }
  }

  /** Where a key leaves the browsing of a history of `n` entries: what puts text in, and `commit`, `clear` and
      `set_text`, go back to the draft; deleting and moving do not. */
  function MovedTo(at: int, n: nat, key: Key): int {
    match key
    case Insert(_) => -1
    case InsertText(utf8) => if Decode(utf8) == [] then at else -1
    case Commit => -1
    case Clear => -1
    case SetText(_) => -1
    case Prev => if at + 1 < n then at + 1 else at
    case Next => if at == -1 then -1 else at - 1
    case _ => at
  }

  /** How far back the editor is, by its keys. */
  function BrowsedTo(e: Editor, keys: seq<Key>): int
    requires e.Valid()
  {
    if keys == [] then e.histPos
    else
      var init := keys[..|keys| - 1];
      MovedTo(BrowsedTo(e, init), |Run(e, init).history|, keys[|keys| - 1])
  }

  /** What was in the editor when browsing last began. */
  function Draft(e: Editor, keys: seq<Key>): seq<CodePoint>
    requires e.Valid()
  {
    if keys == [] then e.saved
    else
      var init := keys[..|keys| - 1];
      if keys[|keys| - 1].Prev? && BrowsedTo(e, init) == -1 && Run(e, init).history != [] then Run(e, init).buf
      else Draft(e, init)
  }

  lemma PressBrowses(e: Editor, key: Key)
    requires e.Valid()
    ensures Press(e, key).histPos == MovedTo(e.histPos, |e.history|, key)
    ensures Press(e, key).saved == if key.Prev? && e.histPos == -1 && e.history != [] then e.buf else e.saved
  {
    hide Row, Col, Lines, At, Decode;
  }

  lemma {:induction false} RunBrowses(e: Editor, keys: seq<Key>)
    requires e.Valid()
    ensures Run(e, keys).histPos == BrowsedTo(e, keys) && Run(e, keys).saved == Draft(e, keys)
  {
    hide Press, MovedTo;
    if keys != [] {
      RunBrowses(e, keys[..|keys| - 1]);
      PressBrowses(Run(e, keys[..|keys| - 1]), keys[|keys| - 1]);
    }
  }

  lemma RunSnoc(e: Editor, keys: seq<Key>, key: Key)
    requires e.Valid()
    ensures Run(e, keys + [key]) == Press(Run(e, keys), key)
  {
    assert (keys + [key])[..|keys|] == keys;
    hide Press;
  }

  /** In every run, wherever it has browsed to and whatever was edited there: one step back shows the next
      older committed line, if it is still kept. */
  lemma PrevShows(maxHistory: int, keys: seq<Key>)
    ensures var e := Fresh(maxHistory); var now, then_ := Run(e, keys), Run(e, keys + [Prev]);
            var i := BrowsedTo(e, keys) + 1;
            if i < |now.history| then
              0 <= i < |Committed(e, keys)| && then_.buf == Committed(e, keys)[i] && then_.cursor == |then_.buf|
            else then_ == now
  {
    hide Run, Committed, BrowsedTo, Draft;
    var e := Fresh(maxHistory);
    RunSnoc(e, keys, Prev);
    RunBrowses(e, keys);
    var i := Run(e, keys).histPos + 1;
    if i < |Run(e, keys).history| { HistoryEntry(maxHistory, keys, i); }
  }

  /** One step forward shows the next newer one, or the draft that browsing began with. */
  lemma NextShows(maxHistory: int, keys: seq<Key>)
    ensures var e := Fresh(maxHistory); var now, then_ := Run(e, keys), Run(e, keys + [Next]);
            var i := BrowsedTo(e, keys) - 1;
            if i >= 0 then i < |Committed(e, keys)| && then_.buf == Committed(e, keys)[i] && then_.cursor == |then_.buf|
            else if i == -1 then then_.buf == Draft(e, keys) && then_.cursor == |then_.buf|
            else then_ == now
  {
    hide Run, Committed, BrowsedTo, Draft;
    var e := Fresh(maxHistory);
    RunSnoc(e, keys, Next);
    RunBrowses(e, keys);
    var i := Run(e, keys).histPos - 1;
    if i >= 0 { HistoryEntry(maxHistory, keys, i); }
  }

  // ---------------------------------------------------------------------------------------------
  // Editing, on the text in front of the cursor and the text behind it
  // ---------------------------------------------------------------------------------------------

  datatype Split = Split(front: seq<CodePoint>, behind: seq<CodePoint>)

  function SplitOf(e: Editor): Split
    requires e.cursor <= |e.buf|
  {
    Split(e.buf[..e.cursor], e.buf[e.cursor..])
  }

  predicate IsEdit(key: Key) { !(key.Up? || key.Down? || key.Prev? || key.Next?) }

  function Edited(s: Split, key: Key): Split
    requires IsEdit(key)
  {
    var n := |s.front|;
    match key
    case Insert(ch) => Split(s.front + [ch], s.behind)
    case InsertText(utf8) => Split(s.front + Decode(utf8), s.behind)
    case Backspace => if n == 0 then s else Split(s.front[..n - 1], s.behind)
    case DelForward => if s.behind == [] then s else Split(s.front, s.behind[1..])
    case Left => if n == 0 then s else Split(s.front[..n - 1], [s.front[n - 1]] + s.behind)
    case Right => if s.behind == [] then s else Split(s.front + [s.behind[0]], s.behind[1..])
    case Home => Split([], s.front + s.behind)
    case End => Split(s.front + s.behind, [])
    case SetText(utf8) => Split(Decode(utf8), [])
    case _ => Split([], [])
  }

  function EditedBy(s: Split, keys: seq<Key>): Split
    requires forall k | 0 <= k < |keys| :: IsEdit(keys[k])
  {
    if keys == [] then s else Edited(EditedBy(s, keys[..|keys| - 1]), keys[|keys| - 1])
  }

  lemma PutSplits(e: Editor, piece: seq<CodePoint>)
    requires e.cursor <= |e.buf|
    ensures e.Put(piece).cursor <= |e.Put(piece).buf|
    ensures SplitOf(e.Put(piece)) == Split(SplitOf(e).front + piece, SplitOf(e).behind)
  {
    var r := e.Put(piece);
    assert r.buf == (e.buf[..e.cursor] + piece) + e.buf[e.cursor..];
  }

  lemma WithoutSplits(e: Editor)
    requires e.cursor <= |e.buf|
    ensures e.cursor > 0 ==>
              e.Without(e.cursor - 1).cursor <= |e.Without(e.cursor - 1).buf|
              && SplitOf(e.Without(e.cursor - 1)) == Split(SplitOf(e).front[..e.cursor - 1], SplitOf(e).behind)
    ensures e.cursor < |e.buf| ==>
              e.Without(e.cursor).cursor <= |e.Without(e.cursor).buf|
              && SplitOf(e.Without(e.cursor)) == Split(SplitOf(e).front, SplitOf(e).behind[1..])
  {
  }

  lemma MoveSplits(e: Editor)
    requires e.cursor <= |e.buf|
    ensures e.cursor > 0 ==>
              SplitOf(e.(cursor := e.cursor - 1))
              == Split(SplitOf(e).front[..e.cursor - 1], [SplitOf(e).front[e.cursor - 1]] + SplitOf(e).behind)
    ensures e.cursor < |e.buf| ==>
              SplitOf(e.(cursor := e.cursor + 1))
              == Split(SplitOf(e).front + [SplitOf(e).behind[0]], SplitOf(e).behind[1..])
    ensures e.buf == SplitOf(e).front + SplitOf(e).behind
  {
  }

  lemma PressEdits(e: Editor, key: Key)
    requires e.Valid() && IsEdit(key)
    ensures Press(e, key).cursor <= |Press(e, key).buf| && SplitOf(Press(e, key)) == Edited(SplitOf(e), key)
  {
    hide Row, Col, Lines, At, Decode;
    match key
    case Insert(ch) => hide SplitOf; PutSplits(e, [ch]);
    case InsertText(utf8) =>
      if Decode(utf8) != [] {
        hide SplitOf;
        PutSplits(e, Decode(utf8));
      }
    case Backspace => WithoutSplits(e);
    case DelForward => WithoutSplits(e);
    case _ => MoveSplits(e);
  }

  /** In every run of edits the flat buffer with its cursor is the two texts, edited where they meet. */
  lemma {:induction false} EditsMeetAtCursor(e: Editor, keys: seq<Key>)
    requires e.Valid() && forall k | 0 <= k < |keys| :: IsEdit(keys[k])
    ensures SplitOf(Run(e, keys)) == EditedBy(SplitOf(e), keys)
  {
    hide IsEdit, Press;
    if keys != [] {
      EditsMeetAtCursor(e, keys[..|keys| - 1]);
      PressEdits(Run(e, keys[..|keys| - 1]), keys[|keys| - 1]);
    }
  }

  /** There is a line above exactly when a separator is in front of the cursor, and a line below exactly when
      one is behind it; otherwise the keys do nothing. */
  lemma VerticalIff(e: Editor)
    requires e.cursor <= |e.buf|
    ensures e.CanGoUp() <==> NEWLINE in e.buf[..e.cursor]
    ensures e.CanGoDown() <==> NEWLINE in e.buf[e.cursor..]
    ensures (!e.CanGoUp() ==> e.Up() == e) && (!e.CanGoDown() ==> e.Down() == e)
  {
    hide Lines, Col, At;
    OneLine(e.buf[..e.cursor], NEWLINE);
    OneLine(e.buf[e.cursor..], NEWLINE);
    LinesConcat(e.buf[..e.cursor], e.buf[e.cursor..], NEWLINE);
    assert e.buf == e.buf[..e.cursor] + e.buf[e.cursor..];
  }
}
