/** The aligned-column table renderer, and reading a rendered table back. Lengths are byte lengths, as
    in the source. */
module Tables {
  import GoText
  import Sequences

  const GAP := "   "

  function Spaces(n: nat): (s: string)
    ensures |s| == n && forall i | 0 <= i < n :: s[i] == ' '
  {
    if n == 0 then "" else Spaces(n - 1) + " "
  }

  /** A missing cell reads as empty. */
  function Cell(cells: seq<string>, i: nat): string { if i < |cells| then cells[i] else "" }

  function Max(a: nat, b: nat): nat { if a < b then b else a }

  /** The longest cell of column `i`, header included. */
  function Width(headers: seq<string>, rows: seq<seq<string>>, i: nat): nat {
    if rows == [] then |Cell(headers, i)|
    else Max(Width(headers, rows[..|rows| - 1], i), |Cell(rows[|rows| - 1], i)|)
  }

  function Widths(headers: seq<string>, rows: seq<seq<string>>): seq<nat> {
    seq(|headers|, i requires 0 <= i < |headers| => Width(headers, rows, i))
  }

  predicate Fits(cells: seq<string>, widths: seq<nat>) {
    forall i | 0 <= i < |widths| :: |Cell(cells, i)| <= widths[i]
  }

  function Padded(cell: string, width: nat): (p: string)
    requires |cell| <= width
    ensures |p| == width
  {
    cell + Spaces(width - |cell|)
  }

  /** The first `n` columns of a line, without the newline. */
  function RowText(cells: seq<string>, widths: seq<nat>, n: nat): string
    requires Fits(cells, widths) && n <= |widths|
  {
    if n == 0 then ""
    else RowText(cells, widths, n - 1) + (if n > 1 then GAP else "") + Padded(Cell(cells, n - 1), widths[n - 1])
  }

  function Line(cells: seq<string>, widths: seq<nat>): string
    requires Fits(cells, widths)
  {
    RowText(cells, widths, |widths|) + "\n"
  }

  function RowLines(rows: seq<seq<string>>, widths: seq<nat>): string
    requires forall r | r in rows :: Fits(r, widths)
  {
    if rows == [] then "" else RowLines(rows[..|rows| - 1], widths) + Line(rows[|rows| - 1], widths)
  }

  lemma {:induction false} WidthsFit(headers: seq<string>, rows: seq<seq<string>>)
    ensures Fits(headers, Widths(headers, rows))
    ensures forall r | r in rows :: Fits(r, Widths(headers, rows))
  {
    if rows != [] {
      var init, last := rows[..|rows| - 1], rows[|rows| - 1];
      WidthsFit(headers, init);
      forall r, i | r in rows && 0 <= i < |headers| ensures |Cell(r, i)| <= Width(headers, rows, i) {
        if r in init { assert |Cell(r, i)| <= Widths(headers, init)[i]; }
      }
      forall i | 0 <= i < |headers| ensures |Cell(headers, i)| <= Width(headers, rows, i) {
        assert |Cell(headers, i)| <= Widths(headers, init)[i];
      }
    }
  }

  function Heading(title: string): string { if title == "" then "" else title + "\n" }

  lemma AllFit(headers: seq<string>, rows: seq<seq<string>>)
    ensures forall r | r in [headers] + rows :: Fits(r, Widths(headers, rows))
  {
    WidthsFit(headers, rows);
  }

  /** The rendered table: the title line if there is a title, the header line, and one line a row. */
  function Rendered(title: string, headers: seq<string>, rows: seq<seq<string>>): string {
    AllFit(headers, rows);
    Heading(title) + RowLines([headers] + rows, Widths(headers, rows))
  }

  lemma CellAppends(b: string, row: string, gap: string, cell: string, pad: string)
    ensures b + row + gap + cell + pad == b + (row + gap + (cell + pad))
    ensures gap == "" ==> b + row + cell + pad == b + (row + gap + (cell + pad))
  {}

  lemma NextLine(rows: seq<seq<string>>, widths: seq<nat>, k: nat)
    requires k < |rows| && forall r | r in rows :: Fits(r, widths)
    ensures forall s: string :: s + RowLines(rows[..k + 1], widths) ==
              s + RowLines(rows[..k], widths) + Line(rows[k], widths)
  {
    assert rows[..k + 1][..k] == rows[..k];
  }

  class Table {
    var title: string
    var headers: seq<string>
    var rows: seq<seq<string>>

    constructor (headers: seq<string>)
      ensures this.headers == headers && title == "" && rows == []
    {
      this.headers := headers;
      title, rows := "", [];
    }

    method SetTitle(s: string)
      modifies this`title
      ensures title == s
    {
      title := s;
    }

    method AddRow(values: seq<string>)
      modifies this`rows
      ensures rows == old(rows) + [values]
    {
      rows := rows + [values];
    }

    method WriteRow(b: string, cells: seq<string>, widths: array<nat>) returns (r: string)
      requires widths.Length == |headers| && Fits(cells, widths[..])
      ensures r == b + Line(cells, widths[..])
    {
      r := b;
      for i := 0 to |headers|
        invariant r == b + RowText(cells, widths[..], i)
      {
        var cell := if i < |cells| then cells[i] else "";
        ghost var row, gap, pad := RowText(cells, widths[..], i), if i > 0 then GAP else "", Spaces(widths[i] - |cell|);
        if i > 0 { r := r + GAP; }
        r := r + cell;
        r := r + Spaces(widths[i] - |cell|);
        CellAppends(b, row, gap, cell, pad);
      }
      r := r + "\n";
    }

    /** The two width passes of the renderer: headers first, then every row. */
    method Measure() returns (widths: array<nat>)
      ensures fresh(widths) && widths.Length == |headers|
      ensures widths[..] == Widths(headers, rows)
    {
      widths := new nat[|headers|](i requires 0 <= i < |headers| reads this => |headers[i]|);
      for k := 0 to |rows|
        invariant forall i | 0 <= i < |headers| :: widths[i] == Width(headers, rows[..k], i)
      {
        assert rows[..k + 1][..k] == rows[..k];
        Widen(widths, rows[k]);
      }
      assert rows[..|rows|] == rows;
    }

    /** One row of the second pass. */
    method Widen(widths: array<nat>, row: seq<string>)
      modifies widths
      ensures forall i | 0 <= i < widths.Length :: widths[i] == Max(old(widths[i]), |Cell(row, i)|)
    {
      for i := 0 to widths.Length
        invariant forall j | 0 <= j < i :: widths[j] == Max(old(widths[j]), |Cell(row, j)|)
        invariant forall j | i <= j < widths.Length :: widths[j] == old(widths[j])
      {
        var cell := if i < |row| then row[i] else "";
        if |cell| > widths[i] {
          widths[i] := |cell|;
        }
      }
    }

    /** The header line and then every row. */
    method WriteAll(b: string, widths: array<nat>) returns (r: string)
      requires widths.Length == |headers| && forall c | c in [headers] + rows :: Fits(c, widths[..])
      ensures r == b + RowLines([headers] + rows, widths[..])
    {
      ghost var ws, all := widths[..], [headers] + rows;
      NextLine(all, ws, 0);
      r := WriteRow(b, headers, widths);
      for k := 0 to |rows|
        invariant widths[..] == ws
        invariant r == b + RowLines(all[..k + 1], ws)
      {
        NextLine(all, ws, k + 1);
        assert all[k + 1] == rows[k];
        r := WriteRow(r, rows[k], widths);
      }
      assert all[..|rows| + 1] == all;
    }

    method Render() returns (r: string)
      ensures r == Rendered(title, headers, rows)
    {
      r := "";
      if title != "" {
        r := title + "\n";
      }
      var widths := Measure();
      AllFit(headers, rows);
      r := WriteAll(r, widths);
    }
  }

  // ----- Columns -----

  /** Where column `i` starts in every line. */
  function Offset(widths: seq<nat>, i: nat): nat
    requires i <= |widths|
  {
    if i == 0 then 0 else Offset(widths, i - 1) + widths[i - 1] + |GAP|
  }

  function LineLength(widths: seq<nat>, n: nat): nat
    requires n <= |widths|
  {
    if n == 0 then 0 else Offset(widths, n - 1) + widths[n - 1]
  }

  lemma {:induction false} LineLengths(cells: seq<string>, widths: seq<nat>, n: nat)
    requires Fits(cells, widths) && n <= |widths|
    ensures |RowText(cells, widths, n)| == LineLength(widths, n)
  {
    if n > 0 { LineLengths(cells, widths, n - 1); }
  }

  lemma {:induction false} LaterOffset(widths: seq<nat>, i: nat, n: nat)
    requires i < n <= |widths|
    ensures Offset(widths, i) + widths[i] <= LineLength(widths, n)
  {
    if i < n - 1 { LaterOffset(widths, i, n - 1); }
  }

  /** All lines have the same length, and column `i` of each is its cell padded to the width. */
  lemma {:induction false} ColumnsLineUp(cells: seq<string>, widths: seq<nat>, n: nat, i: nat)
    requires Fits(cells, widths) && i < n <= |widths|
    ensures |RowText(cells, widths, n)| == LineLength(widths, n) >= Offset(widths, i) + widths[i]
    ensures RowText(cells, widths, n)[Offset(widths, i)..Offset(widths, i) + widths[i]] ==
              Padded(Cell(cells, i), widths[i])
    decreases n
  {
    LineLengths(cells, widths, n);
    LaterOffset(widths, i, n);
    var gap := if n > 1 then GAP else "";
    var row, last := RowText(cells, widths, n - 1), Padded(Cell(cells, n - 1), widths[n - 1]);
    if i == n - 1 {
      LineLengths(cells, widths, n - 1);
      SliceOfSuffix(row + gap, last);
    } else {
      ColumnsLineUp(cells, widths, n - 1, i);
      SliceOfPrefix(row, gap, last, Offset(widths, i), Offset(widths, i) + widths[i]);
    }
  }

  lemma SliceOfPrefix(a: string, b: string, c: string, from: nat, to: nat)
    requires from <= to <= |a|
    ensures (a + b + c)[from..to] == a[from..to]
  {}

  lemma SliceOfSuffix(a: string, b: string)
    ensures (a + b)[|a|..|a| + |b|] == b
  {}

  function TrimRight(s: string): string {
    if s != "" && s[|s| - 1] == ' ' then TrimRight(s[..|s| - 1]) else s
  }

  lemma {:induction false} TrimPadding(cell: string, pad: nat)
    ensures TrimRight(cell + Spaces(pad)) == TrimRight(cell)
  {
    if pad == 0 {
      assert cell + Spaces(0) == cell;
    } else {
      TrimPadding(cell, pad - 1);
      assert (cell + Spaces(pad))[..|cell| + pad - 1] == cell + Spaces(pad - 1);
    }
  }

  predicate EndsInSpace(s: string) { s != "" && s[|s| - 1] == ' ' }

  function Column(line: string, widths: seq<nat>, i: nat): string
    requires i < |widths| && Offset(widths, i) + widths[i] <= |line|
  {
    TrimRight(line[Offset(widths, i)..Offset(widths, i) + widths[i]])
  }

  lemma {:induction false} TrimShortens(s: string)
    ensures |TrimRight(s)| <= |s| && (TrimRight(s) == s <==> !EndsInSpace(s))
  {
    if EndsInSpace(s) { TrimShortens(s[..|s| - 1]); }
  }

  /** Slicing a column and trimming it gives back the cell exactly when the cell does not itself end in
      a space; a cell the row does not have comes back empty. */
  lemma ColumnRecoversCellIff(cells: seq<string>, widths: seq<nat>, i: nat)
    requires Fits(cells, widths) && i < |widths|
    ensures Offset(widths, i) + widths[i] <= |RowText(cells, widths, |widths|)|
    ensures Column(RowText(cells, widths, |widths|), widths, i) == Cell(cells, i) <==> !EndsInSpace(Cell(cells, i))
  {
    ColumnsLineUp(cells, widths, |widths|, i);
    TrimmedColumn(RowText(cells, widths, |widths|), Cell(cells, i), widths, i);
  }

  lemma TrimmedColumn(line: string, cell: string, widths: seq<nat>, i: nat)
    requires i < |widths| && |cell| <= widths[i] && Offset(widths, i) + widths[i] <= |line|
    requires line[Offset(widths, i)..Offset(widths, i) + widths[i]] == Padded(cell, widths[i])
    ensures Column(line, widths, i) == cell <==> !EndsInSpace(cell)
  {
    TrimPadding(cell, widths[i] - |cell|);
    TrimShortens(cell);
  }

  // ----- Lines -----

  predicate OneLine(s: string) { '\n' !in s }

  predicate OneLineCells(cells: seq<string>, n: nat) { forall i | 0 <= i < n :: OneLine(Cell(cells, i)) }

  lemma {:induction false} RowIsOneLine(cells: seq<string>, widths: seq<nat>, n: nat)
    requires Fits(cells, widths) && n <= |widths| && OneLineCells(cells, n)
    ensures OneLine(RowText(cells, widths, n))
  {
    if n > 0 { RowIsOneLine(cells, widths, n - 1); }
  }

  /** The newline-terminated lines of `text`, newlines dropped. */
  function Lines(text: string): seq<string>
    decreases |text|
  {
    if text == "" then []
    else
      var i := GoText.FirstOf(text, '\n');
      if i == |text| then [text] else [text[..i]] + Lines(text[i + 1..])
  }

  lemma FirstLine(line: string, rest: string)
    requires OneLine(line)
    ensures Lines(line + "\n" + rest) == [line] + Lines(rest)
  {
    var text := line + "\n" + rest;
    GoText.FirstAfter(line, '\n', rest);
    assert text[..|line|] == line && text[|line| + 1..] == rest;
  }

  function RowTexts(rows: seq<seq<string>>, widths: seq<nat>): (texts: seq<string>)
    requires forall r | r in rows :: Fits(r, widths)
    ensures |texts| == |rows| && forall k | 0 <= k < |rows| :: texts[k] == RowText(rows[k], widths, |widths|)
  {
    if rows == [] then []
    else RowTexts(rows[..|rows| - 1], widths) + [RowText(rows[|rows| - 1], widths, |widths|)]
  }

  lemma {:induction false} LinesOfRows(rows: seq<seq<string>>, widths: seq<nat>, rest: string)
    requires forall r | r in rows :: Fits(r, widths) && OneLineCells(r, |widths|)
    ensures Lines(RowLines(rows, widths) + rest) == RowTexts(rows, widths) + Lines(rest)
  {
    if rows == [] {
      assert RowLines(rows, widths) + rest == rest;
    } else {
      var init, last := rows[..|rows| - 1], rows[|rows| - 1];
      var line := RowText(last, widths, |widths|);
      RowIsOneLine(last, widths, |widths|);
      FirstLine(line, rest);
      LinesOfRows(init, widths, line + "\n" + rest);
      Sequences.Reassociate(RowLines(init, widths), line + "\n", rest);
      Sequences.Reassociate(RowTexts(init, widths), [line], Lines(rest));
    }
  }

  /** The lines of a rendered table: the title if there is one, then one line for the headers and one
      for each row. */
  lemma RenderedLines(title: string, headers: seq<string>, rows: seq<seq<string>>)
    requires OneLine(title) && forall r | r in [headers] + rows :: OneLineCells(r, |headers|)
    ensures forall r | r in [headers] + rows :: Fits(r, Widths(headers, rows))
    ensures Lines(Rendered(title, headers, rows)) ==
              (if title == "" then [] else [title]) + RowTexts([headers] + rows, Widths(headers, rows))
  {
    AllFit(headers, rows);
    var widths, all := Widths(headers, rows), [headers] + rows;
    LinesOfAll(all, widths);
    if title != "" {
      FirstLine(title, RowLines(all, widths));
    }
  }

  lemma LinesOfAll(rows: seq<seq<string>>, widths: seq<nat>)
    requires forall r | r in rows :: Fits(r, widths) && OneLineCells(r, |widths|)
    ensures Lines("" + RowLines(rows, widths)) == [] + RowTexts(rows, widths)
    ensures Lines(RowLines(rows, widths)) == RowTexts(rows, widths)
  {
    LinesOfRows(rows, widths, "");
    assert RowLines(rows, widths) + "" == RowLines(rows, widths) == "" + RowLines(rows, widths);
    assert RowTexts(rows, widths) + Lines("") == RowTexts(rows, widths) == [] + RowTexts(rows, widths);
  }

  /** What a line gives back. */
  predicate ReadsBack(line: string, cells: seq<string>, widths: seq<nat>) {
    && |line| == LineLength(widths, |widths|)
    && forall i | 0 <= i < |widths| ::
         && Offset(widths, i) + widths[i] <= |line|
         && (Column(line, widths, i) == Cell(cells, i) <==> !EndsInSpace(Cell(cells, i)))
  }

  lemma LineReadsBack(cells: seq<string>, widths: seq<nat>)
    requires Fits(cells, widths)
    ensures ReadsBack(RowText(cells, widths, |widths|), cells, widths)
  {
    LineLengths(cells, widths, |widths|);
    forall i | 0 <= i < |widths|
      ensures Offset(widths, i) + widths[i] <= |RowText(cells, widths, |widths|)|
      ensures Column(RowText(cells, widths, |widths|), widths, i) == Cell(cells, i) <==> !EndsInSpace(Cell(cells, i))
    {
      ColumnRecoversCellIff(cells, widths, i);
    }
  }

  /** A rendered table reads back: below the optional title there is one line for the headers and for
      each row, all lines have one length, and every cell that does not end in a space, and no other,
      is recovered from its column. */
  lemma RenderedReadsBack(title: string, headers: seq<string>, rows: seq<seq<string>>)
    requires OneLine(title) && forall r | r in [headers] + rows :: OneLineCells(r, |headers|)
    ensures var lines, top := Lines(Rendered(title, headers, rows)), if title == "" then 0 else 1;
            && |lines| == top + 1 + |rows|
            && (title != "" ==> lines[0] == title)
            && var body, all := lines[top..], [headers] + rows;
               forall k | 0 <= k < |all| :: ReadsBack(body[k], all[k], Widths(headers, rows))
  {
    RenderedLines(title, headers, rows);
    AllReadBack([headers] + rows, Widths(headers, rows));
  }

  lemma AllReadBack(rows: seq<seq<string>>, widths: seq<nat>)
    requires forall r | r in rows :: Fits(r, widths)
    ensures forall k | 0 <= k < |rows| :: ReadsBack(RowTexts(rows, widths)[k], rows[k], widths)
    ensures forall title: string :: ([title] + RowTexts(rows, widths))[1..] == RowTexts(rows, widths)
    ensures ([] + RowTexts(rows, widths))[0..] == RowTexts(rows, widths)
  {
    forall k | 0 <= k < |rows| ensures ReadsBack(RowTexts(rows, widths)[k], rows[k], widths) {
      LineReadsBack(rows[k], widths);
    }
  }

  // ----- How wide the columns are -----

  /** Neighbouring columns of a line are kept apart by three spaces. */
  lemma ColumnsAreApart(cells: seq<string>, widths: seq<nat>, i: nat)
    requires Fits(cells, widths) && i + 1 < |widths|
    ensures var line, end := RowText(cells, widths, |widths|), Offset(widths, i) + widths[i];
            && Offset(widths, i + 1) == end + 3 <= |line|
            && line[end..end + 3] == "   "
  {
    LineLengths(cells, widths, |widths|);
    LaterOffset(widths, i + 1, |widths|);
    GapAfter(cells, widths, |widths|, i);
  }

  lemma {:induction false} GapAfter(cells: seq<string>, widths: seq<nat>, n: nat, i: nat)
    requires Fits(cells, widths) && i + 1 < n <= |widths|
    ensures |RowText(cells, widths, n)| == LineLength(widths, n) >= Offset(widths, i) + widths[i] + 3
    ensures var end := Offset(widths, i) + widths[i];
            RowText(cells, widths, n)[end..end + 3] == "   "
    decreases n
  {
    LineLengths(cells, widths, n);
    LineLengths(cells, widths, n - 1);
    LaterOffset(widths, i + 1, n);
    var end := Offset(widths, i) + widths[i];
    var row, last := RowText(cells, widths, n - 1), Padded(Cell(cells, n - 1), widths[n - 1]);
    if i + 2 == n {
      assert |row| == end;
      MiddleSlice(row, "   ", last);
    } else {
      GapAfter(cells, widths, n - 1, i);
      SliceOfPrefix(row, GAP, last, end, end + 3);
    }
  }

  lemma MiddleSlice(a: string, b: string, c: string)
    ensures (a + b + c)[|a|..|a| + |b|] == b
  {}

  /** A column is as wide as its longest cell, and no wider. */
  lemma {:induction false} WidthIsReached(headers: seq<string>, rows: seq<seq<string>>, i: nat)
    ensures |Cell(headers, i)| <= Width(headers, rows, i)
    ensures forall r | r in rows :: |Cell(r, i)| <= Width(headers, rows, i)
    ensures Width(headers, rows, i) == |Cell(headers, i)| ||
            exists r :: r in rows && |Cell(r, i)| == Width(headers, rows, i)
  {
    if rows != [] {
      var init, last := rows[..|rows| - 1], rows[|rows| - 1];
      WidthIsReached(headers, init, i);
      assert rows == init + [last];
      if Width(headers, rows, i) != |Cell(last, i)| && Width(headers, rows, i) != |Cell(headers, i)| {
        var r :| r in init && |Cell(r, i)| == Width(headers, init, i);
        assert r in rows;
      } else if Width(headers, rows, i) == |Cell(last, i)| {
        assert last in rows;
      }
    }
  }
}
