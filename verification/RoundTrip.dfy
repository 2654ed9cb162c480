/** Printing a grid of cells and reading it back: the fake's projection against the exporter's parsers. */
module RoundTrip {
  import opened Basics
  import opened Text
  import opened Csv

  // ---------------------------------------------------------------- splitting at either end

  lemma {:induction false} SplitCount(a: string, b: string, sep: char)
    ensures |Split(a + b, sep)| == |Split(a, sep)| + |Split(b, sep)| - 1
    decreases |a|
  {
    if a == "" {
      assert a + b == b;
    } else {
      assert (a + b)[1..] == a[1..] + b;
      SplitCount(a[1..], b, sep);
    }
  }

  lemma {:induction false} FirstOf(s: string, sep: char) returns (a: string, b: string)
    requires sep in s
    ensures s == a + [sep] + b && sep !in a
    decreases |s|
  {
    if s[0] == sep {
      a, b := "", s[1..];
    } else {
      assert s == [s[0]] + s[1..];
      a, b := FirstOf(s[1..], sep);
      a := [s[0]] + a;
    }
  }

  lemma {:induction false} LastOf(s: string, sep: char) returns (a: string, b: string)
    requires sep in s
    ensures s == a + [sep] + b && sep !in b
    decreases |s|
  {
    var n := |s| - 1;
    if s[n] == sep {
      a, b := s[..n], "";
    } else {
      assert s == s[..n] + [s[n]];
      a, b := LastOf(s[..n], sep);
      b := b + [s[n]];
    }
  }

  lemma Regroup(a: string, b: string, c: string, d: string)
    ensures a + b + c + d == a + b + (c + d)
    ensures a + (b + c + d) == a + b + c + d
  {
  }

  lemma FrontCut(a: string, b: string, pre: string, t: string)
    requires '\n' !in a && pre == a + ['\n'] + b
    ensures Split(pre + t, '\n')[0] == a
  {
    Regroup(a, ['\n'], b, t);
    SplitFirst(a, '\n', b + t);
  }

  lemma BackCut(t: string, a: string, b: string, post: string)
    requires '\n' !in b && post == a + ['\n'] + b
    ensures var p := Split(t + post, '\n'); p[|p| - 1] == b
  {
    Regroup(t, a, ['\n'], b);
    SplitLast(t + a, '\n', b);
  }

  lemma BlankParts(a: string, b: string, s: string)
    requires s == a + ['\n'] + b && Blank(s)
    ensures Blank(a) && Blank(b)
  {
    assert forall i :: 0 <= i < |a| ==> a[i] == s[i];
    assert forall i :: 0 <= i < |b| ==> b[i] == s[|a| + 1 + i];
  }

  /** Blanks in front of a text stay within its first line, if that line is not blank. */
  lemma FrontStaysOnLine(pre: string, t: string)
    requires Blank(pre) && !Blank(Split(pre + t, '\n')[0])
    ensures '\n' !in pre
  {
    if '\n' in pre {
      var a, b := FirstOf(pre, '\n');
      FrontCut(a, b, pre, t);
      BlankParts(a, b, pre);
    }
  }

  lemma BackStaysOnLine(t: string, post: string)
    requires var p := Split(t + post, '\n'); Blank(post) && !Blank(p[|p| - 1])
    ensures '\n' !in post
  {
    if '\n' in post {
      var a, b := LastOf(post, '\n');
      BackCut(t, a, b, post);
      BlankParts(a, b, post);
    }
  }

  // ---------------------------------------------------------------- lines

  /** Whether trimming a whole output leaves its lines alone: one line, or neither end is a blank line. */
  predicate Printable(lines: seq<string>) {
    |lines| == 1 || (|lines| > 1 && !Blank(lines[0]) && !Blank(lines[|lines| - 1]))
  }

  predicate OneLiners(lines: seq<string>) { forall i :: 0 <= i < |lines| ==> '\n' !in lines[i] }

  /** The lines read back are the lines printed, up to blanks at the ends: same count, same cells. */
  lemma LinesReturn(lines: seq<string>)
    requires lines != [] && OneLiners(lines) && Printable(lines)
    ensures var back := Lines(Join(lines, "\n"));
            |back| == |lines| && forall i :: 0 <= i < |lines| ==> Fields(back[i]) == Fields(lines[i])
  {
    var s := Join(lines, "\n");
    SplitJoin(lines, '\n');
    var pre, post := TrimIs(s);
    var t := Trim(s);
    if |lines| == 1 {
      SplitWhole(s, '\n');
      TrimSubset(s, '\n');
      SplitWhole(t, '\n');
      FieldsTrim(pre, t, post);
    } else {
      assert s == pre + (t + post);
      FrontStaysOnLine(pre, t + post);
      assert s == (pre + t) + post;
      BackStaysOnLine(pre + t, post);
      EndsReturn(pre, t, post);
    }
  }

  lemma EndsReturn(pre: string, t: string, post: string)
    requires Blank(pre) && Blank(post) && '\n' !in pre && '\n' !in post
    ensures var back, lines := Split(t, '\n'), Split(pre + t + post, '\n');
            |back| == |lines| && forall i :: 0 <= i < |lines| ==> Fields(back[i]) == Fields(lines[i])
  {
    SplitFront(pre, t, '\n');
    SplitBack(pre + t, post, '\n');
    var back, mid, lines := Split(t, '\n'), Split(pre + t, '\n'), Split(pre + t + post, '\n');
    var last := |back| - 1;
    forall i | 0 <= i < |lines|
      ensures Fields(back[i]) == Fields(lines[i])
    {
      var a, b := if i == 0 then pre else "", if i == last then post else "";
      assert mid[i] == a + back[i];
      assert lines[i] == a + back[i] + b;
      FieldsTrim(a, back[i], b);
    }
  }

  lemma TrimmedCount(s: string)
    ensures |Lines(s)| <= |Split(s, '\n')|
  {
    var pre, post := TrimIs(s);
    SplitCount(pre + Trim(s), post, '\n');
    SplitCount(pre, Trim(s), '\n');
  }

  lemma JoinTail(lines: seq<string>)
    requires |lines| > 1
    ensures Join(lines, "\n") == lines[0] + "\n" + Join(lines[1..], "\n")
  {
  }

  lemma {:induction false} JoinFront(lines: seq<string>)
    requires |lines| > 1
    ensures var n := |lines| - 1; Join(lines, "\n") == Join(lines[..n], "\n") + "\n" + lines[n]
    decreases |lines|
  {
    var n := |lines| - 1;
    if n > 1 {
      JoinFront(lines[1..]);
      assert lines[1..][..n - 1] == lines[..n][1..];
      var a, b, c := lines[0] + "\n", Join(lines[..n][1..], "\n"), "\n" + lines[n];
      assert a + (b + c) == (a + b) + c;
    } else {
      assert lines[1..] == [lines[1]] && lines[..1] == [lines[0]];
    }
  }

  /** Where an end is a blank line, lines are lost. */
  lemma BlankEndsAreLost(lines: seq<string>)
    requires lines != [] && OneLiners(lines) && !Printable(lines)
    ensures |Lines(Join(lines, "\n"))| < |lines|
  {
    var s, n := Join(lines, "\n"), |lines| - 1;
    if Blank(lines[0]) {
      JoinTail(lines);
      var pre, rest := lines[0] + "\n", Join(lines[1..], "\n");
      TrimAround(pre, rest, "");
      assert pre + rest + "" == s;
      TrimmedCount(rest);
      SplitJoin(lines[1..], '\n');
    } else {
      JoinFront(lines);
      var front, post := Join(lines[..n], "\n"), "\n" + lines[n];
      TrimAround("", front, post);
      assert "" + front + post == s;
      TrimmedCount(front);
      SplitJoin(lines[..n], '\n');
    }
  }

  // ---------------------------------------------------------------- grids

  /** Cells that CSV without quoting can carry. */
  predicate Safe(cells: seq<string>) { forall i :: 0 <= i < |cells| ==> ',' !in cells[i] && '\n' !in cells[i] }

  ghost predicate SafeGrid(grid: seq<seq<string>>, width: nat) {
    width > 0 && grid != [] && forall k :: 0 <= k < |grid| ==> |grid[k]| == width && Safe(grid[k])
  }

  function Printed(grid: seq<seq<string>>): (lines: seq<string>)
    ensures |lines| == |grid|
  {
    seq(|grid|, k requires 0 <= k < |grid| => Join(grid[k], ", "))
  }

  lemma {:induction false} JoinedIsOneLine(cells: seq<string>)
    requires Safe(cells)
    ensures '\n' !in Join(cells, ", ")
    decreases |cells|
  {
    if |cells| > 1 {
      JoinedIsOneLine(cells[1..]);
    }
  }

  lemma GridIsOneLiners(grid: seq<seq<string>>, width: nat)
    requires SafeGrid(grid, width)
    ensures OneLiners(Printed(grid))
  {
    forall k | 0 <= k < |grid|
      ensures '\n' !in Printed(grid)[k]
    {
      JoinedIsOneLine(grid[k]);
    }
  }

  /** A row of two or more cells is never a blank line. */
  lemma WideRowsAreNotBlank(cells: seq<string>)
    requires |cells| > 1
    ensures !Blank(Join(cells, ", "))
  {
    var s := Join(cells, ", ");
    assert s == cells[0] + ", " + Join(cells[1..], ", ");
    assert s[|cells[0]|] == ',';
  }

  /** A printed grid reads back cell by cell, trimmed. */
  lemma GridReturns(grid: seq<seq<string>>, width: nat, k: nat)
    requires SafeGrid(grid, width) && Printable(Printed(grid)) && k < |grid|
    ensures |Lines(Join(Printed(grid), "\n"))| == |grid|
    ensures var cells := Fields(Lines(Join(Printed(grid), "\n"))[k]);
            |cells| == width && forall c :: 0 <= c < width ==> cells[c] == Trim(grid[k][c])
  {
    GridIsOneLiners(grid, width);
    LinesReturn(Printed(grid));
    FieldsJoin(grid[k]);
  }

  /** What the CSV parser makes of a grid: its header and its rows, each cell trimmed. */
  ghost predicate IsGrid(t: Table, qFields: seq<string>, grid: seq<seq<string>>) {
    && grid != [] && (forall k :: 0 <= k < |grid| ==> |grid[k]| == |qFields|)
    && |t.rows| == |grid| - 1 && |t.rFields| == |qFields|
    && (forall c: nat :: c < |qFields| ==> t.rFields[c] == Trim(grid[0][c]))
    && (forall n: nat :: n < |t.rows| ==> IsRow(t.rows[n], qFields, t.rFields, grid[n + 1]))
  }

  ghost predicate IsRow(row: Row, qFields: seq<string>, rFields: seq<string>, cells: seq<string>)
    requires |qFields| == |rFields| == |cells|
  {
    |row.cells| == |qFields| && forall c: nat :: c < |qFields| ==>
      && row.cells[c] == Cell(qFields[c], rFields[c], Trim(cells[c]))
      && qFields[c] in row.byField && row.byField[qFields[c]] == row.cells[c]
  }

  lemma PrintedGridFits(grid: seq<seq<string>>, qFields: seq<string>)
    requires SafeGrid(grid, |qFields|) && Printable(Printed(grid))
    ensures var output := Join(Printed(grid), "\n");
            |Fields(Lines(output)[0])| == |qFields| && AllFit(output, |qFields|, |Lines(output)|)
  {
    var output := Join(Printed(grid), "\n");
    GridReturns(grid, |qFields|, 0);
    forall n: nat | 1 <= n < |Lines(output)|
      ensures Fits(output, |qFields|, n)
    {
      GridReturns(grid, |qFields|, n);
    }
  }

  lemma ParsedGridIsGrid(grid: seq<seq<string>>, qFields: seq<string>, t: Table)
    requires SafeGrid(grid, |qFields|) && Printable(Printed(grid)) && Distinct(qFields)
    requires Reads(Join(Printed(grid), "\n"), qFields, t)
    ensures IsGrid(t, qFields, grid)
  {
    var output := Join(Printed(grid), "\n");
    GridReturns(grid, |qFields|, 0);
    forall n: nat | n < |t.rows|
      ensures IsRow(t.rows[n], qFields, t.rFields, grid[n + 1])
    {
      GridReturns(grid, |qFields|, n + 1);
      TableIsGrid(output, qFields, t, n, 0);
      forall c: nat | c < |qFields|
        ensures t.rows[n].cells[c] == Cell(qFields[c], t.rFields[c], Trim(grid[n + 1][c]))
        ensures qFields[c] in t.rows[n].byField && t.rows[n].byField[qFields[c]] == t.rows[n].cells[c]
      {
        TableIsGrid(output, qFields, t, n, c);
      }
    }
  }

  /**
   Printing and parsing agree. For any grid CSV can carry, the parse of the printed grid is the grid, trimmed, if and
   only if the output does not start or end in a blank line.
   */
  method ParsePrinted(grid: seq<seq<string>>, qFields: seq<string>) returns (r: Result<Table, CsvError>)
    requires SafeGrid(grid, |qFields|) && Distinct(qFields)
    ensures Printable(Printed(grid)) <==> r.Ok? && IsGrid(r.value, qFields, grid)
  {
    var output := Join(Printed(grid), "\n");
    r := ParseCsvIntoTable(output, qFields);
    if Printable(Printed(grid)) {
      PrintedGridFits(grid, qFields);
      ParsedGridIsGrid(grid, qFields, r.value);
    } else {
      GridIsOneLiners(grid, |qFields|);
      BlankEndsAreLost(Printed(grid));
    }
  }
}
