/**
 * The columnar printer `ffs`: it sizes every column from the `repr` length of its
 * values (and, with a header, from the header text plus an offset), then emits the
 * header line and one line per row, each line the concatenation of left-justified
 * cells. Only the no-colour output is modelled: every colour string is empty.
 */
module Layout {
  import opened Results
  import opened Text

  /** `ValueError` (max() of an empty column) and `IndexError` (a missing list element). */
  datatype LayoutError = EmptyColumn | IndexOutOfRange

  /** The caller's header list; numbered mode inserts "idx" at its front. */
  class HeaderList {
    var items: seq<string>

    constructor (items: seq<string>)
      ensures this.items == items
    {
      this.items := items;
    }
  }

  /** What `ffs` gives back (its lines or the exception) and the caller's header list afterwards. */
  datatype Outcome = Outcome(lines: Result<seq<string>, LayoutError>, header: Option<seq<string>>)

  predicate NoEmptyColumn(args: seq<seq<string>>)
  {
    forall j :: 0 <= j < |args| ==> |args[j]| > 0
  }

  function ReprLens(col: seq<string>): seq<int>
  {
    seq(|col|, k requires 0 <= k < |col| => ReprLen(col[k]))
  }

  /** `max(len(repr(v)) for v in col)`. */
  function ReprWidth(col: seq<string>): int
    requires |col| > 0
  {
    MaxOf(ReprLens(col))
  }

  /** The widths the first loop appends, one per column. */
  function ValueWidths(args: seq<seq<string>>): seq<int>
    requires NoEmptyColumn(args)
  {
    seq(|args|, j requires 0 <= j < |args| => ReprWidth(args[j]))
  }

  function NumberLens(n: nat): seq<int>
  {
    seq(n, k requires 0 <= k < n => |Decimal(k + 1)|)
  }

  /** `max(len(repr(k)) for k in range(1, n + 1))`, the width numbered mode appends. */
  function NumberWidth(n: nat): int
    requires n > 0
  {
    MaxOf(NumberLens(n))
  }

  /** The header pass: width i becomes `max(len(header[i]), width[i]) + offset` while both lists last. */
  function WithHeader(w: seq<int>, h: seq<string>, offset: int): seq<int>
  {
    seq(|w|, i requires 0 <= i < |w| => if i < |h| then Max(|h[i]|, w[i]) + offset else w[i])
  }

  /** The number of rows: the length of the last column. */
  function RowCount(args: seq<seq<string>>): nat
    requires |args| > 0
  {
    |args[|args| - 1]|
  }

  /** The final width list. Numbered mode with a header appends the index width at the end. */
  function Widths(offset: int, header: Option<seq<string>>, numbered: bool, args: seq<seq<string>>): seq<int>
    requires |args| > 0 && NoEmptyColumn(args)
  {
    var raw := ValueWidths(args);
    match header
    case None => raw
    case Some(h) =>
      if numbered then WithHeader(raw + [NumberWidth(RowCount(args))], ["idx"] + h, offset)
      else WithHeader(raw, h, offset)
  }

  /** The header list after the call: numbered mode inserted "idx" unless `max` or `args[-1]` raised first. */
  function HeaderAfter(header: Option<seq<string>>, numbered: bool, args: seq<seq<string>>): Option<seq<string>>
  {
    if header.Some? && numbered && |args| > 0 && NoEmptyColumn(args) then Some(["idx"] + header.value)
    else header
  }

  /** How many pairs `zip(args, widths[shift:])` yields. */
  function ZipLength(argCount: nat, widthCount: nat, shift: nat): nat
  {
    Min(argCount, Max(widthCount - shift, 0))
  }

  /** How many argument columns each row reads: `zip(args, widths)` or `zip(args, widths[1:])`. */
  function RowColumns(argCount: nat, widthCount: nat, numbered: bool): nat
  {
    ZipLength(argCount, widthCount, if numbered then 1 else 0)
  }

  /** The value cells of row i: `arg[i].ljust(width)` for each pair of `zip(args, widths[shift:])`. */
  function ValueCells(args: seq<seq<string>>, widths: seq<int>, shift: nat, i: nat): (r: seq<string>)
    requires forall j :: 0 <= j < ZipLength(|args|, |widths|, shift) ==> i < |args[j]|
    ensures |r| == ZipLength(|args|, |widths|, shift)
  {
    var m := ZipLength(|args|, |widths|, shift);
    seq(m, j requires 0 <= j < m => LJust(args[j][i], widths[j + shift]))
  }

  /** The cells of row i before they are joined. */
  function RowCells(args: seq<seq<string>>, widths: seq<int>, numbered: bool, i: nat): seq<string>
    requires numbered ==> |widths| > 0
    requires forall j :: 0 <= j < RowColumns(|args|, |widths|, numbered) ==> i < |args[j]|
  {
    assert RowColumns(|args|, |widths|, numbered) == ZipLength(|args|, |widths|, if numbered then 1 else 0);
    if numbered then [LJust(Decimal(i), widths[0])] + ValueCells(args, widths, 1, i)
    else ValueCells(args, widths, 0, i)
  }

  function HeaderCells(h: seq<string>, widths: seq<int>): seq<string>
    requires |h| <= |widths|
  {
    seq(|h|, i requires 0 <= i < |h| => LJust(h[i], widths[i]))
  }

  /** Every column a row reads has at least `n` elements. */
  predicate RowsReadable(args: seq<seq<string>>, widths: seq<int>, numbered: bool, n: nat)
  {
    forall j :: 0 <= j < RowColumns(|args|, |widths|, numbered) ==> |args[j]| >= n
  }

  /** The header line, when there is a header. */
  function HeadLines(after: Option<seq<string>>, widths: seq<int>): seq<string>
    requires after.Some? ==> |after.value| <= |widths|
  {
    if after.Some? then [Concat(HeaderCells(after.value, widths))] else []
  }

  /** The row lines. */
  function Rows(args: seq<seq<string>>, widths: seq<int>, numbered: bool, n: nat): (r: seq<string>)
    requires numbered ==> |widths| > 0
    requires RowsReadable(args, widths, numbered, n)
    ensures |r| == n
  {
    seq(n, i requires 0 <= i < n => Concat(RowCells(args, widths, numbered, i)))
  }

  /** What `ffs(offset, header, numbered, *args)` returns or raises, and what it leaves in the header list. */
  function Table(offset: int, header: Option<seq<string>>, numbered: bool, args: seq<seq<string>>): Outcome
  {
    var after := HeaderAfter(header, numbered, args);
    if !NoEmptyColumn(args) then Outcome(Err(EmptyColumn), after)
    else if |args| == 0 then Outcome(Err(IndexOutOfRange), after)
    else
      var widths := Widths(offset, header, numbered, args);
      if after.Some? && |after.value| > |widths| then Outcome(Err(IndexOutOfRange), after)
      else if !RowsReadable(args, widths, numbered, RowCount(args)) then Outcome(Err(IndexOutOfRange), after)
      else Outcome(Ok(HeadLines(after, widths) + Rows(args, widths, numbered, RowCount(args))), after)
  }

  /** Python's `max` over a non-empty sequence, as the loop the generator runs. */
  method Maximum(xs: seq<int>) returns (m: int)
    requires |xs| > 0
    ensures forall i :: 0 <= i < |xs| ==> xs[i] <= m
    ensures exists i :: 0 <= i < |xs| && xs[i] == m
    ensures m == MaxOf(xs)
  {
    m := xs[0];
    var k := 1;
    while k < |xs|
      invariant 1 <= k <= |xs|
      invariant forall i :: 0 <= i < k ==> xs[i] <= m
      invariant exists i :: 0 <= i < k && xs[i] == m
    {
      if xs[k] > m {
        m := xs[k];
      }
      k := k + 1;
    }
  }

  /** The first loop of `ffs`: one width per column, or `ValueError` at the first empty column. */
  method ColumnWidths(args: seq<seq<string>>) returns (r: Result<seq<int>, LayoutError>)
    ensures r.Ok? <==> NoEmptyColumn(args)
    ensures r.Ok? ==> r.value == ValueWidths(args)
    ensures r.Err? ==> r.error == EmptyColumn
  {
    var widths: seq<int> := [];
    var j := 0;
    while j < |args|
      invariant 0 <= j <= |args|
      invariant forall jj :: 0 <= jj < j ==> |args[jj]| > 0
      invariant |widths| == j
      invariant forall jj :: 0 <= jj < j ==> widths[jj] == ReprWidth(args[jj])
    {
      if |args[j]| == 0 {
        return Err(EmptyColumn);
      }
      var w := Maximum(ReprLens(args[j]));
      widths := widths + [w];
      j := j + 1;
    }
    return Ok(widths);
  }

  /** The header pass over `zip(header_list, max_column_width, index)`. */
  method ApplyHeader(widths: seq<int>, h: seq<string>, offset: int) returns (w: seq<int>)
    ensures |w| == |widths|
    ensures forall i :: 0 <= i < |widths| && i < |h| ==> w[i] >= |h[i]| + offset && w[i] >= widths[i] + offset
    ensures w == WithHeader(widths, h, offset)
  {
    w := widths;
    var i := 0;
    while i < |h| && i < |w|
      invariant 0 <= i <= |widths| && i <= |h|
      invariant |w| == |widths|
      invariant forall ii :: 0 <= ii < i ==> w[ii] == Max(|h[ii]|, widths[ii]) + offset
      invariant forall ii :: i <= ii < |widths| ==> w[ii] == widths[ii]
    {
      w := w[i := Max(|h[i]|, w[i]) + offset];
      i := i + 1;
    }
  }

  /** The header line: every header entry left-justified to its width, joined. */
  method HeaderLine(h: seq<string>, widths: seq<int>) returns (line: string)
    requires |h| <= |widths|
    ensures line == Concat(HeaderCells(h, widths))
  {
    var cells: seq<string> := [];
    var i := 0;
    while i < |h|
      invariant 0 <= i <= |h|
      invariant cells == HeaderCells(h[..i], widths[..i])
    {
      cells := cells + [LJust(h[i], widths[i])];
      i := i + 1;
    }
    assert h[..i] == h && cells == HeaderCells(h, widths);
    line := Concat(cells);
  }

  /** The inner loop over `zip(args, widths[shift:])`, or `None` at the first column without element i. */
  method JustifyCells(args: seq<seq<string>>, widths: seq<int>, shift: nat, i: nat) returns (cells: Option<seq<string>>)
    ensures cells.Some? <==> forall j :: 0 <= j < ZipLength(|args|, |widths|, shift) ==> i < |args[j]|
    ensures cells.Some? ==> cells.value == ValueCells(args, widths, shift, i)
  {
    ghost var m := ZipLength(|args|, |widths|, shift);
    var acc: seq<string> := [];
    var k := 0;
    while k < |args| && k + shift < |widths|
      invariant 0 <= k <= m
      invariant forall jj :: 0 <= jj < k ==> |args[jj]| > i
      invariant |acc| == k
      invariant forall jj :: 0 <= jj < k ==> acc[jj] == LJust(args[jj][i], widths[jj + shift])
    {
      if i >= |args[k]| {
        return None;
      }
      acc := acc + [LJust(args[k][i], widths[k + shift])];
      k := k + 1;
    }
    return Some(acc);
  }

  /** Row i, or `None` where a column it reads has no element i (an `IndexError`). */
  method RowLine(args: seq<seq<string>>, widths: seq<int>, numbered: bool, i: nat) returns (line: Option<string>)
    requires numbered ==> |widths| > 0
    ensures line.Some? <==> forall j :: 0 <= j < RowColumns(|args|, |widths|, numbered) ==> i < |args[j]|
    ensures line.Some? ==> line.value == Concat(RowCells(args, widths, numbered, i))
  {
    if numbered {
      var index := LJust(Decimal(i), widths[0]);
      var cells := JustifyCells(args, widths, 1, i);
      if cells.None? {
        return None;
      }
      line := Some(Concat([index] + cells.value));
    } else {
      var cells := JustifyCells(args, widths, 0, i);
      if cells.None? {
        return None;
      }
      line := Some(Concat(cells.value));
    }
  }

  /** The rows loop: every row line, or `None` when a column it reads is shorter than the last one. */
  method RowLines(args: seq<seq<string>>, widths: seq<int>, numbered: bool, n: nat) returns (rows: Option<seq<string>>)
    requires numbered ==> |widths| > 0
    ensures rows.Some? <==> RowsReadable(args, widths, numbered, n)
    ensures rows.Some? ==> |rows.value| == n
    ensures rows.Some? ==> forall i :: 0 <= i < n ==> rows.value[i] == Concat(RowCells(args, widths, numbered, i))
  {
    ghost var m := RowColumns(|args|, |widths|, numbered);
    var result: seq<string> := [];
    var i := 0;
    while i < n
      invariant 0 <= i <= n
      invariant forall jj :: 0 <= jj < m ==> |args[jj]| >= i
      invariant |result| == i
      invariant forall ii :: 0 <= ii < i ==> result[ii] == Concat(RowCells(args, widths, numbered, ii))
    {
      var line := RowLine(args, widths, numbered, i);
      if line.None? {
        return None;
      }
      result := result + [line.value];
      i := i + 1;
    }
    return Some(result);
  }

  /** The header pass of `ffs`: in numbered mode the index width is appended and "idx" inserted, then the header widens the columns. */
  method HeaderWidths(offset: int, header: HeaderList, numbered: bool, args: seq<seq<string>>, raw: seq<int>)
    returns (widths: seq<int>)
    requires |args| > 0 && NoEmptyColumn(args) && raw == ValueWidths(args)
    modifies header
    ensures Some(header.items) == HeaderAfter(Some(old(header.items)), numbered, args)
    ensures widths == Widths(offset, Some(old(header.items)), numbered, args)
  {
    widths := raw;
    if numbered {
      var nw := Maximum(NumberLens(|args[|args| - 1]|));
      widths := widths + [nw];
      header.items := ["idx"] + header.items;
    }
    widths := ApplyHeader(widths, header.items, offset);
  }

  /** `ffs`: computes the widths, mutates the header list in numbered mode, and builds the lines. */
  method Ffs(offset: int, header: HeaderList?, numbered: bool, args: seq<seq<string>>)
    returns (lines: Result<seq<string>, LayoutError>)
    modifies header
    ensures lines == Table(offset, if header == null then None else Some(old(header.items)), numbered, args).lines
    ensures header != null ==>
      Table(offset, if header == null then None else Some(old(header.items)), numbered, args).header == Some(header.items)
  {
    ghost var given := if header == null then None else Some(header.items);
    var raw := ColumnWidths(args);
    if raw.Err? {
      return Err(EmptyColumn);
    }
    if |args| == 0 {
      return Err(IndexOutOfRange);
    }
    var widths := raw.value;
    var head: seq<string> := [];
    if header != null {
      widths := HeaderWidths(offset, header, numbered, args, widths);
      if |header.items| > |widths| {
        return Err(IndexOutOfRange);
      }
      var line := HeaderLine(header.items, widths);
      head := [line];
    }
    var rows := RowLines(args, widths, numbered, |args[|args| - 1]|);
    if rows.None? {
      return Err(IndexOutOfRange);
    }
    assert rows.value == Rows(args, widths, numbered, RowCount(args));
    return Ok(head + rows.value);
  }

  /** How many argument columns the rows read: all of them, except in numbered mode without a header. */
  function ServedColumns(argCount: nat, hasHeader: bool, numbered: bool): nat
  {
    if numbered && !hasHeader then Max(argCount - 1, 0) else argCount
  }

  /** When `ffs` succeeds, which exception it raises otherwise, and how many lines it emits. */
  lemma TableOutcome(offset: int, header: Option<seq<string>>, numbered: bool, args: seq<seq<string>>)
    ensures Table(offset, header, numbered, args).lines == Err(EmptyColumn) <==> !NoEmptyColumn(args)
    ensures Table(offset, header, numbered, args).lines.Ok? <==>
      && |args| > 0 && NoEmptyColumn(args)
      && (header.Some? ==> |header.value| <= |args|)
      && forall j :: 0 <= j < ServedColumns(|args|, header.Some?, numbered) ==> |args[j]| >= RowCount(args)
    ensures Table(offset, header, numbered, args).lines.Ok? ==>
      |args| > 0 && |Table(offset, header, numbered, args).lines.value| == (if header.Some? then 1 else 0) + RowCount(args)
  {
    if |args| > 0 && NoEmptyColumn(args) {
      var w := Widths(offset, header, numbered, args);
      assert |w| == |args| + (if header.Some? && numbered then 1 else 0);
      assert RowColumns(|args|, |w|, numbered) == ServedColumns(|args|, header.Some?, numbered);
    }
  }

  /** The lines of a successful unnumbered call: the header line, then the rows. */
  lemma PlainLines(offset: int, header: Option<seq<string>>, args: seq<seq<string>>)
    requires |args| > 0 && NoEmptyColumn(args)
    requires Table(offset, header, false, args).lines.Ok?
    ensures header.Some? ==> |header.value| <= |Widths(offset, header, false, args)|
    ensures RowsReadable(args, Widths(offset, header, false, args), false, RowCount(args))
    ensures Table(offset, header, false, args).lines.value
      == HeadLines(header, Widths(offset, header, false, args))
         + Rows(args, Widths(offset, header, false, args), false, RowCount(args))
  {
  }

  /**
   * Without numbering, every column is exactly as wide as its widest `repr`, plus the offset
   * when the column has a header entry, unless the header entry is wider still.
   */
  lemma ColumnWidthIsTight(offset: int, header: Option<seq<string>>, args: seq<seq<string>>, j: nat)
    requires |args| > 0 && NoEmptyColumn(args) && j < |args|
    ensures var w := Widths(offset, header, false, args);
      var headed := header.Some? && j < |header.value|;
      var pad := if headed then offset else 0;
      && |w| == |args|
      && (forall k :: 0 <= k < |args[j]| ==> w[j] >= ReprLen(args[j][k]) + pad)
      && (headed ==> w[j] >= |header.value[j]| + offset)
      && ((exists k :: 0 <= k < |args[j]| && w[j] == ReprLen(args[j][k]) + pad)
          || (headed && w[j] == |header.value[j]| + offset))
  {
    var lens := ReprLens(args[j]);
    assert forall k :: 0 <= k < |args[j]| ==> lens[k] == ReprLen(args[j][k]);
    var k :| 0 <= k < |lens| && lens[k] == MaxOf(lens);
    assert ValueWidths(args)[j] == lens[k];
  }

  /** With a non-negative offset, no value or header entry is wider than its column. */
  lemma ValuesFit(offset: int, header: Option<seq<string>>, args: seq<seq<string>>)
    requires |args| > 0 && NoEmptyColumn(args)
    requires header.Some? ==> offset >= 0
    ensures var w := Widths(offset, header, false, args);
      && |w| == |args|
      && (forall j, k :: 0 <= j < |args| && 0 <= k < |args[j]| ==> |args[j][k]| <= w[j])
      && (header.Some? ==> forall j :: 0 <= j < |args| && j < |header.value| ==> |header.value[j]| <= w[j])
  {
    var w := Widths(offset, header, false, args);
    forall j | 0 <= j < |args|
      ensures forall k :: 0 <= k < |args[j]| ==> |args[j][k]| <= w[j]
      ensures header.Some? && j < |header.value| ==> |header.value[j]| <= w[j]
    {
      ColumnWidthIsTight(offset, header, args, j);
      forall k | 0 <= k < |args[j]| ensures |args[j][k]| <= w[j] {
        ReprLenBounds(args[j][k]);
      }
    }
  }

  /** Joined cells that each fill their width exactly make a line as long as the widths' sum. */
  lemma CellsFill(cells: seq<string>, widths: seq<int>)
    requires |cells| == |widths|
    requires forall j :: 0 <= j < |cells| ==> |cells[j]| == widths[j]
    ensures |Concat(cells)| == Sum(widths)
  {
    ConcatLength(cells);
    assert Lengths(cells) == widths;
  }

  /** An unnumbered row whose values all fit is as long as the widths' sum. */
  lemma RowFills(args: seq<seq<string>>, w: seq<int>, i: nat)
    requires |w| == |args|
    requires forall j :: 0 <= j < |args| ==> i < |args[j]| && |args[j][i]| <= w[j]
    ensures |Concat(RowCells(args, w, false, i))| == Sum(w)
  {
    CellsFill(RowCells(args, w, false, i), w);
  }

  /**
   * Without numbering, and with one header entry per column and a non-negative offset,
   * every emitted line (header line included) is exactly as long as the sum of the widths.
   */
  lemma AlignedLines(offset: int, header: Option<seq<string>>, args: seq<seq<string>>)
    requires |args| > 0 && NoEmptyColumn(args)
    requires Table(offset, header, false, args).lines.Ok?
    requires header.Some? ==> |header.value| == |args| && offset >= 0
    ensures forall line :: line in Table(offset, header, false, args).lines.value ==>
      |line| == Sum(Widths(offset, header, false, args))
  {
    var w := Widths(offset, header, false, args);
    var n := RowCount(args);
    PlainLines(offset, header, args);
    ValuesFit(offset, header, args);
    var head := HeadLines(header, w);
    var rows := Rows(args, w, false, n);
    if header.Some? {
      CellsFill(HeaderCells(header.value, w), w);
    }
    forall line | line in head ensures |line| == Sum(w) {
    }
    forall i | 0 <= i < n ensures |rows[i]| == Sum(w) {
      RowFills(args, w, i);
    }
    assert forall line :: line in head + rows ==> line in head || line in rows;
  }

  /** In joined cells that each fill their width, cell j occupies the widths' sum before it onwards. */
  lemma CellInLine(cells: seq<string>, widths: seq<int>, j: nat)
    requires |cells| == |widths| && j < |cells|
    requires forall k :: 0 <= k < |cells| ==> |cells[k]| == widths[k]
    ensures 0 <= Sum(widths[..j]) && Sum(widths[..j]) + widths[j] <= |Concat(cells)|
    ensures Concat(cells)[Sum(widths[..j])..Sum(widths[..j]) + widths[j]] == cells[j]
  {
    ConcatSplit(cells, j);
    CellsFill(cells[..j], widths[..j]);
    CellsFill(cells[j + 1..], widths[j + 1..]);
  }

  /** Row i sits after the header line, if any. */
  lemma LineOfRow(after: Option<seq<string>>, args: seq<seq<string>>, w: seq<int>, numbered: bool, n: nat, i: nat)
    requires numbered ==> |w| > 0
    requires after.Some? ==> |after.value| <= |w|
    requires RowsReadable(args, w, numbered, n) && i < n
    ensures var lines := HeadLines(after, w) + Rows(args, w, numbered, n);
      && (if after.Some? then 1 else 0) + i < |lines|
      && lines[(if after.Some? then 1 else 0) + i] == Concat(RowCells(args, w, numbered, i))
  {
    var head := HeadLines(after, w);
    var rows := Rows(args, w, numbered, n);
    assert |head| == if after.Some? then 1 else 0;
    AfterHead(head, rows, i);
  }

  /** Past the head lines, the lines are the rows. */
  lemma AfterHead(head: seq<string>, rows: seq<string>, i: nat)
    requires i < |rows|
    ensures |head| + i < |head + rows| && (head + rows)[|head| + i] == rows[i]
  {
  }

  /** Row i of a successful unnumbered call, with every cell exactly its column's width. */
  lemma PlainRow(offset: int, header: Option<seq<string>>, args: seq<seq<string>>, i: nat)
    requires |args| > 0 && NoEmptyColumn(args)
    requires Table(offset, header, false, args).lines.Ok?
    requires header.Some? ==> offset >= 0
    requires i < RowCount(args)
    ensures var w := Widths(offset, header, false, args);
      && |w| == |args|
      && (forall j :: 0 <= j < |args| ==> i < |args[j]| && |args[j][i]| <= w[j])
      && (if header.Some? then 1 else 0) + i < |Table(offset, header, false, args).lines.value|
      && Table(offset, header, false, args).lines.value[(if header.Some? then 1 else 0) + i]
         == Concat(RowCells(args, w, false, i))
  {
    var w := Widths(offset, header, false, args);
    PlainLines(offset, header, args);
    ValuesFit(offset, header, args);
    LineOfRow(header, args, w, false, RowCount(args), i);
  }

  /** A left-justified cell found inside a line: its value first, then blanks. */
  lemma PaddedCellAt(line: string, start: int, v: string, width: int)
    requires 0 <= start && start + width <= |line| && |v| <= width
    requires line[start..start + width] == LJust(v, width)
    ensures line[start..start + |v|] == v
    ensures forall p :: start + |v| <= p < start + width ==> line[p] == ' '
  {
    var cell := LJust(v, width);
    assert forall p :: start <= p < start + width ==> line[p] == cell[p - start];
  }

  /** The value `v` sits at `start` in the line, followed by blanks up to `width` characters. */
  predicate CellAt(line: string, start: int, v: string, width: int)
  {
    && 0 <= start && start + |v| <= start + width <= |line|
    && line[start..start + |v|] == v
    && forall p :: start + |v| <= p < start + width ==> line[p] == ' '
  }

  /** In an unnumbered row line, the value of column j is at the widths' sum before it, then blanks. */
  lemma CellInRow(args: seq<seq<string>>, w: seq<int>, i: nat, j: nat)
    requires |w| == |args| && j < |args|
    requires forall k :: 0 <= k < |args| ==> i < |args[k]| && |args[k][i]| <= w[k]
    ensures CellAt(Concat(RowCells(args, w, false, i)), Sum(w[..j]), args[j][i], w[j])
  {
    var cells := RowCells(args, w, false, i);
    assert RowColumns(|args|, |w|, false) == |args|;
    assert |cells| == |w|;
    assert forall k :: 0 <= k < |cells| ==> cells[k] == LJust(args[k][i], w[k]);
    CellInLine(cells, w, j);
    PaddedCellAt(Concat(cells), Sum(w[..j]), args[j][i], w[j]);
  }

  /**
   * Without numbering, the value in column j of row i sits at the column's offset in the
   * row's line (the sum of the widths before it), followed by blanks up to the column's width.
   */
  lemma CellPosition(offset: int, header: Option<seq<string>>, args: seq<seq<string>>, i: nat, j: nat)
    requires |args| > 0 && NoEmptyColumn(args)
    requires Table(offset, header, false, args).lines.Ok?
    requires header.Some? ==> offset >= 0
    requires i < RowCount(args) && j < |args|
    ensures var lines := Table(offset, header, false, args).lines.value;
      var w := Widths(offset, header, false, args);
      var row := (if header.Some? then 1 else 0) + i;
      && row < |lines| && j < |w|
      && CellAt(lines[row], Sum(w[..j]), args[j][i], w[j])
  {
    var w := Widths(offset, header, false, args);
    PlainRow(offset, header, args, i);
    CellInRow(args, w, i, j);
  }

  /** A column shorter than the last one makes the unnumbered rows raise `IndexError`. */
  lemma ShortColumnFails(offset: int, header: Option<seq<string>>, args: seq<seq<string>>, j: nat)
    requires |args| > 0 && NoEmptyColumn(args)
    requires j < |args| && |args[j]| < RowCount(args)
    ensures Table(offset, header, false, args).lines == Err(IndexOutOfRange)
  {
    TableOutcome(offset, header, false, args);
  }

  lemma MisalignedWidths()
    ensures Widths(0, Some(["a", "b"]), true, [["abcd"], ["y"]]) == [6, 3, 1]
  {
    var args := [["abcd"], ["y"]];
    ReprLenBounds("abcd");
    ReprLenBounds("y");
    assert ReprLens(args[0]) == [6];
    assert ReprLens(args[1]) == [3];
    assert ValueWidths(args) == [6, 3];
    assert NumberLens(1) == [1];
  }

  lemma ConcatThree(a: string, b: string, c: string)
    ensures Concat([a, b, c]) == a + b + c
  {
    assert [a][..0] == [];
    assert Concat([a]) == a;
    assert [a, b][..1] == [a];
    assert Concat([a, b]) == a + b;
    assert [a, b, c][..2] == [a, b];
  }

  lemma MisalignedHeaderLine()
    ensures HeadLines(Some(["idx", "a", "b"]), [6, 3, 1]) == ["idx   a  b"]
  {
    assert LJust("idx", 6) == "idx   ";
    assert LJust("a", 3) == "a  ";
    assert LJust("b", 1) == "b";
    assert HeaderCells(["idx", "a", "b"], [6, 3, 1]) == ["idx   ", "a  ", "b"];
    ConcatThree("idx   ", "a  ", "b");
    assert "idx   " + "a  " + "b" == "idx   a  b";
  }

  lemma MisalignedRow()
    ensures RowsReadable([["abcd"], ["y"]], [6, 3, 1], true, 1)
    ensures Rows([["abcd"], ["y"]], [6, 3, 1], true, 1) == ["0     abcdy"]
  {
    var args := [["abcd"], ["y"]];
    assert LJust("0", 6) == "0     ";
    assert LJust("abcd", 3) == "abcd";
    assert LJust("y", 1) == "y";
    assert RowCells(args, [6, 3, 1], true, 0) == ["0     ", "abcd", "y"];
    ConcatThree("0     ", "abcd", "y");
    assert "0     " + "abcd" + "y" == "0     abcdy";
    assert Rows(args, [6, 3, 1], true, 1)[0] == "0     abcdy";
  }

  /** As written, the header line and the row of `ffs(0, ["a", "b"], True, ["abcd"], ["y"])`. */
  lemma NumberedHeaderExample()
    ensures Table(0, Some(["a", "b"]), true, [["abcd"], ["y"]]).lines == Ok(["idx   a  b", "0     abcdy"])
  {
    var args := [["abcd"], ["y"]];
    MisalignedWidths();
    MisalignedHeaderLine();
    MisalignedRow();
    assert NoEmptyColumn(args) && RowCount(args) == 1;
    var after := HeaderAfter(Some(["a", "b"]), true, args);
    assert ["idx"] + ["a", "b"] == ["idx", "a", "b"];
    assert after == Some(["idx", "a", "b"]);
    assert Table(0, Some(["a", "b"]), true, args).lines
      == Ok(HeadLines(after, [6, 3, 1]) + Rows(args, [6, 3, 1], true, 1));
    assert HeadLines(after, [6, 3, 1]) + Rows(args, [6, 3, 1], true, 1) == ["idx   a  b"] + ["0     abcdy"];
    assert ["idx   a  b"] + ["0     abcdy"] == ["idx   a  b", "0     abcdy"];
  }

  /** As written, `ffs(0, None, True, ["a"], ["b"])` shows only the first column. */
  lemma NumberedWithoutHeaderExample()
    ensures Table(0, None, true, [["a"], ["b"]]).lines == Ok(["0  a  "])
  {
    var args := [["a"], ["b"]];
    ReprLenBounds("a");
    ReprLenBounds("b");
    assert ReprLens(args[0]) == [3];
    assert ReprLens(args[1]) == [3];
    var w := Widths(0, None, true, args);
    assert w == [3, 3];
    assert NoEmptyColumn(args) && RowsReadable(args, w, true, 1);
    assert LJust("0", 3) == "0  ";
    assert LJust("a", 3) == "a  ";
    assert RowCells(args, w, true, 0) == ["0  ", "a  "];
    ConcatCons("0  ", ["a  "]);
    ConcatCons("a  ", []);
    assert Concat(["0  ", "a  "]) == "0  a  ";
    assert Rows(args, w, true, 1) == ["0  a  "];
    assert RowCount(args) == 1;
    assert HeaderAfter(None, true, args) == None;
    assert HeadLines(None, w) + Rows(args, w, true, 1) == ["0  a  "];
    assert Table(0, None, true, args).lines == Ok(HeadLines(None, w) + Rows(args, w, true, RowCount(args)));
  }

  /** The lines of a successful numbered call: the header line (with "idx" in front), then the rows. */
  lemma NumberedLines(offset: int, header: Option<seq<string>>, args: seq<seq<string>>)
    requires |args| > 0 && NoEmptyColumn(args)
    requires Table(offset, header, true, args).lines.Ok?
    ensures var w := Widths(offset, header, true, args);
      var after := HeaderAfter(header, true, args);
      && |w| >= |args| > 0
      && (after.Some? <==> header.Some?)
      && (after.Some? ==> |after.value| <= |w|)
      && RowsReadable(args, w, true, RowCount(args))
      && Table(offset, header, true, args).lines.value == HeadLines(after, w) + Rows(args, w, true, RowCount(args))
  {
  }

  /** Row i, after the header line when there is one, is the join of its numbered cells. */
  lemma RowOfLines(lines: seq<string>, after: Option<seq<string>>, args: seq<seq<string>>, w: seq<int>, n: nat, i: nat, hc: nat)
    requires |w| > 0 && (after.Some? ==> |after.value| <= |w|)
    requires RowsReadable(args, w, true, n) && i < n
    requires lines == HeadLines(after, w) + Rows(args, w, true, n)
    requires hc == if after.Some? then 1 else 0
    ensures forall j :: 0 <= j < RowColumns(|args|, |w|, true) ==> i < |args[j]|
    ensures hc + i < |lines| && lines[hc + i] == Concat(RowCells(args, w, true, i))
  {
    LineOfRow(after, args, w, true, n, i);
  }

  /** The numbered cells of row i: the row number padded to `widths[0]`, then value j padded to `widths[j + 1]`. */
  lemma NumberedRowCells(args: seq<seq<string>>, w: seq<int>, i: nat)
    requires |w| > 0
    requires forall j :: 0 <= j < RowColumns(|args|, |w|, true) ==> i < |args[j]|
    ensures var cells := RowCells(args, w, true, i);
      var m := RowColumns(|args|, |w|, true);
      && |cells| == 1 + m
      && cells[0] == LJust(Decimal(i), w[0])
      && forall j :: 0 <= j < m ==> cells[j + 1] == LJust(args[j][i], w[j + 1])
  {
  }

  /**
   * The widths of numbered mode with a header: the first goes with "idx" and is sized from
   * column 0, width j + 1 is sized from column j + 1 and header entry j, and the last one,
   * the index width appended at the end, from header entry |args| - 1.
   */
  lemma NumberedHeaderWidths(offset: int, h: seq<string>, args: seq<seq<string>>)
    requires |args| > 0 && NoEmptyColumn(args)
    ensures var w := Widths(offset, Some(h), true, args);
      var raw := ValueWidths(args);
      var n := |args|;
      var nw := NumberWidth(RowCount(args));
      && |w| == n + 1
      && w[0] == Max(3, raw[0]) + offset
      && (forall j :: 0 <= j < n - 1 ==> w[j + 1] == if j < |h| then Max(|h[j]|, raw[j + 1]) + offset else raw[j + 1])
      && w[n] == if n - 1 < |h| then Max(|h[n - 1]|, nw) + offset else nw
  {
    ShiftedWidths(ValueWidths(args), NumberWidth(RowCount(args)), h, offset);
  }

  /** The header pass over the value widths and a width appended at the end, under "idx" and the header. */
  lemma ShiftedWidths(raw: seq<int>, nw: int, h: seq<string>, offset: int)
    requires |raw| > 0
    ensures var w := WithHeader(raw + [nw], ["idx"] + h, offset);
      var n := |raw|;
      && |w| == n + 1
      && w[0] == Max(3, raw[0]) + offset
      && (forall j :: 0 <= j < n - 1 ==> w[j + 1] == if j < |h| then Max(|h[j]|, raw[j + 1]) + offset else raw[j + 1])
      && w[n] == if n - 1 < |h| then Max(|h[n - 1]|, nw) + offset else nw
  {
    var n := |raw|;
    var titles := ["idx"] + h;
    var all := raw + [nw];
    var w := WithHeader(all, titles, offset);
    WidthAt(all, titles, offset, 0);
    assert titles[0] == "idx" && |"idx"| == 3;
    forall j | 0 <= j < n - 1
      ensures w[j + 1] == if j < |h| then Max(|h[j]|, raw[j + 1]) + offset else raw[j + 1]
    {
      WidthAt(all, titles, offset, j + 1);
      assert all[j + 1] == raw[j + 1];
      if j < |h| {
        assert titles[j + 1] == h[j];
      }
    }
    WidthAt(all, titles, offset, n);
    if n - 1 < |h| {
      assert titles[n] == h[n - 1];
    }
  }

  /** Width k after the header pass. */
  lemma WidthAt(w: seq<int>, titles: seq<string>, offset: int, k: nat)
    requires k < |w|
    ensures |WithHeader(w, titles, offset)| == |w|
    ensures WithHeader(w, titles, offset)[k] == if k < |titles| then Max(|titles[k]|, w[k]) + offset else w[k]
  {
  }

  /**
   * As written, numbered mode with a header pads every value to the next column's width:
   * row i is the row number padded to width 0 (sized from column 0 and "idx"), then the
   * value of column j padded to width j + 1 (sized from column j + 1), the last value to
   * the appended index width.
   */
  lemma NumberedHeaderMisaligned(offset: int, h: seq<string>, args: seq<seq<string>>, i: nat)
    requires |args| > 0 && NoEmptyColumn(args)
    requires Table(offset, Some(h), true, args).lines.Ok?
    requires i < RowCount(args)
    ensures var w := Widths(offset, Some(h), true, args);
      var raw := ValueWidths(args);
      var n := |args|;
      var lines := Table(offset, Some(h), true, args).lines.value;
      var cells := RowCells(args, w, true, i);
      && |w| == n + 1
      && w[0] == Max(3, raw[0]) + offset
      && (forall j :: 0 <= j < n - 1 ==> w[j + 1] == if j < |h| then Max(|h[j]|, raw[j + 1]) + offset else raw[j + 1])
      && 1 + i < |lines| && lines[1 + i] == Concat(cells)
      && |cells| == n + 1
      && cells[0] == LJust(Decimal(i), w[0])
      && forall j :: 0 <= j < n ==> cells[j + 1] == LJust(args[j][i], w[j + 1])
  {
    var w := Widths(offset, Some(h), true, args);
    NumberedHeaderWidths(offset, h, args);
    NumberedLines(offset, Some(h), args);
    RowOfLines(Table(offset, Some(h), true, args).lines.value, HeaderAfter(Some(h), true, args), args, w, RowCount(args), i, 1);
    assert RowColumns(|args|, |w|, true) == |args|;
    NumberedRowCells(args, w, i);
  }

  /**
   * As written, numbered mode without a header leaves the last column out of every row:
   * row i is the row number padded to the width of column 0, then the values of the
   * first |args| - 1 columns only, value j padded to the width of column j + 1.
   */
  lemma NumberedWithoutHeaderDropsLastColumn(offset: int, args: seq<seq<string>>, i: nat)
    requires |args| > 0 && NoEmptyColumn(args)
    requires Table(offset, None, true, args).lines.Ok?
    requires i < RowCount(args)
    ensures var w := Widths(offset, None, true, args);
      var lines := Table(offset, None, true, args).lines.value;
      var cells := RowCells(args, w, true, i);
      && w == ValueWidths(args)
      && i < |lines| && lines[i] == Concat(cells)
      && |cells| == |args|
      && cells[0] == LJust(Decimal(i), w[0])
      && forall j :: 0 <= j < |args| - 1 ==> cells[j + 1] == LJust(args[j][i], w[j + 1])
  {
    var w := Widths(offset, None, true, args);
    NumberedLines(offset, None, args);
    RowOfLines(Table(offset, None, true, args).lines.value, None, args, w, RowCount(args), i, 0);
    assert RowColumns(|args|, |w|, true) == |args| - 1;
    NumberedRowCells(args, w, i);
  }

  /** The index column as intended: wide enough for "idx" (with a header) and for the largest 0-based index. */
  function IndexWidth(offset: int, hasHeader: bool, n: nat): int
    requires n > 0
  {
    if hasHeader then Max(3, |Decimal(n - 1)|) + offset else |Decimal(n - 1)|
  }

  /** The intended lines: an index cell of width `iw` in front of the header line and of each row. */
  function IndexedLines(header: Option<seq<string>>, args: seq<seq<string>>, w: seq<int>, iw: int, n: nat): seq<string>
    requires header.Some? ==> |header.value| <= |w|
    requires RowsReadable(args, w, false, n)
  {
    var hc := if header.Some? then 1 else 0;
    seq(hc + n, k requires 0 <= k < hc + n =>
      if k < hc then LJust("idx", iw) + Concat(HeaderCells(header.value, w))
      else LJust(Decimal(k - hc), iw) + Concat(RowCells(args, w, false, k - hc)))
  }

  /** Numbered output as intended: an index cell in front of each unnumbered line, all columns kept. */
  function NumberedTable(offset: int, header: Option<seq<string>>, args: seq<seq<string>>): Result<seq<string>, LayoutError>
  {
    if !NoEmptyColumn(args) then Err(EmptyColumn)
    else if |args| == 0 then Err(IndexOutOfRange)
    else
      var w := Widths(offset, header, false, args);
      var n := RowCount(args);
      if header.Some? && |header.value| > |w| then Err(IndexOutOfRange)
      else if !RowsReadable(args, w, false, n) then Err(IndexOutOfRange)
      else Ok(IndexedLines(header, args, w, IndexWidth(offset, header.Some?, n), n))
  }

  /** Each intended line is the unnumbered line of the same position with the index cell in front. */
  lemma IndexedLinesShape(header: Option<seq<string>>, args: seq<seq<string>>, w: seq<int>, iw: int, n: nat)
    requires header.Some? ==> |header.value| <= |w|
    requires RowsReadable(args, w, false, n)
    ensures |IndexedLines(header, args, w, iw, n)| == |HeadLines(header, w) + Rows(args, w, false, n)|
      == (if header.Some? then 1 else 0) + n
    ensures header.Some? ==>
      IndexedLines(header, args, w, iw, n)[0] == LJust("idx", iw) + (HeadLines(header, w) + Rows(args, w, false, n))[0]
    ensures forall i :: 0 <= i < n ==>
      IndexedLines(header, args, w, iw, n)[(if header.Some? then 1 else 0) + i]
      == LJust(Decimal(i), iw) + (HeadLines(header, w) + Rows(args, w, false, n))[(if header.Some? then 1 else 0) + i]
  {
    if header.Some? {
      IndexedHeaderAt(header, args, w, iw, n);
    }
    forall i | 0 <= i < n
      ensures IndexedLines(header, args, w, iw, n)[(if header.Some? then 1 else 0) + i]
        == LJust(Decimal(i), iw) + (HeadLines(header, w) + Rows(args, w, false, n))[(if header.Some? then 1 else 0) + i]
    {
      IndexedRow(header, args, w, iw, n, i);
    }
  }

  /** Row i of the intended lines: the index cell, then the unnumbered line of row i. */
  lemma IndexedRow(header: Option<seq<string>>, args: seq<seq<string>>, w: seq<int>, iw: int, n: nat, i: nat)
    requires header.Some? ==> |header.value| <= |w|
    requires RowsReadable(args, w, false, n)
    requires i < n
    ensures var hc := if header.Some? then 1 else 0;
      && hc + i < |IndexedLines(header, args, w, iw, n)|
      && hc + i < |HeadLines(header, w) + Rows(args, w, false, n)|
      && IndexedLines(header, args, w, iw, n)[hc + i] == LJust(Decimal(i), iw) + (HeadLines(header, w) + Rows(args, w, false, n))[hc + i]
  {
    var hc := if header.Some? then 1 else 0;
    IndexedRowAt(header, args, w, iw, n, i);
    LineOfRow(header, args, w, false, n, i);
  }

  lemma IndexedHeaderAt(header: Option<seq<string>>, args: seq<seq<string>>, w: seq<int>, iw: int, n: nat)
    requires header.Some? && |header.value| <= |w|
    requires RowsReadable(args, w, false, n)
    ensures |IndexedLines(header, args, w, iw, n)| == 1 + n
    ensures IndexedLines(header, args, w, iw, n)[0] == LJust("idx", iw) + Concat(HeaderCells(header.value, w))
  {
  }

  lemma IndexedRowAt(header: Option<seq<string>>, args: seq<seq<string>>, w: seq<int>, iw: int, n: nat, i: nat)
    requires header.Some? ==> |header.value| <= |w|
    requires RowsReadable(args, w, false, n)
    requires i < n
    ensures var hc := if header.Some? then 1 else 0;
      && |IndexedLines(header, args, w, iw, n)| == hc + n
      && IndexedLines(header, args, w, iw, n)[hc + i] == LJust(Decimal(i), iw) + Concat(RowCells(args, w, false, i))
  {
    var hc := if header.Some? then 1 else 0;
    assert hc + i - hc == i;
  }

  /** A line made of an index cell and the rest is as long as both. */
  lemma JoinedLength(line: string, index: string, rest: string)
    requires line == index + rest
    ensures |line| == |index| + |rest|
  {
  }

  /** The intended header line, when its cells fill their widths: the index width plus the widths' sum. */
  lemma IndexedHeaderLength(header: Option<seq<string>>, args: seq<seq<string>>, w: seq<int>, iw: int, n: nat)
    requires header.Some? && |header.value| == |w|
    requires RowsReadable(args, w, false, n)
    requires forall j :: 0 <= j < |header.value| ==> |header.value[j]| <= w[j]
    requires |LJust("idx", iw)| == iw
    ensures |IndexedLines(header, args, w, iw, n)| == 1 + n
    ensures |IndexedLines(header, args, w, iw, n)[0]| == iw + Sum(w)
  {
    var cells := HeaderCells(header.value, w);
    IndexedHeaderAt(header, args, w, iw, n);
    CellsFill(cells, w);
    JoinedLength(IndexedLines(header, args, w, iw, n)[0], LJust("idx", iw), Concat(cells));
  }

  /** An intended row line, when its cells fill their widths: the index width plus the widths' sum. */
  lemma IndexedRowLength(header: Option<seq<string>>, args: seq<seq<string>>, w: seq<int>, iw: int, n: nat, k: nat)
    requires |w| == |args|
    requires header.Some? ==> |header.value| <= |w|
    requires RowsReadable(args, w, false, n)
    requires (if header.Some? then 1 else 0) <= k < (if header.Some? then 1 else 0) + n
    requires forall j, k :: 0 <= j < |args| && 0 <= k < |args[j]| ==> |args[j][k]| <= w[j]
    requires forall i :: 0 <= i < n ==> |LJust(Decimal(i), iw)| == iw
    ensures |IndexedLines(header, args, w, iw, n)| == (if header.Some? then 1 else 0) + n
    ensures |IndexedLines(header, args, w, iw, n)[k]| == iw + Sum(w)
  {
    var hc := if header.Some? then 1 else 0;
    var i := k - hc;
    IndexedRowAt(header, args, w, iw, n, i);
    assert hc + i == k;
    assert RowColumns(|args|, |w|, false) == |args|;
    RowFills(args, w, i);
    assert |LJust(Decimal(i), iw)| == iw;
    JoinedLength(IndexedLines(header, args, w, iw, n)[k], LJust(Decimal(i), iw), Concat(RowCells(args, w, false, i)));
  }

  /** One intended line whose cells all fill their widths: the index width plus the widths' sum. */
  lemma IndexedLineLength(header: Option<seq<string>>, args: seq<seq<string>>, w: seq<int>, iw: int, n: nat, k: nat)
    requires |w| == |args|
    requires header.Some? ==> |header.value| == |w|
    requires RowsReadable(args, w, false, n)
    requires k < (if header.Some? then 1 else 0) + n
    requires forall j, k :: 0 <= j < |args| && 0 <= k < |args[j]| ==> |args[j][k]| <= w[j]
    requires header.Some? ==> forall j :: 0 <= j < |header.value| ==> |header.value[j]| <= w[j]
    requires forall i :: 0 <= i < n ==> |LJust(Decimal(i), iw)| == iw
    requires header.Some? ==> |LJust("idx", iw)| == iw
    ensures |IndexedLines(header, args, w, iw, n)| == (if header.Some? then 1 else 0) + n
    ensures |IndexedLines(header, args, w, iw, n)[k]| == iw + Sum(w)
  {
    if header.Some? && k == 0 {
      IndexedHeaderLength(header, args, w, iw, n);
    } else {
      IndexedRowLength(header, args, w, iw, n, k);
    }
  }

  /** Intended lines whose cells all fill their widths are all as long as the index width plus the widths' sum. */
  lemma IndexedLinesAligned(header: Option<seq<string>>, args: seq<seq<string>>, w: seq<int>, iw: int, n: nat)
    requires |w| == |args|
    requires header.Some? ==> |header.value| == |w|
    requires RowsReadable(args, w, false, n)
    requires forall j, k :: 0 <= j < |args| && 0 <= k < |args[j]| ==> |args[j][k]| <= w[j]
    requires header.Some? ==> forall j :: 0 <= j < |header.value| ==> |header.value[j]| <= w[j]
    requires forall i :: 0 <= i < n ==> |LJust(Decimal(i), iw)| == iw
    requires header.Some? ==> |LJust("idx", iw)| == iw
    ensures forall line :: line in IndexedLines(header, args, w, iw, n) ==> |line| == iw + Sum(w)
  {
    var lines := IndexedLines(header, args, w, iw, n);
    forall k | 0 <= k < |lines| ensures |lines[k]| == iw + Sum(w) {
      IndexedLineLength(header, args, w, iw, n, k);
    }
  }

  /** The intended index cells, "idx" included, are exactly as wide as the index column. */
  lemma IndexCellsFit(offset: int, hasHeader: bool, n: nat)
    requires n > 0 && (hasHeader ==> offset >= 0)
    ensures forall i :: 0 <= i < n ==> |LJust(Decimal(i), IndexWidth(offset, hasHeader, n))| == IndexWidth(offset, hasHeader, n)
    ensures hasHeader ==> |LJust("idx", IndexWidth(offset, hasHeader, n))| == IndexWidth(offset, hasHeader, n)
  {
    forall i | 0 <= i < n ensures |Decimal(i)| <= IndexWidth(offset, hasHeader, n) {
      DecimalLengthMonotone(i, n - 1);
    }
  }

  /**
   * The intended numbering fails exactly when the unnumbered call fails, and otherwise puts
   * an index cell ("idx" on the header line, the 0-based row number on row i) in front of
   * each unnumbered line, so every row keeps all of its columns.
   */
  lemma NumberedTableExtendsPlain(offset: int, header: Option<seq<string>>, args: seq<seq<string>>)
    ensures NumberedTable(offset, header, args).Ok? <==> Table(offset, header, false, args).lines.Ok?
    ensures NumberedTable(offset, header, args).Ok? ==>
      var lines := NumberedTable(offset, header, args).value;
      var plain := Table(offset, header, false, args).lines.value;
      var iw := IndexWidth(offset, header.Some?, RowCount(args));
      var hc := if header.Some? then 1 else 0;
      && |lines| == |plain| == hc + RowCount(args)
      && (header.Some? ==> lines[0] == LJust("idx", iw) + plain[0])
      && (forall i :: 0 <= i < RowCount(args) ==> lines[hc + i] == LJust(Decimal(i), iw) + plain[hc + i])
  {
    if NumberedTable(offset, header, args).Ok? {
      PlainLines(offset, header, args);
      var w := Widths(offset, header, false, args);
      var n := RowCount(args);
      IndexedLinesShape(header, args, w, IndexWidth(offset, header.Some?, n), n);
    }
  }

  /**
   * With one header entry per column and a non-negative offset, every line of the intended
   * numbered output is equally long: the index width plus the unnumbered widths.
   */
  lemma NumberedTableAligned(offset: int, header: Option<seq<string>>, args: seq<seq<string>>)
    requires |args| > 0 && NoEmptyColumn(args)
    requires NumberedTable(offset, header, args).Ok?
    requires header.Some? ==> |header.value| == |args| && offset >= 0
    ensures forall line :: line in NumberedTable(offset, header, args).value ==>
      |line| == IndexWidth(offset, header.Some?, RowCount(args)) + Sum(Widths(offset, header, false, args))
  {
    var w := Widths(offset, header, false, args);
    var n := RowCount(args);
    ValuesFit(offset, header, args);
    IndexCellsFit(offset, header.Some?, n);
    IndexedLinesAligned(header, args, w, IndexWidth(offset, header.Some?, n), n);
  }
}
