// Spreadsheet values and sheets as the scripts see them through
// SpreadsheetApp: a cell holds text, a number, a boolean or a date; a
// sheet is a header row and data rows (sheet rows 2..getLastRow()).
module Cells {
  import opened Wrappers
  import opened Strings

  /** A calendar day in the script's time zone. */
  datatype Day = Day(year: int, month: int, day: int)

  /** A cell value. A date carries its calendar day (in the script's time
      zone) and the seconds since midnight. Empty cells read as Text(""). */
  datatype Cell = Text(s: string) | Num(n: int) | Flag(b: bool) | When(date: Day, secs: nat)

  type Row = seq<Cell>

  const Empty: Cell := Text("")

  /** The value of `new Date()`: always a date, hence truthy. */
  type Instant = c: Cell | c.When? witness When(Day(1970, 1, 1), 0)

  /** JavaScript truthiness of a cell value. */
  predicate Truthy(c: Cell) {
    match c
    case Text(s) => s != ""
    case Num(n) => n != 0
    case Flag(b) => b
    case When(_, _) => true
  }

  function MonthAbbrev(m: int): string {
    if m == 1 then "Jan" else if m == 2 then "Feb" else if m == 3 then "Mar"
    else if m == 4 then "Apr" else if m == 5 then "May" else if m == 6 then "Jun"
    else if m == 7 then "Jul" else if m == 8 then "Aug" else if m == 9 then "Sep"
    else if m == 10 then "Oct" else if m == 11 then "Nov" else "Dec"
  }

  /** String(date): the engine's long date text, reduced to month, day and
      year. It starts with a letter, so it never reads as a yyyy-MM-dd key
      or an ID. */
  function DateString(d: Day): (s: string)
    ensures s != [] && IsLetter(s[0])
  {
    MonthAbbrev(d.month) + " " + PadZeros(IntToString(d.day), 2) + " " + IntToString(d.year)
  }

  /** String(date) has no surrounding white space and is longer than any
      one-word flag such as "false". */
  lemma DateStringShape(d: Day)
    ensures NoEdgeSpace(DateString(d)) && |DateString(d)| >= 8
  {
    var y := IntToString(d.year);
    IntToStringShape(d.year);
    var s := DateString(d);
    assert s[|s| - 1] == y[|y| - 1];
  }

  /** String(v). */
  function StrOf(c: Cell): string {
    match c
    case Text(s) => s
    case Num(n) => IntToString(n)
    case Flag(b) => if b then "true" else "false"
    case When(d, _) => DateString(d)
  }

  /** String(v || ''). */
  function StrOr(c: Cell): string {
    if Truthy(c) then StrOf(c) else ""
  }

  /** String(v || '').trim(), the scripts' usual reading of a cell. */
  function CellText(c: Cell): string {
    Trim(StrOr(c))
  }

  lemma CellTextOfText(s: string)
    ensures StrOr(Text(s)) == s && StrOf(Text(s)) == s
    ensures CellText(Text(s)) == Trim(s)
  {
  }

  lemma CellTextOfTrimmed(s: string)
    requires NoEdgeSpace(s)
    ensures CellText(Text(s)) == s
  {
    TrimOfTrimmed(s);
  }

  /** JavaScript's Number(v) for the values the model keeps: integral
      numbers; None stands for NaN. Fractional text is treated as NaN and a
      date's millisecond time is not modelled. */
  function NumberOf(c: Cell): Option<int> {
    match c
    case Num(n) => Some(n)
    case Flag(b) => Some(if b then 1 else 0)
    case When(_, _) => None
    case Text(s) =>
      match NumberText(s)
      case Some(r) => if r == r.Floor as real then Some(r.Floor) else None
      case None => None
  }

  /** Number(v) || 0. */
  function NumberOr0(c: Cell): int {
    NumberOf(c).GetOr(0)
  }

  // ---------------------------------------------------------------- rows

  function Blanks(n: nat): (r: Row)
    ensures |r| == n && forall i :: 0 <= i < n ==> r[i] == Empty
  {
    seq(n, _ => Empty)
  }

  /** row[i], or '' past the end of the row. */
  function At(row: Row, i: nat): Cell {
    if i < |row| then row[i] else Empty
  }

  /** The cell of a column that may be missing from the header: r[C.X]
      when C.X != null, otherwise ''. */
  function Get(row: Row, col: Option<nat>): Cell {
    match col
    case Some(i) => At(row, i)
    case None => Empty
  }

  /** String(C.X != null ? r[C.X] : '').trim(). */
  function Str(row: Row, col: Option<nat>): string {
    Trim(StrOf(Get(row, col)))
  }

  /** String(r[C.X] || '').trim(). */
  function FieldText(row: Row, col: Option<nat>): string {
    CellText(Get(row, col))
  }

  /** `if (C.X != null) next[C.X] = v` on a row at least as wide as the
      column. */
  function SetOpt(row: Row, col: Option<nat>, v: Cell): (r: Row)
    ensures |r| == |row|
  {
    if col.Some? && col.value < |row| then row[col.value := v] else row
  }

  /** Reading a column after writing one: the written value where the
      columns coincide, the old cell elsewhere. */
  lemma GetSetOpt(row: Row, a: Option<nat>, v: Cell, b: Option<nat>)
    requires a.Some? && a.value < |row|
    ensures Get(SetOpt(row, a, v), b) == if b == a then v else Get(row, b)
  {
  }

  /** Writing the value a cell already holds changes nothing. */
  lemma SetOptSame(row: Row, a: Option<nat>, v: Cell)
    requires a.Some? ==> a.value < |row| && Get(row, a) == v
    ensures SetOpt(row, a, v) == row
  {
  }

  /** One `next[C.X] = v` of a sequence of writes; a write whose column
      is None (or that its guard switched off) does nothing. */
  datatype Write = Write(col: Option<nat>, v: Cell)

  /** The writes carried out in order. */
  function Apply(row: Row, ws: seq<Write>): (r: Row)
    ensures |r| == |row|
    decreases |ws|
  {
    if ws == [] then row else Apply(SetOpt(row, ws[0].col, ws[0].v), ws[1..])
  }

  /** A list of two writes is the two writes in turn. */
  lemma ApplyTwo(row: Row, ws: seq<Write>)
    requires |ws| == 2
    ensures Apply(row, ws) == SetOpt(SetOpt(row, ws[0].col, ws[0].v), ws[1].col, ws[1].v)
  {
    var r1 := SetOpt(row, ws[0].col, ws[0].v);
    assert Apply(row, ws) == Apply(r1, ws[1..]);
    assert ws[1..][0] == ws[1] && ws[1..][1..] == [];
    assert Apply(r1, ws[1..]) == Apply(SetOpt(r1, ws[1].col, ws[1].v), []);
  }

  /** Two columns that are both present differ. */
  predicate Apart(a: Option<nat>, b: Option<nat>) {
    a.Some? && b.Some? ==> a.value != b.value
  }

  /** No two writes go to the same column. */
  predicate DistinctTargets(ws: seq<Write>) {
    forall i, j :: 0 <= i < j < |ws| ==> Apart(ws[i].col, ws[j].col)
  }

  /** Columns no two of which coincide. */
  predicate ColumnsApart(cols: seq<Option<nat>>) {
    forall i, j :: 0 <= i < j < |cols| ==> Apart(cols[i], cols[j])
  }

  /** Writes that go, in increasing order, each to its own column of a
      list of distinct columns (or nowhere) go to distinct columns, and
      never to a column of the list they do not pick. */
  lemma TargetsAmong(ws: seq<Write>, cols: seq<Option<nat>>, pick: seq<nat>)
    requires |ws| == |pick| && ColumnsApart(cols)
    requires forall k :: 0 <= k < |pick| ==> pick[k] < |cols|
    requires forall i, j :: 0 <= i < j < |pick| ==> pick[i] < pick[j]
    requires forall k :: 0 <= k < |ws| ==> ws[k].col.None? || ws[k].col == cols[pick[k]]
    ensures DistinctTargets(ws)
    ensures forall m, k :: 0 <= m < |cols| && m !in pick && 0 <= k < |ws| ==> Apart(ws[k].col, cols[m])
  {
    forall i, j | 0 <= i < j < |ws| ensures Apart(ws[i].col, ws[j].col) {
      assert Apart(cols[pick[i]], cols[pick[j]]);
    }
    forall m, k | 0 <= m < |cols| && m !in pick && 0 <= k < |ws| ensures Apart(ws[k].col, cols[m]) {
      if ws[k].col.Some? {
        assert pick[k] != m;
        if pick[k] < m {
          assert Apart(cols[pick[k]], cols[m]);
        } else {
          assert Apart(cols[m], cols[pick[k]]);
        }
      }
    }
  }

  /** Every write already holds in the row. */
  predicate Holds(row: Row, ws: seq<Write>) {
    forall k :: 0 <= k < |ws| && ws[k].col.Some? ==> ws[k].col.value < |row| && Get(row, ws[k].col) == ws[k].v
  }

  /** A column no write goes to keeps its cell. */
  lemma {:induction false} ApplyUntouched(row: Row, ws: seq<Write>, col: Option<nat>)
    requires forall k :: 0 <= k < |ws| ==> Apart(ws[k].col, col)
    ensures Get(Apply(row, ws), col) == Get(row, col)
    decreases |ws|
  {
    if ws != [] {
      var r1 := SetOpt(row, ws[0].col, ws[0].v);
      assert Apart(ws[0].col, col);
      assert forall k :: 0 <= k < |ws[1..]| ==> ws[1..][k] == ws[k + 1];
      ApplyUntouched(r1, ws[1..], col);
    }
  }

  /** With distinct targets, each written column reads its write. */
  lemma {:induction false} ApplyReads(row: Row, ws: seq<Write>, k: nat)
    requires DistinctTargets(ws) && k < |ws| && ws[k].col.Some? && ws[k].col.value < |row|
    ensures Get(Apply(row, ws), ws[k].col) == ws[k].v
    decreases |ws|
  {
    var r1 := SetOpt(row, ws[0].col, ws[0].v);
    assert forall j :: 0 <= j < |ws[1..]| ==> ws[1..][j] == ws[j + 1];
    if k == 0 {
      assert forall j :: 0 <= j < |ws[1..]| ==> Apart(ws[1..][j].col, ws[0].col) by {
        forall j | 0 <= j < |ws[1..]| ensures Apart(ws[1..][j].col, ws[0].col) {
          assert Apart(ws[0].col, ws[j + 1].col);
        }
      }
      ApplyUntouched(r1, ws[1..], ws[0].col);
    } else {
      ApplyReads(r1, ws[1..], k - 1);
    }
  }

  /** A column written by ws[k] and by no later write reads ws[k]'s value,
      whatever the earlier writes did. */
  lemma {:induction false} ApplyLastWins(row: Row, ws: seq<Write>, k: nat)
    requires k < |ws| && ws[k].col.Some? && ws[k].col.value < |row|
    requires forall j :: k < j < |ws| ==> Apart(ws[j].col, ws[k].col)
    ensures Get(Apply(row, ws), ws[k].col) == ws[k].v
    decreases |ws|
  {
    var r1 := SetOpt(row, ws[0].col, ws[0].v);
    assert forall j :: 0 <= j < |ws[1..]| ==> ws[1..][j] == ws[j + 1];
    if k == 0 {
      assert forall j :: 0 <= j < |ws[1..]| ==> Apart(ws[1..][j].col, ws[0].col) by {
        forall j | 0 <= j < |ws[1..]| ensures Apart(ws[1..][j].col, ws[0].col) {
          assert Apart(ws[j + 1].col, ws[0].col);
        }
      }
      ApplyUntouched(r1, ws[1..], ws[0].col);
    } else {
      ApplyLastWins(r1, ws[1..], k - 1);
    }
  }

  /** Two lists of writes in turn are their concatenation. */
  lemma {:induction false} ApplyConcat(row: Row, a: seq<Write>, b: seq<Write>)
    ensures Apply(row, a + b) == Apply(Apply(row, a), b)
    decreases |a|
  {
    if a == [] {
      assert a + b == b;
    } else {
      assert (a + b)[0] == a[0] && (a + b)[1..] == a[1..] + b;
      ApplyConcat(SetOpt(row, a[0].col, a[0].v), a[1..], b);
    }
  }

  /** The first k + 1 writes are the first k followed by write k. */
  lemma ApplySnoc(row: Row, ws: seq<Write>, k: nat)
    requires k < |ws|
    ensures Apply(row, ws[..k + 1]) == SetOpt(Apply(row, ws[..k]), ws[k].col, ws[k].v)
  {
    assert ws[..k + 1] == ws[..k] + [ws[k]];
    ApplyConcat(row, ws[..k], [ws[k]]);
    var r := Apply(row, ws[..k]);
    assert Apply(r, [ws[k]]) == Apply(SetOpt(r, ws[k].col, ws[k].v), []);
  }

  /** Five writes are the five writes in turn. */
  lemma ApplyFive(row: Row, ws: seq<Write>)
    requires |ws| == 5
    ensures Apply(row, ws) == SetOpt(SetOpt(SetOpt(SetOpt(SetOpt(row, ws[0].col, ws[0].v), ws[1].col, ws[1].v),
                                                      ws[2].col, ws[2].v), ws[3].col, ws[3].v), ws[4].col, ws[4].v)
  {
    assert ws[..0] == [];
    ApplySnoc(row, ws, 0);
    ApplySnoc(row, ws, 1);
    ApplySnoc(row, ws, 2);
    ApplySnoc(row, ws, 3);
    ApplySnoc(row, ws, 4);
    assert ws[..5] == ws;
  }

  /** A write leaves every other column's cell alone. */
  lemma GetPast(row: Row, a: Option<nat>, v: Cell, b: Option<nat>)
    requires Apart(a, b)
    ensures Get(SetOpt(row, a, v), b) == Get(row, b)
  {
  }

  /** `sh.getRange(i + 2, C.X + 1).setValue(v)` for each write in turn,
      skipping the writes whose column is unknown. */
  method SetCells(sh: Sheet, i: nat, ws: seq<Write>)
    requires sh.Valid() && i < |sh.data|
    requires forall k :: 0 <= k < |ws| && ws[k].col.Some? ==> ws[k].col.value < sh.Width()
    modifies sh
    ensures sh.Valid() && sh.header == old(sh.header)
    ensures sh.data == old(sh.data)[i := Apply(old(sh.data)[i], ws)]
  {
    ghost var row := sh.data[i];
    var k := 0;
    while k < |ws|
      invariant 0 <= k <= |ws|
      invariant sh.Valid() && sh.header == old(sh.header)
      invariant sh.data == old(sh.data)[i := Apply(row, ws[..k])]
    {
      ApplySnoc(row, ws, k);
      if ws[k].col.Some? {
        PutCellInRow(sh.data, i, ws[k].col.value, ws[k].v, sh.Width());
        sh.SetCell(i + 2, ws[k].col.value, ws[k].v);
      }
      k := k + 1;
    }
    assert ws[..|ws|] == ws;
  }

  /** Writes that already hold change nothing. */
  lemma {:induction false} ApplyHolds(row: Row, ws: seq<Write>)
    requires Holds(row, ws)
    ensures Apply(row, ws) == row
    decreases |ws|
  {
    if ws != [] {
      SetOptSame(row, ws[0].col, ws[0].v);
      assert forall j :: 0 <= j < |ws[1..]| ==> ws[1..][j] == ws[j + 1];
      ApplyHolds(row, ws[1..]);
    }
  }

  /** `row[i] = v` on a JavaScript array: assigning past the end extends
      it with empty cells. */
  function Assign(row: Row, i: nat, v: Cell): (r: Row)
    ensures |r| == if i < |row| then |row| else i + 1
    ensures r[i] == v && forall j :: 0 <= j < |r| && j != i ==> r[j] == At(row, j)
  {
    Pad(row, i + 1)[i := v]
  }

  /** The row widened with empty cells to at least w cells. */
  function Pad(row: Row, w: nat): (r: Row)
    ensures |r| == if |row| < w then w else |row|
    ensures forall i :: 0 <= i < |r| ==> r[i] == At(row, i)
  {
    if |row| < w then row + Blanks(w - |row|) else row
  }

  /** A row already w wide is not widened. */
  lemma PadFit(row: Row)
    ensures Pad(row, |row|) == row
  {
  }

  /** Widening twice is widening once to the larger width. */
  lemma PadTwice(row: Row, w1: nat, w2: nat)
    requires w1 <= w2
    ensures Pad(Pad(row, w1), w2) == Pad(row, w2)
  {
    var a := Pad(Pad(row, w1), w2);
    var b := Pad(row, w2);
    assert |a| == |b|;
    forall i | 0 <= i < |a| ensures a[i] == b[i] {
    }
  }

  function PadAll(rows: seq<Row>, w: nat): (r: seq<Row>)
    ensures |r| == |rows|
    ensures forall i :: 0 <= i < |rows| ==> r[i] == Pad(rows[i], w)
  {
    seq(|rows|, i requires 0 <= i < |rows| => Pad(rows[i], w))
  }

  lemma PadAllTwice(rows: seq<Row>, w1: nat, w2: nat)
    requires w1 <= w2
    ensures PadAll(PadAll(rows, w1), w2) == PadAll(rows, w2)
  {
    forall i | 0 <= i < |rows| ensures PadAll(PadAll(rows, w1), w2)[i] == PadAll(rows, w2)[i] {
      PadTwice(rows[i], w1, w2);
    }
  }

  /** Rows already w wide are not changed by widening to w. */
  lemma PadAllFit(rows: seq<Row>, w: nat)
    requires forall i :: 0 <= i < |rows| ==> |rows[i]| == w
    ensures PadAll(rows, w) == rows
  {
  }

  /** The row made exactly w cells wide: widened with empty cells or cut. */
  function Fit(row: Row, w: nat): (r: Row)
    ensures |r| == w && forall i :: 0 <= i < w ==> r[i] == At(row, i)
  {
    if |row| < w then Pad(row, w) else row[..w]
  }

  function FitAll(rows: seq<Row>, w: nat): (r: seq<Row>)
    ensures |r| == |rows| && forall i :: 0 <= i < |rows| ==> r[i] == Fit(rows[i], w)
  {
    seq(|rows|, i requires 0 <= i < |rows| => Fit(rows[i], w))
  }

  /** Rows already w wide are not changed by fitting them to w. */
  lemma FitAllFit(rows: seq<Row>, w: nat)
    requires forall i :: 0 <= i < |rows| ==> |rows[i]| == w
    ensures FitAll(rows, w) == rows
  {
    forall i | 0 <= i < |rows| ensures FitAll(rows, w)[i] == rows[i] {
      assert rows[i][..w] == rows[i];
    }
  }

  /** Rows after setting the cell at data index r (sheet row r + 2) and
      column c; writing below the last row extends the sheet with empty
      rows of width w. */
  function PutCell(data: seq<Row>, r: nat, c: nat, v: Cell, w: nat): seq<Row>
    requires c < w
  {
    if r < |data| then data[r := Pad(data[r], w)[c := v]]
    else data + BlankRows(r - |data|, w) + [Blanks(w)[c := v]]
  }

  /** n empty rows of width w. */
  function BlankRows(n: nat, w: nat): (r: seq<Row>)
    ensures |r| == n && forall i :: 0 <= i < n ==> r[i] == Blanks(w)
  {
    if n == 0 then [] else BlankRows(n - 1, w) + [Blanks(w)]
  }

  /** getRange(r + 2, c + 1).getValue(): '' outside the written area. */
  function CellOf(data: seq<Row>, r: nat, c: nat): Cell {
    if r < |data| then At(data[r], c) else Empty
  }

  /** A write sets exactly its own cell: afterwards that cell reads v and
      every other cell reads as before. */
  lemma PutCellReads(data: seq<Row>, r: nat, c: nat, v: Cell, w: nat, r2: nat, c2: nat)
    requires c < w
    ensures CellOf(PutCell(data, r, c, v, w), r2, c2) == if r2 == r && c2 == c then v else CellOf(data, r2, c2)
  {
  }

  /** A write never removes rows; it adds rows only below the last one. */
  lemma PutCellRows(data: seq<Row>, r: nat, c: nat, v: Cell, w: nat)
    requires c < w
    ensures |PutCell(data, r, c, v, w)| == if r < |data| then |data| else r + 1
    ensures forall i :: 0 <= i < |data| && i != r ==> PutCell(data, r, c, v, w)[i] == data[i]
  {
  }

  /** A write inside a full-width existing row just replaces that cell. */
  lemma PutCellInRow(data: seq<Row>, r: nat, c: nat, v: Cell, w: nat)
    requires c < w && r < |data| && |data[r]| == w
    ensures PutCell(data, r, c, v, w) == data[r := data[r][c := v]]
  {
  }

  // -------------------------------------------------------------- sheets

  /** A sheet: header row (sheet row 1) and data rows (sheet rows 2..).
      getLastColumn() is the header width; the grid is rectangular. */
  class Sheet {
    var header: Row
    var data: seq<Row>

    ghost predicate Valid()
      reads this
    {
      forall i :: 0 <= i < |data| ==> |data[i]| == |header|
    }

    function Width(): nat
      reads this
    {
      |header|
    }

    /** getLastRow() of a sheet with its header row. */
    function LastRow(): nat
      reads this
    {
      |data| + 1
    }

    constructor (h: Row)
      ensures header == h && data == [] && Valid()
    {
      header := h;
      data := [];
    }

    /** getRange(rowNumber, col + 1).setValue(v). */
    method SetCell(rowNumber: nat, col: nat, v: Cell)
      requires Valid() && 2 <= rowNumber && col < Width()
      modifies this
      ensures Valid() && header == old(header)
      ensures data == PutCell(old(data), rowNumber - 2, col, v, Width())
    {
      var w := |header|;
      data := PutCell(data, rowNumber - 2, col, v, w);
    }

    /** appendRow(values): a longer row widens the sheet. */
    method AppendRow(values: Row)
      requires Valid()
      modifies this
      ensures Valid()
      ensures |values| <= old(Width()) ==>
        header == old(header) && data == old(data) + [Pad(values, old(Width()))]
      ensures |values| > old(Width()) ==>
        header == Pad(old(header), |values|) && data == PadAll(old(data), |values|) + [values]
    {
      if |values| <= |header| {
        data := data + [Pad(values, |header|)];
      } else {
        header := Pad(header, |values|);
        data := PadAll(data, |values|) + [values];
      }
    }

    /** getRange(rowNumber, 1, 1, width).setValues([values]) on an existing
        row or on the row just below the last one. */
    method WriteRow(rowNumber: nat, values: Row)
      requires Valid() && 2 <= rowNumber <= |data| + 2 && |values| == Width()
      modifies this
      ensures Valid() && header == old(header)
      ensures rowNumber - 2 < |old(data)| ==> data == old(data)[rowNumber - 2 := values]
      ensures rowNumber - 2 == |old(data)| ==> data == old(data) + [values]
    {
      if rowNumber - 2 < |data| {
        data := data[rowNumber - 2 := values];
      } else {
        data := data + [values];
      }
    }

    /** Header cells written from column |header| + 1 onwards. */
    method AppendHeaderCells(names: Row)
      requires Valid()
      modifies this
      ensures Valid()
      ensures header == old(header) + names
      ensures data == PadAll(old(data), |old(header)| + |names|)
    {
      var w := |header| + |names|;
      data := PadAll(data, w);
      header := header + names;
    }

    /** The header row written over the first |h| columns. */
    method SetHeader(h: Row)
      requires Valid()
      modifies this
      ensures Valid()
      ensures header == if |h| >= |old(header)| then h else h + old(header)[|h|..]
      ensures data == PadAll(old(data), |header|)
    {
      var nh := if |h| >= |header| then h else h + header[|h|..];
      data := PadAll(data, |nh|);
      header := nh;
    }

    /** _clearDataRows_ and clearing rows 2..last: getLastRow() drops back
        to the header row. */
    method ClearData()
      requires Valid()
      modifies this
      ensures Valid() && header == old(header) && data == []
    {
      data := [];
    }

    /** getRange(2, 1, rows.length, Width()).setValues(rows) on a cleared
        data area: refused (an exception) unless every row is exactly as
        wide as the range. */
    method WriteDataRows(rows: seq<Row>) returns (ok: bool)
      requires Valid() && data == []
      modifies this
      ensures Valid() && header == old(header)
      ensures ok <==> forall i :: 0 <= i < |rows| ==> |rows[i]| == Width()
      ensures ok ==> data == rows
      ensures !ok ==> data == []
    {
      ok := forall i :: 0 <= i < |rows| ==> |rows[i]| == |header|;
      if ok {
        data := rows;
      }
    }

    /** clearContents() of the whole sheet. */
    method ClearAll()
      requires Valid()
      modifies this
      ensures Valid() && header == Blanks(old(Width())) && data == []
    {
      header := Blanks(|header|);
      data := [];
    }

    /** getRange(getLastRow() + 1, 1, rows.length, w).setValues(rows): a
        block of rows, each exactly w wide, written below the last row; a
        range wider than the sheet widens it. */
    method AppendRows(rows: seq<Row>, w: nat)
      requires Valid() && Width() <= w
      requires forall i :: 0 <= i < |rows| ==> |rows[i]| == w
      modifies this
      ensures Valid()
      ensures header == Pad(old(header), w) && data == PadAll(old(data), w) + rows
    {
      header := Pad(header, w);
      data := PadAll(data, w) + rows;
    }

    /** getRange(1, 1, rows.length, w).setValues(rows) on a cleared sheet:
        refused unless every row has exactly w cells. */
    method WriteFromTop(rows: seq<Row>, w: nat) returns (ok: bool)
      requires Valid() && data == [] && rows != []
      modifies this
      ensures Valid()
      ensures ok <==> forall i :: 0 <= i < |rows| ==> |rows[i]| == w
      ensures ok ==> header == Pad(rows[0], old(Width())) && data == PadAll(rows[1..], |header|)
      ensures !ok ==> header == old(header) && data == []
    {
      ok := forall i :: 0 <= i < |rows| ==> |rows[i]| == w;
      if ok {
        var h := Pad(rows[0], |header|);
        header := h;
        data := PadAll(rows[1..], |h|);
      }
    }
  }
}
