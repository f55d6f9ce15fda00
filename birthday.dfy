// The birthday calendar: the Master tab's name, school, grade and birth
// date columns are read into one record per student whose birth date is a
// date, and each record becomes an all-day event for this year and each of
// the next five, described with the grade level the student will then be in.
module Birthday {
  import opened Wrappers
  import opened Strings
  import opened Cells
  import opened Scan
  import Utils

  /** The columns checkAllBirthdays asks for, in this order. */
  const TargetColumns: seq<string> := ["First Name", "Last Name", "School", "Current Grade Level", "Birth Date"]
  const BirthDate := "Birth Date"

  /** What the engine throws when a column the loop reads was never read. */
  const MissingColumn := "TypeError: Cannot read properties of undefined"
  /** What getRange throws for a range of zero data rows. */
  const NoRows := "The number of rows in the range must be at least 1"

  // ---------------------------------------------------- column positions

  /** headers.findIndex(h => h === name), and headers.indexOf(name): the
      first header cell that is exactly the text name. */
  function HeaderIndex(headers: Row, name: string): (r: Option<nat>)
    ensures r.Some? ==> r.value < |headers| && headers[r.value] == Text(name)
    ensures r.Some? ==> forall j :: 0 <= j < r.value ==> headers[j] != Text(name)
    ensures r.None? <==> Text(name) !in headers
  {
    First(headers, (h: Cell) => h == Text(name))
  }

  /** A target column the header has. */
  predicate InHeader(headers: Row, t: string) {
    Text(t) in headers
  }

  /** getColumnIndexes: the 1-based position of each target's first
      column, missing targets dropped. */
  function ColumnIndexes(headers: Row, targets: seq<string>): (r: seq<nat>)
    ensures |r| <= |targets|
    ensures forall k :: 0 <= k < |r| ==> 1 <= r[k] <= |headers|
    decreases |targets|
  {
    if targets == [] then []
    else
      var n := |targets| - 1;
      ColumnIndexes(headers, targets[..n])
        + (match HeaderIndex(headers, targets[n]) case Some(i) => [i + 1] case None => [])
  }

  /** The targets the header has, in the order of the targets. */
  function Found(headers: Row, targets: seq<string>): (r: seq<string>)
    ensures |r| <= |targets|
    ensures forall k :: 0 <= k < |r| ==> InHeader(headers, r[k]) && r[k] in targets
    ensures forall t :: t in targets && InHeader(headers, t) ==> t in r
    decreases |targets|
  {
    if targets == [] then []
    else
      var n := |targets| - 1;
      assert forall t :: t in targets ==> t in targets[..n] || t == targets[n];
      Found(headers, targets[..n]) + (if InHeader(headers, targets[n]) then [targets[n]] else [])
  }

  /** One index per target the header has, in the order of the targets,
      each of them that target's first column counted from 1. */
  lemma {:induction false} ColumnIndexesMeaning(headers: Row, targets: seq<string>)
    ensures |ColumnIndexes(headers, targets)| == |Found(headers, targets)|
    ensures forall k :: 0 <= k < |Found(headers, targets)| ==>
              ColumnIndexes(headers, targets)[k] == HeaderIndex(headers, Found(headers, targets)[k]).value + 1
    decreases |targets|
  {
    if targets != [] {
      var n := |targets| - 1;
      ColumnIndexesMeaning(headers, targets[..n]);
    }
  }

  /** A target the header lacks leaves fewer indexes than targets. */
  lemma {:induction false} FoundShort(headers: Row, targets: seq<string>, t: nat)
    requires t < |targets| && !InHeader(headers, targets[t])
    ensures |Found(headers, targets)| < |targets|
    decreases |targets|
  {
    var n := |targets| - 1;
    if t < n {
      FoundShort(headers, targets[..n], t);
    }
  }

  /** The guard of checkAllBirthdays, includes(indexOf("Birth Date") + 1),
      holds exactly when the header has a "Birth Date" cell. */
  lemma BirthDateGuard(headers: Row)
    ensures (match HeaderIndex(headers, BirthDate) case Some(i) => i + 1 case None => 0)
              in ColumnIndexes(headers, TargetColumns)
            <==> InHeader(headers, BirthDate)
  {
    ColumnIndexesMeaning(headers, TargetColumns);
    var found := Found(headers, TargetColumns);
    if InHeader(headers, BirthDate) {
      BirthDateAt4();
      assert BirthDate in found;
      var k :| 0 <= k < |found| && found[k] == BirthDate;
      assert ColumnIndexes(headers, TargetColumns)[k] == HeaderIndex(headers, BirthDate).value + 1;
    }
  }

  // --------------------------------------------------------- column data

  /** getColumnData: the data rows (sheet rows 2..getLastRow()) of each
      1-based column; a sheet without data rows makes getRange throw. */
  function ColumnData(data: seq<Row>, cols: seq<nat>): (r: Result<seq<seq<Cell>>>)
    requires forall k :: 0 <= k < |cols| ==> cols[k] >= 1
    ensures r.Ok? <==> data != []
    ensures r.Ok? ==> |r.value| == |cols|
    ensures r.Ok? ==> forall k :: 0 <= k < |cols| ==> |r.value[k]| == |data|
    ensures r.Ok? ==> forall k, i :: 0 <= k < |cols| && 0 <= i < |data| ==> r.value[k][i] == At(data[i], cols[k] - 1)
  {
    if data == [] then Err(NoRows)
    else Ok(seq(|cols|, k requires 0 <= k < |cols| =>
              seq(|data|, i requires 0 <= i < |data| => At(data[i], cols[k] - 1))))
  }

  // ------------------------------------------------------------- records

  /** data[colIndex][rowIndex] || "": a falsy or missing value reads as
      the empty text. */
  function Filled(data: seq<seq<Cell>>, k: nat, i: nat): (c: Cell)
    ensures Truthy(c) || c == Empty
    ensures k < |data| && i < |data[k]| && Truthy(data[k][i]) ==> c == data[k][i]
  {
    var v := if k < |data| && i < |data[k]| then data[k][i] else Empty;
    if Truthy(v) then v else Empty
  }

  /** The rowData object of row i: each target name set, in order, to the
      value of the column at the same position. */
  function Record(data: seq<seq<Cell>>, targets: seq<string>, i: nat): (m: map<string, Cell>)
    ensures forall t :: t in m <==> t in targets
    decreases |targets|
  {
    if targets == [] then map[]
    else
      var n := |targets| - 1;
      Record(data, targets[..n], i)[targets[n] := Filled(data, n, i)]
  }

  /** A target name holds the value of its last position among the
      targets (a later duplicate overwrites an earlier one). */
  lemma {:induction false} RecordLastWins(data: seq<seq<Cell>>, targets: seq<string>, i: nat, k: nat)
    requires k < |targets| && forall j :: k < j < |targets| ==> targets[j] != targets[k]
    ensures Record(data, targets, i)[targets[k]] == Filled(data, k, i)
    decreases |targets|
  {
    var n := |targets| - 1;
    if k < n {
      var init := targets[..n];
      assert init[k] == targets[k] && targets[n] != targets[k];
      assert forall j :: k < j < n ==> init[j] == targets[j];
      RecordLastWins(data, init, i, k);
      assert Record(data, targets, i) == Record(data, init, i)[targets[n] := Filled(data, n, i)];
    }
  }

  /** A birthday record: every target name set, the birth date a date. */
  predicate IsRecord(b: map<string, Cell>) {
    (forall k :: 0 <= k < |TargetColumns| ==> TargetColumns[k] in b) && b[TargetColumns[4]].When?
  }

  /** No target name repeats. */
  lemma TargetsDistinct()
    ensures Distinct(TargetColumns)
  {
  }

  /** indexOf("Birth Date") among the targets. */
  lemma BirthDateAt4()
    ensures TargetColumns[4] == BirthDate
    ensures First(TargetColumns, (t: string) => t == BirthDate) == Some(4)
  {
    FirstAt(TargetColumns, (t: string) => t == BirthDate, 4);
  }

  /** The records of the rows whose date column holds a date, in row
      order. */
  function DateRecords(data: seq<seq<Cell>>, targets: seq<string>, d: nat): seq<map<string, Cell>>
    requires d < |data|
  {
    PickMap(data[d], (c: Cell) => c.When?, (c: Cell, i: nat) => Record(data, targets, i))
  }

  /** A date cell in the date column. */
  predicate HasDate(col: seq<Cell>) {
    exists i :: 0 <= i < |col| && col[i].When?
  }

  /** getAllBirthdays as written: [] when the date column is not a target;
      the engine throws when the date column, or, on a date row, any
      target's column, lies past the columns read; otherwise the records of
      the date rows. */
  function Birthdays(data: seq<seq<Cell>>, targets: seq<string>, dateName: string): Result<seq<map<string, Cell>>> {
    match First(targets, (t: string) => t == dateName)
    case None => Ok([])
    case Some(d) =>
      if d >= |data| then Err(MissingColumn)
      else if |targets| > |data| && HasDate(data[d]) then Err(MissingColumn)
      else Ok(DateRecords(data, targets, d))
  }

  /** One record per date row, in row order, each the row's values under
      their target names; every record of the Master columns is a
      birthday record. */
  lemma BirthdaysMeaning(data: seq<seq<Cell>>, targets: seq<string>, dateName: string)
    requires Birthdays(data, targets, dateName).Ok?
    requires dateName in targets
    ensures var d := First(targets, (t: string) => t == dateName).value;
      var rows := Where(data[d], (c: Cell) => c.When?);
      var r := Birthdays(data, targets, dateName).value;
      |r| == |rows|
      && (forall k :: 0 <= k < |r| ==> r[k] == Record(data, targets, rows[k]))
      && (targets == TargetColumns && dateName == BirthDate ==> forall k :: 0 <= k < |r| ==> IsRecord(r[k]))
  {
    var d := First(targets, (t: string) => t == dateName).value;
    var rows := Where(data[d], (c: Cell) => c.When?);
    if targets == TargetColumns && dateName == BirthDate {
      BirthDateAt4();
      forall k | 0 <= k < |rows|
        ensures IsRecord(Record(data, targets, rows[k]))
      {
        DateRowRecord(data, rows[k]);
      }
    }
  }

  /** The record of a row whose birth date is a date. */
  lemma DateRowRecord(data: seq<seq<Cell>>, i: nat)
    requires 4 < |data| && i < |data[4]| && data[4][i].When?
    ensures IsRecord(Record(data, TargetColumns, i))
  {
    var m := Record(data, TargetColumns, i);
    assert forall j :: 0 <= j < |TargetColumns| ==> TargetColumns[j] in m;
    RecordLastWins(data, TargetColumns, i, 4);
  }

  /** One pass of targetColumns.forEach: the record of row i, or the
      engine's error at the first target with no column. */
  method ReadRecord(data: seq<seq<Cell>>, targets: seq<string>, i: nat) returns (r: Result<map<string, Cell>>)
    ensures |targets| <= |data| ==> r == Ok(Record(data, targets, i))
    ensures |targets| > |data| ==> r == Err(MissingColumn)
  {
    var m: map<string, Cell> := map[];
    var k := 0;
    while k < |targets|
      invariant 0 <= k <= |targets| && k <= |data|
      invariant m == Record(data, targets[..k], i)
    {
      if k == |data| {
        return Err(MissingColumn);
      }
      assert targets[..k + 1][..k] == targets[..k];
      m := m[targets[k] := Filled(data, k, i)];
      k := k + 1;
    }
    assert targets[..k] == targets;
    return Ok(m);
  }

  /** getAllBirthdays: the loop over the rows of the date column. */
  method GetAllBirthdays(data: seq<seq<Cell>>, targets: seq<string>, dateName: string)
      returns (r: Result<seq<map<string, Cell>>>)
    ensures r == Birthdays(data, targets, dateName)
  {
    var found := FindFirst(targets, (t: string) => t == dateName);
    if found.None? {
      return Ok([]);
    }
    var d := found.value;
    if d >= |data| {
      return Err(MissingColumn);
    }
    var keep := (c: Cell) => c.When?;
    var f := (c: Cell, i: nat) => Record(data, targets, i);
    var col := data[d];
    var out: seq<map<string, Cell>> := [];
    var i := 0;
    while i < |col|
      invariant 0 <= i <= |col|
      invariant out == PickMap(col[..i], keep, f)
      invariant |targets| > |data| ==> forall j :: 0 <= j < i ==> !col[j].When?
    {
      PickMapSnoc(col, i, keep, f);
      if col[i].When? {
        var rec := ReadRecord(data, targets, i);
        if rec.Err? {
          return Err(MissingColumn);
        }
        out := out + [rec.value];
      }
      i := i + 1;
    }
    PickMapAll(col, keep, f);
    return Ok(out);
  }

  /** checkAllBirthdays up to the calendar: no records when the header
      lacks "Birth Date", otherwise getAllBirthdays over the columns the
      header has. */
  function CheckAll(headers: Row, data: seq<Row>): Result<seq<map<string, Cell>>> {
    if !InHeader(headers, BirthDate) then Ok([])
    else
      match ColumnData(data, ColumnIndexes(headers, TargetColumns))
      case Err(e) => Err(e)
      case Ok(cols) => Birthdays(cols, TargetColumns, BirthDate)
  }

  /** A Master tab whose header has "Birth Date", lacks one of the other
      target columns and has data rows: fewer columns are read than there
      are targets, the date column's position points past them, and the
      run throws. */
  lemma MissingColumnThrows(headers: Row, data: seq<Row>, t: nat)
    requires InHeader(headers, BirthDate) && data != []
    requires t < |TargetColumns| && !InHeader(headers, TargetColumns[t])
    ensures CheckAll(headers, data).Err?
  {
    ColumnIndexesMeaning(headers, TargetColumns);
    FoundShort(headers, TargetColumns, t);
    BirthDateAt4();
  }

  /** The intended column data: one column per target, in target order,
      blank when the header lacks it, so positions agree with the targets. */
  function AlignedColumnData(headers: Row, data: seq<Row>, targets: seq<string>): (r: seq<seq<Cell>>)
    ensures |r| == |targets|
    ensures forall k :: 0 <= k < |targets| ==> |r[k]| == |data|
  {
    seq(|targets|, k requires 0 <= k < |targets| =>
      seq(|data|, i requires 0 <= i < |data| =>
        match HeaderIndex(headers, targets[k]) case Some(c) => At(data[i], c) case None => Empty))
  }

  /** checkAllBirthdays with aligned columns. */
  function CheckAllAligned(headers: Row, data: seq<Row>): Result<seq<map<string, Cell>>> {
    if !InHeader(headers, BirthDate) then Ok([])
    else Birthdays(AlignedColumnData(headers, data, TargetColumns), TargetColumns, BirthDate)
  }

  /** With aligned columns a header that has "Birth Date" always yields
      one birthday record per data row whose birth date is a date, in row
      order, whichever other columns are missing. */
  lemma AlignedMeaning(headers: Row, data: seq<Row>)
    requires InHeader(headers, BirthDate)
    ensures var r := CheckAllAligned(headers, data);
      var c := HeaderIndex(headers, BirthDate).value;
      r.Ok?
      && |r.value| == |Where(data, (row: Row) => At(row, c).When?)|
      && forall k :: 0 <= k < |r.value| ==> IsRecord(r.value[k])
  {
    var cols := AlignedColumnData(headers, data, TargetColumns);
    var c := HeaderIndex(headers, BirthDate).value;
    assert First(TargetColumns, (t: string) => t == BirthDate) == Some(4);
    assert cols[4] == seq(|data|, i requires 0 <= i < |data| => At(data[i], c));
    WhereSame(data, cols[4], c);
    BirthdaysMeaning(cols, TargetColumns, BirthDate);
  }

  /** The date rows of the aligned date column are the rows whose date
      cell is a date. */
  lemma {:induction false} WhereSame(data: seq<Row>, col: seq<Cell>, c: nat)
    requires |col| == |data| && forall i :: 0 <= i < |data| ==> col[i] == At(data[i], c)
    ensures Where(col, (x: Cell) => x.When?) == Where(data, (row: Row) => At(row, c).When?)
    decreases |data|
  {
    if data != [] {
      var n := |data| - 1;
      WhereSame(data[..n], col[..n], c);
    }
  }

  // --------------------------------------------------------- grade levels

  /** The grade level as the event loop holds it: a number, a text, a
      date value, or the text "Graduate" the update writes. */
  datatype Level = LNum(n: int) | LStr(s: string) | LDate | Graduate

  /** birthday["Current Grade Level"]: a boolean enters arithmetic as 0 or
      1; a text stays text. */
  function LevelOf(c: Cell): Level {
    match c
    case Num(n) => LNum(n)
    case Flag(b) => LNum(if b then 1 else 0)
    case Text(s) => LStr(s)
    case When(_, _) => LDate
  }

  /** gradeLevel < 12: text is compared as a number (blank text is 0, other
      text, "Graduate" among it, NaN); a date compares by its time value,
      taken to be past 12 ms after the epoch. */
  predicate Below12(l: Level) {
    match l
    case LNum(n) => n < 12
    case LStr(s) => NumberText(s).Some? && NumberText(s).value < 12.0
    case LDate => false
    case Graduate => false
  }

  /** gradeLevel = (gradeLevel < 12) ? gradeLevel + 1 : "Graduate"; + on
      text appends "1". */
  function NextLevel(l: Level): (r: Level)
    ensures !Below12(l) ==> r == Graduate
    ensures l.LNum? && l.n < 12 ==> r == LNum(l.n + 1)
    ensures l.LStr? && Below12(l) ==> r == LStr(l.s + "1")
  {
    if !Below12(l) then Graduate
    else match l
      case LNum(n) => LNum(n + 1)
      case LStr(s) => LStr(s + "1")
      case _ => Graduate
  }

  /** The level after k updates. */
  function LevelAfter(l: Level, k: nat): Level {
    if k == 0 then l else NextLevel(LevelAfter(l, k - 1))
  }

  /** "Graduate" once reached stays. */
  lemma {:induction false} GraduateStays(k: nat)
    ensures LevelAfter(Graduate, k) == Graduate
  {
    if k > 0 {
      GraduateStays(k - 1);
    }
  }

  /** A numeric grade gains one a year while below 12 and is "Graduate"
      from the year after it reaches 12. */
  lemma {:induction false} NumericProgression(n: int, k: nat)
    requires k >= 1
    ensures LevelAfter(LNum(n), k) == if n + k <= 12 then LNum(n + k) else Graduate
  {
    if k > 1 {
      NumericProgression(n, k - 1);
    }
  }

  /** `${gradeLevel}`. */
  function LevelText(l: Level): string {
    match l
    case LNum(n) => IntToString(n)
    case LStr(s) => s
    case LDate => "Invalid Date"
    case Graduate => "Graduate"
  }

  // -------------------------------------------------------------- events

  datatype Event = Event(title: string, day: Day, description: string)

  /** new Date(birthDate).setFullYear(year), with the day-of-month check:
      29 February falls on 1 March in a year that is not a leap year. */
  function EventDay(birth: Day, year: int): (d: Day)
    ensures d.year == year
    ensures Utils.ValidDay(birth) ==> Utils.ValidDay(d)
    ensures Utils.ValidDay(birth) && Utils.ValidDay(Day(year, birth.month, birth.day)) ==>
              d == Day(year, birth.month, birth.day)
  {
    if birth.month == 2 && birth.day == 29 && !Utils.IsLeap(year) then Day(year, 3, 1)
    else Day(year, birth.month, birth.day)
  }

  /** The fields addBirthdaysToCalendar reads from a record. */
  datatype Student = Student(first: Cell, last: Cell, school: Cell, grade: Cell, birth: Day)

  function StudentOf(b: map<string, Cell>): Student
    requires IsRecord(b)
  {
    Student(b[TargetColumns[0]], b[TargetColumns[1]], b[TargetColumns[2]], b[TargetColumns[3]],
            b[TargetColumns[4]].date)
  }

  /** fullName + "'s Birthday". */
  function Title(st: Student): string {
    StrOf(st.first) + " " + StrOf(st.last) + "'s Birthday"
  }

  function Description(st: Student, l: Level): string {
    "School: " + StrOf(st.school) + "\nGrade Level: " + LevelText(l)
  }

  /** The event of year offset k: the level has been updated k + 1 times. */
  function EventFor(st: Student, currentYear: int, k: nat): Event {
    Event(Title(st), EventDay(st.birth, currentYear + k),
          Description(st, LevelAfter(LevelOf(st.grade), k + 1)))
  }

  /** The six events of one student, for offsets 0..5. */
  function Planned(st: Student, currentYear: int): (es: seq<Event>)
    ensures |es| == 6 && forall k :: 0 <= k < 6 ==> es[k] == EventFor(st, currentYear, k)
  {
    seq(6, k requires 0 <= k < 6 => EventFor(st, currentYear, k))
  }

  /** An event with this title on this day exists already. */
  predicate Booked(events: seq<Event>, e: Event) {
    exists j :: 0 <= j < |events| && SameSlot(events[j], e)
  }

  /** getEventsForDay(e.day).some(ev => ev.getTitle() === e.title). */
  predicate SameSlot(a: Event, e: Event) {
    a.day == e.day && a.title == e.title
  }

  /** createAllDayEvent unless the day has an event of the same title. */
  function AddIfNew(events: seq<Event>, e: Event): (r: seq<Event>)
    ensures events <= r && Booked(r, e)
  {
    if Booked(events, e) then events
    else
      assert SameSlot((events + [e])[|events|], e);
      events + [e]
  }

  /** An event stays booked as the calendar grows. */
  lemma BookedGrows(a: seq<Event>, b: seq<Event>, e: Event)
    requires a <= b && Booked(a, e)
    ensures Booked(b, e)
  {
    var j :| 0 <= j < |a| && SameSlot(a[j], e);
    assert b[j] == a[j];
  }

  /** Events offered to the calendar in turn. */
  function Offer(events: seq<Event>, es: seq<Event>): (r: seq<Event>)
    ensures events <= r
  {
    if es == [] then events else AddIfNew(Offer(events, es[..|es| - 1]), es[|es| - 1])
  }

  /** The students of the records, in order. */
  function Students(bs: seq<map<string, Cell>>): (sts: seq<Student>)
    requires forall i :: 0 <= i < |bs| ==> IsRecord(bs[i])
    ensures |sts| == |bs| && forall i :: 0 <= i < |bs| ==> sts[i] == StudentOf(bs[i])
  {
    seq(|bs|, i requires 0 <= i < |bs| => StudentOf(bs[i]))
  }

  /** The six events of each student, student by student. */
  function Plans(sts: seq<Student>, currentYear: int): (ps: seq<seq<Event>>)
    ensures |ps| == |sts| && forall i :: 0 <= i < |sts| ==> ps[i] == Planned(sts[i], currentYear)
  {
    seq(|sts|, i requires 0 <= i < |sts| => Planned(sts[i], currentYear))
  }

  /** Each plan's events offered in turn, plan by plan. */
  function AddAll(events: seq<Event>, plans: seq<seq<Event>>): (r: seq<Event>)
    ensures events <= r
  {
    if plans == [] then events
    else Offer(AddAll(events, plans[..|plans| - 1]), plans[|plans| - 1])
  }

  /** No two events share a day and a title. */
  predicate NoDoubleBooking(events: seq<Event>) {
    forall i, j :: 0 <= i < j < |events| ==> !SameSlot(events[i], events[j])
  }

  lemma AddIfNewKeeps(events: seq<Event>, e: Event)
    requires NoDoubleBooking(events)
    ensures NoDoubleBooking(AddIfNew(events, e))
  {
    if !Booked(events, e) {
      var r := events + [e];
      forall i, j | 0 <= i < j < |r| ensures !SameSlot(r[i], r[j]) {
        if j == |events| {
          assert r[i] == events[i];
        }
      }
    }
  }

  /** Offering events never books a day twice under one title. */
  lemma {:induction false} OfferMeaning(events: seq<Event>, es: seq<Event>)
    requires NoDoubleBooking(events)
    ensures NoDoubleBooking(Offer(events, es))
    decreases |es|
  {
    if es != [] {
      var n := |es| - 1;
      OfferMeaning(events, es[..n]);
      AddIfNewKeeps(Offer(events, es[..n]), es[n]);
    }
  }

  /** Every offered event is on the calendar afterwards. */
  lemma {:induction false} OfferBooks(events: seq<Event>, es: seq<Event>)
    ensures forall k :: 0 <= k < |es| ==> Booked(Offer(events, es), es[k])
    decreases |es|
  {
    if es != [] {
      var n := |es| - 1;
      var prev := Offer(events, es[..n]);
      OfferBooks(events, es[..n]);
      forall k | 0 <= k < n ensures Booked(Offer(events, es), es[k]) {
        assert es[..n][k] == es[k];
        BookedGrows(prev, Offer(events, es), es[k]);
      }
    }
  }

  /** Adding the birthdays never books a day twice under one title. */
  lemma {:induction false} AddAllNoDoubleBooking(events: seq<Event>, plans: seq<seq<Event>>)
    requires NoDoubleBooking(events)
    ensures NoDoubleBooking(AddAll(events, plans))
    decreases |plans|
  {
    if plans != [] {
      var n := |plans| - 1;
      AddAllNoDoubleBooking(events, plans[..n]);
      OfferMeaning(AddAll(events, plans[..n]), plans[n]);
    }
  }

  /** Adding the birthdays leaves every planned event on the calendar. */
  lemma {:induction false} AddAllBooks(events: seq<Event>, plans: seq<seq<Event>>)
    ensures forall i, k :: 0 <= i < |plans| && 0 <= k < |plans[i]| ==> Booked(AddAll(events, plans), plans[i][k])
    decreases |plans|
  {
    if plans != [] {
      var n := |plans| - 1;
      var prev := AddAll(events, plans[..n]);
      var all := AddAll(events, plans);
      AddAllBooks(events, plans[..n]);
      OfferBooks(prev, plans[n]);
      forall i, k | 0 <= i < |plans| && 0 <= k < |plans[i]|
        ensures Booked(all, plans[i][k])
      {
        if i < n {
          assert plans[..n][i] == plans[i];
          BookedGrows(prev, all, plans[i][k]);
        }
      }
    }
  }

  /** Adding the birthdays never books a day twice under one title, keeps
      every earlier event, and leaves each student's event for each of the
      six years on the calendar. */
  lemma AddBirthdaysMeaning(events: seq<Event>, sts: seq<Student>, y: int)
    requires NoDoubleBooking(events)
    ensures NoDoubleBooking(AddAll(events, Plans(sts, y)))
    ensures events <= AddAll(events, Plans(sts, y))
    ensures forall i, k :: 0 <= i < |sts| && 0 <= k < 6 ==> Booked(AddAll(events, Plans(sts, y)), EventFor(sts[i], y, k))
  {
    var ps := Plans(sts, y);
    AddAllNoDoubleBooking(events, ps);
    AddAllBooks(events, ps);
    forall i, k | 0 <= i < |sts| && 0 <= k < 6
      ensures Booked(AddAll(events, ps), EventFor(sts[i], y, k))
    {
      assert ps[i][k] == EventFor(sts[i], y, k);
    }
  }

  /** The calendar "OFY Student Birthdays" as the script sees it. */
  class Calendar {
    var events: seq<Event>

    constructor (evs: seq<Event>)
      ensures events == evs
    {
      events := evs;
    }

    /** The year loop of one record: offsets 0..5, the grade level updated
        before each event. */
    method AddYears(st: Student, currentYear: int)
      modifies this
      ensures events == Offer(old(events), Planned(st, currentYear))
    {
      ghost var es := Planned(st, currentYear);
      var level := LevelOf(st.grade);
      var yearOffset := 0;
      while yearOffset <= 5
        invariant 0 <= yearOffset <= 6
        invariant level == LevelAfter(LevelOf(st.grade), yearOffset)
        invariant events == Offer(old(events), es[..yearOffset])
      {
        assert es[..yearOffset + 1][..yearOffset] == es[..yearOffset];
        var day := EventDay(st.birth, currentYear + yearOffset);
        level := NextLevel(level);
        var e := Event(Title(st), day, Description(st, level));
        assert e == es[yearOffset];
        if !Booked(events, e) {
          events := events + [e];
        }
        yearOffset := yearOffset + 1;
      }
      assert es[..6] == es;
    }

    /** addBirthdaysToCalendar: for each record and each year offset 0..5,
        the event unless the day already has it. */
    method AddBirthdays(birthdays: seq<map<string, Cell>>, currentYear: int)
      requires forall i :: 0 <= i < |birthdays| ==> IsRecord(birthdays[i])
      modifies this
      ensures events == AddAll(old(events), Plans(Students(birthdays), currentYear))
    {
      var n := 0;
      while n < |birthdays|
        invariant 0 <= n <= |birthdays|
        invariant events == AddAll(old(events), Plans(Students(birthdays), currentYear)[..n])
      {
        assert Plans(Students(birthdays), currentYear)[..n + 1][..n] == Plans(Students(birthdays), currentYear)[..n];
        AddYears(StudentOf(birthdays[n]), currentYear);
        n := n + 1;
      }
      assert Plans(Students(birthdays), currentYear)[..n] == Plans(Students(birthdays), currentYear);
    }
  }
}
