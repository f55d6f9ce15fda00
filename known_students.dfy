// The `known_students` directory of the sign-in tool (SignInServer.js): one
// row per student id, upserted on every sign-in and by the bootstrap merge,
// and read back as a list of records for lookups and suggestions.
module KnownStudents {
  import opened Wrappers
  import opened Strings
  import opened Cells
  import opened Utils
  import opened Scan
  import opened Grades

  /** The column map C returned by signinEnsureKnownStudentsSheet_; a
      column the header does not name is None. */
  datatype KnownCols = KnownCols(
    id: Option<nat>, first: Option<nat>, last: Option<nat>, school: Option<nat>,
    email: Option<nat>, grade: Option<nat>, createdAt: Option<nat>, lastSignIn: Option<nat>)

  predicate Within(col: Option<nat>, w: nat) {
    col.Some? ==> col.value < w
  }

  /** Every resolved column lies inside a sheet w columns wide. */
  predicate KnownFits(c: KnownCols, w: nat) {
    Within(c.id, w) && Within(c.first, w) && Within(c.last, w) && Within(c.school, w)
    && Within(c.email, w) && Within(c.grade, w) && Within(c.createdAt, w) && Within(c.lastSignIn, w)
  }

  function KnownColumns(c: KnownCols): seq<Option<nat>> {
    [c.id, c.first, c.last, c.school, c.email, c.grade, c.createdAt, c.lastSignIn]
  }

  /** No two fields share a column (the alias lists are disjoint, so the
      header resolution always gives this). */
  predicate KnownDistinct(c: KnownCols) {
    ColumnsApart(KnownColumns(c))
  }

  // ---------------------------------------------------------------- upsert

  /** The student object handed to signinUpsertKnownStudent. */
  datatype Student = Student(studentId: string, id: string, firstName: string, lastName: string,
                             school: string, email: string, grade: string)

  /** String(student.studentId || student.id || '').trim(). */
  function StudentKey(st: Student): (k: string)
    ensures NoEdgeSpace(k)
  {
    Trim(if st.studentId != "" then st.studentId else st.id)
  }

  /** The options: `timestamp` when the caller passed one, whether
      `updateLastSignIn` was left on, and the CreatedAt value (the caller's
      `createdAt`, or the current time). */
  datatype UpsertOptions = UpsertOptions(timestamp: Option<Cell>, updateLastSignIn: bool, createdAt: Cell)

  /** LastSignIn is written only for an explicit timestamp that the caller
      did not switch off. */
  predicate StampsSignIn(o: UpsertOptions) {
    o.updateLastSignIn && o.timestamp.Some?
  }

  /** The grade as stored: the normalised label of the trimmed input. */
  function StoredGrade(st: Student): string {
    NormalizeGrade(Trim(st.grade))
  }

  /** The values the upsert writes: the id, the trimmed name, school and
      e-mail, and the normalised grade. */
  datatype Fields = Fields(id: string, first: string, last: string, school: string, email: string, grade: string)

  function FieldsOf(st: Student): (f: Fields)
    ensures f.id == StudentKey(st) && NoEdgeSpace(f.id)
  {
    Fields(StudentKey(st), Trim(st.firstName), Trim(st.lastName), Trim(st.school), Trim(st.email), StoredGrade(st))
  }

  /** `if (v) next[C.X] = v`: an empty value writes nothing. */
  function FillWrite(col: Option<nat>, v: string): (w: Write)
    ensures w.col.Some? <==> col.Some? && v != ""
  {
    if v != "" then Write(col, Text(v)) else Write(None, Empty)
  }

  /** The LastSignIn write, made only when the options ask for it. */
  function StampWrite(c: KnownCols, o: UpsertOptions): Write {
    if StampsSignIn(o) then Write(c.lastSignIn, o.timestamp.value) else Write(None, Empty)
  }

  /** The writes onto an existing row, in the script's order. */
  function MergeWrites(c: KnownCols, f: Fields, o: UpsertOptions): seq<Write> {
    [FillWrite(c.first, f.first), FillWrite(c.last, f.last),
     FillWrite(c.school, f.school), FillWrite(c.email, f.email),
     FillWrite(c.grade, f.grade), StampWrite(c, o)]
  }

  /** The existing row rewritten for the student: only non-empty fields
      overwrite, LastSignIn follows the options, and CreatedAt is filled
      only when empty. */
  function MergedRow(row: Row, c: KnownCols, f: Fields, o: UpsertOptions): (r: Row)
    ensures |r| == |row|
  {
    var r6 := Apply(row, MergeWrites(c, f, o));
    if !Truthy(Get(r6, c.createdAt)) then SetOpt(r6, c.createdAt, o.createdAt) else r6
  }

  /** The writes onto a fresh blank row. */
  function NewWrites(c: KnownCols, f: Fields, o: UpsertOptions): seq<Write> {
    [Write(c.id, Text(f.id)), Write(c.first, Text(f.first)),
     Write(c.last, Text(f.last)), Write(c.school, Text(f.school)),
     Write(c.email, Text(f.email)), Write(c.grade, Text(f.grade)),
     Write(c.createdAt, o.createdAt), StampWrite(c, o)]
  }

  /** Math.max(1, sh.getLastColumn()). */
  function RowWidth(w: nat): (r: nat)
    ensures r >= 1 && (w >= 1 ==> r == w)
  {
    if w < 1 then 1 else w
  }

  /** The row appended for a new student. */
  function NewKnownRow(w: nat, c: KnownCols, f: Fields, o: UpsertOptions): (r: Row)
    ensures |r| == w
  {
    Apply(Blanks(w), NewWrites(c, f, o))
  }

  /** The row test `String(row[C.StudentID] || '').trim() === id`. */
  function IdIs(c: KnownCols, id: string): Row -> bool {
    (row: Row) => FieldText(row, c.id) == id
  }

  /** The data position of the first row with the id. */
  function KnownRowOf(data: seq<Row>, c: KnownCols, id: string): Option<nat> {
    First(data, IdIs(c, id))
  }

  /** The data rows after upserting a student whose computed values are f
      into a sheet w columns wide: the first row with the id is rewritten
      in place, or one row is appended. */
  function Upserted(data: seq<Row>, c: KnownCols, f: Fields, o: UpsertOptions, w: nat): (r: seq<Row>)
    ensures |r| == if KnownRowOf(data, c, f.id).Some? then |data| else |data| + 1
  {
    match KnownRowOf(data, c, f.id)
    case Some(i) => data[i := MergedRow(data[i], c, f, o)]
    case None => data + [NewKnownRow(RowWidth(w), c, f, o)]
  }

  /** { created, rowIndex }. */
  datatype Upsert = Upsert(created: bool, rowIndex: nat)

  function UpsertOutcome(data: seq<Row>, c: KnownCols, id: string): Upsert {
    match KnownRowOf(data, c, id)
    case Some(i) => Upsert(false, i + 2)
    case None => Upsert(true, |data| + 2)
  }

  /** signinUpsertKnownStudent(student, options) on an ensured sheet. A
      blank id is refused (the script throws). */
  method UpsertKnownStudent(sh: Sheet, c: KnownCols, st: Student, o: UpsertOptions) returns (r: Result<Upsert>)
    requires sh.Valid() && KnownFits(c, sh.Width()) && c.id.Some?
    modifies sh
    ensures sh.Valid() && sh.header == old(sh.header)
    ensures StudentKey(st) == "" ==> r == Err("Student ID is required.") && sh.data == old(sh.data)
    ensures StudentKey(st) != "" ==>
              r == Ok(UpsertOutcome(old(sh.data), c, StudentKey(st)))
              && sh.data == Upserted(old(sh.data), c, FieldsOf(st), o, old(sh.Width()))
  {
    var f := FieldsOf(st);
    if f.id == "" {
      return Err("Student ID is required.");
    }
    var u := UpsertFields(sh, c, f, o);
    r := Ok(u);
  }

  /** The body of the upsert once the values are computed. */
  method UpsertFields(sh: Sheet, c: KnownCols, f: Fields, o: UpsertOptions) returns (u: Upsert)
    requires sh.Valid() && KnownFits(c, sh.Width()) && c.id.Some?
    modifies sh
    ensures sh.Valid() && sh.header == old(sh.header)
    ensures u == UpsertOutcome(old(sh.data), c, f.id)
    ensures sh.data == Upserted(old(sh.data), c, f, o, old(sh.Width()))
  {
    var width := RowWidth(sh.Width());
    assert width == sh.Width();
    var found := FindFirst(sh.data, IdIs(c, f.id));
    match found {
      case Some(i) =>
        var next := MergedRow(sh.data[i], c, f, o);
        sh.WriteRow(i + 2, next);
        u := Upsert(false, i + 2);
      case None =>
        var row := NewKnownRow(width, c, f, o);
        PadFit(row);
        sh.AppendRow(row);
        u := Upsert(true, sh.LastRow());
    }
  }

  // ------------------------------------------------------ upsert lemmas

  /** The merge writes go to distinct columns, none of them the id or the
      CreatedAt column. */
  lemma MergeWritesApart(c: KnownCols, f: Fields, o: UpsertOptions)
    requires KnownDistinct(c)
    ensures DistinctTargets(MergeWrites(c, f, o))
    ensures forall k :: 0 <= k < |MergeWrites(c, f, o)| ==>
              Apart(MergeWrites(c, f, o)[k].col, c.id) && Apart(MergeWrites(c, f, o)[k].col, c.createdAt)
  {
    MergeWritesPicked(c, f, o);
    TargetsAmong(MergeWrites(c, f, o), KnownColumns(c), MergePick);
    assert 0 !in MergePick && 6 !in MergePick;
    assert KnownColumns(c)[0] == c.id && KnownColumns(c)[6] == c.createdAt;
  }

  /** The columns of KnownColumns the merge writes, in order. */
  const MergePick: seq<nat> := [1, 2, 3, 4, 5, 7]

  lemma MergeWritesPicked(c: KnownCols, f: Fields, o: UpsertOptions)
    ensures |MergeWrites(c, f, o)| == |MergePick|
    ensures forall k :: 0 <= k < |MergePick| ==> MergePick[k] < 8
    ensures forall i, j :: 0 <= i < j < |MergePick| ==> MergePick[i] < MergePick[j]
    ensures forall k :: 0 <= k < |MergePick| ==>
              MergeWrites(c, f, o)[k].col.None? || MergeWrites(c, f, o)[k].col == KnownColumns(c)[MergePick[k]]
  {
    var ws := MergeWrites(c, f, o);
    var cols := KnownColumns(c);
    assert ws[0].col.None? || ws[0].col == cols[1];
    assert ws[1].col.None? || ws[1].col == cols[2];
    assert ws[2].col.None? || ws[2].col == cols[3];
    assert ws[3].col.None? || ws[3].col == cols[4];
    assert ws[4].col.None? || ws[4].col == cols[5];
    assert ws[5].col.None? || ws[5].col == cols[7];
  }

  lemma NewWritesApart(c: KnownCols, f: Fields, o: UpsertOptions)
    requires KnownDistinct(c)
    ensures DistinctTargets(NewWrites(c, f, o))
  {
    var ws := NewWrites(c, f, o);
    var pick: seq<nat> := [0, 1, 2, 3, 4, 5, 6, 7];
    assert ws[7].col.None? || ws[7].col == KnownColumns(c)[pick[7]];
    assert forall k :: 0 <= k < 7 ==> ws[k].col == KnownColumns(c)[pick[k]];
    TargetsAmong(ws, KnownColumns(c), pick);
  }

  /** Every merge write already holds, and CreatedAt is set. */
  predicate Agrees(row: Row, c: KnownCols, f: Fields, o: UpsertOptions) {
    Holds(row, MergeWrites(c, f, o))
    && (c.createdAt.Some? ==> Truthy(Get(row, c.createdAt)) || Get(row, c.createdAt) == o.createdAt)
  }

  /** The in-place rewrite keeps the id cell. */
  lemma MergedKeepsId(row: Row, c: KnownCols, f: Fields, o: UpsertOptions)
    requires KnownDistinct(c)
    ensures Get(MergedRow(row, c, f, o), c.id) == Get(row, c.id)
  {
    MergeWritesApart(c, f, o);
    var ws := MergeWrites(c, f, o);
    ApplyUntouched(row, ws, c.id);
    assert KnownColumns(c)[0] == c.id && KnownColumns(c)[6] == c.createdAt;
    assert Apart(KnownColumns(c)[0], KnownColumns(c)[6]);
  }

  /** The rewrite changes only the columns it writes: a cell no merge
      write and no CreatedAt fill reaches keeps its value. In particular a
      blank field leaves its cell as it was. */
  lemma MergedTouchesOnlyWritten(row: Row, c: KnownCols, f: Fields, o: UpsertOptions, j: nat)
    requires j < |row| && Apart(c.createdAt, Some(j))
    requires forall k :: 0 <= k < |MergeWrites(c, f, o)| ==> Apart(MergeWrites(c, f, o)[k].col, Some(j))
    ensures MergedRow(row, c, f, o)[j] == row[j]
  {
    ApplyUntouched(row, MergeWrites(c, f, o), Some(j));
  }

  /** After the rewrite the row agrees with the student. */
  lemma {:induction false} MergedAgrees(row: Row, c: KnownCols, f: Fields, o: UpsertOptions)
    requires KnownDistinct(c) && KnownFits(c, |row|)
    ensures Agrees(MergedRow(row, c, f, o), c, f, o)
  {
    var ws := MergeWrites(c, f, o);
    MergeWritesApart(c, f, o);
    var r6 := Apply(row, ws);
    var r7 := MergedRow(row, c, f, o);
    forall k | 0 <= k < |ws| && ws[k].col.Some?
      ensures ws[k].col.value < |r7| && Get(r7, ws[k].col) == ws[k].v
    {
      ApplyReads(row, ws, k);
    }
  }

  /** Rewriting a row that already agrees changes nothing. */
  lemma {:induction false} MergedOfAgreeing(row: Row, c: KnownCols, f: Fields, o: UpsertOptions)
    requires Agrees(row, c, f, o)
    ensures MergedRow(row, c, f, o) == row
  {
    ApplyHolds(row, MergeWrites(c, f, o));
  }

  /** The appended row carries the student's id. */
  lemma NewRowHasId(w: nat, c: KnownCols, f: Fields, o: UpsertOptions)
    requires KnownDistinct(c) && KnownFits(c, w) && c.id.Some? && NoEdgeSpace(f.id)
    ensures FieldText(NewKnownRow(w, c, f, o), c.id) == f.id
  {
    NewWritesApart(c, f, o);
    ApplyReads(Blanks(w), NewWrites(c, f, o), 0);
    CellTextOfTrimmed(f.id);
  }

  /** The appended row already agrees with the student. */
  lemma {:induction false} NewRowAgrees(w: nat, c: KnownCols, f: Fields, o: UpsertOptions)
    requires KnownDistinct(c) && KnownFits(c, w)
    ensures Agrees(NewKnownRow(w, c, f, o), c, f, o)
  {
    var ns := NewWrites(c, f, o);
    var ms := MergeWrites(c, f, o);
    NewWritesApart(c, f, o);
    var row := NewKnownRow(w, c, f, o);
    forall k | 0 <= k < |ms| && ms[k].col.Some?
      ensures ms[k].col.value < |row| && Get(row, ms[k].col) == ms[k].v
    {
      var n := if k < 5 then k + 1 else 7;
      assert ns[n] == ms[k];
      ApplyReads(Blanks(w), ns, n);
    }
    if c.createdAt.Some? {
      ApplyReads(Blanks(w), ns, 6);
    }
  }

  /** At most one row carries each non-blank id. */
  ghost predicate UniqueIds(data: seq<Row>, c: KnownCols) {
    forall i, j :: 0 <= i < j < |data| && FieldText(data[i], c.id) != "" ==>
      FieldText(data[i], c.id) != FieldText(data[j], c.id)
  }

  predicate RowsWide(data: seq<Row>, w: nat) {
    forall i :: 0 <= i < |data| ==> |data[i]| == w
  }

  /** An upsert keeps at most one row per id and leaves a row for the
      student's id: the table never gains a second row for an id it has. */
  lemma {:induction false} UpsertKeepsIdsUnique(data: seq<Row>, c: KnownCols, f: Fields, o: UpsertOptions, w: nat)
    requires UniqueIds(data, c)
    requires KnownDistinct(c) && KnownFits(c, w) && c.id.Some? && f.id != "" && NoEdgeSpace(f.id)
    ensures UniqueIds(Upserted(data, c, f, o, w), c)
    ensures KnownRowOf(Upserted(data, c, f, o, w), c, f.id).Some?
  {
    var id := f.id;
    var d2 := Upserted(data, c, f, o, w);
    match KnownRowOf(data, c, id) {
      case Some(i) =>
        MergedKeepsId(data[i], c, f, o);
        assert forall k :: 0 <= k < |d2| ==> FieldText(d2[k], c.id) == FieldText(data[k], c.id);
        assert IdIs(c, id)(d2[i]);
      case None =>
        NewRowHasId(RowWidth(w), c, f, o);
        assert forall k :: 0 <= k < |data| ==> d2[k] == data[k] && !IdIs(c, id)(data[k]);
        assert IdIs(c, id)(d2[|data|]);
    }
  }

  /** Upserting the same student twice with the same options leaves the
      table as one upsert does. */
  lemma {:induction false} UpsertIdempotent(data: seq<Row>, c: KnownCols, f: Fields, o: UpsertOptions, w: nat)
    requires RowsWide(data, w) && KnownDistinct(c) && KnownFits(c, w) && c.id.Some? && f.id != "" && NoEdgeSpace(f.id)
    ensures Upserted(Upserted(data, c, f, o, w), c, f, o, w) == Upserted(data, c, f, o, w)
  {
    match KnownRowOf(data, c, f.id) {
      case Some(i) => SecondUpsertOfFound(data, c, f, o, w, i);
      case None => SecondUpsertOfAppended(data, c, f, o, w);
    }
  }

  lemma SecondUpsertOfFound(data: seq<Row>, c: KnownCols, f: Fields, o: UpsertOptions, w: nat, i: nat)
    requires RowsWide(data, w) && KnownDistinct(c) && KnownFits(c, w)
    requires KnownRowOf(data, c, f.id) == Some(i)
    ensures Upserted(Upserted(data, c, f, o, w), c, f, o, w) == Upserted(data, c, f, o, w)
  {
    var id := f.id;
    var d1 := data[i := MergedRow(data[i], c, f, o)];
    MergedKeepsId(data[i], c, f, o);
    assert IdIs(c, id)(d1[i]);
    assert forall k :: 0 <= k < i ==> d1[k] == data[k];
    FirstAt(d1, IdIs(c, id), i);
    MergedAgrees(data[i], c, f, o);
    MergedOfAgreeing(d1[i], c, f, o);
  }

  lemma SecondUpsertOfAppended(data: seq<Row>, c: KnownCols, f: Fields, o: UpsertOptions, w: nat)
    requires KnownDistinct(c) && KnownFits(c, w) && c.id.Some? && f.id != "" && NoEdgeSpace(f.id)
    requires KnownRowOf(data, c, f.id).None?
    ensures Upserted(Upserted(data, c, f, o, w), c, f, o, w) == Upserted(data, c, f, o, w)
  {
    var id := f.id;
    var d1 := data + [NewKnownRow(w, c, f, o)];
    NewRowHasId(w, c, f, o);
    assert IdIs(c, id)(d1[|data|]);
    assert forall k :: 0 <= k < |data| ==> d1[k] == data[k];
    FirstAt(d1, IdIs(c, id), |data|);
    NewRowAgrees(w, c, f, o);
    MergedOfAgreeing(d1[|data|], c, f, o);
  }

  // ---------------------------------------------------------------- fetch

  /** One entry of signinFetchKnownStudents_(). */
  datatype KnownRecord = KnownRecord(id: string, firstName: string, lastName: string, school: string,
                                     email: string, grade: string, lastSignIn: string)

  /** A LastSignIn cell as listed: a date as its ISO stamp, anything else
      as its trimmed text. */
  function StampText(v: Cell): string {
    if v.When? then IsoStamp(v.date, v.secs) else CellText(v)
  }

  function RecordOf(c: KnownCols, row: Row): (k: KnownRecord)
    ensures k.id == FieldText(row, c.id)
  {
    KnownRecord(FieldText(row, c.id), FieldText(row, c.first), FieldText(row, c.last),
                FieldText(row, c.school), FieldText(row, c.email), FieldText(row, c.grade),
                StampText(Get(row, c.lastSignIn)))
  }

  /** Rows with a blank id are skipped. */
  function HasId(c: KnownCols): Row -> bool {
    (row: Row) => FieldText(row, c.id) != ""
  }

  function Recorder(c: KnownCols): (Row, nat) -> KnownRecord {
    (row: Row, i: nat) => RecordOf(c, row)
  }

  /** The list, in sheet order. */
  function KnownList(data: seq<Row>, c: KnownCols): seq<KnownRecord> {
    PickMap(data, HasId(c), Recorder(c))
  }

  /** signinFetchKnownStudents_() on a cache miss. */
  method FetchKnownStudents(sh: Sheet, c: KnownCols) returns (list: seq<KnownRecord>)
    ensures list == KnownList(sh.data, c)
  {
    list := Collect(sh.data, HasId(c), Recorder(c));
  }

  /** The list holds exactly the rows with a non-blank id, each as its
      record; every listed id is non-blank. */
  lemma KnownListMembers(data: seq<Row>, c: KnownCols)
    ensures forall k :: 0 <= k < |KnownList(data, c)| ==> KnownList(data, c)[k].id != ""
    ensures forall i :: 0 <= i < |data| && FieldText(data[i], c.id) != "" ==> RecordOf(c, data[i]) in KnownList(data, c)
  {
    var l := KnownList(data, c);
    var w := Where(data, HasId(c));
    forall k | 0 <= k < |l| ensures l[k].id != "" {
      WhereMember(data, HasId(c), w[k]);
      assert Recorder(c)(data[w[k]], w[k]) == RecordOf(c, data[w[k]]);
    }
    forall i | 0 <= i < |data| && FieldText(data[i], c.id) != ""
      ensures RecordOf(c, data[i]) in l
    {
      WhereMember(data, HasId(c), i);
      var k :| 0 <= k < |w| && w[k] == i;
      assert l[k] == Recorder(c)(data[i], i);
    }
  }

  /** After an upsert, fetching lists the student's id. */
  lemma UpsertThenListed(data: seq<Row>, c: KnownCols, f: Fields, o: UpsertOptions, w: nat)
    requires KnownDistinct(c) && KnownFits(c, w) && c.id.Some? && f.id != "" && NoEdgeSpace(f.id)
    ensures exists k :: 0 <= k < |KnownList(Upserted(data, c, f, o, w), c)|
              && KnownList(Upserted(data, c, f, o, w), c)[k].id == f.id
  {
    var d1 := Upserted(data, c, f, o, w);
    var i := UpsertedRow(data, c, f, o, w);
    KnownListMembers(d1, c);
    var l := KnownList(d1, c);
    assert RecordOf(c, d1[i]) in l;
    var k :| 0 <= k < |l| && l[k] == RecordOf(c, d1[i]);
  }

  /** The position of the student's row after an upsert. */
  lemma UpsertedRow(data: seq<Row>, c: KnownCols, f: Fields, o: UpsertOptions, w: nat) returns (i: nat)
    requires KnownDistinct(c) && KnownFits(c, w) && c.id.Some? && f.id != "" && NoEdgeSpace(f.id)
    ensures i < |Upserted(data, c, f, o, w)| && FieldText(Upserted(data, c, f, o, w)[i], c.id) == f.id
  {
    var d1 := Upserted(data, c, f, o, w);
    match KnownRowOf(data, c, f.id) {
      case Some(j) =>
        MergedKeepsId(data[j], c, f, o);
        i := j;
      case None =>
        NewRowHasId(RowWidth(w), c, f, o);
        i := |data|;
    }
  }
}
