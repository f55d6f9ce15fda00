// recordStudentSignIn and lookupSignInById (SignInServer.js): a student
// signs in to an open session, which upserts the known-student directory,
// adds a row to the sign-in queue (individual sessions) or to the
// attendance sheet (group sessions), and counts the sign-in on the session.
module SignIn {
  import opened Wrappers
  import opened Strings
  import opened Cells
  import opened Utils
  import opened Scan
  import opened Grades
  import opened KnownStudents
  import opened Sessions
  import Queue
  import Columns

  // ------------------------------------------------------------ request

  /** payload.sessionId and payload.student; a missing payload has a blank
      session id and no student. */
  datatype Payload = Payload(sessionId: Cell, student: Option<Student>)

  /** String(student.id || student.studentId || '').trim(). */
  function SignInId(st: Student): (id: string)
    ensures NoEdgeSpace(id)
  {
    Trim(if st.id != "" then st.id else st.studentId)
  }

  /** The details object: the id as studentId, the other fields trimmed,
      and a non-blank grade normalised. */
  function Details(st: Student, id: string): (d: Student)
    ensures d.studentId == id && d.id == ""
  {
    var g := Trim(st.grade);
    Student(id, "", Trim(st.firstName), Trim(st.lastName), Trim(st.school), Trim(st.email),
            if g != "" then NormalizeGrade(g) else g)
  }

  /** A request that passed every check: the open session and the details. */
  datatype Admitted = Admitted(session: SessionInfo, details: Student)

  /** The checks made before anything is written, in the script's order. */
  function SignInCheck(data: seq<Row>, c: SessionCols, p: Payload): (r: Result<Admitted>)
  {
    if !Truthy(p.sessionId) then Err("Session ID is required.")
    else if p.student.None? then Err("Student payload is required.")
    else
      var id := SignInId(p.student.value);
      if id == "" then Err("Student ID is required.")
      else
        match FindSession(data, c, p.sessionId)
        case None => Err("Session is not active or not found.")
        case Some(s) =>
          if !s.isActive then Err("Session is not active or not found.")
          else Ok(Admitted(s, Details(p.student.value, id)))
  }

  /** A request is admitted exactly when it names a session, carries a
      student with an id, and the session is found and open; the admitted
      session is that session and the details carry that id. */
  lemma SignInCheckMeaning(data: seq<Row>, c: SessionCols, p: Payload)
    ensures SignInCheck(data, c, p).Ok? <==>
              Truthy(p.sessionId) && p.student.Some? && SignInId(p.student.value) != ""
              && FindSession(data, c, p.sessionId).Some? && FindSession(data, c, p.sessionId).value.isActive
    ensures SignInCheck(data, c, p).Ok? ==>
              SignInCheck(data, c, p).value.session == FindSession(data, c, p.sessionId).value
              && SignInCheck(data, c, p).value.details.studentId == SignInId(p.student.value)
  {
  }

  /** The upsert options `{ timestamp: now }` (CreatedAt is the same instant). */
  function SignInOptions(now: Instant): UpsertOptions {
    UpsertOptions(Some(now), true, now)
  }

  /** The trimmed "first last", or the id when both are blank. */
  function FullName(d: Student): (n: string)
    ensures n != "" || d.studentId == ""
  {
    var n := Trim(d.firstName + " " + d.lastName);
    if n != "" then n else d.studentId
  }

  /** The details are stored as they would be stored from the raw student:
      the second normalisation of the grade in the upsert changes nothing. */
  lemma DetailsStored(st: Student)
    requires SignInId(st) != ""
    ensures FieldsOf(Details(st, SignInId(st)))
            == Fields(SignInId(st), Trim(st.firstName), Trim(st.lastName), Trim(st.school), Trim(st.email),
                      NormalizeGrade(st.grade))
  {
    var id := SignInId(st);
    var g := Trim(st.grade);
    TrimOfTrimmed(id);
    TrimIdempotent(st.firstName);
    TrimIdempotent(st.lastName);
    TrimIdempotent(st.school);
    TrimIdempotent(st.email);
    TrimIdempotent(st.grade);
    StoredOfNormalized(g);
  }

  /** The stored grade of an already trimmed grade g, normalised when
      non-blank, is its normalised label. */
  lemma StoredOfNormalized(g: string)
    requires NoEdgeSpace(g)
    ensures NormalizeGrade(Trim(if g != "" then NormalizeGrade(g) else g)) == NormalizeGrade(g)
  {
    if g != "" {
      NormalizeGradeIdempotent(g);
      NormalizeTrimmed(NormalizeGrade(g));
    } else {
      TrimOfTrimmed(g);
    }
  }

  /** The normaliser trims its input first. */
  lemma NormalizeTrimmed(s: string)
    ensures NormalizeGrade(Trim(s)) == NormalizeGrade(s)
  {
    TrimIdempotent(s);
  }

  // ---------------------------------------------------------- queue row

  /** The cells of the queue row, in the order the script assigns them
      (the queue sheet has no Group column). */
  function QueueRowWrites(l: Queue.QueueCols, now: Instant, id: string, name: string, school: string): seq<Write> {
    [Write(l.timestamp, now), Write(l.id, Text(id)), Write(l.name, Text(name)), Write(l.school, Text(school)),
     Write(l.mentor, Empty), Write(Some(l.status), Text(Queue.StatusLabel(Queue.Pending))),
     Write(Some(l.claimedBy), Empty), Write(Some(l.claimedAt), Empty), Write(Some(l.processedAt), Empty),
     Write(Some(l.contactId), Empty)]
  }

  /** The row appended to the sign-in queue: `new Array(width).fill('')`
      with the cells above assigned. */
  function QueueSignInRow(w: nat, l: Queue.QueueCols, now: Instant, id: string, name: string, school: string): (r: Row)
    ensures |r| == RowWidth(w)
  {
    Apply(Blanks(RowWidth(w)), QueueRowWrites(l, now, id, name, school))
  }

  /** The new queue row is Pending: ProcessedAt and ContactID are blank,
      and Status reads Pending. */
  lemma QueueRowPending(w: nat, l: Queue.QueueCols, now: Instant, id: string, name: string, school: string)
    requires Queue.Distinct(l)
    requires l.status < w && l.claimedBy < w && l.claimedAt < w && l.processedAt < w && l.contactId < w
    ensures Queue.RowStatus(QueueSignInRow(w, l, now, id, name, school), l) == Queue.Pending
  {
    var ws := QueueRowWrites(l, now, id, name, school);
    var row := Blanks(RowWidth(w));
    var admin := [l.status, l.claimedBy, l.claimedAt, l.processedAt, l.contactId];
    assert admin[0] != admin[1] && admin[0] != admin[2] && admin[0] != admin[3] && admin[0] != admin[4];
    assert admin[3] != admin[4];
    ApplyLastWins(row, ws, 5);
    ApplyLastWins(row, ws, 8);
    ApplyLastWins(row, ws, 9);
    Queue.StatusLabelRoundTrip(Queue.Pending);
  }

  /** The sign-in log after the header ensure and one appended queue row;
      the rows are padded to the ensured header. */
  predicate QueueAppended(h0: Row, d0: seq<Row>, h: Row, d: seq<Row>, now: Instant, id: string, name: string, school: string) {
    h == Queue.EnsuredHeader(h0)
    && d == PadAll(d0, |h|) + [QueueSignInRow(|h|, Queue.EnsuredCols(h0), now, id, name, school)]
  }

  /** Appending the queue row: the header ensure, then one appended row. */
  method AppendQueueRow(log: Sheet, now: Instant, id: string, name: string, school: string)
    returns (l: Queue.QueueCols, rowIndex: nat)
    requires log.Valid()
    modifies log
    ensures log.Valid()
    ensures l == Queue.EnsuredCols(old(log.header))
    ensures QueueAppended(old(log.header), old(log.data), log.header, log.data, now, id, name, school)
    ensures rowIndex == |old(log.data)| + 2
  {
    ghost var h0 := log.header;
    l := Queue.EnsureSignInLog(log);
    Queue.EnsuredColsKeyed(h0);
    Queue.KeyedDistinct(l, Columns.HeaderKeys(log.header));
    var row := QueueSignInRow(log.Width(), l, now, id, name, school);
    PadFit(row);
    log.AppendRow(row);
    rowIndex := log.LastRow();
  }

  /** The queue row of a sign-in is Pending, on a sheet with every column
      the header ensure found. */
  lemma AppendedQueueRowPending(h: Row, now: Instant, id: string, name: string, school: string)
    ensures Queue.RowStatus(QueueSignInRow(|Queue.EnsuredHeader(h)|, Queue.EnsuredCols(h), now, id, name, school),
                            Queue.EnsuredCols(h)) == Queue.Pending
  {
    var l := Queue.EnsuredCols(h);
    var keys := Columns.HeaderKeys(Queue.EnsuredHeader(h));
    Queue.EnsuredColsKeyed(h);
    Queue.KeyedDistinct(l, keys);
    QueueRowPending(|Queue.EnsuredHeader(h)|, l, now, id, name, school);
  }

  // ----------------------------------------------------- attendance row

  /** SIGN_IN.SHEET, the sign-in queue sheet. */
  const QueueSheet: string := "sign_in_log"

  /** CONFIG.ATTENDANCE: the sheet name and the fixed columns written. */
  const AttendanceSheet: string := "attendance"
  const AttTimestamp: nat := 0
  const AttFirstName: nat := 1
  const AttLastName: nat := 2
  const AttSchoolYear: nat := 4
  const AttSchool: nat := 5
  const AttIdNumber: nat := 6
  const AttGroup: nat := 7

  /** The row signinRecordGroupAttendance_ appends: `new Array(width)`
      filled with '' and the fixed columns assigned (which widens a
      narrower row, as a JavaScript array does). */
  function AttendanceRow(w: nat, now: Instant, d: Student, title: string): Row {
    var r0 := Blanks(RowWidth(w));
    var r1 := Assign(r0, AttTimestamp, now);
    var r2 := Assign(r1, AttFirstName, Text(d.firstName));
    var r3 := Assign(r2, AttLastName, Text(d.lastName));
    var r4 := Assign(r3, AttSchoolYear, Text(d.grade));
    var r5 := Assign(r4, AttSchool, Text(d.school));
    var r6 := Assign(r5, AttIdNumber, Text(d.studentId));
    Assign(r6, AttGroup, Text(title))
  }

  /** The attendance row is at least 8 cells wide. */
  lemma AttendanceRowWidth(w: nat, now: Instant, d: Student, title: string)
    ensures |AttendanceRow(w, now, d, title)| == if w <= 8 then 8 else w
  {
  }

  /** The attendance row holds the time, names, grade, school, id and the
      session title in their columns, and nothing in column 3. */
  lemma AttendanceRowReads(w: nat, now: Instant, d: Student, title: string)
    ensures At(AttendanceRow(w, now, d, title), AttTimestamp) == now
    ensures At(AttendanceRow(w, now, d, title), AttFirstName) == Text(d.firstName)
    ensures At(AttendanceRow(w, now, d, title), AttLastName) == Text(d.lastName)
    ensures At(AttendanceRow(w, now, d, title), 3) == Empty
    ensures At(AttendanceRow(w, now, d, title), AttSchoolYear) == Text(d.grade)
    ensures At(AttendanceRow(w, now, d, title), AttSchool) == Text(d.school)
    ensures At(AttendanceRow(w, now, d, title), AttIdNumber) == Text(d.studentId)
    ensures At(AttendanceRow(w, now, d, title), AttGroup) == Text(title)
  {
    var r0 := Blanks(RowWidth(w));
    var r1 := Assign(r0, AttTimestamp, now);
    var r2 := Assign(r1, AttFirstName, Text(d.firstName));
    var r3 := Assign(r2, AttLastName, Text(d.lastName));
    var r4 := Assign(r3, AttSchoolYear, Text(d.grade));
    var r5 := Assign(r4, AttSchool, Text(d.school));
    var r6 := Assign(r5, AttIdNumber, Text(d.studentId));
    var r7 := Assign(r6, AttGroup, Text(title));
    assert At(r4, AttTimestamp) == now && At(r4, AttFirstName) == Text(d.firstName);
    assert At(r4, AttLastName) == Text(d.lastName) && At(r4, 3) == Empty;
  }

  /** The attendance sheet after the row of a sign-in is appended (the
      row may widen the sheet). */
  predicate AttendanceAppended(h0: Row, d0: seq<Row>, h: Row, d: seq<Row>, now: Instant, details: Student, title: string) {
    var row := AttendanceRow(|h0|, now, details, title);
    if |row| <= |h0| then h == h0 && d == d0 + [row]
    else h == Pad(h0, |row|) && d == PadAll(d0, |row|) + [row]
  }

  /** Appending the attendance row. */
  method AppendAttendance(att: Sheet, now: Instant, d: Student, title: string) returns (rowIndex: nat)
    requires att.Valid()
    modifies att
    ensures att.Valid()
    ensures AttendanceAppended(old(att.header), old(att.data), att.header, att.data, now, d, title)
    ensures rowIndex == |old(att.data)| + 2
  {
    var row := AttendanceRow(att.Width(), now, d, title);
    AttendanceRowWidth(att.Width(), now, d, title);
    PadFit(row);
    att.AppendRow(row);
    rowIndex := att.LastRow();
  }

  // ----------------------------------------------------- session count

  /** LastSignInAt := now, then SignInCount := (Number(cell) || 0) + 1,
      reading the count cell after the first write. */
  function CountWrites(c: SessionCols, row: Row, now: Instant): seq<Write> {
    [Write(c.lastSignInAt, now),
     Write(c.signInCount, Num(NumberOr0(Get(SetOpt(row, c.lastSignInAt, now), c.signInCount)) + 1))]
  }

  /** The session rows after a sign-in counted at data position i. */
  function Counted(data: seq<Row>, c: SessionCols, i: nat, now: Instant): (r: seq<Row>)
    requires i < |data|
    ensures |r| == |data|
  {
    data[i := Apply(data[i], CountWrites(c, data[i], now))]
  }

  method CountSignIn(sh: Sheet, c: SessionCols, i: nat, now: Instant)
    requires sh.Valid() && Sessions.SessionFits(c, sh.Width()) && i < |sh.data|
    modifies sh
    ensures sh.Valid() && sh.header == old(sh.header)
    ensures sh.data == Counted(old(sh.data), c, i, now)
  {
    WriteCells(sh, i, CountWrites(c, sh.data[i], now));
  }

  /** A sign-in raises SignInCount by exactly one and stamps LastSignInAt. */
  lemma CountedIncrements(data: seq<Row>, c: SessionCols, i: nat, now: Instant)
    requires i < |data| && SessionDistinct(c) && Sessions.SessionFits(c, |data[i]|)
    requires c.signInCount.Some? && c.lastSignInAt.Some?
    ensures NumberOr0(Get(Counted(data, c, i, now)[i], c.signInCount)) == NumberOr0(Get(data[i], c.signInCount)) + 1
    ensures Get(Counted(data, c, i, now)[i], c.lastSignInAt) == now
  {
    var ws := CountWrites(c, data[i], now);
    TargetsAmong(ws, SessionColumns(c), [7, 8]);
    ApplyReads(data[i], ws, 0);
    ApplyReads(data[i], ws, 1);
    assert Apart(c.lastSignInAt, c.signInCount) by {
      assert SessionColumns(c)[7] == c.lastSignInAt && SessionColumns(c)[8] == c.signInCount;
    }
    GetSetOpt(data[i], c.lastSignInAt, now, c.signInCount);
  }

  /** Counting touches only LastSignInAt and SignInCount: the session keeps
      its id, title, type, day and IsActive, so it is found at the same row
      and is still open. */
  lemma CountedKeeps(row: Row, c: SessionCols, now: Instant)
    requires SessionDistinct(c) && Sessions.SessionFits(c, |row|)
    ensures Get(Apply(row, CountWrites(c, row, now)), c.id) == Get(row, c.id)
    ensures Get(Apply(row, CountWrites(c, row, now)), c.title) == Get(row, c.title)
    ensures Get(Apply(row, CountWrites(c, row, now)), c.kind) == Get(row, c.kind)
    ensures Get(Apply(row, CountWrites(c, row, now)), c.date) == Get(row, c.date)
    ensures Get(Apply(row, CountWrites(c, row, now)), c.isActive) == Get(row, c.isActive)
  {
    var cols := SessionColumns(c);
    assert Apart(cols[7], cols[0]) && Apart(cols[8], cols[0]);
    assert Apart(cols[7], cols[1]) && Apart(cols[8], cols[1]);
    assert Apart(cols[7], cols[2]) && Apart(cols[8], cols[2]);
    assert Apart(cols[7], cols[3]) && Apart(cols[8], cols[3]);
    assert Apart(cols[7], cols[4]) && Apart(cols[8], cols[4]);
    var n := CountWrites(c, row, now)[1].v;
    TwoWritesKeep(row, c.lastSignInAt, now, c.signInCount, n, c.id);
    TwoWritesKeep(row, c.lastSignInAt, now, c.signInCount, n, c.title);
    TwoWritesKeep(row, c.lastSignInAt, now, c.signInCount, n, c.kind);
    TwoWritesKeep(row, c.lastSignInAt, now, c.signInCount, n, c.date);
    TwoWritesKeep(row, c.lastSignInAt, now, c.signInCount, n, c.isActive);
  }

  /** Two writes leave a column apart from both as it was. */
  lemma TwoWritesKeep(row: Row, a: Option<nat>, x: Cell, b: Option<nat>, y: Cell, col: Option<nat>)
    requires Apart(a, col) && Apart(b, col)
    ensures Get(Apply(row, [Write(a, x), Write(b, y)]), col) == Get(row, col)
  {
    ApplyUntouched(row, [Write(a, x), Write(b, y)], col);
  }

  /** After a sign-in the same session is found for the id, still open. */
  lemma {:induction false} CountedStillOpen(data: seq<Row>, c: SessionCols, id: string, now: Instant, w: nat)
    requires forall i :: 0 <= i < |data| ==> |data[i]| == w
    requires SessionDistinct(c) && Sessions.SessionFits(c, w)
    requires SessionRowOf(data, c, id).Some?
    ensures SessionRowOf(Counted(data, c, SessionRowOf(data, c, id).value, now), c, id) == SessionRowOf(data, c, id)
    ensures IsActiveCell(Get(Counted(data, c, SessionRowOf(data, c, id).value, now)[SessionRowOf(data, c, id).value], c.isActive))
            == IsActiveCell(Get(data[SessionRowOf(data, c, id).value], c.isActive))
  {
    var i := SessionRowOf(data, c, id).value;
    var d1 := Counted(data, c, i, now);
    CountedKeeps(data[i], c, now);
    assert SessionIdIs(c, id)(d1[i]);
    FirstAfterUpdate(data, SessionIdIs(c, id), i, d1[i]);
  }

  // --------------------------------------------------------- the request

  /** { id, label, date, type } of the session. */
  datatype SessionSummary = SessionSummary(id: string, title: string, date: string, kind: SessionType)

  /** The success result. */
  datatype SignInResult = SignInResult(session: SessionSummary, student: Student, createdKnown: bool,
                                       rowIndex: nat, targetSheet: string)

  /** The data position of a session's sheet row. */
  function DataPos(s: SessionInfo): nat
    requires s.rowIndex >= 2
  {
    s.rowIndex - 2
  }

  function Summary(s: SessionInfo): SessionSummary {
    SessionSummary(s.id, s.title, s.date, s.kind)
  }

  /** The queue, sessions and result of an individual sign-in: the queue
      header ensured and the Pending row appended, the session's count
      raised, and the new queue row's number returned. */
  predicate QueueVisited(h0: Row, d0: seq<Row>, h: Row, d: seq<Row>, s0: seq<Row>, s: seq<Row>, sc: SessionCols,
                         a: Admitted, created: bool, now: Instant, r: Result<SignInResult>)
    requires 2 <= a.session.rowIndex && DataPos(a.session) < |s0|
  {
    QueueAppended(h0, d0, h, d, now, a.details.studentId, FullName(a.details), a.details.school)
    && s == Counted(s0, sc, DataPos(a.session), now)
    && r == Ok(SignInResult(Summary(a.session), a.details, created, |d0| + 2, QueueSheet))
  }

  /** The same for a group session: the attendance row appended instead. */
  predicate GroupVisited(h0: Row, d0: seq<Row>, h: Row, d: seq<Row>, s0: seq<Row>, s: seq<Row>, sc: SessionCols,
                         a: Admitted, created: bool, now: Instant, r: Result<SignInResult>)
    requires 2 <= a.session.rowIndex && DataPos(a.session) < |s0|
  {
    AttendanceAppended(h0, d0, h, d, now, a.details, a.session.title)
    && s == Counted(s0, sc, DataPos(a.session), now)
    && r == Ok(SignInResult(Summary(a.session), a.details, created, |d0| + 2, AttendanceSheet))
  }

  /** recordStudentSignIn(payload), with the current time as a parameter.
      The four sheets are distinct; a missing attendance sheet is null.
      `check` names the outcome of the checks, for the contract. */
  method RecordStudentSignIn(known: Sheet, kc: KnownCols, sessions: Sheet, sc: SessionCols, log: Sheet, att: Sheet?,
                             p: Payload, now: Instant) returns (r: Result<SignInResult>, ghost check: Result<Admitted>)
    requires known != sessions && known != log && sessions != log
    requires att != known && att != sessions && att != log
    requires known.Valid() && KnownFits(kc, known.Width()) && kc.id.Some?
    requires sessions.Valid() && Sessions.SessionFits(sc, sessions.Width())
    requires log.Valid() && (att != null ==> att.Valid())
    modifies known, sessions, log, att
    ensures check == SignInCheck(old(sessions.data), sc, p)
    ensures check.Ok? ==> 2 <= check.value.session.rowIndex && DataPos(check.value.session) < |old(sessions.data)|
    ensures known.Valid() && sessions.Valid() && log.Valid() && (att != null ==> att.Valid())
    ensures known.header == old(known.header) && sessions.header == old(sessions.header)
    // a refused request changes nothing
    ensures check.Err? ==>
              r == Err(check.error)
              && known.data == old(known.data) && sessions.data == old(sessions.data)
              && log.header == old(log.header) && log.data == old(log.data)
              && (att != null ==> att.header == old(att.header) && att.data == old(att.data))
    // an admitted one upserts the student first
    ensures check.Ok? ==>
              known.data == Upserted(old(known.data), kc, FieldsOf(check.value.details), SignInOptions(now), old(known.Width()))
    // an individual session queues the student
    ensures check.Ok? && check.value.session.kind == Individual ==>
              QueueVisited(old(log.header), old(log.data), log.header, log.data, old(sessions.data), sessions.data, sc,
                           check.value, KnownRowOf(old(known.data), kc, check.value.details.studentId).None?, now, r)
              && (att != null ==> att.header == old(att.header) && att.data == old(att.data))
    // a group session records attendance instead, when the sheet exists
    ensures check.Ok? && check.value.session.kind == Group ==>
              log.header == old(log.header) && log.data == old(log.data)
    ensures check.Ok? && check.value.session.kind == Group && att == null ==>
              r == Err("Attendance sheet \"" + AttendanceSheet + "\" not found.") && sessions.data == old(sessions.data)
    ensures check.Ok? && check.value.session.kind == Group && att != null ==>
              GroupVisited(old(att.header), old(att.data), att.header, att.data, old(sessions.data), sessions.data, sc,
                           check.value, KnownRowOf(old(known.data), kc, check.value.details.studentId).None?, now, r)
  {
    var c := CheckSignIn(sessions, sc, p);
    check := c;
    if c.Err? {
      return Err(c.error), check;
    }
    SessionFound(sessions.data, sc, p);
    r := SignInAdmitted(known, kc, sessions, sc, log, att, c.value, FieldsOf(c.value.details), now);
  }

  /** The writes of an admitted request: the upsert, then the queue or
      attendance row and the session count. */
  method SignInAdmitted(known: Sheet, kc: KnownCols, sessions: Sheet, sc: SessionCols, log: Sheet, att: Sheet?,
                        a: Admitted, f: Fields, now: Instant) returns (r: Result<SignInResult>)
    requires known != sessions && known != log && sessions != log
    requires att != known && att != sessions && att != log
    requires known.Valid() && KnownFits(kc, known.Width()) && kc.id.Some?
    requires sessions.Valid() && Sessions.SessionFits(sc, sessions.Width())
    requires log.Valid() && (att != null ==> att.Valid())
    requires 2 <= a.session.rowIndex && DataPos(a.session) < |sessions.data|
    requires f.id == a.details.studentId
    modifies known, sessions, log, att
    ensures known.Valid() && sessions.Valid() && log.Valid() && (att != null ==> att.Valid())
    ensures known.header == old(known.header) && sessions.header == old(sessions.header)
    ensures known.data == Upserted(old(known.data), kc, f, SignInOptions(now), old(known.Width()))
    ensures a.session.kind == Individual ==>
              QueueVisited(old(log.header), old(log.data), log.header, log.data, old(sessions.data), sessions.data, sc,
                           a, KnownRowOf(old(known.data), kc, a.details.studentId).None?, now, r)
              && (att != null ==> att.header == old(att.header) && att.data == old(att.data))
    ensures a.session.kind == Group ==> log.header == old(log.header) && log.data == old(log.data)
    ensures a.session.kind == Group && att == null ==>
              r == Err("Attendance sheet \"" + AttendanceSheet + "\" not found.") && sessions.data == old(sessions.data)
    ensures a.session.kind == Group && att != null ==>
              GroupVisited(old(att.header), old(att.data), att.header, att.data, old(sessions.data), sessions.data, sc,
                           a, KnownRowOf(old(known.data), kc, a.details.studentId).None?, now, r)
  {
    var created := UpsertForSignIn(known, kc, f, now);
    if a.session.kind == Group {
      if att == null {
        return Err("Attendance sheet \"" + AttendanceSheet + "\" not found.");
      }
      r := GroupVisit(sessions, sc, att, a, created, now);
    } else {
      r := IndividualVisit(sessions, sc, log, a, created, now);
    }
  }

  /** The upsert of the student, with `{ timestamp: now }`; `created` is
      whether the directory lacked the id. */
  method UpsertForSignIn(known: Sheet, kc: KnownCols, f: Fields, now: Instant) returns (created: bool)
    requires known.Valid() && KnownFits(kc, known.Width()) && kc.id.Some?
    modifies known
    ensures known.Valid() && known.header == old(known.header)
    ensures known.data == Upserted(old(known.data), kc, f, SignInOptions(now), old(known.Width()))
    ensures created == KnownRowOf(old(known.data), kc, f.id).None?
  {
    var up := UpsertFields(known, kc, f, SignInOptions(now));
    created := up.created;
  }

  /** A group session: the attendance row, then the count. */
  method GroupVisit(sessions: Sheet, sc: SessionCols, att: Sheet, a: Admitted, created: bool, now: Instant)
    returns (r: Result<SignInResult>)
    requires sessions != att && sessions.Valid() && att.Valid() && Sessions.SessionFits(sc, sessions.Width())
    requires 2 <= a.session.rowIndex && DataPos(a.session) < |sessions.data|
    modifies sessions, att
    ensures sessions.Valid() && att.Valid() && sessions.header == old(sessions.header)
    ensures GroupVisited(old(att.header), old(att.data), att.header, att.data, old(sessions.data), sessions.data, sc,
                         a, created, now, r)
  {
    var rowIndex := AppendAttendance(att, now, a.details, a.session.title);
    CountSignIn(sessions, sc, DataPos(a.session), now);
    r := Ok(SignInResult(Summary(a.session), a.details, created, rowIndex, AttendanceSheet));
  }

  /** An individual session: the queue row, then the count. */
  method IndividualVisit(sessions: Sheet, sc: SessionCols, log: Sheet, a: Admitted, created: bool, now: Instant)
    returns (r: Result<SignInResult>)
    requires sessions != log && sessions.Valid() && log.Valid() && Sessions.SessionFits(sc, sessions.Width())
    requires 2 <= a.session.rowIndex && DataPos(a.session) < |sessions.data|
    modifies sessions, log
    ensures sessions.Valid() && log.Valid() && sessions.header == old(sessions.header)
    ensures QueueVisited(old(log.header), old(log.data), log.header, log.data, old(sessions.data), sessions.data, sc,
                         a, created, now, r)
  {
    var l, rowIndex := AppendQueueRow(log, now, a.details.studentId, FullName(a.details), a.details.school);
    CountSignIn(sessions, sc, DataPos(a.session), now);
    r := Ok(SignInResult(Summary(a.session), a.details, created, rowIndex, QueueSheet));
  }

  /** The checks, reading the sessions sheet only. */
  method CheckSignIn(sessions: Sheet, sc: SessionCols, p: Payload) returns (r: Result<Admitted>)
    ensures r == SignInCheck(sessions.data, sc, p)
  {
    if !Truthy(p.sessionId) {
      return Err("Session ID is required.");
    }
    if p.student.None? {
      return Err("Student payload is required.");
    }
    var id := SignInId(p.student.value);
    if id == "" {
      return Err("Student ID is required.");
    }
    var s := FindSessionIn(sessions, sc, p.sessionId);
    if s.None? || !s.value.isActive {
      return Err("Session is not active or not found.");
    }
    r := Ok(Admitted(s.value, Details(p.student.value, id)));
  }

  /** An admitted session lies on the sheet, and its details have an id. */
  lemma SessionFound(data: seq<Row>, c: SessionCols, p: Payload)
    requires SignInCheck(data, c, p).Ok?
    ensures 2 <= SignInCheck(data, c, p).value.session.rowIndex < |data| + 2
    ensures DataPos(SignInCheck(data, c, p).value.session) < |data|
    ensures StudentKey(SignInCheck(data, c, p).value.details) == SignInCheck(data, c, p).value.details.studentId != ""
  {
    FindSessionMeaning(data, c, p.sessionId);
    TrimOfTrimmed(SignInId(p.student.value));
  }

  // ------------------------------------------------------------- lookup

  /** An entry of the suggestion roster (read by a function that is not
      part of this model). */
  datatype RosterEntry = RosterEntry(id: string, firstName: string, lastName: string, school: string, grade: string)

  /** The record lookupSignInById returns. */
  datatype LookupRecord = LookupRecord(id: string, firstName: string, lastName: string, school: string,
                                       email: string, grade: string, isKnown: bool)

  function KnownIdIs(id: string): KnownRecord -> bool {
    (k: KnownRecord) => k.id == id
  }

  function RosterIdIs(id: string): RosterEntry -> bool {
    (e: RosterEntry) => Trim(e.id) == id
  }

  /** lookupSignInById(idRaw) over the known list and the roster: the known
      directory first, then the roster, else not found. */
  function LookupSignIn(known: seq<KnownRecord>, roster: seq<RosterEntry>, idRaw: Cell): Result<LookupRecord> {
    var id := CellText(idRaw);
    if id == "" then Err("Student ID is required.")
    else
      match First(known, KnownIdIs(id))
      case Some(j) =>
        var k := known[j];
        Ok(LookupRecord(id, k.firstName, k.lastName, k.school, k.email, k.grade, true))
      case None =>
        match First(roster, RosterIdIs(id))
        case Some(j) =>
          var e := roster[j];
          Ok(LookupRecord(id, Trim(e.firstName), Trim(e.lastName), Trim(e.school), "", Trim(e.grade), false))
        case None => Err("ID \"" + id + "\" not found.")
  }

  method LookupSignInById(sh: Sheet, c: KnownCols, roster: seq<RosterEntry>, idRaw: Cell) returns (r: Result<LookupRecord>)
    ensures r == LookupSignIn(KnownList(sh.data, c), roster, idRaw)
  {
    var id := CellText(idRaw);
    if id == "" {
      return Err("Student ID is required.");
    }
    var known := FetchKnownStudents(sh, c);
    var j := FindFirst(known, KnownIdIs(id));
    if j.Some? {
      var k := known[j.value];
      return Ok(LookupRecord(id, k.firstName, k.lastName, k.school, k.email, k.grade, true));
    }
    var e := FindFirst(roster, RosterIdIs(id));
    if e.Some? {
      var x := roster[e.value];
      return Ok(LookupRecord(id, Trim(x.firstName), Trim(x.lastName), Trim(x.school), "", Trim(x.grade), false));
    }
    r := Err("ID \"" + id + "\" not found.");
  }

  /** A found record carries the trimmed id; it is marked known exactly
      when the directory has the id, in which case its fields are the
      first such directory entry's; otherwise they are the first roster
      match's, with no e-mail. */
  lemma LookupMeaning(known: seq<KnownRecord>, roster: seq<RosterEntry>, idRaw: Cell)
    ensures LookupSignIn(known, roster, idRaw).Ok? ==> LookupSignIn(known, roster, idRaw).value.id == CellText(idRaw) != ""
    ensures LookupSignIn(known, roster, idRaw).Ok? ==>
              (LookupSignIn(known, roster, idRaw).value.isKnown <==> exists k :: 0 <= k < |known| && known[k].id == CellText(idRaw))
    ensures LookupSignIn(known, roster, idRaw).Ok? && !LookupSignIn(known, roster, idRaw).value.isKnown ==>
              LookupSignIn(known, roster, idRaw).value.email == ""
  {
    var id := CellText(idRaw);
    if id != "" {
      match First(known, KnownIdIs(id)) {
        case Some(j) =>
        case None =>
          forall k | 0 <= k < |known| ensures known[k].id != id {
            assert !KnownIdIs(id)(known[k]);
          }
      }
    }
  }

  /** Nothing is found exactly when the id is blank, or neither the
      directory nor the roster has it. */
  lemma LookupNotFound(known: seq<KnownRecord>, roster: seq<RosterEntry>, idRaw: Cell)
    requires CellText(idRaw) != ""
    ensures LookupSignIn(known, roster, idRaw).Err? <==>
              (forall k :: 0 <= k < |known| ==> known[k].id != CellText(idRaw))
              && (forall k :: 0 <= k < |roster| ==> Trim(roster[k].id) != CellText(idRaw))
  {
    var id := CellText(idRaw);
    if First(known, KnownIdIs(id)).None? && First(roster, RosterIdIs(id)).None? {
      forall k | 0 <= k < |known| ensures known[k].id != id {
        assert !KnownIdIs(id)(known[k]);
      }
      forall k | 0 <= k < |roster| ensures Trim(roster[k].id) != id {
        assert !RosterIdIs(id)(roster[k]);
      }
    } else if First(known, KnownIdIs(id)).Some? {
      var j := First(known, KnownIdIs(id)).value;
      assert known[j].id == id;
    } else {
      var j := First(roster, RosterIdIs(id)).value;
      assert Trim(roster[j].id) == id;
    }
  }
}
