// The `sign_in_sessions` sheet of the sign-in tool (SignInServer.js): one
// row per session (a title, a day and a type), opened by startSignInSession,
// closed by endSignInSession, listed per day, and found by its SessionID.
module Sessions {
  import opened Wrappers
  import opened Strings
  import opened Cells
  import opened Utils
  import opened Scan
  import opened Sorting
  import opened Grades

  /** The column map C returned by signinEnsureSessionsSheet_ (`title` is
      the Label column; `label` is a reserved word here). */
  datatype SessionCols = SessionCols(
    id: Option<nat>, title: Option<nat>, kind: Option<nat>, date: Option<nat>, isActive: Option<nat>,
    createdAt: Option<nat>, closedAt: Option<nat>, lastSignInAt: Option<nat>, signInCount: Option<nat>)

  function SessionColumns(c: SessionCols): seq<Option<nat>> {
    [c.id, c.title, c.kind, c.date, c.isActive, c.createdAt, c.closedAt, c.lastSignInAt, c.signInCount]
  }

  predicate Within(col: Option<nat>, w: nat) {
    col.Some? ==> col.value < w
  }

  /** Every resolved column lies inside a sheet w columns wide. */
  predicate SessionFits(c: SessionCols, w: nat) {
    Within(c.id, w) && Within(c.title, w) && Within(c.kind, w) && Within(c.date, w) && Within(c.isActive, w)
    && Within(c.createdAt, w) && Within(c.closedAt, w) && Within(c.lastSignInAt, w) && Within(c.signInCount, w)
  }

  /** No two fields share a column. */
  predicate SessionDistinct(c: SessionCols) {
    ColumnsApart(SessionColumns(c))
  }

  /** Every field resolved, as the ensure step leaves the map. */
  predicate SessionComplete(c: SessionCols) {
    c.id.Some? && c.title.Some? && c.kind.Some? && c.date.Some? && c.isActive.Some?
    && c.createdAt.Some? && c.closedAt.Some? && c.lastSignInAt.Some? && c.signInCount.Some?
  }

  // ------------------------------------------------------------ reading

  datatype SessionType = Group | Individual

  function TypeName(t: SessionType): string {
    match t
    case Group => "group"
    case Individual => "individual"
  }

  /** `String(v || '').trim().toLowerCase() === 'group' ? 'group' : 'individual'`. */
  function ReadType(v: Cell): (t: SessionType)
    ensures t == Group <==> ToLower(CellText(v)) == "group"
  {
    if ToLower(CellText(v)) == "group" then Group else Individual
  }

  /** A type written as its name reads back as itself. */
  lemma ReadTypeOfName(t: SessionType)
    ensures ReadType(Text(TypeName(t))) == t
  {
    CellTextOfTrimmed(TypeName(t));
    if t == Group {
      LowerIs("group", "group");
    } else {
      LowerIs("individual", "individual");
      assert "individual" != "group";
    }
  }

  /** The IsActive test: anything but the text "false" (in any case), the
      boolean false or the number 0 counts as active. A blank cell is
      active. */
  predicate IsActiveCell(v: Cell) {
    ToLower(CellText(v)) != "false" && v != Flag(false) && v != Num(0)
  }

  /** The inactive cells are exactly the boolean false, the number 0 and
      text that trims and lower-cases to "false": every other number,
      true, every date and a blank cell are active. */
  lemma ActiveCellMeaning(v: Cell)
    ensures !IsActiveCell(v) <==> v == Flag(false) || v == Num(0) || (v.Text? && ToLower(Trim(v.s)) == "false")
  {
    match v
    case Text(t) =>
      CellTextOfText(t);
    case Num(n) =>
      if n != 0 {
        var s := IntToString(n);
        IntToStringShape(n);
        TrimOfTrimmed(s);
        assert ToLower(CellText(v))[0] == s[0];
      }
    case Flag(b) =>
      if b {
        CellTextOfTrimmed("true");
      }
    case When(d, _) =>
      DateStringShape(d);
      TrimOfTrimmed(DateString(d));
  }

  lemma ActiveFlags()
    ensures IsActiveCell(Flag(true)) && !IsActiveCell(Flag(false)) && IsActiveCell(Empty)
  {
    ActiveCellMeaning(Flag(true));
    ActiveCellMeaning(Empty);
  }

  /** A LastSignInAt cell as shown: a date as its ISO stamp, anything
      else as String(v).trim(). */
  function StampOf(v: Cell): string {
    if v.When? then IsoStamp(v.date, v.secs) else Trim(StrOf(v))
  }

  /** The object signinHydrateSessionRow_ builds. */
  datatype SessionInfo = SessionInfo(rowIndex: nat, id: string, title: string, date: string, kind: SessionType,
                                     isActive: bool, signInCount: int, lastSignInAt: string)

  /** signinHydrateSessionRow_(C, row, rowIndex). */
  function Hydrate(c: SessionCols, row: Row, rowIndex: nat): (s: SessionInfo)
    ensures s.rowIndex == rowIndex && s.id == Str(row, c.id) && s.title == Str(row, c.title)
    ensures s.date == Ymd(Get(row, c.date)) && s.kind == ReadType(Get(row, c.kind))
    ensures s.isActive <==> IsActiveCell(Get(row, c.isActive))
  {
    SessionInfo(rowIndex, Str(row, c.id), Str(row, c.title), Ymd(Get(row, c.date)), ReadType(Get(row, c.kind)),
                IsActiveCell(Get(row, c.isActive)), NumberOr0(Get(row, c.signInCount)), StampOf(Get(row, c.lastSignInAt)))
  }

  // -------------------------------------------------------------- find

  function SessionIdIs(c: SessionCols, id: string): Row -> bool {
    (row: Row) => Str(row, c.id) == id
  }

  /** The data position of the first row whose SessionID is id; none for
      a blank id. */
  function SessionRowOf(data: seq<Row>, c: SessionCols, id: string): (r: Option<nat>)
    ensures r.Some? ==> id != "" && r.value < |data| && Str(data[r.value], c.id) == id
    ensures r.None? <==> id == "" || forall i :: 0 <= i < |data| ==> Str(data[i], c.id) != id
  {
    if id == "" then None else First(data, SessionIdIs(c, id))
  }

  /** The session at data position i, when there is one. */
  function SessionAt(data: seq<Row>, c: SessionCols, i: Option<nat>): Option<SessionInfo>
    requires i.Some? ==> i.value < |data|
  {
    match i
    case Some(k) => Some(Hydrate(c, data[k], k + 2))
    case None => None
  }

  /** signinFindSession_(sessionId): the first row whose SessionID is the
      trimmed id, hydrated; none for a blank id or an unknown one. */
  function FindSession(data: seq<Row>, c: SessionCols, sessionId: Cell): (r: Option<SessionInfo>)
  {
    SessionAt(data, c, SessionRowOf(data, c, CellText(sessionId)))
  }

  /** What signinFindSession_ promises: a found session carries the
      trimmed id and is its row read back; nothing is found exactly when the
      id is blank or no row has it. */
  lemma FindSessionMeaning(data: seq<Row>, c: SessionCols, sessionId: Cell)
    ensures FindSession(data, c, sessionId).Some? ==>
              CellText(sessionId) != "" && FindSession(data, c, sessionId).value.id == CellText(sessionId)
              && 2 <= FindSession(data, c, sessionId).value.rowIndex < |data| + 2
              && FindSession(data, c, sessionId).value
                 == Hydrate(c, data[FindSession(data, c, sessionId).value.rowIndex - 2], FindSession(data, c, sessionId).value.rowIndex)
    ensures FindSession(data, c, sessionId).None? <==>
              CellText(sessionId) == "" || forall i :: 0 <= i < |data| ==> Str(data[i], c.id) != CellText(sessionId)
  {
  }

  method FindSessionIn(sh: Sheet, c: SessionCols, sessionId: Cell) returns (r: Option<SessionInfo>)
    ensures r == FindSession(sh.data, c, sessionId)
  {
    var i := FindSessionRow(sh, c, CellText(sessionId));
    r := SessionAt(sh.data, c, i);
  }

  /** The search loop of signinFindSession_. */
  method FindSessionRow(sh: Sheet, c: SessionCols, id: string) returns (r: Option<nat>)
    ensures r == SessionRowOf(sh.data, c, id)
  {
    if id == "" {
      return None;
    }
    r := FindFirst(sh.data, SessionIdIs(c, id));
  }

  // -------------------------------------------------------------- list

  function ActiveOn(c: SessionCols, target: string): Row -> bool {
    (row: Row) => IsActiveCell(Get(row, c.isActive)) && Ymd(Get(row, c.date)) == target
  }

  function HydrateAt(c: SessionCols, row: Row, i: nat): SessionInfo {
    Hydrate(c, row, i + 2)
  }

  function Hydrator(c: SessionCols): (Row, nat) -> SessionInfo {
    (row: Row, i: nat) => HydrateAt(c, row, i)
  }

  /** a.title.localeCompare(b.title) <= 0. */
  function LabelLe(): (SessionInfo, SessionInfo) -> bool {
    (a: SessionInfo, b: SessionInfo) => StrLe(a.title, b.title)
  }

  /** The sessions listActiveSignInSessions returns for the target day. */
  function ActiveSessions(data: seq<Row>, c: SessionCols, target: string): seq<SessionInfo> {
    SortBy(PickMap(data, ActiveOn(c, target), Hydrator(c)), LabelLe())
  }

  /** listActiveSignInSessions(dateRaw): the target day is the parsed date,
      or today. */
  method ListActiveSignInSessions(sh: Sheet, c: SessionCols, dateRaw: Cell, today: Day) returns (sessions: seq<SessionInfo>)
    ensures sessions == ActiveSessions(sh.data, c, RequestDay(dateRaw, today))
  {
    var target := RequestDay(dateRaw, today);
    var raw := Collect(sh.data, ActiveOn(c, target), Hydrator(c));
    sessions := SortBy(raw, LabelLe());
  }

  lemma LabelLeTotal()
    ensures TotalPreorder(LabelLe())
  {
    forall a: SessionInfo, b: SessionInfo ensures LabelLe()(a, b) || LabelLe()(b, a) {
      StrLeTotal(a.title, b.title);
    }
    forall a: SessionInfo, b: SessionInfo, d: SessionInfo | LabelLe()(a, b) && LabelLe()(b, d)
      ensures LabelLe()(a, d)
    {
      StrLeTrans(a.title, b.title, d.title);
    }
  }

  /** The list is ordered by title. */
  lemma ActiveSessionsSorted(data: seq<Row>, c: SessionCols, target: string)
    ensures SortedBy(ActiveSessions(data, c, target), LabelLe())
  {
    LabelLeTotal();
    SortBySorted(PickMap(data, ActiveOn(c, target), Hydrator(c)), LabelLe());
  }

  /** The list holds only active sessions of the target day. */
  lemma ActiveSessionsSound(data: seq<Row>, c: SessionCols, target: string)
    ensures forall s :: s in ActiveSessions(data, c, target) ==> s.isActive && s.date == target
  {
    var raw := PickMap(data, ActiveOn(c, target), Hydrator(c));
    SortByElements(raw, LabelLe());
    forall s | s in raw ensures s.isActive && s.date == target {
      var i := PickMapFrom(data, ActiveOn(c, target), Hydrator(c), s);
      HydratedActive(c, target, data[i], i);
    }
  }

  lemma HydratedActive(c: SessionCols, target: string, row: Row, i: nat)
    requires ActiveOn(c, target)(row)
    ensures Hydrator(c)(row, i).isActive && Hydrator(c)(row, i).date == target
  {
  }

  /** Every active row of the target day is listed. */
  lemma ActiveSessionsComplete(data: seq<Row>, c: SessionCols, target: string, i: nat)
    requires i < |data| && IsActiveCell(Get(data[i], c.isActive)) && Ymd(Get(data[i], c.date)) == target
    ensures Hydrate(c, data[i], i + 2) in ActiveSessions(data, c, target)
  {
    var raw := PickMap(data, ActiveOn(c, target), Hydrator(c));
    HydratorAt(c, target, data[i], i);
    PickMapHas(data, ActiveOn(c, target), Hydrator(c), i);
    SortByElements(raw, LabelLe());
  }

  lemma HydratorAt(c: SessionCols, target: string, row: Row, i: nat)
    requires IsActiveCell(Get(row, c.isActive)) && Ymd(Get(row, c.date)) == target
    ensures ActiveOn(c, target)(row) && Hydrator(c)(row, i) == Hydrate(c, row, i + 2)
  {
    HydratorIs(c, row, i);
  }

  lemma HydratorIs(c: SessionCols, row: Row, i: nat)
    ensures Hydrator(c)(row, i) == Hydrate(c, row, i + 2)
  {
    assert Hydrator(c)(row, i) == HydrateAt(c, row, i);
  }

  // ------------------------------------------------------------- start

  /** The row test of startSignInSession: same day key, same normalised
      title, same type. */
  function SameSession(c: SessionCols, date: string, labelNorm: string, t: SessionType): Row -> bool {
    (row: Row) => Ymd(Get(row, c.date)) == date && Norm(Str(row, c.title)) == labelNorm && ReadType(Get(row, c.kind)) == t
  }

  function StartMatch(data: seq<Row>, c: SessionCols, title: string, date: string, t: SessionType): Option<nat> {
    First(data, SameSession(c, date, Norm(title), t))
  }

  /** Reopening: IsActive set to true and ClosedAt cleared. */
  function ReopenWrites(c: SessionCols): seq<Write> {
    [Write(c.isActive, Flag(true)), Write(c.closedAt, Empty)]
  }

  /** The writes onto the blank row of a new session. */
  function NewSessionWrites(c: SessionCols, title: string, date: string, t: SessionType, uuid: string, now: Instant): seq<Write> {
    [Write(c.id, Text(uuid)), Write(c.title, Text(title)), Write(c.kind, Text(TypeName(t))),
     Write(c.date, Text(date)), Write(c.isActive, Flag(true)), Write(c.createdAt, now), Write(c.signInCount, Num(0))]
  }

  function NewSessionRow(w: nat, c: SessionCols, title: string, date: string, t: SessionType, uuid: string, now: Instant): (r: Row)
    ensures |r| == w
  {
    Apply(Blanks(w), NewSessionWrites(c, title, date, t, uuid, now))
  }

  /** The data rows after starting a session: a matching active session
      is left alone, a matching closed one is reopened, and otherwise one
      row is appended. */
  function Started(data: seq<Row>, c: SessionCols, title: string, date: string, t: SessionType,
                   uuid: string, now: Instant, w: nat): (r: seq<Row>)
    ensures |r| == if StartMatch(data, c, title, date, t).Some? then |data| else |data| + 1
  {
    StartedFrom(data, c, StartMatch(data, c, title, date, t), NewSessionRow(w, c, title, date, t, uuid, now))
  }

  /** Started, once the match m and the row a new session would get are known. */
  function StartedFrom(data: seq<Row>, c: SessionCols, m: Option<nat>, added: Row): (r: seq<Row>)
    requires m.Some? ==> m.value < |data|
    ensures |r| == if m.Some? then |data| else |data| + 1
  {
    match m
    case Some(i) =>
      if IsActiveCell(Get(data[i], c.isActive)) then data else data[i := Apply(data[i], ReopenWrites(c))]
    case None => data + [added]
  }

  /** The session returned: the matching row as it was read (so a reopened
      session is reported with the IsActive it had before), or the new one. */
  function StartedInfo(data: seq<Row>, c: SessionCols, title: string, date: string, t: SessionType, uuid: string): SessionInfo {
    InfoFrom(data, c, StartMatch(data, c, title, date, t), SessionInfo(|data| + 2, uuid, title, date, t, true, 0, ""))
  }

  function InfoFrom(data: seq<Row>, c: SessionCols, m: Option<nat>, added: SessionInfo): SessionInfo
    requires m.Some? ==> m.value < |data|
  {
    match m
    case Some(i) => Hydrate(c, data[i], i + 2)
    case None => added
  }

  /** startSignInSession(labelRaw, dateRaw, typeRaw), with the new id, the
      current time and today's date as parameters. */
  method StartSignInSession(sh: Sheet, c: SessionCols, labelRaw: Cell, dateRaw: Cell, typeRaw: Cell,
                            today: Day, uuid: string, now: Instant) returns (r: Result<SessionInfo>)
    requires sh.Valid() && SessionFits(c, sh.Width()) && c.id.Some?
    modifies sh
    ensures sh.Valid() && sh.header == old(sh.header)
    ensures CellText(labelRaw) == "" ==> r == Err("Session label is required.") && sh.data == old(sh.data)
    ensures CellText(labelRaw) != "" ==>
              var date := RequestDay(dateRaw, today);
              r == Ok(StartedInfo(old(sh.data), c, CellText(labelRaw), date, ReadType(typeRaw), uuid))
              && sh.data == Started(old(sh.data), c, CellText(labelRaw), date, ReadType(typeRaw), uuid, now, old(sh.Width()))
  {
    var title := CellText(labelRaw);
    if title == "" {
      return Err("Session label is required.");
    }
    var date := RequestDay(dateRaw, today);
    var info := StartWith(sh, c, title, date, ReadType(typeRaw), uuid, now);
    r := Ok(info);
  }

  /** The body of startSignInSession once the title, day and type are read. */
  method StartWith(sh: Sheet, c: SessionCols, title: string, date: string, t: SessionType, uuid: string, now: Instant)
    returns (info: SessionInfo)
    requires sh.Valid() && SessionFits(c, sh.Width()) && c.id.Some?
    modifies sh
    ensures sh.Valid() && sh.header == old(sh.header)
    ensures info == StartedInfo(old(sh.data), c, title, date, t, uuid)
    ensures sh.data == Started(old(sh.data), c, title, date, t, uuid, now, old(sh.Width()))
  {
    var found := FindFirst(sh.data, SameSession(c, date, Norm(title), t));
    var row := NewSessionRow(sh.Width(), c, title, date, t, uuid, now);
    info := StartAt(sh, c, found, row, SessionInfo(|sh.data| + 2, uuid, title, date, t, true, 0, ""));
  }

  /** The writes of startSignInSession for the match found: reopen it, or
      append the new row. */
  method StartAt(sh: Sheet, c: SessionCols, m: Option<nat>, added: Row, addedInfo: SessionInfo) returns (info: SessionInfo)
    requires sh.Valid() && SessionFits(c, sh.Width()) && |added| == sh.Width()
    requires m.Some? ==> m.value < |sh.data|
    modifies sh
    ensures sh.Valid() && sh.header == old(sh.header)
    ensures info == InfoFrom(old(sh.data), c, m, addedInfo)
    ensures sh.data == StartedFrom(old(sh.data), c, m, added)
  {
    match m {
      case Some(i) =>
        info := Hydrate(c, sh.data[i], i + 2);
        if !IsActiveCell(Get(sh.data[i], c.isActive)) {
          WriteCells(sh, i, ReopenWrites(c));
        }
      case None =>
        PadFit(added);
        sh.AppendRow(added);
        info := addedInfo;
    }
  }

  /** Two `sh.getRange(r, C.X + 1).setValue(v)` calls, each made only when
      its column is known. */
  method WriteCells(sh: Sheet, i: nat, ws: seq<Write>)
    requires sh.Valid() && i < |sh.data| && |ws| == 2
    requires forall k :: 0 <= k < 2 ==> Within(ws[k].col, sh.Width())
    modifies sh
    ensures sh.Valid() && sh.header == old(sh.header)
    ensures sh.data == old(sh.data)[i := Apply(old(sh.data)[i], ws)]
  {
    assert Within(ws[0].col, sh.Width()) && Within(ws[1].col, sh.Width());
    ghost var row := sh.data[i];
    if ws[0].col.Some? {
      PutCellInRow(sh.data, i, ws[0].col.value, ws[0].v, sh.Width());
      sh.SetCell(i + 2, ws[0].col.value, ws[0].v);
    }
    ghost var r1 := SetOpt(row, ws[0].col, ws[0].v);
    assert sh.data == old(sh.data)[i := r1];
    if ws[1].col.Some? {
      PutCellInRow(sh.data, i, ws[1].col.value, ws[1].v, sh.Width());
      sh.SetCell(i + 2, ws[1].col.value, ws[1].v);
    }
    ApplyTwo(row, ws);
  }

  // ------------------------------------------------------- start lemmas

  /** What a new session's row holds in each column: the id, title, type
      name and day as given, ... */
  lemma NewRowReads(c: SessionCols, title: string, date: string, t: SessionType, uuid: string, now: Instant, w: nat)
    requires SessionDistinct(c) && SessionComplete(c) && SessionFits(c, w)
    ensures Get(NewSessionRow(w, c, title, date, t, uuid, now), c.id) == Text(uuid)
    ensures Get(NewSessionRow(w, c, title, date, t, uuid, now), c.title) == Text(title)
    ensures Get(NewSessionRow(w, c, title, date, t, uuid, now), c.kind) == Text(TypeName(t))
    ensures Get(NewSessionRow(w, c, title, date, t, uuid, now), c.date) == Text(date)
  {
    var ws := NewSessionWrites(c, title, date, t, uuid, now);
    NewSessionPicked(c, title, date, t, uuid, now);
    TargetsAmong(ws, SessionColumns(c), NewSessionPick);
    ApplyReads(Blanks(w), ws, 0);
    ApplyReads(Blanks(w), ws, 1);
    ApplyReads(Blanks(w), ws, 2);
    ApplyReads(Blanks(w), ws, 3);
  }

  /** ... true in IsActive, the creation time, a count of 0, and blank
      ClosedAt and LastSignInAt cells. */
  lemma NewRowState(c: SessionCols, title: string, date: string, t: SessionType, uuid: string, now: Instant, w: nat)
    requires SessionDistinct(c) && SessionComplete(c) && SessionFits(c, w)
    ensures Get(NewSessionRow(w, c, title, date, t, uuid, now), c.isActive) == Flag(true)
    ensures Get(NewSessionRow(w, c, title, date, t, uuid, now), c.createdAt) == now
    ensures Get(NewSessionRow(w, c, title, date, t, uuid, now), c.signInCount) == Num(0)
    ensures Get(NewSessionRow(w, c, title, date, t, uuid, now), c.closedAt) == Empty
    ensures Get(NewSessionRow(w, c, title, date, t, uuid, now), c.lastSignInAt) == Empty
  {
    var ws := NewSessionWrites(c, title, date, t, uuid, now);
    NewSessionPicked(c, title, date, t, uuid, now);
    TargetsAmong(ws, SessionColumns(c), NewSessionPick);
    ApplyReads(Blanks(w), ws, 4);
    ApplyReads(Blanks(w), ws, 5);
    ApplyReads(Blanks(w), ws, 6);
    NewRowBlank(Blanks(w), ws, SessionColumns(c), 6);
    NewRowBlank(Blanks(w), ws, SessionColumns(c), 7);
  }

  lemma NewRowBlank(row: Row, ws: seq<Write>, cols: seq<Option<nat>>, m: nat)
    requires m < |cols| && m !in NewSessionPick
    requires forall m, k :: 0 <= m < |cols| && m !in NewSessionPick && 0 <= k < |ws| ==> Apart(ws[k].col, cols[m])
    ensures Get(Apply(row, ws), cols[m]) == Get(row, cols[m])
  {
    ApplyUntouched(row, ws, cols[m]);
  }

  /** The columns of SessionColumns a new row writes, in order. */
  const NewSessionPick: seq<nat> := [0, 1, 2, 3, 4, 5, 8]

  lemma NewSessionPicked(c: SessionCols, title: string, date: string, t: SessionType, uuid: string, now: Instant)
    requires SessionDistinct(c)
    ensures |NewSessionWrites(c, title, date, t, uuid, now)| == |NewSessionPick| && ColumnsApart(SessionColumns(c))
    ensures forall k :: 0 <= k < |NewSessionPick| ==> NewSessionPick[k] < 9
    ensures forall i, j :: 0 <= i < j < |NewSessionPick| ==> NewSessionPick[i] < NewSessionPick[j]
    ensures forall k :: 0 <= k < |NewSessionPick| ==>
              NewSessionWrites(c, title, date, t, uuid, now)[k].col == SessionColumns(c)[NewSessionPick[k]]
  {
  }

  /** A new session's row reads back as the session returned for it. */
  lemma NewSessionHydrates(data: seq<Row>, c: SessionCols, title: string, date: string, t: SessionType,
                           uuid: string, now: Instant, w: nat)
    requires SessionDistinct(c) && SessionComplete(c) && SessionFits(c, w)
    requires NoEdgeSpace(title) && NoEdgeSpace(uuid) && |date| <= 10 && NoEdgeSpace(date)
    ensures Hydrate(c, NewSessionRow(w, c, title, date, t, uuid, now), |data| + 2)
            == SessionInfo(|data| + 2, uuid, title, date, t, true, 0, "")
  {
    NewRowReads(c, title, date, t, uuid, now, w);
    NewRowState(c, title, date, t, uuid, now, w);
    TrimOfTrimmed(uuid);
    TrimOfTrimmed(title);
    YmdOfKey(date);
    ReadTypeOfName(t);
    ActiveFlags();
    TrimOfTrimmed("");
  }

  /** The new row matches its own start request, and it is active. */
  lemma NewSessionMatches(c: SessionCols, title: string, date: string, t: SessionType, uuid: string, now: Instant, w: nat)
    requires SessionDistinct(c) && SessionComplete(c) && SessionFits(c, w)
    requires NoEdgeSpace(title) && |date| <= 10 && NoEdgeSpace(date)
    ensures SameSession(c, date, Norm(title), t)(NewSessionRow(w, c, title, date, t, uuid, now))
    ensures IsActiveCell(Get(NewSessionRow(w, c, title, date, t, uuid, now), c.isActive))
  {
    NewRowReads(c, title, date, t, uuid, now, w);
    NewRowState(c, title, date, t, uuid, now, w);
    TrimOfTrimmed(title);
    YmdOfKey(date);
    ReadTypeOfName(t);
    ActiveFlags();
  }

  /** Reopening touches only IsActive and ClosedAt: it sets IsActive to
      true, clears ClosedAt, and keeps the title, type and day cells. */
  lemma ReopenKeeps(row: Row, c: SessionCols)
    requires SessionDistinct(c) && SessionFits(c, |row|) && c.isActive.Some?
    ensures Get(Apply(row, ReopenWrites(c)), c.title) == Get(row, c.title)
    ensures Get(Apply(row, ReopenWrites(c)), c.kind) == Get(row, c.kind)
    ensures Get(Apply(row, ReopenWrites(c)), c.date) == Get(row, c.date)
    ensures Get(Apply(row, ReopenWrites(c)), c.isActive) == Flag(true)
    ensures Get(Apply(row, ReopenWrites(c)), c.closedAt) == if c.closedAt.Some? then Empty else Get(row, c.closedAt)
  {
    var ws := ReopenWrites(c);
    var cols := SessionColumns(c);
    TargetsAmong(ws, cols, [4, 6]);
    assert 1 !in [4, 6] && 2 !in [4, 6] && 3 !in [4, 6];
    assert cols[1] == c.title && cols[2] == c.kind && cols[3] == c.date;
    ApplyUntouched(row, ws, c.title);
    ApplyUntouched(row, ws, c.kind);
    ApplyUntouched(row, ws, c.date);
    ApplyReads(row, ws, 0);
    if c.closedAt.Some? {
      ApplyReads(row, ws, 1);
    } else {
      ApplyUntouched(row, ws, c.closedAt);
    }
  }

  /** A reopened row still matches its start request, and it is active. */
  lemma ReopenedMatches(row: Row, c: SessionCols, date: string, labelNorm: string, t: SessionType)
    requires SessionDistinct(c) && SessionFits(c, |row|) && c.isActive.Some?
    requires SameSession(c, date, labelNorm, t)(row)
    ensures SameSession(c, date, labelNorm, t)(Apply(row, ReopenWrites(c)))
    ensures IsActiveCell(Get(Apply(row, ReopenWrites(c)), c.isActive))
  {
    ReopenKeeps(row, c);
    ActiveFlags();
  }

  /** Starting the same session twice leaves the sheet as one start does,
      whatever id and time the second call would have used. */
  lemma {:induction false} StartIdempotent(data: seq<Row>, c: SessionCols, title: string, date: string, t: SessionType,
                                           uuid: string, now: Instant, uuid2: string, now2: Instant, w: nat)
    requires forall i :: 0 <= i < |data| ==> |data[i]| == w
    requires SessionDistinct(c) && SessionComplete(c) && SessionFits(c, w)
    requires NoEdgeSpace(title) && |date| <= 10 && NoEdgeSpace(date)
    ensures Started(Started(data, c, title, date, t, uuid, now, w), c, title, date, t, uuid2, now2, w)
            == Started(data, c, title, date, t, uuid, now, w)
  {
    var keep := SameSession(c, date, Norm(title), t);
    match StartMatch(data, c, title, date, t) {
      case Some(i) =>
        if !IsActiveCell(Get(data[i], c.isActive)) {
          ReopenedMatches(data[i], c, date, Norm(title), t);
          FirstAfterUpdate(data, keep, i, Apply(data[i], ReopenWrites(c)));
        }
      case None =>
        NewSessionMatches(c, title, date, t, uuid, now, w);
        FirstAfterAppend(data, keep, NewSessionRow(w, c, title, date, t, uuid, now));
    }
  }

  // --------------------------------------------------------------- end

  /** Closing: IsActive set to false and ClosedAt stamped. */
  function CloseWrites(c: SessionCols, now: Instant): seq<Write> {
    [Write(c.isActive, Flag(false)), Write(c.closedAt, now)]
  }

  /** The data rows after endSignInSession for the trimmed id: only an
      active session found by its id is closed. */
  function Ended(data: seq<Row>, c: SessionCols, id: string, now: Instant): (r: seq<Row>)
    ensures |r| == |data|
  {
    match SessionRowOf(data, c, id)
    case None => data
    case Some(i) =>
      if !IsActiveCell(Get(data[i], c.isActive)) then data
      else data[i := Apply(data[i], CloseWrites(c, now))]
  }

  /** The session returned, with the ClosedAt stamp when it was closed now. */
  datatype Closing = Closing(session: SessionInfo, closedAt: Option<string>)

  function EndOutcome(data: seq<Row>, c: SessionCols, sessionId: Cell, now: Instant): Result<Closing> {
    match FindSession(data, c, sessionId)
    case None => Err("Session not found.")
    case Some(s) =>
      if !s.isActive then Ok(Closing(s, None))
      else Ok(Closing(s.(isActive := false), Some(IsoStamp(now.date, now.secs))))
  }

  /** endSignInSession(sessionId), with the current time as a parameter. */
  method EndSignInSession(sh: Sheet, c: SessionCols, sessionId: Cell, now: Instant) returns (r: Result<Closing>)
    requires sh.Valid() && SessionFits(c, sh.Width())
    modifies sh
    ensures sh.Valid() && sh.header == old(sh.header)
    ensures r == EndOutcome(old(sh.data), c, sessionId, now)
    ensures sh.data == Ended(old(sh.data), c, CellText(sessionId), now)
  {
    ghost var k := SessionRowOf(sh.data, c, CellText(sessionId));
    var info := FindSessionIn(sh, c, sessionId);
    match info {
      case None => r := Err("Session not found.");
      case Some(s) =>
        assert k.Some? && s == Hydrate(c, sh.data[k.value], k.value + 2);
        if !s.isActive {
          r := Ok(Closing(s, None));
        } else {
          CloseRow(sh, c, s.rowIndex - 2, now);
          r := Ok(Closing(s.(isActive := false), Some(IsoStamp(now.date, now.secs))));
        }
    }
  }

  method CloseRow(sh: Sheet, c: SessionCols, i: nat, now: Instant)
    requires sh.Valid() && SessionFits(c, sh.Width()) && i < |sh.data|
    modifies sh
    ensures sh.Valid() && sh.header == old(sh.header)
    ensures sh.data == old(sh.data)[i := Apply(old(sh.data)[i], CloseWrites(c, now))]
  {
    WriteCells(sh, i, CloseWrites(c, now));
  }

  /** Closing touches only IsActive and ClosedAt: the id is kept and the
      row is inactive afterwards. */
  lemma ClosedRow(row: Row, c: SessionCols, now: Instant)
    requires SessionDistinct(c) && SessionFits(c, |row|) && c.isActive.Some?
    ensures Str(Apply(row, CloseWrites(c, now)), c.id) == Str(row, c.id)
    ensures !IsActiveCell(Get(Apply(row, CloseWrites(c, now)), c.isActive))
  {
    var ws := CloseWrites(c, now);
    var cols := SessionColumns(c);
    TargetsAmong(ws, cols, [4, 6]);
    assert 0 !in [4, 6] && cols[0] == c.id;
    ApplyUntouched(row, ws, c.id);
    ApplyReads(row, ws, 0);
    ActiveFlags();
  }

  /** After an end, the same row is found for the id and it is closed. */
  lemma {:induction false} EndCloses(data: seq<Row>, c: SessionCols, id: string, now: Instant, w: nat)
    requires forall i :: 0 <= i < |data| ==> |data[i]| == w
    requires SessionDistinct(c) && SessionFits(c, w) && c.isActive.Some?
    requires SessionRowOf(data, c, id).Some?
    ensures SessionRowOf(Ended(data, c, id, now), c, id) == SessionRowOf(data, c, id)
    ensures !IsActiveCell(Get(Ended(data, c, id, now)[SessionRowOf(data, c, id).value], c.isActive))
  {
    var i := SessionRowOf(data, c, id).value;
    var d1 := Ended(data, c, id, now);
    if IsActiveCell(Get(data[i], c.isActive)) {
      ClosedRow(data[i], c, now);
      assert SessionIdIs(c, id)(d1[i]);
      assert forall k :: 0 <= k < i ==> d1[k] == data[k];
      FirstAt(d1, SessionIdIs(c, id), i);
    }
  }

  /** Ending a session twice leaves the sheet as ending it once. */
  lemma {:induction false} EndIdempotent(data: seq<Row>, c: SessionCols, id: string, now: Instant, now2: Instant, w: nat)
    requires forall i :: 0 <= i < |data| ==> |data[i]| == w
    requires SessionDistinct(c) && SessionFits(c, w) && c.isActive.Some?
    ensures Ended(Ended(data, c, id, now), c, id, now2) == Ended(data, c, id, now)
  {
    if SessionRowOf(data, c, id).Some? {
      EndCloses(data, c, id, now, w);
    }
  }
}
