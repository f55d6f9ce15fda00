// One-to-one mentor contacts (IndividualContacts.js): a contact is one row
// of individual_contact_sessions plus one row per student in
// individual_contact_participants, sharing a fresh ContactID; recent
// contacts are listed per student id, and student names come from the
// roster tabs.
module IndividualContacts {
  import opened Wrappers
  import opened Strings
  import opened Cells
  import opened Utils
  import opened Columns
  import opened Sorting
  import Queue
  import QueueWrites
  import Mentors

  // ------------------------------------------------------------ columns

  /** The column map S of the sessions tab, as ensureContactSessionsSheet_
      resolves it. */
  datatype SessCols = SessCols(contactId: Option<nat>, date: Option<nat>, duration: Option<nat>,
                               contactWith: Option<nat>, typeOfContact: Option<nat>, topic: Option<nat>,
                               success: Option<nat>, notes: Option<nat>, referrals: Option<nat>,
                               location: Option<nat>, mentorId: Option<nat>, createdAt: Option<nat>,
                               editedAt: Option<nat>)

  /** The column map L of the participants tab. */
  datatype LinkCols = LinkCols(contactId: Option<nat>, studentId: Option<nat>, notesStudent: Option<nat>,
                               createdAt: Option<nat>)

  predicate Inside(col: Option<nat>, w: nat) {
    col.Some? ==> col.value < w
  }

  /** Every resolved session column lies inside a row w cells wide. */
  predicate SessFits(S: SessCols, w: nat) {
    Inside(S.contactId, w) && Inside(S.date, w) && Inside(S.duration, w) && Inside(S.contactWith, w)
    && Inside(S.typeOfContact, w) && Inside(S.topic, w) && Inside(S.success, w) && Inside(S.notes, w)
    && Inside(S.referrals, w) && Inside(S.location, w) && Inside(S.mentorId, w) && Inside(S.createdAt, w)
    && Inside(S.editedAt, w)
  }

  predicate LinkFits(L: LinkCols, w: nat) {
    Inside(L.contactId, w) && Inside(L.studentId, w) && Inside(L.notesStudent, w) && Inside(L.createdAt, w)
  }

  function SessColumns(S: SessCols): (cs: seq<Option<nat>>)
    ensures |cs| == 13
    ensures cs[0] == S.contactId && cs[1] == S.date && cs[2] == S.duration && cs[3] == S.contactWith
    ensures cs[4] == S.typeOfContact && cs[5] == S.topic && cs[6] == S.success && cs[7] == S.notes
    ensures cs[8] == S.referrals && cs[9] == S.location && cs[10] == S.mentorId && cs[11] == S.createdAt
    ensures cs[12] == S.editedAt
  {
    [S.contactId, S.date, S.duration, S.contactWith, S.typeOfContact, S.topic, S.success, S.notes,
     S.referrals, S.location, S.mentorId, S.createdAt, S.editedAt]
  }

  function LinkColumns(L: LinkCols): seq<Option<nat>> {
    [L.contactId, L.studentId, L.notesStudent, L.createdAt]
  }

  /** Math.max(1, sh.getLastColumn()). */
  function Max1(n: nat): (w: nat)
    ensures w >= 1 && w >= n && (n >= 1 ==> w == n)
  {
    if n < 1 then 1 else n
  }

  // ------------------------------------------------------------- people

  /** One entry of `people`: its id and, for a student picked from the
      sign-in queue, its sign_in_log row number. A missing field reads as
      Empty. */
  datatype Person = Person(id: Cell, rowIndex: Cell)

  /** String(p && p.id || '').trim() of each person. */
  function PersonIds(people: seq<Person>): (r: seq<string>)
    ensures |r| == |people|
    ensures forall k :: 0 <= k < |people| ==> r[k] == CellText(people[k].id)
  {
    seq(|people|, k requires 0 <= k < |people| => CellText(people[k].id))
  }

  /** The keys of the `uniq` Map: each non-blank id once, at its first
      occurrence. */
  function StudentIds(people: seq<Person>): seq<string> {
    Uniq(PersonIds(people))
  }

  /** The kept ids are distinct, never blank, and exactly the non-blank
      ids of the people. */
  lemma StudentIdsMeaning(people: seq<Person>)
    ensures Distinct(StudentIds(people)) && "" !in StudentIds(people)
    ensures forall x :: x in StudentIds(people) <==> x != "" && exists k :: 0 <= k < |people| && CellText(people[k].id) == x
    ensures |StudentIds(people)| <= |people|
  {
    var ps := PersonIds(people);
    UniqDistinct(ps);
    forall x ensures x in StudentIds(people) <==> x != "" && exists k :: 0 <= k < |people| && CellText(people[k].id) == x {
      UniqHas(ps, x);
      if x in ps {
        var k :| 0 <= k < |ps| && ps[k] == x;
        assert CellText(people[k].id) == x;
      }
    }
  }

  /** The ids are kept in order of first occurrence: the ids of a prefix
      of the people come first, in the same order. */
  lemma StudentIdsFirstOrder(people: seq<Person>, m: nat)
    requires m <= |people|
    ensures |StudentIds(people[..m])| <= |StudentIds(people)|
            && StudentIds(people)[..|StudentIds(people[..m])|] == StudentIds(people[..m])
  {
    var ps := PersonIds(people);
    PersonIdsPrefix(people, m);
    assert ps == ps[..m] + ps[m..];
    UniqAppend(ps[..m], ps[m..]);
  }

  lemma PersonIdsPrefix(people: seq<Person>, m: nat)
    requires m <= |people|
    ensures PersonIds(people[..m]) == PersonIds(people)[..m]
  {
  }

  // ------------------------------------------------------ queue row numbers

  /** Array.from(new Set(xs)): each value once, at its first occurrence. */
  function Firsts(xs: seq<nat>): (r: seq<nat>)
    ensures |r| <= |xs|
    decreases |xs|
  {
    if xs == [] then []
    else
      var p := Firsts(xs[..|xs| - 1]);
      var x := xs[|xs| - 1];
      if x in p then p else p + [x]
  }

  lemma {:induction false} FirstsMeaning(xs: seq<nat>)
    ensures forall x :: x in Firsts(xs) <==> x in xs
    ensures forall i, j :: 0 <= i < j < |Firsts(xs)| ==> Firsts(xs)[i] != Firsts(xs)[j]
    decreases |xs|
  {
    if xs != [] {
      var n := |xs| - 1;
      FirstsMeaning(xs[..n]);
      assert xs == xs[..n] + [xs[n]];
    }
  }

  /** people.map(p => Number(p && p.rowIndex)), as cells. */
  function RowIndexes(people: seq<Person>): (r: seq<Cell>)
    ensures |r| == |people| && forall k :: 0 <= k < |people| ==> r[k] == people[k].rowIndex
  {
    seq(|people|, k requires 0 <= k < |people| => people[k].rowIndex)
  }

  /** The sign_in_log rows named by the arguments: queueRowIndices when it
      is a non-empty array, otherwise the people's rowIndex values. Only
      whole numbers of at least 2 are kept, each once. An absent or
      non-array queueRowIndices is passed as []. */
  function QueueRows(queueRowIndices: seq<Cell>, people: seq<Person>): seq<nat> {
    Firsts(QueueWrites.RowNumbers(if queueRowIndices != [] then queueRowIndices else RowIndexes(people)))
  }

  /** The people's row numbers are those of at least 2 some person gives. */
  lemma PeopleRows(people: seq<Person>)
    ensures forall n: nat :: n in QueueWrites.RowNumbers(RowIndexes(people)) <==>
              n >= 2 && exists k :: 0 <= k < |people| && NumberOf(people[k].rowIndex) == Some(n)
  {
    var args := RowIndexes(people);
    forall n: nat ensures n in QueueWrites.RowNumbers(args) <==>
                          n >= 2 && exists k :: 0 <= k < |people| && NumberOf(people[k].rowIndex) == Some(n) {
      if n in QueueWrites.RowNumbers(args) {
        var x :| x in args && NumberOf(x) == Some(n);
        var k :| 0 <= k < |args| && args[k] == x;
        assert NumberOf(people[k].rowIndex) == Some(n);
      }
      if n >= 2 && exists k :: 0 <= k < |people| && NumberOf(people[k].rowIndex) == Some(n) {
        var k :| 0 <= k < |people| && NumberOf(people[k].rowIndex) == Some(n);
        assert args[k] in args;
      }
    }
  }

  /** The rows to mark: data rows only, no row twice, and exactly the
      numbers named by the explicit list when there is one, else by the
      people. */
  lemma QueueRowsMeaning(queueRowIndices: seq<Cell>, people: seq<Person>)
    ensures forall k :: 0 <= k < |QueueRows(queueRowIndices, people)| ==> QueueRows(queueRowIndices, people)[k] >= 2
    ensures forall i, j :: 0 <= i < j < |QueueRows(queueRowIndices, people)| ==>
              QueueRows(queueRowIndices, people)[i] != QueueRows(queueRowIndices, people)[j]
    ensures queueRowIndices != [] ==> forall n: nat :: n in QueueRows(queueRowIndices, people) <==>
              n >= 2 && exists x :: x in queueRowIndices && NumberOf(x) == Some(n)
    ensures queueRowIndices == [] ==> forall n: nat :: n in QueueRows(queueRowIndices, people) <==>
              n >= 2 && exists k :: 0 <= k < |people| && NumberOf(people[k].rowIndex) == Some(n)
  {
    var rows := QueueWrites.RowNumbers(if queueRowIndices != [] then queueRowIndices else RowIndexes(people));
    FirstsMeaning(rows);
    assert forall k :: 0 <= k < |Firsts(rows)| ==> Firsts(rows)[k] in rows;
    if queueRowIndices == [] {
      PeopleRows(people);
    }
  }

  /** The row numbers handed to markProcessed, as cells. */
  function NumCells(rows: seq<nat>): (r: seq<Cell>)
    ensures |r| == |rows|
  {
    seq(|rows|, k requires 0 <= k < |rows| => Num(rows[k]))
  }

  /** markProcessed reads back exactly the rows it was handed. */
  lemma NumCellsTail(rows: seq<nat>)
    requires rows != []
    ensures NumCells(rows)[0] == Num(rows[0]) && NumCells(rows)[1..] == NumCells(rows[1..])
  {
    assert forall k :: 0 <= k < |rows| - 1 ==> NumCells(rows)[1..][k] == NumCells(rows[1..])[k];
  }

  lemma {:induction false} RowNumbersOfNums(rows: seq<nat>)
    requires forall k :: 0 <= k < |rows| ==> rows[k] >= 2
    ensures QueueWrites.RowNumbers(NumCells(rows)) == rows
    decreases |rows|
  {
    if rows != [] {
      NumCellsTail(rows);
      RowNumbersOfNums(rows[1..]);
      assert rows == [rows[0]] + rows[1..];
    }
  }

  // ---------------------------------------------------------- the rows

  /** The fields of the payload the session row takes; a missing field
      reads as Empty. */
  datatype Payload = Payload(contactWith: Cell, typeOfContact: Cell, topic: Cell, success: Cell,
                             notes: Cell, referrals: Cell, location: Cell, durationMinutes: Cell,
                             mentorId: Cell)

  /** The writes that put vals[k] into cols[k], in order. */
  function Zip(cols: seq<Option<nat>>, vals: seq<Cell>): (ws: seq<Write>)
    requires |cols| == |vals|
    ensures |ws| == |cols| && forall k :: 0 <= k < |ws| ==> ws[k] == Write(cols[k], vals[k])
  {
    seq(|cols|, k requires 0 <= k < |cols| => Write(cols[k], vals[k]))
  }

  /** Writes to distinct columns have distinct targets. */
  lemma ZipApart(cols: seq<Option<nat>>, vals: seq<Cell>)
    requires |cols| == |vals| && ColumnsApart(cols)
    ensures DistinctTargets(Zip(cols, vals))
  {
  }

  /** What the payload contributes to the session row: Duration is
      Number(v) || 0, the text fields are trimmed, and MentorID is also
      upper-cased. */
  datatype Entered = Entered(duration: int, contactWith: string, typeOfContact: string, topic: string,
                             success: string, notes: string, referrals: string, location: string,
                             mentorId: string)

  function EnteredOf(p: Payload): Entered {
    Entered(NumberOr0(p.durationMinutes), CellText(p.contactWith), CellText(p.typeOfContact), CellText(p.topic),
            CellText(p.success), CellText(p.notes), CellText(p.referrals), CellText(p.location),
            ToUpper(CellText(p.mentorId)))
  }

  /** The values assigned into the session row, in the order of
      SessColumns; both stamps are the save time. */
  function SessionValues(contactId: string, dateYMD: string, e: Entered, now: Instant): (vs: seq<Cell>)
    ensures |vs| == 13
    ensures vs[0] == Text(contactId) && vs[1] == Text(dateYMD) && vs[2] == Num(e.duration)
    ensures vs[7] == Text(e.notes) && vs[10] == Text(e.mentorId) && vs[11] == now && vs[12] == now
  {
    [Text(contactId), Text(dateYMD), Num(e.duration), Text(e.contactWith), Text(e.typeOfContact), Text(e.topic),
     Text(e.success), Text(e.notes), Text(e.referrals), Text(e.location), Text(e.mentorId), now, now]
  }

  /** new Array(width).fill('') followed by the assignments. */
  function SessionRow(S: SessCols, w: nat, contactId: string, dateYMD: string, p: Payload, now: Instant): (r: Row)
    ensures |r| == w
  {
    Apply(Blanks(w), Zip(SessColumns(S), SessionValues(contactId, dateYMD, EnteredOf(p), now)))
  }

  /** The participant row of one student. */
  function LinkValues(contactId: string, id: string, now: Instant): (vs: seq<Cell>)
    ensures |vs| == 4
  {
    [Text(contactId), Text(id), Empty, now]
  }

  function LinkRow(L: LinkCols, w: nat, contactId: string, id: string, now: Instant): (r: Row)
    ensures |r| == w
  {
    Apply(Blanks(w), Zip(LinkColumns(L), LinkValues(contactId, id, now)))
  }

  /** One participant row per kept id, in order. */
  function LinkRows(L: LinkCols, w: nat, contactId: string, ids: seq<string>, now: Instant): (rs: seq<Row>)
    ensures |rs| == |ids|
    ensures forall k :: 0 <= k < |ids| ==> rs[k] == LinkRow(L, w, contactId, ids[k], now)
  {
    seq(|ids|, k requires 0 <= k < |ids| => LinkRow(L, w, contactId, ids[k], now))
  }

  /** A row of blanks after the writes of Zip(cols, vals) to distinct
      columns inside it: each column holds its value. */
  lemma ZipRowHolds(w: nat, cols: seq<Option<nat>>, vals: seq<Cell>)
    requires |cols| == |vals| && ColumnsApart(cols)
    requires forall k :: 0 <= k < |cols| ==> Inside(cols[k], w)
    ensures forall k :: 0 <= k < |cols| && cols[k].Some? ==> Get(Apply(Blanks(w), Zip(cols, vals)), cols[k]) == vals[k]
  {
    var ws := Zip(cols, vals);
    ZipApart(cols, vals);
    forall k | 0 <= k < |cols| && cols[k].Some?
      ensures Get(Apply(Blanks(w), ws), cols[k]) == vals[k]
    {
      ApplyReads(Blanks(w), ws, k);
    }
  }

  /** ... and every cell no column names stays blank. */
  lemma ZipRowBlank(w: nat, cols: seq<Option<nat>>, vals: seq<Cell>)
    requires |cols| == |vals|
    ensures forall j :: 0 <= j < w && Some(j) !in cols ==> Apply(Blanks(w), Zip(cols, vals))[j] == Empty
  {
    var ws := Zip(cols, vals);
    forall j | 0 <= j < w && Some(j) !in cols
      ensures Apply(Blanks(w), ws)[j] == Empty
    {
      forall k | 0 <= k < |ws| ensures Apart(ws[k].col, Some(j)) {
        assert ws[k].col == cols[k];
      }
      ApplyUntouched(Blanks(w), ws, Some(j));
    }
  }

  /** Every session field inside the row. */
  lemma SessInside(S: SessCols, w: nat)
    requires SessFits(S, w)
    ensures forall k :: 0 <= k < |SessColumns(S)| ==> Inside(SessColumns(S)[k], w)
  {
    var cs := SessColumns(S);
    forall k | 0 <= k < 13 ensures Inside(cs[k], w) {
      if k < 4 { assert k == 0 || k == 1 || k == 2 || k == 3; }
      else if k < 8 { assert k == 4 || k == 5 || k == 6 || k == 7; }
      else { assert k == 8 || k == 9 || k == 10 || k == 11 || k == 12; }
    }
  }

  /** The session row holds each field at its column (the columns being
      distinct and inside the row), and is blank everywhere else. */
  lemma SessionRowReads(S: SessCols, w: nat, contactId: string, dateYMD: string, p: Payload, now: Instant)
    requires ColumnsApart(SessColumns(S)) && SessFits(S, w)
    ensures forall k :: 0 <= k < 13 && SessColumns(S)[k].Some? ==>
              Get(SessionRow(S, w, contactId, dateYMD, p, now), SessColumns(S)[k]) == SessionValues(contactId, dateYMD, EnteredOf(p), now)[k]
    ensures forall j :: 0 <= j < w && Some(j) !in SessColumns(S) ==> SessionRow(S, w, contactId, dateYMD, p, now)[j] == Empty
  {
    SessInside(S, w);
    ZipRowHolds(w, SessColumns(S), SessionValues(contactId, dateYMD, EnteredOf(p), now));
    ZipRowBlank(w, SessColumns(S), SessionValues(contactId, dateYMD, EnteredOf(p), now));
  }

  /** In particular the stored ContactID is the new id, the MentorID is
      the trimmed, upper-cased mentor id, the duration is a number (0 for a
      blank or non-numeric one) and the notes are trimmed. */
  lemma SessionRowFields(S: SessCols, w: nat, contactId: string, dateYMD: string, p: Payload, now: Instant)
    requires ColumnsApart(SessColumns(S)) && SessFits(S, w)
    requires S.contactId.Some? && S.mentorId.Some? && S.duration.Some? && S.notes.Some?
    ensures Get(SessionRow(S, w, contactId, dateYMD, p, now), S.contactId) == Text(contactId)
    ensures Get(SessionRow(S, w, contactId, dateYMD, p, now), S.mentorId) == Text(ToUpper(Trim(StrOr(p.mentorId))))
    ensures Get(SessionRow(S, w, contactId, dateYMD, p, now), S.duration) == Num(NumberOr0(p.durationMinutes))
    ensures Get(SessionRow(S, w, contactId, dateYMD, p, now), S.notes) == Text(Trim(StrOr(p.notes)))
  {
    var row := SessionRow(S, w, contactId, dateYMD, p, now);
    var cs := SessColumns(S);
    var vs := SessionValues(contactId, dateYMD, EnteredOf(p), now);
    SessInside(S, w);
    ZipRowHolds(w, cs, vs);
    assert Get(row, cs[0]) == vs[0] && Get(row, cs[2]) == vs[2];
    assert Get(row, cs[7]) == vs[7] && Get(row, cs[10]) == vs[10];
  }

  /** Each participant row carries the contact id and its student id, a
      blank NotesStudent and the save time. */
  lemma LinkRowsRead(L: LinkCols, w: nat, contactId: string, ids: seq<string>, now: Instant, k: nat)
    requires ColumnsApart(LinkColumns(L)) && LinkFits(L, w) && k < |ids|
    requires L.contactId.Some? && L.studentId.Some?
    ensures Get(LinkRows(L, w, contactId, ids, now)[k], L.contactId) == Text(contactId)
    ensures Get(LinkRows(L, w, contactId, ids, now)[k], L.studentId) == Text(ids[k])
    ensures L.notesStudent.Some? ==> Get(LinkRows(L, w, contactId, ids, now)[k], L.notesStudent) == Empty
    ensures L.createdAt.Some? ==> Get(LinkRows(L, w, contactId, ids, now)[k], L.createdAt) == now
  {
    var cs := LinkColumns(L);
    var vs := LinkValues(contactId, ids[k], now);
    assert forall m :: 0 <= m < 4 ==> Inside(cs[m], w);
    ZipRowHolds(w, cs, vs);
    assert cs[0] == L.contactId && cs[1] == L.studentId && cs[2] == L.notesStudent && cs[3] == L.createdAt;
  }

  // ------------------------------------------------------------- saving

  const NoStudents := "Select at least one student."

  /** The success object: the contact id, the number of participant rows
      and markProcessed's answer, null (None) when no queue row was
      named. */
  datatype IndividualSaved = IndividualSaved(contactId: string, participantsSaved: nat,
                                             processed: Option<Result<QueueWrites.Marked>>)

  /** A sheet after getRange(lastRow + 1, 1, n, w).setValues(rows). */
  predicate AppendedTo(h0: Row, d0: seq<Row>, h: Row, d: seq<Row>, w: nat, rows: seq<Row>) {
    h == Pad(h0, w) && d == PadAll(d0, w) + rows
  }

  /** The sessions tab after the save: the one session row below the
      others. */
  predicate SessionSaved(h0: Row, d0: seq<Row>, h: Row, d: seq<Row>, S: SessCols, dateYMD: string,
                         p: Payload, uuid: string, now: Instant) {
    AppendedTo(h0, d0, h, d, Max1(|h0|), [SessionRow(S, Max1(|h0|), uuid, dateYMD, p, now)])
  }

  /** The participants tab after the save: one row per kept id. */
  predicate LinksSaved(h0: Row, d0: seq<Row>, h: Row, d: seq<Row>, L: LinkCols, ids: seq<string>,
                       uuid: string, now: Instant) {
    AppendedTo(h0, d0, h, d, Max1(|h0|), LinkRows(L, Max1(|h0|), uuid, ids, now))
  }

  /** sign_in_log after markProcessed(rows, uuid). */
  predicate QueueMarked(h0: Row, d0: seq<Row>, h: Row, d: seq<Row>, rows: seq<nat>, uuid: string, now: Instant) {
    h == Queue.EnsuredHeader(h0) && QueueWrites.Fits(Queue.EnsuredCols(h0), |h|)
    && (forall k :: 0 <= k < |rows| ==> rows[k] >= 2)
    && d == QueueWrites.MarkFold(PadAll(d0, |h|), rows, Queue.EnsuredCols(h0), Trim(uuid), now, |h|)
  }

  /** The answer of a save that kept ids. */
  predicate Answer(r: Result<IndividualSaved>, uuid: string, ids: seq<string>, rows: seq<nat>) {
    r.Ok? && r.value.contactId == uuid && r.value.participantsSaved == |ids|
    && r.value.processed == (if rows == [] then None
                             else Some(Ok(QueueWrites.Marked(|rows|, if uuid != "" then Text(uuid) else Empty))))
  }

  /** The ids of all people are collected with the `uniq` Map. */
  method CollectIds(people: seq<Person>) returns (ids: seq<string>)
    ensures ids == StudentIds(people)
  {
    ids := UniqueValues(PersonIds(people));
  }

  /** markProcessed(rowsToMark, contactId) on sign_in_log, for rows that
      are not blank. */
  method MarkQueue(queue: Sheet, rows: seq<nat>, uuid: string, now: Instant) returns (m: Result<QueueWrites.Marked>)
    requires queue.Valid() && rows != [] && forall k :: 0 <= k < |rows| ==> rows[k] >= 2
    modifies queue
    ensures queue.Valid()
    ensures m == Ok(QueueWrites.Marked(|rows|, if uuid != "" then Text(uuid) else Empty))
    ensures QueueMarked(old(queue.header), old(queue.data), queue.header, queue.data, rows, uuid, now)
  {
    RowNumbersOfNums(rows);
    CellTextOfText(uuid);
    m := QueueWrites.MarkProcessed(queue, NumCells(rows), Text(uuid), now);
  }

  /** The two block writes of a save: the session row, then the
      participant rows. */
  method WriteContact(sess: Sheet, links: Sheet, sessionRow: Row, linkRows: seq<Row>, widthSess: nat, widthLink: nat)
    requires sess.Valid() && links.Valid() && sess != links
    requires sess.Width() <= widthSess && |sessionRow| == widthSess
    requires links.Width() <= widthLink && forall k :: 0 <= k < |linkRows| ==> |linkRows[k]| == widthLink
    modifies sess, links
    ensures sess.Valid() && links.Valid()
    ensures AppendedTo(old(sess.header), old(sess.data), sess.header, sess.data, widthSess, [sessionRow])
    ensures AppendedTo(old(links.header), old(links.data), links.header, links.data, widthLink, linkRows)
  {
    sess.AppendRows([sessionRow], widthSess);
    links.AppendRows(linkRows, widthLink);
  }

  /** saveIndividualContactSession(dateStr, people, payload,
      queueRowIndices) on the sessions, participants and sign_in_log tabs,
      with the resolved column maps, the fresh uuid, the time of the call
      and today's date. */
  method SaveIndividualContactSession(sess: Sheet, links: Sheet, queue: Sheet, S: SessCols, L: LinkCols,
                                      dateRaw: Cell, people: seq<Person>, payload: Payload,
                                      queueRowIndices: seq<Cell>, uuid: string, now: Instant, today: Day)
    returns (r: Result<IndividualSaved>)
    requires sess.Valid() && links.Valid() && queue.Valid()
    requires sess != links && sess != queue && links != queue
    requires SessFits(S, Max1(sess.Width())) && LinkFits(L, Max1(links.Width()))
    modifies sess, links, queue
    ensures sess.Valid() && links.Valid() && queue.Valid()
    ensures StudentIds(people) == [] ==>
              r == Err(NoStudents) && unchanged(sess) && unchanged(links) && unchanged(queue)
    ensures StudentIds(people) != [] ==>
              Answer(r, uuid, StudentIds(people), QueueRows(queueRowIndices, people))
              && SessionSaved(old(sess.header), old(sess.data), sess.header, sess.data, S,
                              Mentors.SaveDay(dateRaw, today), payload, uuid, now)
              && LinksSaved(old(links.header), old(links.data), links.header, links.data, L, StudentIds(people), uuid, now)
    ensures StudentIds(people) != [] && QueueRows(queueRowIndices, people) == [] ==> unchanged(queue)
    ensures StudentIds(people) != [] && QueueRows(queueRowIndices, people) != [] ==>
              QueueMarked(old(queue.header), old(queue.data), queue.header, queue.data,
                          QueueRows(queueRowIndices, people), uuid, now)
  {
    var dateYMD := Mentors.SaveDay(dateRaw, today);
    var ids := CollectIds(people);
    if ids == [] {
      return Err(NoStudents);
    }
    var widthSess := Max1(sess.Width());
    var widthLink := Max1(links.Width());
    var sessionRow := SessionRow(S, widthSess, uuid, dateYMD, payload, now);
    var linkRows := LinkRows(L, widthLink, uuid, ids, now);
    var rowsToMark := QueueRows(queueRowIndices, people);

    WriteContact(sess, links, sessionRow, linkRows, widthSess, widthLink);
    var processed: Option<Result<QueueWrites.Marked>> := None;
    if rowsToMark != [] {
      QueueRowsMeaning(queueRowIndices, people);
      var m := MarkQueue(queue, rowsToMark, uuid, now);
      processed := Some(m);
    }
    r := Ok(IndividualSaved(uuid, |linkRows|, processed));
  }

  // ------------------------------------------------------ keyed folds

  /** A Map filled with set(key, value) in order: the last value of each
      key wins. Blank keys are not stored (the scripts skip them or never
      look them up). */
  function LastWins<V>(ps: seq<(string, V)>): map<string, V>
    decreases |ps|
  {
    if ps == [] then map[]
    else
      var m := LastWins(ps[..|ps| - 1]);
      var p := ps[|ps| - 1];
      if p.0 == "" then m else m[p.0 := p.1]
  }

  lemma LastWinsSnoc<V>(ps: seq<(string, V)>, i: nat)
    requires i < |ps|
    ensures LastWins(ps[..i + 1]) == if ps[i].0 == "" then LastWins(ps[..i]) else LastWins(ps[..i])[ps[i].0 := ps[i].1]
  {
    assert ps[..i + 1][..i] == ps[..i];
  }

  /** The keys are the non-blank keys of the pairs. */
  lemma {:induction false} LastWinsKeys<V>(ps: seq<(string, V)>)
    ensures forall k :: k in LastWins(ps) <==> k != "" && exists i :: 0 <= i < |ps| && ps[i].0 == k
    decreases |ps|
  {
    if ps != [] {
      var n := |ps| - 1;
      LastWinsKeys(ps[..n]);
      assert forall i :: 0 <= i < n ==> ps[..n][i] == ps[i];
    }
  }

  /** A key holds the value of its last pair. */
  lemma {:induction false} LastWinsAt<V>(ps: seq<(string, V)>, i: nat)
    requires i < |ps| && ps[i].0 != ""
    requires forall j :: i < j < |ps| ==> ps[j].0 != ps[i].0
    ensures ps[i].0 in LastWins(ps) && LastWins(ps)[ps[i].0] == ps[i].1
    decreases |ps|
  {
    var n := |ps| - 1;
    if i < n {
      assert forall j :: i < j < n ==> ps[..n][j] == ps[j];
      LastWinsAt(ps[..n], i);
    }
  }

  /** `if (!map.has(k)) map.set(k, v)` in order: the first value of each
      key wins. */
  function FirstWins<V>(ps: seq<(string, V)>): map<string, V>
    decreases |ps|
  {
    if ps == [] then map[]
    else
      var m := FirstWins(ps[..|ps| - 1]);
      var p := ps[|ps| - 1];
      if p.0 in m then m else m[p.0 := p.1]
  }

  lemma FirstWinsSnoc<V>(ps: seq<(string, V)>, i: nat)
    requires i < |ps|
    ensures FirstWins(ps[..i + 1]) == if ps[i].0 in FirstWins(ps[..i]) then FirstWins(ps[..i]) else FirstWins(ps[..i])[ps[i].0 := ps[i].1]
  {
    assert ps[..i + 1][..i] == ps[..i];
  }

  lemma {:induction false} FirstWinsKeys<V>(ps: seq<(string, V)>)
    ensures forall k :: k in FirstWins(ps) <==> exists i :: 0 <= i < |ps| && ps[i].0 == k
    decreases |ps|
  {
    if ps != [] {
      var n := |ps| - 1;
      FirstWinsKeys(ps[..n]);
      assert forall i :: 0 <= i < n ==> ps[..n][i] == ps[i];
    }
  }

  /** A key holds the value of its first pair. */
  lemma {:induction false} FirstWinsAt<V>(ps: seq<(string, V)>, i: nat)
    requires i < |ps| && forall j :: 0 <= j < i ==> ps[j].0 != ps[i].0
    ensures ps[i].0 in FirstWins(ps) && FirstWins(ps)[ps[i].0] == ps[i].1
    decreases |ps|
  {
    var n := |ps| - 1;
    if i < n {
      assert forall j :: 0 <= j <= i ==> ps[..n][j] == ps[j];
      FirstWinsAt(ps[..n], i);
      FirstWinsKeys(ps[..n]);
    } else {
      FirstWinsKeys(ps[..n]);
      assert forall j :: 0 <= j < n ==> ps[..n][j] == ps[j];
    }
  }

  /** Pairs added after a key is present do not change its value. */
  lemma {:induction false} FirstWinsAppend<V>(a: seq<(string, V)>, b: seq<(string, V)>, k: string)
    requires k in FirstWins(a)
    ensures k in FirstWins(a + b) && FirstWins(a + b)[k] == FirstWins(a)[k]
    decreases |b|
  {
    if b == [] {
      assert a + b == a;
    } else {
      var n := |b| - 1;
      FirstWinsAppend(a, b[..n], k);
      assert (a + b)[..|a + b| - 1] == a + b[..n];
    }
  }

  // ------------------------------------------------------- the roster

  /** A roster tab ('2026' or '2025'): its header and data rows. */
  datatype Tab = Tab(header: Row, data: seq<Row>)

  /** The roster columns, each the first alias the header names. */
  datatype RosterCols = RosterCols(id: Option<nat>, full: Option<nat>, first: Option<nat>, last: Option<nat>)

  const IdAliases: seq<string> := ["cpsidnumber", "cpsid", "id", "studentid"]
  const FullAliases: seq<string> := ["firstnamelastname", "fullname", "name", "studentname"]
  const FirstAliases: seq<string> := ["firstname", "first", "fname", "givenname"]
  const LastAliases: seq<string> := ["lastname", "last", "lname", "surname", "familyname"]

  function RosterColsOf(header: Row): RosterCols {
    var keys := HeaderKeys(header);
    RosterCols(Resolve(keys, IdAliases), Resolve(keys, FullAliases), Resolve(keys, FirstAliases),
               Resolve(keys, LastAliases))
  }

  /** The display name of a roster row: the full-name column, else first
      and last joined by a space (when either is there), else the id. */
  function RosterName(c: RosterCols, r: Row, id: string): string {
    var full := FieldText(r, c.full);
    var f := FieldText(r, c.first);
    var l := FieldText(r, c.last);
    var nm := if full != "" then full else if f != "" || l != "" then Trim(f + " " + l) else "";
    if nm != "" then nm else id
  }

  /** The [id, name] pair of a roster row, when its id is non-blank. */
  function RowEntry(c: RosterCols, r: Row): (e: Option<(string, string)>)
    ensures e.Some? <==> FieldText(r, c.id) != ""
    ensures e.Some? ==> e.value.0 == FieldText(r, c.id) && e.value.1 != ""
  {
    var id := FieldText(r, c.id);
    if id == "" then None else Some((id, RosterName(c, r, id)))
  }

  function RowEntries(c: RosterCols, rows: seq<Row>): (es: seq<Option<(string, string)>>)
    ensures |es| == |rows| && forall k :: 0 <= k < |rows| ==> es[k] == RowEntry(c, rows[k])
  {
    seq(|rows|, k requires 0 <= k < |rows| => RowEntry(c, rows[k]))
  }

  /** [o] when present, [] when not. */
  function OptList<T>(o: Option<T>): (r: seq<T>)
    ensures o.Some? ==> r == [o.value]
    ensures o.None? ==> r == []
  {
    if o.Some? then [o.value] else []
  }

  /** The present values of a sequence of options, in order. */
  function Somes<T>(xs: seq<Option<T>>): seq<T>
    decreases |xs|
  {
    if xs == [] then []
    else Somes(xs[..|xs| - 1]) + OptList(xs[|xs| - 1])
  }

  lemma SomesSnoc<T>(xs: seq<Option<T>>, k: nat)
    requires k < |xs|
    ensures Somes(xs[..k + 1]) == Somes(xs[..k]) + OptList(xs[k])
  {
    assert xs[..k + 1][..k] == xs[..k];
  }

  /** Every value kept comes from a present option. */
  lemma {:induction false} SomesFrom<T>(xs: seq<Option<T>>, i: nat)
    requires i < |Somes(xs)|
    ensures exists k :: 0 <= k < |xs| && xs[k] == Some(Somes(xs)[i])
    decreases |xs|
  {
    var n := |xs| - 1;
    var p := Somes(xs[..n]);
    if i < |p| {
      SomesFrom(xs[..n], i);
      var k :| 0 <= k < n && xs[..n][k] == Some(p[i]);
      assert xs[k] == Some(Somes(xs)[i]);
    } else {
      assert xs[n] == Some(Somes(xs)[i]);
    }
  }

  /** Every present option is kept. */
  lemma {:induction false} SomesHas<T>(xs: seq<Option<T>>, k: nat)
    requires k < |xs| && xs[k].Some?
    ensures exists i :: 0 <= i < |Somes(xs)| && Somes(xs)[i] == xs[k].value
    decreases |xs|
  {
    var n := |xs| - 1;
    var p := Somes(xs[..n]);
    if k < n {
      assert xs[..n][k] == xs[k];
      SomesHas(xs[..n], k);
      var i :| 0 <= i < |p| && p[i] == xs[k].value;
      assert Somes(xs)[i] == p[i];
    } else {
      assert Somes(xs)[|p|] == xs[k].value;
    }
  }

  /** The concatenation of a sequence of sequences, in order. */
  function Concat<T>(xss: seq<seq<T>>): seq<T>
    decreases |xss|
  {
    if xss == [] then [] else Concat(xss[..|xss| - 1]) + xss[|xss| - 1]
  }

  lemma ConcatSnoc<T>(xss: seq<seq<T>>, t: nat)
    requires t < |xss|
    ensures Concat(xss[..t + 1]) == Concat(xss[..t]) + xss[t]
  {
    assert xss[..t + 1][..t] == xss[..t];
  }

  lemma ConcatPair<T>(a: seq<T>, b: seq<T>)
    ensures Concat([a, b]) == a + b
  {
    assert [a, b][..1] == [a];
    assert [a][..0] == [];
    assert Concat([a]) == a;
  }

  /** Every element of the concatenation is an element of one part. */
  lemma {:induction false} ConcatFrom<T>(xss: seq<seq<T>>, i: nat)
    requires i < |Concat(xss)|
    ensures exists t, j :: 0 <= t < |xss| && 0 <= j < |xss[t]| && xss[t][j] == Concat(xss)[i]
    decreases |xss|
  {
    var n := |xss| - 1;
    var p := Concat(xss[..n]);
    if i < |p| {
      ConcatFrom(xss[..n], i);
      var t, j :| 0 <= t < n && 0 <= j < |xss[..n][t]| && xss[..n][t][j] == p[i];
      assert xss[t] == xss[..n][t];
      assert Concat(xss)[i] == p[i];
    } else {
      assert xss[n][i - |p|] == Concat(xss)[i];
    }
  }

  /** Every element of every part is in the concatenation. */
  lemma {:induction false} ConcatHas<T>(xss: seq<seq<T>>, t: nat, j: nat)
    requires t < |xss| && j < |xss[t]|
    ensures exists i :: 0 <= i < |Concat(xss)| && Concat(xss)[i] == xss[t][j]
    decreases |xss|
  {
    var n := |xss| - 1;
    var p := Concat(xss[..n]);
    if t < n {
      assert xss[..n][t] == xss[t];
      ConcatHas(xss[..n], t, j);
      var i :| 0 <= i < |p| && p[i] == xss[t][j];
      assert Concat(xss)[i] == p[i];
    } else {
      assert Concat(xss)[|p| + j] == xss[t][j];
    }
  }

  /** The [id, name] pairs of the rows with a non-blank id, in order. */
  function RowPairs(c: RosterCols, rows: seq<Row>): seq<(string, string)> {
    Somes(RowEntries(c, rows))
  }

  /** The pairs of one tab: none for a missing tab, one without data rows
      or one without an id column. */
  function TabPairs(t: Option<Tab>): seq<(string, string)> {
    if t.None? || t.value.data == [] then []
    else
      var c := RosterColsOf(t.value.header);
      if c.id.None? then [] else RowPairs(c, t.value.data)
  }

  function EachTabPairs(tabs: seq<Option<Tab>>): (xss: seq<seq<(string, string)>>)
    ensures |xss| == |tabs| && forall t :: 0 <= t < |tabs| ==> xss[t] == TabPairs(tabs[t])
  {
    seq(|tabs|, t requires 0 <= t < |tabs| => TabPairs(tabs[t]))
  }

  /** The pairs of all tabs, in tab order. */
  function RosterPairs(tabs: seq<Option<Tab>>): seq<(string, string)> {
    Concat(EachTabPairs(tabs))
  }

  /** _getRosterIdNameMap_(): id -> name, first occurrence winning. */
  function RosterNames(tabs: seq<Option<Tab>>): map<string, string> {
    FirstWins(RosterPairs(tabs))
  }

  /** Every pair of a tab comes from one of its rows: a non-blank id and
      a non-blank name. */
  lemma TabPairsFrom(t: Option<Tab>, j: nat)
    requires j < |TabPairs(t)|
    ensures t.Some? && RosterColsOf(t.value.header).id.Some?
    ensures exists k :: 0 <= k < |t.value.data| &&
              Some(TabPairs(t)[j]) == RowEntry(RosterColsOf(t.value.header), t.value.data[k])
    ensures TabPairs(t)[j].0 != "" && TabPairs(t)[j].1 != ""
  {
    var c := RosterColsOf(t.value.header);
    var es := RowEntries(c, t.value.data);
    SomesFrom(es, j);
    var k :| 0 <= k < |es| && es[k] == Some(TabPairs(t)[j]);
    assert RowEntry(c, t.value.data[k]) == Some(TabPairs(t)[j]);
  }

  /** Every name in the map is non-blank. */
  lemma RosterPairsNamed(tabs: seq<Option<Tab>>)
    ensures forall i :: 0 <= i < |RosterPairs(tabs)| ==> RosterPairs(tabs)[i].0 != "" && RosterPairs(tabs)[i].1 != ""
  {
    var xss := EachTabPairs(tabs);
    forall i | 0 <= i < |RosterPairs(tabs)|
      ensures RosterPairs(tabs)[i].0 != "" && RosterPairs(tabs)[i].1 != ""
    {
      ConcatFrom(xss, i);
      var t, j :| 0 <= t < |xss| && 0 <= j < |xss[t]| && xss[t][j] == Concat(xss)[i];
      TabPairsFrom(tabs[t], j);
    }
  }

  /** The name of an id is that of its first pair across the tabs; an id
      found in an earlier tab keeps that tab's name whatever later tabs
      say. */
  lemma RosterFirstWins(tabs: seq<Option<Tab>>, i: nat)
    requires i < |RosterPairs(tabs)| && forall j :: 0 <= j < i ==> RosterPairs(tabs)[j].0 != RosterPairs(tabs)[i].0
    ensures RosterPairs(tabs)[i].0 in RosterNames(tabs) && RosterNames(tabs)[RosterPairs(tabs)[i].0] == RosterPairs(tabs)[i].1
  {
    FirstWinsAt(RosterPairs(tabs), i);
  }

  lemma RosterEarlierTab(t1: Option<Tab>, t2: Option<Tab>, id: string)
    requires id in FirstWins(TabPairs(t1))
    ensures id in RosterNames([t1, t2]) && RosterNames([t1, t2])[id] == FirstWins(TabPairs(t1))[id]
  {
    var xss := EachTabPairs([t1, t2]);
    assert xss == [xss[0], xss[1]];
    ConcatPair(xss[0], xss[1]);
    FirstWinsAppend(xss[0], xss[1], id);
  }

  /** Every row of a usable tab with a non-blank id gives a pair. */
  lemma TabPairsHas(t: Option<Tab>, k: nat) returns (j: nat)
    requires t.Some? && k < |t.value.data| && RosterColsOf(t.value.header).id.Some?
    requires FieldText(t.value.data[k], RosterColsOf(t.value.header).id) != ""
    ensures j < |TabPairs(t)| && TabPairs(t)[j].0 == FieldText(t.value.data[k], RosterColsOf(t.value.header).id)
  {
    var c := RosterColsOf(t.value.header);
    var es := RowEntries(c, t.value.data);
    SomesHas(es, k);
    j :| 0 <= j < |Somes(es)| && Somes(es)[j] == es[k].value;
  }

  /** Every non-blank id of a usable tab is in the map. */
  lemma RosterHasId(tabs: seq<Option<Tab>>, t: nat, k: nat)
    requires t < |tabs| && tabs[t].Some? && k < |tabs[t].value.data|
    requires RosterColsOf(tabs[t].value.header).id.Some?
    requires FieldText(tabs[t].value.data[k], RosterColsOf(tabs[t].value.header).id) != ""
    ensures FieldText(tabs[t].value.data[k], RosterColsOf(tabs[t].value.header).id) in RosterNames(tabs)
  {
    var c := RosterColsOf(tabs[t].value.header);
    var id := FieldText(tabs[t].value.data[k], c.id);
    var j := TabPairsHas(tabs[t], k);
    var xss := EachTabPairs(tabs);
    ConcatHas(xss, t, j);
    var i :| 0 <= i < |Concat(xss)| && Concat(xss)[i] == xss[t][j];
    assert RosterPairs(tabs)[i].0 == id;
    FirstWinsKeys(RosterPairs(tabs));
  }

  /** The pairs of the data rows under the roster columns c, pushed row
      by row. */
  method PushRowPairs(pairs: seq<(string, string)>, c: RosterCols, rows: seq<Row>) returns (out: seq<(string, string)>)
    ensures out == pairs + RowPairs(c, rows)
  {
    out := pairs;
    ghost var es := RowEntries(c, rows);
    var k := 0;
    while k < |rows|
      invariant 0 <= k <= |rows|
      invariant out == pairs + Somes(es[..k])
    {
      var r := rows[k];
      var id := FieldText(r, c.id);
      SomesSnoc(es, k);
      assert es[k] == RowEntry(c, r);
      if id != "" {
        out := out + [(id, RosterName(c, r, id))];
      }
      k := k + 1;
    }
    assert es[..k] == es;
  }

  /** The pairs of one tab. */
  method PushTabPairs(pairs: seq<(string, string)>, t: Option<Tab>) returns (out: seq<(string, string)>)
    ensures out == pairs + TabPairs(t)
  {
    out := pairs;
    if t.None? || t.value.data == [] {
      return;
    }
    var c := RosterColsOf(t.value.header);
    if c.id.None? {
      return;
    }
    out := PushRowPairs(pairs, c, t.value.data);
  }

  /** _getRosterIdNameMap_ on the roster tabs in order ('2026', then
      '2025'), a missing tab given as None; the cache is taken as a miss. */
  method RosterIdNameMap(tabs: seq<Option<Tab>>) returns (m: map<string, string>)
    ensures m == RosterNames(tabs)
  {
    var pairs: seq<(string, string)> := [];
    ghost var xss := EachTabPairs(tabs);
    var t := 0;
    while t < |tabs|
      invariant 0 <= t <= |tabs|
      invariant pairs == Concat(xss[..t])
    {
      ConcatSnoc(xss, t);
      pairs := PushTabPairs(pairs, tabs[t]);
      t := t + 1;
    }
    assert xss[..t] == xss;
    m := map[];
    var i := 0;
    while i < |pairs|
      invariant 0 <= i <= |pairs|
      invariant m == FirstWins(pairs[..i])
    {
      FirstWinsSnoc(pairs, i);
      if pairs[i].0 !in m {
        m := m[pairs[i].0 := pairs[i].1];
      }
      i := i + 1;
    }
    assert pairs[..i] == pairs;
  }

  // ---------------------------------------------------- name lookup

  /** (ids || []).map(x => String(x || '').trim()).filter(Boolean). */
  function NeedIds(ids: seq<Cell>): seq<string> {
    NonEmpty(seq(|ids|, k requires 0 <= k < |ids| => CellText(ids[k])))
  }

  /** all.get(id) || id. */
  function NameOr(all: map<string, string>, id: string): string {
    if id in all && all[id] != "" then all[id] else id
  }

  /** getNamesForIds_(ids) with the roster map `all`: each requested
      non-blank id mapped to its roster name, or to itself. */
  function NamesForIds(ids: seq<Cell>, all: map<string, string>): (r: map<string, string>)
    ensures forall id :: id in r <==> id != "" && exists k :: 0 <= k < |ids| && CellText(ids[k]) == id
  {
    var need := NeedIds(ids);
    var r := map id | id in need :: NameOr(all, id);
    assert forall id :: id in r <==> id != "" && exists k :: 0 <= k < |ids| && CellText(ids[k]) == id by {
      var xs := seq(|ids|, k requires 0 <= k < |ids| => CellText(ids[k]));
      forall id ensures id in need <==> id != "" && exists k :: 0 <= k < |ids| && CellText(ids[k]) == id {
        if id in need {
          assert id in xs;
          var k :| 0 <= k < |xs| && xs[k] == id;
          assert CellText(ids[k]) == id;
        }
        if id != "" && exists k :: 0 <= k < |ids| && CellText(ids[k]) == id {
          var k :| 0 <= k < |ids| && CellText(ids[k]) == id;
          assert xs[k] == id;
        }
      }
    }
    r
  }

  /** With the roster map, a requested id found in the roster gets the name
      of its first roster row, and any other requested id is its own
      name. */
  lemma NamesFromRoster(ids: seq<Cell>, tabs: seq<Option<Tab>>, id: string)
    requires id in NamesForIds(ids, RosterNames(tabs))
    ensures id in RosterNames(tabs) ==> NamesForIds(ids, RosterNames(tabs))[id] == RosterNames(tabs)[id]
    ensures id !in RosterNames(tabs) ==> NamesForIds(ids, RosterNames(tabs))[id] == id
    ensures forall i :: (0 <= i < |RosterPairs(tabs)| && RosterPairs(tabs)[i].0 == id
                         && forall j :: 0 <= j < i ==> RosterPairs(tabs)[j].0 != id) ==>
              NamesForIds(ids, RosterNames(tabs))[id] == RosterPairs(tabs)[i].1
  {
    var m := RosterNames(tabs);
    FirstWinsKeys(RosterPairs(tabs));
    RosterPairsNamed(tabs);
    if id in m {
      var i0 :| 0 <= i0 < |RosterPairs(tabs)| && RosterPairs(tabs)[i0].0 == id;
      forall i | 0 <= i < |RosterPairs(tabs)| && RosterPairs(tabs)[i].0 == id
        && (forall j :: 0 <= j < i ==> RosterPairs(tabs)[j].0 != id)
        ensures m[id] == RosterPairs(tabs)[i].1 && m[id] != ""
      {
        RosterFirstWins(tabs, i);
      }
      var f := FirstOf(RosterPairs(tabs), id, i0);
      RosterFirstWins(tabs, f);
    }
  }

  /** The first index of a key known to occur. */
  lemma FirstOf(ps: seq<(string, string)>, k: string, i0: nat) returns (f: nat)
    requires i0 < |ps| && ps[i0].0 == k
    ensures f <= i0 && ps[f].0 == k && forall j :: 0 <= j < f ==> ps[j].0 != k
    decreases i0
  {
    if exists j :: 0 <= j < i0 && ps[j].0 == k {
      var j :| 0 <= j < i0 && ps[j].0 == k;
      f := FirstOf(ps, k, j);
    } else {
      f := i0;
    }
  }

  /** getNamesForIds(ids): the entries of that Map as {id, name}, in
      insertion order, which is the order of first request. */
  function NamesList(ids: seq<Cell>, all: map<string, string>): (r: seq<(string, string)>)
  {
    var order := Uniq(seq(|ids|, k requires 0 <= k < |ids| => CellText(ids[k])));
    var names := NamesForIds(ids, all);
    seq(|order|, i requires 0 <= i < |order| => (order[i], if order[i] in names then names[order[i]] else order[i]))
  }

  /** Each requested id is listed once, with the name the lookup gives
      it. */
  lemma NamesListMeaning(ids: seq<Cell>, all: map<string, string>)
    ensures forall i, j :: 0 <= i < j < |NamesList(ids, all)| ==> NamesList(ids, all)[i].0 != NamesList(ids, all)[j].0
    ensures forall id :: id in NamesForIds(ids, all) <==> exists i :: 0 <= i < |NamesList(ids, all)| && NamesList(ids, all)[i].0 == id
    ensures forall i :: 0 <= i < |NamesList(ids, all)| ==>
              NamesList(ids, all)[i].0 in NamesForIds(ids, all)
              && NamesList(ids, all)[i].1 == NamesForIds(ids, all)[NamesList(ids, all)[i].0]
  {
    var xs := seq(|ids|, k requires 0 <= k < |ids| => CellText(ids[k]));
    var order := Uniq(xs);
    var r := NamesList(ids, all);
    var names := NamesForIds(ids, all);
    UniqDistinct(xs);
    forall id ensures id in order <==> id in names {
      UniqHas(xs, id);
      if id in xs {
        var k :| 0 <= k < |xs| && xs[k] == id;
        assert CellText(ids[k]) == id;
      }
      if id in names {
        var k :| 0 <= k < |ids| && CellText(ids[k]) == id;
        assert xs[k] == id;
      }
    }
    forall id ensures id in names <==> exists i :: 0 <= i < |r| && r[i].0 == id {
      if id in names {
        var i :| 0 <= i < |order| && order[i] == id;
        assert r[i].0 == id;
      }
    }
  }

  // ---------------------------------------------------- recent contacts

  /** The summary of one session row that listRecentContactsForIds
      attaches to each of its links. */
  datatype Summary = Summary(dateYMD: Cell, duration: Option<int>, contactWith: string, typeOfContact: string,
                             topic: string, success: string, notes: string, referrals: string,
                             location: string, edited: string, mentorId: string, mentorName: string)

  /** One listed contact: the contact id, the student's roster name ('' when
      the roster lacks it) and the session's summary. */
  datatype Recent = Recent(contactId: string, displayName: string, s: Summary)

  /** ymd_(v) || v. */
  function DateOr(v: Cell): (r: Cell)
    ensures v.When? ==> r == Text(FormatYmd(v.date))
    ensures !v.When? && CellText(v) != "" ==> r.Text? && |r.s| <= 10 && StartsWith(CellText(v), r.s)
    ensures !v.When? && CellText(v) == "" ==> r == v
  {
    var y := Ymd(v);
    if y != "" then Text(y) else v
  }

  /** Number(v || 0): None stands for NaN. */
  function DurationOf(v: Cell): (r: Option<int>)
    ensures !Truthy(v) ==> r == Some(0)
    ensures v.Num? ==> r == Some(v.n)
  {
    if Truthy(v) then NumberOf(v) else Some(0)
  }

  /** v instanceof Date ? toMDYString_(v) : String(v || ''). */
  function EditedText(v: Cell): string {
    if v.When? then ToMDY(v) else StrOr(v)
  }

  /** mid ? (mentorNameById.get(mid) || mid) : ''. */
  function MentorNameOf(names: map<string, string>, mid: string): (r: string)
    ensures mid == "" <==> r == ""
    ensures mid != "" && mid in names && names[mid] != "" ==> r == names[mid]
    ensures mid != "" && (mid !in names || names[mid] == "") ==> r == mid
  {
    if mid == "" then "" else if mid in names && names[mid] != "" then names[mid] else mid
  }

  function SummaryOf(S: SessCols, names: map<string, string>, r: Row): Summary {
    var mid := ToUpper(FieldText(r, S.mentorId));
    Summary(DateOr(Get(r, S.date)), DurationOf(Get(r, S.duration)), StrOr(Get(r, S.contactWith)),
            StrOr(Get(r, S.typeOfContact)), StrOr(Get(r, S.topic)), StrOr(Get(r, S.success)),
            StrOr(Get(r, S.notes)), StrOr(Get(r, S.referrals)), StrOr(Get(r, S.location)),
            EditedText(Get(r, S.editedAt)), mid, MentorNameOf(names, mid))
  }

  /** The [id, name] pair each active mentor contributes to
      mentorNameById. */
  function MentorPairs(ms: seq<Mentors.Mentor>): (ps: seq<(string, string)>)
    ensures |ps| == |ms|
    ensures forall i :: 0 <= i < |ms| ==>
              ps[i] == (ToUpper(ms[i].id), if ms[i].name != "" then ms[i].name else ms[i].id)
  {
    seq(|ms|, i requires 0 <= i < |ms| => (ToUpper(ms[i].id), if ms[i].name != "" then ms[i].name else ms[i].id))
  }

  /** mentorNameById: upper-cased id -> name (or id), a later mentor with
      the same id replacing an earlier one. */
  function MentorNames(ms: seq<Mentors.Mentor>): map<string, string> {
    LastWins(MentorPairs(ms))
  }

  function ContactPairs(S: SessCols, names: map<string, string>, rows: seq<Row>): (ps: seq<(string, Summary)>)
    ensures |ps| == |rows|
    ensures forall i :: 0 <= i < |rows| ==> ps[i] == (FieldText(rows[i], S.contactId), SummaryOf(S, names, rows[i]))
  {
    seq(|rows|, i requires 0 <= i < |rows| => (FieldText(rows[i], S.contactId), SummaryOf(S, names, rows[i])))
  }

  /** byContact: ContactID -> summary of the last session row with it;
      rows with a blank ContactID are skipped. */
  function ByContact(S: SessCols, names: map<string, string>, rows: seq<Row>): map<string, Summary> {
    LastWins(ContactPairs(S, names, rows))
  }

  /** nameMap.get(id) || ''. */
  function DisplayName(roster: map<string, string>, id: string): string {
    if id in roster then roster[id] else ""
  }

  /** What one link row adds to the list of student id: a contact when the
      row names that student and a contact byContact knows. */
  function HitOf(L: LinkCols, bc: map<string, Summary>, roster: map<string, string>, id: string, r: Row): (h: Option<Recent>)
    ensures h.Some? <==> FieldText(r, L.studentId) == id && FieldText(r, L.contactId) in bc
    ensures h.Some? ==> h.value.contactId == FieldText(r, L.contactId) && h.value.s == bc[h.value.contactId]
                        && h.value.displayName == DisplayName(roster, id)
  {
    var cid := FieldText(r, L.contactId);
    if FieldText(r, L.studentId) == id && cid in bc then Some(Recent(cid, DisplayName(roster, id), bc[cid])) else None
  }

  function HitEntries(L: LinkCols, bc: map<string, Summary>, roster: map<string, string>, id: string, links: seq<Row>): (es: seq<Option<Recent>>)
    ensures |es| == |links| && forall k :: 0 <= k < |links| ==> es[k] == HitOf(L, bc, roster, id, links[k])
  {
    seq(|links|, k requires 0 <= k < |links| => HitOf(L, bc, roster, id, links[k]))
  }

  /** out[id] before sorting: the contacts of id in link-row order. */
  function Hits(L: LinkCols, bc: map<string, Summary>, roster: map<string, string>, id: string, links: seq<Row>): seq<Recent>
    decreases |links|
  {
    if links == [] then []
    else Hits(L, bc, roster, id, links[..|links| - 1]) + OptList(HitOf(L, bc, roster, id, links[|links| - 1]))
  }

  lemma HitsSnoc(L: LinkCols, bc: map<string, Summary>, roster: map<string, string>, id: string, links: seq<Row>, k: nat)
    requires k < |links|
    ensures Hits(L, bc, roster, id, links[..k + 1]) == Hits(L, bc, roster, id, links[..k]) + OptList(HitOf(L, bc, roster, id, links[k]))
  {
    assert links[..k + 1][..k] == links[..k];
  }

  lemma {:induction false} HitsAsSomes(L: LinkCols, bc: map<string, Summary>, roster: map<string, string>, id: string, links: seq<Row>)
    ensures Hits(L, bc, roster, id, links) == Somes(HitEntries(L, bc, roster, id, links))
    decreases |links|
  {
    if links != [] {
      var n := |links| - 1;
      var es := HitEntries(L, bc, roster, id, links);
      HitsAsSomes(L, bc, roster, id, links[..n]);
      assert es[..n] == HitEntries(L, bc, roster, id, links[..n]);
      assert Somes(es) == Somes(es[..n]) + OptList(es[n]);
      assert es[n] == HitOf(L, bc, roster, id, links[n]);
    }
  }

  /** Math.max(1, Math.min(Number(perId) || 5, 50)); None stands for NaN. */
  function PerId(perId: Cell): (n: nat)
    ensures 1 <= n <= 50
    ensures NumberOf(perId).None? || NumberOf(perId) == Some(0) ==> n == 5
    ensures NumberOf(perId).Some? && NumberOf(perId).value != 0 ==>
              n == if NumberOf(perId).value < 1 then 1 else if NumberOf(perId).value > 50 then 50 else NumberOf(perId).value
  {
    var v := NumberOf(perId);
    var m := if v.None? || v.value == 0 then 5 else v.value;
    if m < 1 then 1 else if m > 50 then 50 else m
  }

  /** String(x.dateYMD || ''). */
  function DateKey(x: Recent): string {
    StrOr(x.s.dateYMD)
  }

  /** The comparator (a, b) => key(b).localeCompare(key(a)) read as
      `cmp(a, b) <= 0`: newest first. */
  function ByDateDesc(): (Recent, Recent) -> bool {
    (a: Recent, b: Recent) => StrLe(DateKey(b), DateKey(a))
  }

  /** out[id] as returned: the contacts of id, newest first, at most n. */
  function RecentFor(L: LinkCols, bc: map<string, Summary>, roster: map<string, string>, id: string,
                     links: seq<Row>, n: nat): seq<Recent> {
    Take(SortBy(Hits(L, bc, roster, id, links), ByDateDesc()), n)
  }

  /** The requested ids: trimmed, blank ones dropped. */
  function Targets(ids: seq<Cell>): set<string> {
    set id | id in NeedIds(ids)
  }

  /** listRecentContactsForIds(ids, perId) over the two tabs' data rows,
      the active mentors and the roster tabs. */
  function Listing(ids: seq<Cell>, perId: Cell, S: SessCols, L: LinkCols, sessRows: seq<Row>,
                         linkRows: seq<Row>, ms: seq<Mentors.Mentor>, tabs: seq<Option<Tab>>): map<string, seq<Recent>> {
    var bc := ByContact(S, MentorNames(ms), sessRows);
    map id | id in Targets(ids) :: RecentFor(L, bc, RosterNames(tabs), id, linkRows, PerId(perId))
  }

  lemma ByDateDescTotal()
    ensures TotalPreorder(ByDateDesc())
  {
    forall a: Recent, b: Recent ensures ByDateDesc()(a, b) || ByDateDesc()(b, a) {
      StrLeTotal(DateKey(a), DateKey(b));
    }
    forall a: Recent, b: Recent, c: Recent | ByDateDesc()(a, b) && ByDateDesc()(b, c)
      ensures ByDateDesc()(a, c)
    {
      StrLeTrans(DateKey(c), DateKey(b), DateKey(a));
    }
  }

  /** mentorNameById holds, for each listed id upper-cased, the name of the
      last mentor with that id (or the id when the name is blank). */
  lemma MentorNamesMeaning(ms: seq<Mentors.Mentor>, i: nat)
    requires i < |ms| && ToUpper(ms[i].id) != ""
    requires forall j :: i < j < |ms| ==> ToUpper(ms[j].id) != ToUpper(ms[i].id)
    ensures ToUpper(ms[i].id) in MentorNames(ms)
    ensures MentorNames(ms)[ToUpper(ms[i].id)] == if ms[i].name != "" then ms[i].name else ms[i].id
  {
    LastWinsAt(MentorPairs(ms), i);
  }

  /** byContact knows exactly the non-blank ContactIDs of the session
      rows. */
  lemma ByContactKeys(S: SessCols, names: map<string, string>, rows: seq<Row>, cid: string)
    ensures cid in ByContact(S, names, rows) <==>
              cid != "" && exists k :: 0 <= k < |rows| && FieldText(rows[k], S.contactId) == cid
  {
    var ps := ContactPairs(S, names, rows);
    LastWinsKeys(ps);
    if cid != "" && exists k :: 0 <= k < |rows| && FieldText(rows[k], S.contactId) == cid {
      var k :| 0 <= k < |rows| && FieldText(rows[k], S.contactId) == cid;
      assert ps[k].0 == cid;
    }
  }

  /** byContact holds the summary of the last session row with each
      ContactID. */
  lemma ByContactLast(S: SessCols, names: map<string, string>, rows: seq<Row>, i: nat)
    requires i < |rows| && FieldText(rows[i], S.contactId) != ""
    requires forall j :: i < j < |rows| ==> FieldText(rows[j], S.contactId) != FieldText(rows[i], S.contactId)
    ensures FieldText(rows[i], S.contactId) in ByContact(S, names, rows)
    ensures ByContact(S, names, rows)[FieldText(rows[i], S.contactId)] == SummaryOf(S, names, rows[i])
  {
    LastWinsAt(ContactPairs(S, names, rows), i);
  }

  /** Every listed contact comes from a link row of the student whose
      contact the sessions tab knows. */
  lemma HitsSound(L: LinkCols, bc: map<string, Summary>, roster: map<string, string>, id: string, links: seq<Row>, i: nat)
    requires i < |Hits(L, bc, roster, id, links)|
    ensures var x := Hits(L, bc, roster, id, links)[i];
            x.contactId in bc && x.s == bc[x.contactId] && x.displayName == DisplayName(roster, id) &&
            exists k :: 0 <= k < |links| && FieldText(links[k], L.studentId) == id && FieldText(links[k], L.contactId) == x.contactId
  {
    var es := HitEntries(L, bc, roster, id, links);
    HitsAsSomes(L, bc, roster, id, links);
    SomesFrom(es, i);
    var k :| 0 <= k < |es| && es[k] == Some(Somes(es)[i]);
    assert HitOf(L, bc, roster, id, links[k]).Some?;
  }

  /** Every link row of the student whose contact the sessions tab knows
      gives a contact. */
  lemma HitsComplete(L: LinkCols, bc: map<string, Summary>, roster: map<string, string>, id: string, links: seq<Row>, k: nat)
    requires k < |links| && FieldText(links[k], L.studentId) == id && FieldText(links[k], L.contactId) in bc
    ensures exists i :: 0 <= i < |Hits(L, bc, roster, id, links)| && Hits(L, bc, roster, id, links)[i] ==
              Recent(FieldText(links[k], L.contactId), DisplayName(roster, id), bc[FieldText(links[k], L.contactId)])
  {
    var es := HitEntries(L, bc, roster, id, links);
    assert es[k] == HitOf(L, bc, roster, id, links[k]);
    HitsAsSomes(L, bc, roster, id, links);
    SomesHas(es, k);
    var i :| 0 <= i < |Somes(es)| && Somes(es)[i] == es[k].value;
    assert Hits(L, bc, roster, id, links)[i] == es[k].value;
  }

  /** The first n of a sorted sequence: all of it when it is no longer,
      drawn from it, in order. */
  lemma TakeSortedShape<T(!new)>(h: seq<T>, le: (T, T) -> bool, n: nat)
    requires TotalPreorder(le)
    ensures var r := Take(SortBy(h, le), n);
            |r| <= n && (|h| >= n ==> |r| == n) && (|h| <= n ==> multiset(r) == multiset(h))
            && multiset(r) <= multiset(h) && SortedBy(r, le)
  {
    var s := SortBy(h, le);
    var r := Take(s, n);
    SortBySorted(h, le);
    assert s == r + s[|r|..];
    assert multiset(s) == multiset(r) + multiset(s[|r|..]);
  }

  /** Nothing left out of the first n comes before something kept. */
  lemma TakeSortedFirst<T(!new)>(h: seq<T>, le: (T, T) -> bool, n: nat)
    requires TotalPreorder(le)
    ensures var r := Take(SortBy(h, le), n);
            forall x, y :: x in r && y in multiset(h) - multiset(r) ==> le(x, y)
  {
    var s := SortBy(h, le);
    var r := Take(s, n);
    var m := |r|;
    SortBySorted(h, le);
    assert s == r + s[m..];
    assert multiset(s) == multiset(r) + multiset(s[m..]);
    forall x, y | x in r && y in multiset(h) - multiset(r)
      ensures le(x, y)
    {
      var i :| 0 <= i < m && r[i] == x;
      assert y in multiset(s[m..]);
      var j :| 0 <= j < |s| - m && s[m..][j] == y;
      assert le(s[i], s[m + j]);
    }
  }

  /** The list of an id: at most n contacts, newest first, drawn from its
      hits; all of them when there are no more than n, and none left out
      that is newer than one listed. */
  lemma RecentForMeaning(L: LinkCols, bc: map<string, Summary>, roster: map<string, string>, id: string, links: seq<Row>, n: nat)
    ensures var r := RecentFor(L, bc, roster, id, links, n);
            var h := Hits(L, bc, roster, id, links);
            |r| <= n && (|h| <= n ==> multiset(r) == multiset(h)) && (|h| >= n ==> |r| == n)
            && SortedBy(r, ByDateDesc()) && multiset(r) <= multiset(h)
            && forall x, y :: x in r && y in multiset(h) - multiset(r) ==> StrLe(DateKey(y), DateKey(x))
  {
    var h := Hits(L, bc, roster, id, links);
    var r := RecentFor(L, bc, roster, id, links, n);
    assert |r| <= n && (|h| <= n ==> multiset(r) == multiset(h)) && (|h| >= n ==> |r| == n)
           && SortedBy(r, ByDateDesc()) && multiset(r) <= multiset(h) by {
      ByDateDescTotal();
      TakeSortedShape(h, ByDateDesc(), n);
    }
    assert forall x, y :: x in r && y in multiset(h) - multiset(r) ==> ByDateDesc()(x, y) by {
      ByDateDescTotal();
      TakeSortedFirst(h, ByDateDesc(), n);
    }
    forall x, y | x in r && y in multiset(h) - multiset(r)
      ensures StrLe(DateKey(y), DateKey(x))
    {
      assert ByDateDesc()(x, y);
    }
  }

  /** The listing has one key per requested non-blank id. */
  lemma ListingKeys(ids: seq<Cell>, perId: Cell, S: SessCols, L: LinkCols, sessRows: seq<Row>, linkRows: seq<Row>,
                    ms: seq<Mentors.Mentor>, tabs: seq<Option<Tab>>)
    ensures forall id :: id in Listing(ids, perId, S, L, sessRows, linkRows, ms, tabs) <==>
              id != "" && exists k :: 0 <= k < |ids| && CellText(ids[k]) == id
  {
    var xs := seq(|ids|, k requires 0 <= k < |ids| => CellText(ids[k]));
    forall id ensures id in NeedIds(ids) <==> id != "" && exists k :: 0 <= k < |ids| && CellText(ids[k]) == id {
      if id in NeedIds(ids) {
        var k :| 0 <= k < |xs| && xs[k] == id;
        assert CellText(ids[k]) == id;
      }
      if id != "" && exists k :: 0 <= k < |ids| && CellText(ids[k]) == id {
        var k :| 0 <= k < |ids| && CellText(ids[k]) == id;
        assert xs[k] == id;
      }
    }
  }

  lemma ListedIds(mh: Row, md: seq<Row>)
    ensures forall i :: 0 <= i < |Mentors.GetMentors(mh, md, true)| ==> Mentors.GetMentors(mh, md, true)[i].id != ""
  {
    var ms := Mentors.GetMentors(mh, md, true);
    forall i | 0 <= i < |ms| ensures ms[i].id != "" {
      Mentors.ListedMentor(mh, md, true, ms[i]);
    }
  }

  /** A map with the requested ids as keys and each one's list is the
      listing. */
  lemma ListingFrom(ids: seq<Cell>, perId: Cell, S: SessCols, L: LinkCols, sessRows: seq<Row>, linkRows: seq<Row>,
                    ms: seq<Mentors.Mentor>, tabs: seq<Option<Tab>>, out: map<string, seq<Recent>>)
    requires forall id :: id in out <==> id in NeedIds(ids)
    requires forall id :: id in out ==>
               out[id] == RecentFor(L, ByContact(S, MentorNames(ms), sessRows), RosterNames(tabs), id, linkRows, PerId(perId))
    ensures out == Listing(ids, perId, S, L, sessRows, linkRows, ms, tabs)
  {
  }

  /** mentorNameById filled from a mentor list whose ids are non-blank,
      as getMentors returns them. */
  method MentorNameMap(ms: seq<Mentors.Mentor>) returns (names: map<string, string>)
    requires forall i :: 0 <= i < |ms| ==> ms[i].id != ""
    ensures names == MentorNames(ms)
  {
    ghost var ps := MentorPairs(ms);
    names := map[];
    var i := 0;
    while i < |ms|
      invariant 0 <= i <= |ms|
      invariant names == LastWins(ps[..i])
    {
      LastWinsSnoc(ps, i);
      var m := ms[i];
      names := names[ToUpper(m.id) := if m.name != "" then m.name else m.id];
      i := i + 1;
    }
    assert ps[..i] == ps;
  }

  /** byContact, row by row. */
  method ByContactMap(S: SessCols, names: map<string, string>, rows: seq<Row>) returns (bc: map<string, Summary>)
    ensures bc == ByContact(S, names, rows)
  {
    ghost var ps := ContactPairs(S, names, rows);
    bc := map[];
    var i := 0;
    while i < |rows|
      invariant 0 <= i <= |rows|
      invariant bc == LastWins(ps[..i])
    {
      LastWinsSnoc(ps, i);
      var r := rows[i];
      var cid := FieldText(r, S.contactId);
      if cid != "" {
        bc := bc[cid := SummaryOf(S, names, r)];
      }
      i := i + 1;
    }
    assert ps[..i] == ps;
  }

  /** target.forEach(id => out[id] = []). */
  method EmptyLists(want: seq<string>) returns (out: map<string, seq<Recent>>)
    ensures forall id :: id in out <==> id in want
    ensures forall id :: id in out ==> out[id] == []
  {
    out := map[];
    var i := 0;
    while i < |want|
      invariant 0 <= i <= |want|
      invariant forall id :: id in out <==> id in want[..i]
      invariant forall id :: id in out ==> out[id] == []
    {
      assert want[..i + 1] == want[..i] + [want[i]];
      out := out[want[i] := []];
      i := i + 1;
    }
    assert want[..i] == want;
  }

  /** One link row: pushed onto the list of its student when that student
      is a target and its contact is known. */
  method PushHit(out0: map<string, seq<Recent>>, L: LinkCols, bc: map<string, Summary>, roster: map<string, string>, r: Row)
    returns (out: map<string, seq<Recent>>)
    ensures forall id :: id in out <==> id in out0
    ensures forall id :: id in out0 ==> out[id] == out0[id] + OptList(HitOf(L, bc, roster, id, r))
  {
    out := out0;
    var id := FieldText(r, L.studentId);
    if id in out {
      var cid := FieldText(r, L.contactId);
      if cid in bc {
        out := out[id := out[id] + [Recent(cid, DisplayName(roster, id), bc[cid])]];
      }
    }
  }

  /** out[id] = [] for each target, then each link row of a target with a
      known contact pushed onto its list. */
  method CollectHits(want: seq<string>, L: LinkCols, bc: map<string, Summary>, roster: map<string, string>,
                     links: seq<Row>) returns (out: map<string, seq<Recent>>)
    ensures forall id :: id in out <==> id in want
    ensures forall id :: id in out ==> out[id] == Hits(L, bc, roster, id, links)
  {
    out := EmptyLists(want);
    var k := 0;
    while k < |links|
      invariant 0 <= k <= |links|
      invariant forall id :: id in out <==> id in want
      invariant forall id :: id in out ==> out[id] == Hits(L, bc, roster, id, links[..k])
    {
      out := PushHit(out, L, bc, roster, links[k]);
      forall id | id in out ensures out[id] == Hits(L, bc, roster, id, links[..k + 1]) {
        HitsSnoc(L, bc, roster, id, links, k);
      }
      k := k + 1;
    }
    assert links[..k] == links;
  }

  /** Object.keys(out).forEach(id => out[id] = out[id].sort(cmp).slice(0,
      n)) for the distinct keys given. */
  method SortEach<V>(lists: map<string, seq<V>>, keys: seq<string>, le: (V, V) -> bool, n: nat)
    returns (out: map<string, seq<V>>)
    requires Distinct(keys)
    ensures forall id :: id in out <==> id in lists
    ensures forall id :: id in lists ==> out[id] == if id in keys then Take(SortBy(lists[id], le), n) else lists[id]
  {
    out := lists;
    var j := 0;
    while j < |keys|
      invariant 0 <= j <= |keys|
      invariant forall id :: id in out <==> id in lists
      invariant forall id :: id in lists ==> out[id] == if id in keys[..j] then Take(SortBy(lists[id], le), n) else lists[id]
    {
      var id := keys[j];
      assert forall x :: x in keys[..j + 1] <==> x in keys[..j] || x == id;
      if id in out {
        assert id !in keys[..j];
        out := out[id := Take(SortBy(out[id], le), n)];
      }
      j := j + 1;
    }
    assert keys[..j] == keys;
  }

  /** listRecentContactsForIds(ids, perId) on the data rows of the two
      contact tabs (sessRows, linkRows), the mentors tab (mh, md) and the
      roster tabs; the snapshot and roster caches are taken as misses. */
  method ListRecentContactsForIds(ids: seq<Cell>, perId: Cell, S: SessCols, L: LinkCols, sessRows: seq<Row>,
                                  linkRows: seq<Row>, mh: Row, md: seq<Row>, tabs: seq<Option<Tab>>)
    returns (out: map<string, seq<Recent>>)
    ensures out == Listing(ids, perId, S, L, sessRows, linkRows, Mentors.GetMentors(mh, md, true), tabs)
  {
    var want := NeedIds(ids);
    if want == [] {
      out := map[];
      ListingFrom(ids, perId, S, L, sessRows, linkRows, Mentors.GetMentors(mh, md, true), tabs, out);
      return;
    }
    var n := PerId(perId);
    var ms := Mentors.GetMentors(mh, md, true);
    ListedIds(mh, md);
    var names := MentorNameMap(ms);
    var bc := ByContactMap(S, names, sessRows);
    var roster := RosterIdNameMap(tabs);
    var hits := CollectHits(want, L, bc, roster, linkRows);
    var keys := UniqueValues(want);
    UniqDistinct(want);
    out := SortEach(hits, keys, ByDateDesc(), n);
    forall id | id in out ensures out[id] == RecentFor(L, bc, roster, id, linkRows, n) {
      UniqHas(want, id);
    }
    ListingFrom(ids, perId, S, L, sessRows, linkRows, ms, tabs, out);
  }
}
