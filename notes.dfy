// Notes.js: the group_notes sheet's tolerant column map, and the group
// note operations that write to group_contact_sessions and its two link
// tables.
module Notes {
  import opened Wrappers
  import opened Strings
  import opened Cells
  import opened Utils
  import opened Columns
  import opened Scan
  import opened GroupSessions
  import opened Links
  import Mentors

  // ------------------------------------------------ ensureGroupNotesSheet_

  /** The header written on an empty or blank group_notes sheet. */
  const NoteSeed: Row := [Text("Date"), Text("Group"), Text("Topic"), Text("Summary"), Text("DurationMinutes"),
                          Text("ID"), Text("FirstName"), Text("LastName"), Text("LastEdited")]

  /** The `want` list: the header name appended for each missing field,
      in field order Date, Group, Topic, Summary, Duration, ID, First,
      Last, Edited. */
  const NoteNames: seq<string> := ["Date", "Group", "Topic", "Summary", "DurationMinutes", "ID", "FirstName",
                                   "LastName", "LastEdited"]

  /** The aliases of each field, in the order `??` tries them. */
  const NoteAliases: seq<seq<string>> :=
    [["date"], ["group"], ["topic", "subject"], ["summary", "note", "notes", "description"],
     ["durationminutes", "duration", "minutes", "mins"], ["id", "studentid", "cpsid", "participantid"],
     ["firstname", "first", "fname", "givenname"], ["lastname", "last", "lname", "surname", "familyname"],
     ["lastedited", "updated", "modified", "lastupdate"]]

  /** The aliases of the second pass: the same lists, except that Topic is
      looked up as 'topic' only. */
  const NoteReAliases: seq<seq<string>> := NoteAliases[2 := ["topic"]]

  /** The group_notes column map: one entry per field, null as None. */
  datatype NoteCols = NoteCols(date: Option<nat>, group: Option<nat>, topic: Option<nat>, summary: Option<nat>,
                               duration: Option<nat>, id: Option<nat>, first: Option<nat>, last: Option<nat>,
                               edited: Option<nat>)

  function NoteColsOf(r: seq<Option<nat>>): NoteCols
    requires |r| == 9
  {
    NoteCols(r[0], r[1], r[2], r[3], r[4], r[5], r[6], r[7], r[8])
  }

  /** The first-pass map over the header keys. */
  function NoteFound(keys: seq<string>): (r: seq<Option<nat>>)
    ensures |r| == 9 && forall i :: 0 <= i < 9 ==> r[i] == Resolve(keys, NoteAliases[i])
  {
    seq(9, i requires 0 <= i < 9 => Resolve(keys, NoteAliases[i]))
  }

  /** The header once the seeding step is done: an empty sheet, or one
      whose first row is all blank, gets the nine names from column 1. */
  function NotesSeeded(h: Row, data: seq<Row>): Row {
    if Vacant(h, data) || BlankHeader(h) then Seeded(NoteSeed, h) else h
  }

  /** The header after ensureGroupNotesSheet_: the missing fields' names
      are appended to the right of the seeded header. */
  function NotesHeader(h: Row, data: seq<Row>): Row {
    var s := NotesSeeded(h, data);
    s + TextCells(Missing(NoteFound(HeaderKeys(s)), NoteNames))
  }

  /** The data rows after it: an empty sheet is cleared, any other keeps
      its rows. */
  function NotesData(h: Row, data: seq<Row>): seq<Row> {
    if Vacant(h, data) then [] else PadAll(data, |NotesHeader(h, data)|)
  }

  /** The column map it returns. */
  function NotesCols(h: Row, data: seq<Row>): (r: seq<Option<nat>>)
    ensures |r| == 9
  {
    var s := NotesSeeded(h, data);
    var found := NoteFound(HeaderKeys(s));
    Refound(found, HeaderKeys(s + TextCells(Missing(found, NoteNames))), NoteReAliases)
  }

  /** ensureGroupNotesSheet_ on the sheet, returning its column map. */
  method EnsureGroupNotesSheet(sh: Sheet) returns (c: NoteCols)
    requires sh.Valid()
    modifies sh
    ensures sh.Valid()
    ensures sh.header == NotesHeader(old(sh.header), old(sh.data))
    ensures sh.data == NotesData(old(sh.header), old(sh.data))
    ensures c == NoteColsOf(NotesCols(old(sh.header), old(sh.data)))
  {
    ghost var h0 := sh.header;
    ghost var d0 := sh.data;
    SeedNotes(sh);
    ghost var w := |sh.header|;
    c := AppendNoteColumns(sh);
    if !Vacant(h0, d0) {
      PadAllTwice(d0, w, |sh.header|);
    }
  }

  /** The second step: the names of the fields the seeded header lacks are
      written to its right, and the column map is read off the result. */
  method AppendNoteColumns(sh: Sheet) returns (c: NoteCols)
    requires sh.Valid()
    modifies sh
    ensures sh.Valid()
    ensures sh.header == old(sh.header) + TextCells(Missing(NoteFound(HeaderKeys(old(sh.header))), NoteNames))
    ensures sh.data == PadAll(old(sh.data), |sh.header|)
    ensures c == NoteColsOf(Refound(NoteFound(HeaderKeys(old(sh.header))), HeaderKeys(sh.header), NoteReAliases))
  {
    var found := NoteFound(HeaderKeys(sh.header));
    var miss := Missing(found, NoteNames);
    if miss != [] {
      sh.AppendHeaderCells(TextCells(miss));
    } else {
      assert sh.header + TextCells(miss) == sh.header;
      PadAllFit(sh.data, |sh.header|);
    }
    c := NoteColsOf(Refound(found, HeaderKeys(sh.header), NoteReAliases));
  }

  /** The seeding step: an empty sheet is cleared and gets the nine names,
      a blank header gets them over its cells, any other header is kept. */
  method SeedNotes(sh: Sheet)
    requires sh.Valid()
    modifies sh
    ensures sh.Valid()
    ensures sh.header == NotesSeeded(old(sh.header), old(sh.data))
    ensures sh.data == if Vacant(old(sh.header), old(sh.data)) then [] else PadAll(old(sh.data), |sh.header|)
  {
    if Vacant(sh.header, sh.data) {
      sh.ClearData();
      sh.SetHeader(NoteSeed);
    } else if BlankHeader(sh.header) {
      sh.SetHeader(NoteSeed);
    } else {
      PadAllFit(sh.data, |sh.header|);
    }
  }

  lemma KeyOfID() ensures NormKey(CellText(Text("ID"))) == "id" { NormKeyOfName("ID", "id"); }
  lemma KeyOfLastEdited() ensures NormKey(CellText(Text("LastEdited"))) == "lastedited" {
    NormKeyOfName("LastEdited", "lastedited");
  }

  /** The second pass's first alias of each field is the key of its name. */
  lemma NoteNameKey0()
    ensures NoteReAliases[0] != [] && NormKey(CellText(Text(NoteNames[0]))) == NoteReAliases[0][0]
  {
    assert NoteNames[0] == "Date" && NoteReAliases[0][0] == "date";
    KeyOfDate();
  }

  lemma NoteNameKey1()
    ensures NoteReAliases[1] != [] && NormKey(CellText(Text(NoteNames[1]))) == NoteReAliases[1][0]
  {
    assert NoteNames[1] == "Group" && NoteReAliases[1][0] == "group";
    KeyOfGroup();
  }

  lemma NoteNameKey2()
    ensures NoteReAliases[2] != [] && NormKey(CellText(Text(NoteNames[2]))) == NoteReAliases[2][0]
  {
    assert NoteNames[2] == "Topic" && NoteReAliases[2][0] == "topic";
    KeyOfTopic();
  }

  lemma NoteNameKey3()
    ensures NoteReAliases[3] != [] && NormKey(CellText(Text(NoteNames[3]))) == NoteReAliases[3][0]
  {
    assert NoteNames[3] == "Summary" && NoteReAliases[3][0] == "summary";
    KeyOfSummary();
  }

  lemma NoteNameKey4()
    ensures NoteReAliases[4] != [] && NormKey(CellText(Text(NoteNames[4]))) == NoteReAliases[4][0]
  {
    assert NoteNames[4] == "DurationMinutes" && NoteReAliases[4][0] == "durationminutes";
    KeyOfDurationMinutes();
  }

  lemma NoteNameKey5()
    ensures NoteReAliases[5] != [] && NormKey(CellText(Text(NoteNames[5]))) == NoteReAliases[5][0]
  {
    assert NoteNames[5] == "ID" && NoteReAliases[5][0] == "id";
    KeyOfID();
  }

  lemma NoteNameKey6()
    ensures NoteReAliases[6] != [] && NormKey(CellText(Text(NoteNames[6]))) == NoteReAliases[6][0]
  {
    assert NoteNames[6] == "FirstName" && NoteReAliases[6][0] == "firstname";
    KeyOfFirstName();
  }

  lemma NoteNameKey7()
    ensures NoteReAliases[7] != [] && NormKey(CellText(Text(NoteNames[7]))) == NoteReAliases[7][0]
  {
    assert NoteNames[7] == "LastName" && NoteReAliases[7][0] == "lastname";
    KeyOfLastName();
  }

  lemma NoteNameKey8()
    ensures NoteReAliases[8] != [] && NormKey(CellText(Text(NoteNames[8]))) == NoteReAliases[8][0]
  {
    assert NoteNames[8] == "LastEdited" && NoteReAliases[8][0] == "lastedited";
    KeyOfLastEdited();
  }

  /** Nine fields each keyed by their first alias: gathered into one statement
      over abstract lists, so that no literal name is evaluated again. */
  lemma NamesKeyed(names: seq<string>, keys: seq<seq<string>>)
    requires |names| == 9 && |keys| == 9
    requires keys[0] != [] && NormKey(CellText(Text(names[0]))) == keys[0][0]
    requires keys[1] != [] && NormKey(CellText(Text(names[1]))) == keys[1][0]
    requires keys[2] != [] && NormKey(CellText(Text(names[2]))) == keys[2][0]
    requires keys[3] != [] && NormKey(CellText(Text(names[3]))) == keys[3][0]
    requires keys[4] != [] && NormKey(CellText(Text(names[4]))) == keys[4][0]
    requires keys[5] != [] && NormKey(CellText(Text(names[5]))) == keys[5][0]
    requires keys[6] != [] && NormKey(CellText(Text(names[6]))) == keys[6][0]
    requires keys[7] != [] && NormKey(CellText(Text(names[7]))) == keys[7][0]
    requires keys[8] != [] && NormKey(CellText(Text(names[8]))) == keys[8][0]
    ensures forall i :: 0 <= i < 9 ==> keys[i] != [] && NormKey(CellText(Text(names[i]))) == keys[i][0]
  {
    forall i | 0 <= i < 9
      ensures keys[i] != [] && NormKey(CellText(Text(names[i]))) == keys[i][0]
    {
      if i < 3 { assert i == 0 || i == 1 || i == 2; }
      else if i < 6 { assert i == 3 || i == 4 || i == 5; }
      else { assert i == 6 || i == 7 || i == 8; }
    }
  }

  /** Every second-pass alias is one of the field's first-pass aliases. */
  lemma NoteReAliasesWithin()
    ensures forall i, x :: 0 <= i < 9 && x in NoteReAliases[i] ==> x in NoteAliases[i]
  {
  }

  lemma NoteNameKeys()
    ensures forall i :: 0 <= i < 9 ==> NoteReAliases[i] != [] && NormKey(CellText(Text(NoteNames[i]))) == NoteReAliases[i][0]
  {
    NoteNameKey0(); NoteNameKey1(); NoteNameKey2(); NoteNameKey3(); NoteNameKey4();
    NoteNameKey5(); NoteNameKey6(); NoteNameKey7(); NoteNameKey8();
    NamesKeyed(NoteNames, NoteReAliases);
  }

  /** After ensureGroupNotesSheet_ every field resolves to a column of the
      header whose key is one of the field's aliases; a field the seeded
      header already had keeps its column, and a missing one lands in the
      appended columns, to the right of the seeded header. */
  lemma NotesColsResolved(h: Row, data: seq<Row>)
    ensures var s := NotesSeeded(h, data);
            var found := NoteFound(HeaderKeys(s));
            var h2 := NotesHeader(h, data);
            var r := NotesCols(h, data);
            forall i :: 0 <= i < 9 ==>
              r[i].Some? && r[i].value < |h2| && HeaderKeys(h2)[r[i].value] in NoteAliases[i]
              && (found[i].Some? ==> r[i] == found[i])
              && (found[i].None? ==> r[i].value >= |s|)
  {
    var s := NotesSeeded(h, data);
    NoteNameKeys();
    NoteReAliasesWithin();
    RefoundResolvesAll(s, NoteFound(HeaderKeys(s)), NoteNames, NoteAliases, NoteReAliases);
  }

  /** A header with a non-blank cell is kept as it is: new columns only go
      to its right and its data rows are only widened. */
  lemma NotesKeepHeader(h: Row, data: seq<Row>)
    requires !BlankHeader(h)
    ensures |NotesHeader(h, data)| >= |h| && NotesHeader(h, data)[..|h|] == h
    ensures NotesData(h, data) == PadAll(data, |NotesHeader(h, data)|)
    ensures forall i :: 0 <= i < 9 && NoteFound(HeaderKeys(h))[i].Some? ==>
              NotesCols(h, data)[i] == NoteFound(HeaderKeys(h))[i]
  {
    var j :| 0 <= j < |h| && CellText(h[j]) != "";
    assert h[j] != Empty;
  }

  // ------------------------------------------------------- saveGroupNote

  /** The values saveGroupNote writes: the trimmed topic and summary, and
      Number(durationMinutes) || 0. */
  function NoteFields(topic: Cell, summary: Cell, duration: Cell): Fields {
    Fields(Text(CellText(topic)), Text(CellText(summary)), NumberOr0(duration))
  }

  /** saveGroupNote(dateStr, groupName, topic, summary, durationMinutes),
      with the new id and the current time as parameters. The matched
      row's ContactID is read as String(v || '').trim(). */
  method SaveGroupNote(sh: Sheet, dateRaw: Cell, groupRaw: Cell, topic: Cell, summary: Cell, duration: Cell,
                       uuid: string, now: Instant) returns (r: Result<Saved>)
    requires sh.Valid() && SaveSafe(sh.header, sh.data, Ymd(dateRaw), CellText(groupRaw))
    modifies sh
    ensures sh.Valid()
    ensures Ymd(dateRaw) == "" ==>
              r == Err("Missing/invalid date.") && sh.header == old(sh.header) && sh.data == old(sh.data)
    ensures Ymd(dateRaw) != "" && CellText(groupRaw) == "" ==>
              r == Err("Missing group.") && sh.header == old(sh.header) && sh.data == old(sh.data)
    ensures Ymd(dateRaw) != "" && CellText(groupRaw) != "" ==>
              var h1 := EnsuredSeedHeader(SessionRow, old(sh.header), old(sh.data));
              var d1 := EnsuredSeedData(old(sh.header), old(sh.data));
              var c := GroupColsOf(h1);
              r == Ok(SavedAs(d1, c, Ymd(dateRaw), CellText(groupRaw), OrBlank, uuid))
              && (sh.header, sh.data) == Upserted(h1, d1, c, Ymd(dateRaw), CellText(groupRaw),
                                                  NoteFields(topic, summary, duration), OrBlank, uuid, now)
  {
    var date := Ymd(dateRaw);
    var group := CellText(groupRaw);
    if date == "" {
      return Err("Missing/invalid date.");
    }
    if group == "" {
      return Err("Missing group.");
    }
    var c := EnsureGroupSessionsSheet(sh);
    var s := UpsertSession(sh, c, date, group, NoteFields(topic, summary, duration), OrBlank, uuid, now);
    r := Ok(s);
  }

  // ---------------------------------------- getLatestGroupContactSession

  /** { topic, summary, duration } of a note; a duration that is not a
      number (NaN) is None. */
  datatype Note = Note(topic: string, summary: string, duration: Option<int>)

  /** Number(v || 0). */
  function DurationOf(v: Cell): Option<int> {
    if Truthy(v) then NumberOf(v) else Some(0)
  }

  function NoteOf(row: Row, c: GroupCols): Note {
    Note(FieldText(row, c.topic), FieldText(row, c.summary), DurationOf(Get(row, c.duration)))
  }

  /** The note of the last row filed under the day and group, if any. */
  function LatestNote(data: seq<Row>, c: GroupCols, date: string, group: string): Option<Note> {
    match Last(data, SameGroup(c, date, group))
    case Some(i) => Some(NoteOf(data[i], c))
    case None => None
  }

  /** getLatestGroupContactSession(dateStr, groupName): the day and group
      are not checked for blanks; the sheet is ensured first. */
  method GetLatestGroupContactSession(sh: Sheet, dateRaw: Cell, groupRaw: Cell) returns (r: Option<Note>)
    requires sh.Valid()
    modifies sh
    ensures sh.Valid()
    ensures var h1 := EnsuredSeedHeader(SessionRow, old(sh.header), old(sh.data));
            var d1 := EnsuredSeedData(old(sh.header), old(sh.data));
            sh.header == h1 && sh.data == d1
            && r == LatestNote(d1, GroupColsOf(h1), Ymd(dateRaw), CellText(groupRaw))
  {
    var date := Ymd(dateRaw);
    var group := CellText(groupRaw);
    var c := EnsureGroupSessionsSheet(sh);
    if |sh.data| == 0 {
      return None;
    }
    var i := FindLast(sh.data, SameGroup(c, date, group));
    match i {
      case Some(k) =>
        r := Some(NoteOf(sh.data[k], c));
      case None =>
        r := None;
    }
  }

  /** A stored minute count reads back as itself, 0 included. */
  lemma DurationOfNum(n: int)
    ensures DurationOf(Num(n)) == Some(n)
  {
  }

  /** After saveGroupNote, getLatestGroupContactSession for the same day
      and group returns the trimmed topic and summary and the duration
      just saved. */
  lemma {:induction false} SaveNoteThenLatest(h: Row, data: seq<Row>, date: string, group: string,
                                              topic: Cell, summary: Cell, duration: Cell, uuid: string, now: Instant)
    requires forall i :: 0 <= i < |data| ==> |data[i]| == |h|
    requires Fits(Standard, |h|) && OnePerKey(data, Standard)
    requires date != "" && group != "" && |date| <= 10 && NoEdgeSpace(date) && NoEdgeSpace(group)
    requires uuid != "" && NoEdgeSpace(uuid)
    ensures var f := NoteFields(topic, summary, duration);
            var d2 := Upserted(h, data, Standard, date, group, f, OrBlank, uuid, now).1;
            LatestNote(d2, Standard, date, group)
              == Some(Note(CellText(topic), CellText(summary), Some(NumberOr0(duration))))
  {
    var c := Standard;
    var f := NoteFields(topic, summary, duration);
    var d2 := Upserted(h, data, c, date, group, f, OrBlank, uuid, now).1;
    var m := GroupMatch(data, c, date, group).GetOr(|data|);
    UpsertKeepsOnePerKey(h, data, date, group, f, OrBlank, uuid, now);
    UpsertSameId(h, data, date, group, f, OrBlank, uuid, now, f, uuid, now);
    FirstIsLast(d2, c, date, group, m);
    SavedCells(h, data, date, group, f, uuid, now);
    CellTextOfTrimmed(CellText(topic));
    CellTextOfTrimmed(CellText(summary));
    DurationOfNum(NumberOr0(duration));
  }

  /** The row a save leaves for the key holds the saved values. */
  lemma SavedCells(h: Row, data: seq<Row>, date: string, group: string, f: Fields, uuid: string, now: Instant)
    requires forall i :: 0 <= i < |data| ==> |data[i]| == |h|
    requires Fits(Standard, |h|) && |date| <= 10 && NoEdgeSpace(date) && NoEdgeSpace(group)
    ensures var d2 := Upserted(h, data, Standard, date, group, f, OrBlank, uuid, now).1;
            var m := GroupMatch(data, Standard, date, group).GetOr(|data|);
            m < |d2| && Get(d2[m], Standard.topic) == f.topic && Get(d2[m], Standard.summary) == f.summary
            && Get(d2[m], Standard.duration) == Num(f.minutes)
  {
    var c := Standard;
    StandardApart();
    match GroupMatch(data, c, date, group) {
      case Some(k) =>
        UpdateReads(data[k], c, Minted(data[k], c, OrBlank, uuid), f, now);
      case None =>
        NewRowReads(uuid, date, group, f, now, |h|);
    }
  }

  // --------------------------------------------------- saveFullGroupNote

  /** { ok, contactId, created, participantsAdded, mentorsAdded }. */
  datatype FullSaved = FullSaved(ok: bool, contactId: string, created: bool, participantsAdded: nat, mentorsAdded: nat)

  /** res.added || 0. */
  function AddedOr0(r: Result<nat>): nat {
    match r
    case Ok(n) => n
    case Err(_) => 0
  }

  /** The combined result once the three saves have returned. */
  function FullResult(s: Saved, parts: Result<nat>, ments: Result<nat>): (r: FullSaved)
    ensures r.ok <==> parts.Ok? && ments.Ok?
    ensures r.contactId == s.contactId && r.created == s.created
  {
    FullSaved(parts.Ok? && ments.Ok?, s.contactId, s.created, AddedOr0(parts), AddedOr0(ments))
  }

  /** saveFullGroupNote: the session save, then the participant and mentor
      link tables under the session's ContactID. A failed session save is
      returned as it is and the link tables are not touched. */
  method SaveFullGroupNote(sessions: Sheet, parts: Sheet, ments: Sheet, dateRaw: Cell, groupRaw: Cell,
                           topic: Cell, summary: Cell, duration: Cell, participants: seq<Entry>, mentors: seq<Entry>,
                           uuid: string, now: Instant) returns (r: Result<FullSaved>)
    requires sessions != parts && sessions != ments && parts != ments
    requires sessions.Valid() && parts.Valid() && ments.Valid()
    requires SaveSafe(sessions.header, sessions.data, Ymd(dateRaw), CellText(groupRaw))
    modifies sessions, parts, ments
    ensures sessions.Valid() && parts.Valid() && ments.Valid()
    ensures Ymd(dateRaw) == "" || CellText(groupRaw) == "" ==>
              r.Err? && sessions.header == old(sessions.header) && sessions.data == old(sessions.data)
              && parts.header == old(parts.header) && parts.data == old(parts.data)
              && ments.header == old(ments.header) && ments.data == old(ments.data)
    ensures Ymd(dateRaw) != "" && CellText(groupRaw) != "" ==>
              var h1 := EnsuredSeedHeader(SessionRow, old(sessions.header), old(sessions.data));
              var d1 := EnsuredSeedData(old(sessions.header), old(sessions.data));
              var s := SavedAs(d1, GroupColsOf(h1), Ymd(dateRaw), CellText(groupRaw), OrBlank, uuid);
              r == Ok(FullResult(s, LinkResult(s.contactId, participants), LinkResult(s.contactId, mentors)))
              && (sessions.header, sessions.data)
                 == Upserted(h1, d1, GroupColsOf(h1), Ymd(dateRaw), CellText(groupRaw),
                             NoteFields(topic, summary, duration), OrBlank, uuid, now)
              && ParticipantsSaved(old(parts.header), old(parts.data), parts.header, parts.data, s.contactId,
                                   participants, now)
              && MentorsSaved(old(ments.header), old(ments.data), ments.header, ments.data, s.contactId, mentors, now)
  {
    var session := SaveGroupNote(sessions, dateRaw, groupRaw, topic, summary, duration, uuid, now);
    match session {
      case Err(e) =>
        r := Err(e);
      case Ok(s) =>
        var pa := SaveGroupParticipants(parts, s.contactId, participants, now);
        var me := SaveContactMentors(ments, s.contactId, mentors, now);
        r := Ok(FullResult(s, pa, me));
    }
  }

  /** A full save under a non-blank id is ok and reports, for each link
      table, the number of distinct non-blank ids sent. */
  lemma FullSaveCounts(s: Saved, participants: seq<Entry>, mentors: seq<Entry>)
    requires s.contactId != ""
    ensures var r := FullResult(s, LinkResult(s.contactId, participants), LinkResult(s.contactId, mentors));
            r.ok && r.participantsAdded == |IncomingIds(participants)| && r.mentorsAdded == |IncomingIds(mentors)|
  {
    AddedCountsIds(s.contactId, participants);
    AddedCountsIds(s.contactId, mentors);
  }

  /** A session saved under the id the sheet returns (never blank for a
      non-blank new id) links both tables: the full save is ok. */
  lemma FullSaveOk(data: seq<Row>, c: GroupCols, date: string, group: string, uuid: string,
                   participants: seq<Entry>, mentors: seq<Entry>)
    requires uuid != ""
    ensures var s := SavedAs(data, c, date, group, OrBlank, uuid);
            FullResult(s, LinkResult(s.contactId, participants), LinkResult(s.contactId, mentors)).ok
  {
  }

  // ------------------------------------- the other global saveGroupMentors

  /** String(mentors) for an array of mentor objects: "[object Object]"
      once per element, comma-joined, and "" for an empty array. */
  function ArrayText(mentors: seq<Entry>): (t: string)
    ensures t == "" <==> mentors == []
    ensures t != "" ==> t[0] == '[' && t[|t| - 1] == ']'
    decreases |mentors|
  {
    if mentors == [] then ""
    else if |mentors| == 1 then "[object Object]"
    else ArrayText(mentors[..|mentors| - 1]) + ",[object Object]"
  }

  /** `saveGroupMentors(contactId, mentors)` when the global name is bound
      to saveGroupMentors(dateStr, groupName, mentors) of Mentors.js:153,
      on the group_note_mentors tab (h, data): the contact id is the date,
      String(mentors) is the group and the third argument is undefined,
      so no incoming ids. */
  function MentorsJsSave(h: Row, data: seq<Row>, contactId: string, mentors: seq<Entry>, today: Day)
    : (o: Mentors.Outcome<Mentors.SaveSummary>)
  {
    Mentors.SavedFor(h, data, Mentors.SaveDay(Text(contactId), today), CellText(Text(ArrayText(mentors))), [])
  }

  /** The result as saveFullGroupNote reads it: ok or not, and no `added`
      field, so `mentRes.added || 0` is 0. */
  function MentorsJsResult(o: Mentors.Outcome<Mentors.SaveSummary>): (r: Result<nat>)
    ensures r.Ok? <==> o.r.Ok?
    ensures AddedOr0(r) == 0
  {
    match o.r
    case Ok(_) => Ok(0)
    case Err(e) => Err(e)
  }

  /** The group name Mentors.js reads off the array is its text as is. */
  lemma ArrayGroupText(mentors: seq<Entry>)
    ensures CellText(Text(ArrayText(mentors))) == ArrayText(mentors)
  {
    var t := ArrayText(mentors);
    if t != [] {
      assert !IsSpace(t[0]) && !IsSpace(t[|t| - 1]);
      TrimOfTrimmed(t);
    }
    CellTextOfText(t);
  }

  /** Under that binding the full save never links a mentor to the
      contact and reports no mentor added. It fails exactly when the
      mentor list is empty ('Missing group.', the tab untouched) or the
      tab is not three columns wide (the tab is cleared and the write
      throws); otherwise it only de-duplicates the rows already filed
      under the contact id and the array text, adding no new id. The
      intended binding succeeds and counts the mentors (FullSaveCounts). */
  lemma MentorsJsBindingLosesMentors(s: Saved, participants: seq<Entry>, h: Row, data: seq<Row>,
                                     mentors: seq<Entry>, today: Day)
    requires s.contactId != ""
    ensures var o := MentorsJsSave(h, data, s.contactId, mentors, today);
            var r := FullResult(s, LinkResult(s.contactId, participants), MentorsJsResult(o));
            r.mentorsAdded == 0
            && (!r.ok <==> mentors == [] || |h| != 3)
            && (mentors == [] ==> o.header == h && o.data == data)
            && (mentors != [] && |h| != 3 ==> o.data == [] && o.header == Blanks(|h|))
            && (mentors != [] && |h| == 3 ==> o.r.Ok? && o.r.value.addedNew == 0)
  {
    ArrayGroupText(mentors);
    var d := Mentors.SaveDay(Text(s.contactId), today);
    var g := ArrayText(mentors);
    if g != "" {
      var st := Mentors.Stored(data, d, g);
      assert Mentors.IncomingIds([]) == [];
      UniqDistinct(st);
      assert Uniq([]) == [];
      assert Uniq(st) + Uniq([]) == Uniq(st);
      UniqOfDistinct(Uniq(st));
      assert Mentors.Union(st, []) == Uniq(st);
    }
  }
}
