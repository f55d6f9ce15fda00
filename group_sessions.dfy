// The group contact sessions kept on the `group_contact_sessions` sheet:
// one row per (day, group) meeting, carrying the ContactID that links the
// meeting to its participants and mentors. Saving a note for a day and
// group updates the first matching row in place, minting an id when the
// row has none, or appends a new row.
module GroupSessions {
  import opened Wrappers
  import opened Strings
  import opened Cells
  import opened Utils
  import opened Columns
  import opened Scan

  /** The header written on an empty sheet. */
  const SessionRow: Row := [Text("ContactID"), Text("Date"), Text("Group"), Text("Topic"), Text("Summary"),
                            Text("DurationMinutes"), Text("CreatedAt"), Text("EditedAt")]

  /** The column map C; a column whose key the header lacks is None. */
  datatype GroupCols = GroupCols(contactId: Option<nat>, date: Option<nat>, group: Option<nat>, topic: Option<nat>,
                                 summary: Option<nat>, duration: Option<nat>, createdAt: Option<nat>, editedAt: Option<nat>)

  function GroupColumns(c: GroupCols): seq<Option<nat>> {
    [c.contactId, c.date, c.group, c.topic, c.summary, c.duration, c.createdAt, c.editedAt]
  }

  /** The map of the header written on an empty sheet: column k is the
      k-th name. appendRow writes rows in this order whatever the header. */
  const Standard: GroupCols := GroupCols(Some(0), Some(1), Some(2), Some(3), Some(4), Some(5), Some(6), Some(7))

  predicate Within(col: Option<nat>, w: nat) {
    col.Some? ==> col.value < w
  }

  /** Every column that is present lies inside a row w cells wide. */
  predicate Fits(c: GroupCols, w: nat) {
    Within(c.contactId, w) && Within(c.date, w) && Within(c.group, w) && Within(c.topic, w)
    && Within(c.summary, w) && Within(c.duration, w) && Within(c.createdAt, w) && Within(c.editedAt, w)
  }

  /** idxMap.get(key) of each column's key: the last header cell with that
      key, since a later duplicate replaces an earlier one in the Map. */
  function GroupColsOf(h: Row): (c: GroupCols)
    ensures Fits(c, |h|)
  {
    var keys := HeaderKeys(h);
    GroupCols(Find(keys, "contactid"), Find(keys, "date"), Find(keys, "group"), Find(keys, "topic"),
              Find(keys, "summary"), Find(keys, "durationminutes"), Find(keys, "createdat"), Find(keys, "editedat"))
  }

  // -------------------------------------------------------------- ensure

  /** ensureGroupContactSessionsSheet_: seed the header of an empty sheet,
      then map the columns by their normalised header keys. */
  method EnsureGroupSessionsSheet(sh: Sheet) returns (c: GroupCols)
    requires sh.Valid()
    modifies sh
    ensures sh.Valid()
    ensures sh.header == EnsuredSeedHeader(SessionRow, old(sh.header), old(sh.data))
    ensures sh.data == EnsuredSeedData(old(sh.header), old(sh.data))
    ensures c == GroupColsOf(sh.header)
  {
    EnsureSeeded(sh, SessionRow);
    c := GroupColsOf(sh.header);
  }

  /** The normalised keys of a seeded header: the eight column keys in
      order, then blanks. */
  predicate SeedKeys(keys: seq<string>) {
    |keys| >= 8 && keys[0] == "contactid" && keys[1] == "date" && keys[2] == "group" && keys[3] == "topic"
    && keys[4] == "summary" && keys[5] == "durationminutes" && keys[6] == "createdat" && keys[7] == "editedat"
    && forall j :: 8 <= j < |keys| ==> keys[j] == ""
  }

  lemma SeededKeys(rest: Row)
    requires forall j :: 0 <= j < |rest| ==> rest[j] == Empty
    ensures SeedKeys(HeaderKeys(SessionRow + rest))
  {
    SeededKeys01(rest);
    SeededKeys23(rest);
    SeededKeys45(rest);
    SeededKeys67(rest);
    var s := SessionRow + rest;
    var keys := HeaderKeys(s);
    forall j | 8 <= j < |keys| ensures keys[j] == "" {
      assert s[j] == rest[j - 8];
    }
  }

  lemma SeededKeys01(rest: Row)
    ensures var keys := HeaderKeys(SessionRow + rest); keys[0] == "contactid" && keys[1] == "date"
  {
    var s := SessionRow + rest;
    assert s[0] == Text("ContactID") && s[1] == Text("Date");
    KeyOfContactID();
    KeyOfDate();
  }

  lemma SeededKeys23(rest: Row)
    ensures var keys := HeaderKeys(SessionRow + rest); keys[2] == "group" && keys[3] == "topic"
  {
    var s := SessionRow + rest;
    assert s[2] == Text("Group") && s[3] == Text("Topic");
    KeyOfGroup();
    KeyOfTopic();
  }

  lemma SeededKeys45(rest: Row)
    ensures var keys := HeaderKeys(SessionRow + rest); keys[4] == "summary" && keys[5] == "durationminutes"
  {
    var s := SessionRow + rest;
    assert s[4] == Text("Summary") && s[5] == Text("DurationMinutes");
    KeyOfSummary();
    KeyOfDurationMinutes();
  }

  lemma SeededKeys67(rest: Row)
    ensures var keys := HeaderKeys(SessionRow + rest); keys[6] == "createdat" && keys[7] == "editedat"
  {
    var s := SessionRow + rest;
    assert s[6] == Text("CreatedAt") && s[7] == Text("EditedAt");
    KeyOfCreatedAt();
    KeyOfEditedAt();
  }

  lemma KeyOfDate() ensures NormKey(CellText(Text("Date"))) == "date" { NormKeyOfName("Date", "date"); }
  lemma KeyOfGroup() ensures NormKey(CellText(Text("Group"))) == "group" { NormKeyOfName("Group", "group"); }
  lemma KeyOfTopic() ensures NormKey(CellText(Text("Topic"))) == "topic" { NormKeyOfName("Topic", "topic"); }
  lemma KeyOfSummary() ensures NormKey(CellText(Text("Summary"))) == "summary" { NormKeyOfName("Summary", "summary"); }
  lemma KeyOfDurationMinutes() ensures NormKey(CellText(Text("DurationMinutes"))) == "durationminutes" {
    NormKeyOfName("DurationMinutes", "durationminutes");
  }

  /** A key found at i and at no later cell is found at i. */
  /** On a seeded sheet every column is found where the seeded header puts
      it, which is also where appendRow writes it. */
  lemma {:induction false} SeededIsStandard(h: Row)
    requires forall j :: 0 <= j < |h| ==> h[j] == Empty
    ensures GroupColsOf(Seeded(SessionRow, h)) == Standard
  {
    var rest := if |h| <= 8 then [] else h[8..];
    assert Seeded(SessionRow, h) == SessionRow + rest;
    SeededKeys(rest);
    StandardOfSeedKeys(SessionRow + rest);
  }

  /** A header whose keys are the seeded ones maps to the standard layout. */
  lemma StandardOfSeedKeys(h: Row)
    requires SeedKeys(HeaderKeys(h))
    ensures GroupColsOf(h) == Standard
  {
    FindSeedKeysLow(HeaderKeys(h));
    FindSeedKeysHigh(HeaderKeys(h));
  }

  lemma FindSeedKeysLow(keys: seq<string>)
    requires SeedKeys(keys)
    ensures Find(keys, "contactid") == Some(0) && Find(keys, "date") == Some(1)
            && Find(keys, "group") == Some(2) && Find(keys, "topic") == Some(3)
  {
    FindAt(keys, "contactid", 0);
    FindAt(keys, "date", 1);
    FindAt(keys, "group", 2);
    FindAt(keys, "topic", 3);
  }

  lemma FindSeedKeysHigh(keys: seq<string>)
    requires SeedKeys(keys)
    ensures Find(keys, "summary") == Some(4) && Find(keys, "durationminutes") == Some(5)
            && Find(keys, "createdat") == Some(6) && Find(keys, "editedat") == Some(7)
  {
    FindAt(keys, "summary", 4);
    FindAt(keys, "durationminutes", 5);
    FindAt(keys, "createdat", 6);
    FindAt(keys, "editedat", 7);
  }

  // ---------------------------------------------------------------- save

  /** What a save writes into Topic, Summary and DurationMinutes. */
  datatype Fields = Fields(topic: Cell, summary: Cell, minutes: int)

  /** How a matched row's ContactID is read: String(v).trim() through
      getRange(...).getValue(), or String(v || '').trim() from the row. */
  datatype IdRead = Plain | OrBlank

  function StoredId(row: Row, c: GroupCols, read: IdRead): string {
    match read
    case Plain => Str(row, c.contactId)
    case OrBlank => FieldText(row, c.contactId)
  }

  /** The row test of the save: ymd_(r[C.Date]) === date and
      String(r[C.Group] || '').trim() === group. */
  function SameGroup(c: GroupCols, date: string, group: string): Row -> bool {
    (row: Row) => Ymd(Get(row, c.date)) == date && FieldText(row, c.group) == group
  }

  function GroupMatch(data: seq<Row>, c: GroupCols, date: string, group: string): Option<nat> {
    First(data, SameGroup(c, date, group))
  }

  /** The id minted for a matched row: only when its stored id is blank. */
  function Minted(row: Row, c: GroupCols, read: IdRead, uuid: string): Option<string> {
    if StoredId(row, c, read) == "" then Some(uuid) else None
  }

  /** The setValue calls on a matched row, in order; the ContactID cell
      is written only when an id is minted. */
  function UpdateWrites(c: GroupCols, minted: Option<string>, f: Fields, now: Instant): seq<Write> {
    [Write(if minted.Some? then c.contactId else None, Text(minted.GetOr(""))),
     Write(c.topic, f.topic), Write(c.summary, f.summary), Write(c.duration, Num(f.minutes)), Write(c.editedAt, now)]
  }

  /** The row appendRow adds: [id, date, group, topic, summary, minutes, now, now]. */
  function NewSessionRow(uuid: string, date: string, group: string, f: Fields, now: Instant): (r: Row)
    ensures |r| == 8
  {
    [Text(uuid), Text(date), Text(group), f.topic, f.summary, Num(f.minutes), now, now]
  }

  /** The header and data rows after a save: the first matching row is
      updated in place, or the new row is appended (widening a sheet
      narrower than eight columns). */
  function Upserted(h: Row, data: seq<Row>, c: GroupCols, date: string, group: string, f: Fields,
                    read: IdRead, uuid: string, now: Instant): (Row, seq<Row>)
  {
    match GroupMatch(data, c, date, group)
    case Some(i) => (h, data[i := Apply(data[i], UpdateWrites(c, Minted(data[i], c, read, uuid), f, now))])
    case None =>
      var row := NewSessionRow(uuid, date, group, f, now);
      if 8 <= |h| then (h, data + [Pad(row, |h|)]) else (Pad(h, 8), PadAll(data, 8) + [row])
  }

  /** { ok:true, contactId, updated:true } or { ok:true, contactId, created:true }. */
  datatype Saved = Saved(contactId: string, created: bool)

  function SavedAs(data: seq<Row>, c: GroupCols, date: string, group: string, read: IdRead, uuid: string): Saved {
    match GroupMatch(data, c, date, group)
    case Some(i) => Saved(if StoredId(data[i], c, read) == "" then uuid else StoredId(data[i], c, read), false)
    case None => Saved(uuid, true)
  }

  /** Every column a matched row's update writes is in the header;
      otherwise getRange(rowIdx, NaN) throws. */
  predicate Writable(c: GroupCols) {
    c.contactId.Some? && c.topic.Some? && c.summary.Some? && c.duration.Some? && c.editedAt.Some?
  }

  /** The save does not throw: the request is refused before any lookup,
      or the sheet is seeded, or a matched row can be written. */
  predicate SaveSafe(h: Row, data: seq<Row>, date: string, group: string) {
    date == "" || group == "" || Vacant(h, data)
    || (GroupMatch(data, GroupColsOf(h), date, group).Some? ==> Writable(GroupColsOf(h)))
  }

  lemma UpdateWritesFit(c: GroupCols, w: nat, minted: Option<string>, f: Fields, now: Instant)
    requires Fits(c, w)
    ensures var ws := UpdateWrites(c, minted, f, now);
            forall k :: 0 <= k < |ws| && ws[k].col.Some? ==> ws[k].col.value < w
  {
    var cols := GroupColumns(c);
    assert cols[0] == c.contactId && cols[3] == c.topic && cols[4] == c.summary;
    assert cols[5] == c.duration && cols[7] == c.editedAt;
  }

  /** The update-or-append step shared by createOrUpdateGroupContactSession_
      and saveGroupNote, once the day, group and values are known. */
  method UpsertSession(sh: Sheet, c: GroupCols, date: string, group: string, f: Fields, read: IdRead,
                       uuid: string, now: Instant) returns (s: Saved)
    requires sh.Valid() && Fits(c, sh.Width())
    requires GroupMatch(sh.data, c, date, group).Some? ==> Writable(c)
    modifies sh
    ensures sh.Valid()
    ensures (sh.header, sh.data) == Upserted(old(sh.header), old(sh.data), c, date, group, f, read, uuid, now)
    ensures s == SavedAs(old(sh.data), c, date, group, read, uuid)
  {
    var m := FindFirst(sh.data, SameGroup(c, date, group));
    match m {
      case Some(i) =>
        var stored := StoredId(sh.data[i], c, read);
        var minted := if stored == "" then Some(uuid) else None;
        UpdateWritesFit(c, sh.Width(), minted, f, now);
        SetCells(sh, i, UpdateWrites(c, minted, f, now));
        s := Saved(if stored == "" then uuid else stored, false);
      case None =>
        var row := NewSessionRow(uuid, date, group, f, now);
        sh.AppendRow(row);
        s := Saved(uuid, true);
    }
  }

  /** topic || '': a falsy value is written as ''. */
  function OrEmpty(v: Cell): Cell {
    if Truthy(v) then v else Empty
  }

  function CreateFields(topic: Cell, summary: Cell, duration: Cell): Fields {
    Fields(OrEmpty(topic), OrEmpty(summary), NumberOr0(duration))
  }

  /** createOrUpdateGroupContactSession_(dateStr, groupName, topic, summary,
      durationMinutes), with the new id and the current time as parameters. */
  method CreateOrUpdateGroupContactSession(sh: Sheet, dateRaw: Cell, groupRaw: Cell, topic: Cell, summary: Cell,
                                           duration: Cell, uuid: string, now: Instant) returns (r: Result<Saved>)
    requires sh.Valid() && SaveSafe(sh.header, sh.data, Ymd(dateRaw), CellText(groupRaw))
    modifies sh
    ensures sh.Valid()
    ensures Ymd(dateRaw) == "" ==>
              r == Err("Missing/invalid date.") && sh.header == old(sh.header) && sh.data == old(sh.data)
    ensures Ymd(dateRaw) != "" && CellText(groupRaw) == "" ==>
              r == Err("Missing group.") && sh.header == old(sh.header) && sh.data == old(sh.data)
    ensures Ymd(dateRaw) != "" && CellText(groupRaw) != "" ==>
              var h1 := EnsuredSeedHeader(SessionRow, old(sh.header), old(sh.data));
              var d1 := EnsuredSeedData(old(sh.header), old(sh.data));
              var c := GroupColsOf(h1);
              r == Ok(SavedAs(d1, c, Ymd(dateRaw), CellText(groupRaw), Plain, uuid))
              && (sh.header, sh.data) == Upserted(h1, d1, c, Ymd(dateRaw), CellText(groupRaw),
                                                  CreateFields(topic, summary, duration), Plain, uuid, now)
  {
    var date := Ymd(dateRaw);
    var group := CellText(groupRaw);
    if date == "" {
      return Err("Missing/invalid date.");
    }
    if group == "" {
      return Err("Missing group.");
    }
    var c := EnsureGroupSessionsSheet(sh);
    var s := UpsertSession(sh, c, date, group, CreateFields(topic, summary, duration), Plain, uuid, now);
    r := Ok(s);
  }

  // ------------------------------------------------------------- lookup

  /** getContactIdForGroup_ on the rows: the ContactID of the last
      matching row, or null when it is blank or nothing matches. */
  function LastContactId(data: seq<Row>, c: GroupCols, date: string, group: string): Option<string> {
    match Last(data, SameGroup(c, date, group))
    case Some(i) => if FieldText(data[i], c.contactId) == "" then None else Some(FieldText(data[i], c.contactId))
    case None => None
  }

  /** getContactIdForGroup_(dateStr, groupName): a blank day or group gives
      null before the sheet is touched. */
  method GetContactIdForGroup(sh: Sheet, dateRaw: Cell, groupRaw: Cell) returns (r: Option<string>)
    requires sh.Valid()
    modifies sh
    ensures sh.Valid()
    ensures Ymd(dateRaw) == "" || CellText(groupRaw) == "" ==>
              r == None && sh.header == old(sh.header) && sh.data == old(sh.data)
    ensures Ymd(dateRaw) != "" && CellText(groupRaw) != "" ==>
              var h1 := EnsuredSeedHeader(SessionRow, old(sh.header), old(sh.data));
              var d1 := EnsuredSeedData(old(sh.header), old(sh.data));
              sh.header == h1 && sh.data == d1
              && r == LastContactId(d1, GroupColsOf(h1), Ymd(dateRaw), CellText(groupRaw))
  {
    var date := Ymd(dateRaw);
    var group := CellText(groupRaw);
    if date == "" || group == "" {
      return None;
    }
    var c := EnsureGroupSessionsSheet(sh);
    var i := FindLast(sh.data, SameGroup(c, date, group));
    match i {
      case Some(k) =>
        var id := FieldText(sh.data[k], c.contactId);
        r := if id == "" then None else Some(id);
      case None =>
        r := None;
    }
  }

  // -------------------------------------------------------- save lemmas

  /** The (day, group) key a row is filed under. */
  function RowKey(c: GroupCols, row: Row): (string, string) {
    (Ymd(Get(row, c.date)), FieldText(row, c.group))
  }

  lemma SameGroupIsKey(c: GroupCols, date: string, group: string, row: Row)
    ensures SameGroup(c, date, group)(row) <==> RowKey(c, row) == (date, group)
  {
  }

  /** No two rows share a key with both parts non-blank. */
  predicate OnePerKey(data: seq<Row>, c: GroupCols) {
    forall i, j :: 0 <= i < j < |data| && RowKey(c, data[i]).0 != "" && RowKey(c, data[i]).1 != ""
      ==> RowKey(c, data[i]) != RowKey(c, data[j])
  }

  /** The columns an update writes are five different columns. */
  predicate WrittenApart(c: GroupCols) {
    Apart(c.contactId, c.topic) && Apart(c.contactId, c.summary) && Apart(c.contactId, c.duration)
    && Apart(c.contactId, c.editedAt) && Apart(c.topic, c.summary) && Apart(c.topic, c.duration)
    && Apart(c.topic, c.editedAt) && Apart(c.summary, c.duration) && Apart(c.summary, c.editedAt)
    && Apart(c.duration, c.editedAt)
  }

  /** No column an update writes is col. */
  predicate KeptApart(c: GroupCols, col: Option<nat>) {
    Apart(c.contactId, col) && Apart(c.topic, col) && Apart(c.summary, col) && Apart(c.duration, col)
    && Apart(c.editedAt, col)
  }

  lemma GroupApartFields(c: GroupCols)
    requires ColumnsApart(GroupColumns(c))
    ensures WrittenApart(c) && KeptApart(c, c.date) && KeptApart(c, c.group) && KeptApart(c, c.createdAt)
  {
    var cols := GroupColumns(c);
    assert cols[0] == c.contactId && cols[1] == c.date && cols[2] == c.group && cols[3] == c.topic;
    assert cols[4] == c.summary && cols[5] == c.duration && cols[6] == c.createdAt && cols[7] == c.editedAt;
  }

  /** An update leaves a column it does not write as it was. */
  lemma UpdateKeeps(row: Row, c: GroupCols, minted: Option<string>, f: Fields, now: Instant, col: Option<nat>)
    requires KeptApart(c, col)
    ensures Get(Apply(row, UpdateWrites(c, minted, f, now)), col) == Get(row, col)
  {
    var ws := UpdateWrites(c, minted, f, now);
    ApplyFive(row, ws);
    var r1 := SetOpt(row, ws[0].col, ws[0].v);
    var r2 := SetOpt(r1, c.topic, f.topic);
    var r3 := SetOpt(r2, c.summary, f.summary);
    var r4 := SetOpt(r3, c.duration, Num(f.minutes));
    GetPast(row, ws[0].col, ws[0].v, col);
    GetPast(r1, c.topic, f.topic, col);
    GetPast(r2, c.summary, f.summary, col);
    GetPast(r3, c.duration, Num(f.minutes), col);
    GetPast(r4, c.editedAt, now, col);
  }

  /** An update leaves the saved values in the columns it writes, and the
      minted id, if any, in ContactID. */
  lemma UpdateSets(row: Row, c: GroupCols, minted: Option<string>, f: Fields, now: Instant)
    requires Writable(c) && Fits(c, |row|) && WrittenApart(c)
    ensures var r := Apply(row, UpdateWrites(c, minted, f, now));
            Get(r, c.topic) == f.topic && Get(r, c.summary) == f.summary
            && Get(r, c.duration) == Num(f.minutes) && Get(r, c.editedAt) == now
            && Get(r, c.contactId) == (if minted.Some? then Text(minted.value) else Get(row, c.contactId))
  {
    UpdateSetsId(row, c, minted, f, now);
    UpdateSetsFields(row, c, minted, f, now);
  }

  lemma UpdateSetsId(row: Row, c: GroupCols, minted: Option<string>, f: Fields, now: Instant)
    requires Writable(c) && Fits(c, |row|) && WrittenApart(c)
    ensures var r := Apply(row, UpdateWrites(c, minted, f, now));
            Get(r, c.contactId) == (if minted.Some? then Text(minted.value) else Get(row, c.contactId))
  {
    var ws := UpdateWrites(c, minted, f, now);
    ApplyFive(row, ws);
    var r1 := SetOpt(row, ws[0].col, ws[0].v);
    var r2 := SetOpt(r1, c.topic, f.topic);
    var r3 := SetOpt(r2, c.summary, f.summary);
    var r4 := SetOpt(r3, c.duration, Num(f.minutes));
    GetPast(r1, c.topic, f.topic, c.contactId);
    GetPast(r2, c.summary, f.summary, c.contactId);
    GetPast(r3, c.duration, Num(f.minutes), c.contactId);
    GetPast(r4, c.editedAt, now, c.contactId);
  }

  lemma UpdateSetsFields(row: Row, c: GroupCols, minted: Option<string>, f: Fields, now: Instant)
    requires Writable(c) && Fits(c, |row|) && WrittenApart(c)
    ensures var r := Apply(row, UpdateWrites(c, minted, f, now));
            Get(r, c.topic) == f.topic && Get(r, c.summary) == f.summary
            && Get(r, c.duration) == Num(f.minutes) && Get(r, c.editedAt) == now
  {
    var ws := UpdateWrites(c, minted, f, now);
    ApplyFive(row, ws);
    var r1 := SetOpt(row, ws[0].col, ws[0].v);
    var r2 := SetOpt(r1, c.topic, f.topic);
    var r3 := SetOpt(r2, c.summary, f.summary);
    var r4 := SetOpt(r3, c.duration, Num(f.minutes));
    GetPast(r2, c.summary, f.summary, c.topic);
    GetPast(r3, c.duration, Num(f.minutes), c.topic);
    GetPast(r4, c.editedAt, now, c.topic);
    GetPast(r3, c.duration, Num(f.minutes), c.summary);
    GetPast(r4, c.editedAt, now, c.summary);
    GetPast(r4, c.editedAt, now, c.duration);
  }

  /** An update writes Topic, Summary, DurationMinutes and EditedAt, and
      ContactID only when an id is minted; the day, group and creation
      cells keep what they held. */
  lemma UpdateReads(row: Row, c: GroupCols, minted: Option<string>, f: Fields, now: Instant)
    requires Writable(c) && Fits(c, |row|) && ColumnsApart(GroupColumns(c))
    ensures var r := Apply(row, UpdateWrites(c, minted, f, now));
            Get(r, c.topic) == f.topic && Get(r, c.summary) == f.summary
            && Get(r, c.duration) == Num(f.minutes) && Get(r, c.editedAt) == now
            && Get(r, c.contactId) == (if minted.Some? then Text(minted.value) else Get(row, c.contactId))
            && Get(r, c.date) == Get(row, c.date) && Get(r, c.group) == Get(row, c.group)
            && Get(r, c.createdAt) == Get(row, c.createdAt)
  {
    GroupApartFields(c);
    UpdateSets(row, c, minted, f, now);
    UpdateKeeps(row, c, minted, f, now, c.date);
    UpdateKeeps(row, c, minted, f, now, c.group);
    UpdateKeeps(row, c, minted, f, now, c.createdAt);
  }

  /** Widening a row keeps every cell it reads. */
  lemma PadGet(row: Row, w: nat, col: Option<nat>)
    ensures Get(Pad(row, w), col) == Get(row, col)
  {
  }

  /** The appended row reads back, through the seeded layout, as the day,
      group, id and values saved. */
  lemma NewRowReads(uuid: string, date: string, group: string, f: Fields, now: Instant, w: nat)
    requires |date| <= 10 && NoEdgeSpace(date) && NoEdgeSpace(group)
    ensures var r := Pad(NewSessionRow(uuid, date, group, f, now), w);
            RowKey(Standard, r) == (date, group) && Get(r, Standard.contactId) == Text(uuid)
            && Get(r, Standard.topic) == f.topic && Get(r, Standard.summary) == f.summary
            && Get(r, Standard.duration) == Num(f.minutes)
  {
    var row := NewSessionRow(uuid, date, group, f, now);
    PadGet(row, w, Standard.date);
    PadGet(row, w, Standard.group);
    PadGet(row, w, Standard.contactId);
    PadGet(row, w, Standard.topic);
    PadGet(row, w, Standard.summary);
    PadGet(row, w, Standard.duration);
    YmdOfKey(date);
    CellTextOfTrimmed(group);
    if group == "" {
      assert FieldText(row, Standard.group) == CellText(Text("")) == "";
    }
  }

  lemma StandardApart()
    ensures ColumnsApart(GroupColumns(Standard)) && Writable(Standard)
  {
  }

  /** The rows other than the matched one read as before (the appended
      case only pads them), and the row count grows only on an append. */
  lemma UpsertOthers(h: Row, data: seq<Row>, c: GroupCols, date: string, group: string, f: Fields,
                     read: IdRead, uuid: string, now: Instant, j: nat, col: Option<nat>)
    requires j < |data| && GroupMatch(data, c, date, group) != Some(j)
    ensures var d2 := Upserted(h, data, c, date, group, f, read, uuid, now).1;
            |d2| == (if GroupMatch(data, c, date, group).Some? then |data| else |data| + 1)
            && Get(d2[j], col) == Get(data[j], col)
  {
    if GroupMatch(data, c, date, group).None? && |h| < 8 {
      PadGet(data[j], 8, col);
    }
  }

  /** A save keeps the sheet at one row per (day, group) key: an update
      leaves every key as it was, and a row is appended only for a key no
      row has. */
  lemma {:induction false} UpsertKeepsOnePerKey(h: Row, data: seq<Row>, date: string, group: string, f: Fields,
                                                read: IdRead, uuid: string, now: Instant)
    requires forall i :: 0 <= i < |data| ==> |data[i]| == |h|
    requires Fits(Standard, |h|) && OnePerKey(data, Standard)
    requires |date| <= 10 && NoEdgeSpace(date) && NoEdgeSpace(group)
    ensures OnePerKey(Upserted(h, data, Standard, date, group, f, read, uuid, now).1, Standard)
  {
    var c := Standard;
    var d2 := Upserted(h, data, c, date, group, f, read, uuid, now).1;
    StandardApart();
    match GroupMatch(data, c, date, group) {
      case Some(m) =>
        UpdateReads(data[m], c, Minted(data[m], c, read, uuid), f, now);
        assert forall i :: 0 <= i < |data| ==> RowKey(c, d2[i]) == RowKey(c, data[i]);
      case None =>
        NewRowReads(uuid, date, group, f, now, |h|);
        forall i | 0 <= i < |data| ensures RowKey(c, d2[i]) == RowKey(c, data[i]) {
          UpsertOthers(h, data, c, date, group, f, read, uuid, now, i, c.date);
          UpsertOthers(h, data, c, date, group, f, read, uuid, now, i, c.group);
        }
        assert RowKey(c, d2[|data|]) == (date, group);
        forall i | 0 <= i < |data| ensures RowKey(c, d2[i]) != (date, group) {
          SameGroupIsKey(c, date, group, data[i]);
        }
    }
  }

  /** Saving the same (day, group) again finds the row the first save
      wrote and returns the id the first save returned, whatever id and
      values the second call brings. */
  lemma {:induction false} UpsertSameId(h: Row, data: seq<Row>, date: string, group: string, f: Fields, read: IdRead,
                                        uuid: string, now: Instant, f2: Fields, uuid2: string, now2: Instant)
    requires forall i :: 0 <= i < |data| ==> |data[i]| == |h|
    requires Fits(Standard, |h|)
    requires |date| <= 10 && NoEdgeSpace(date) && NoEdgeSpace(group)
    requires uuid != "" && NoEdgeSpace(uuid)
    ensures var d2 := Upserted(h, data, Standard, date, group, f, read, uuid, now).1;
            var s := SavedAs(data, Standard, date, group, read, uuid);
            SavedAs(d2, Standard, date, group, read, uuid2) == Saved(s.contactId, false)
            && GroupMatch(d2, Standard, date, group) == Some(GroupMatch(data, Standard, date, group).GetOr(|data|))
            && StoredId(d2[GroupMatch(data, Standard, date, group).GetOr(|data|)], Standard, read) == s.contactId
  {
    var c := Standard;
    var keep := SameGroup(c, date, group);
    var d2 := Upserted(h, data, c, date, group, f, read, uuid, now).1;
    StandardApart();
    TrimOfTrimmed(uuid);
    match GroupMatch(data, c, date, group) {
      case Some(m) =>
        var minted := Minted(data[m], c, read, uuid);
        UpdateReads(data[m], c, minted, f, now);
        assert keep(d2[m]);
        FirstAfterUpdate(data, keep, m, d2[m]);
      case None =>
        NewRowReads(uuid, date, group, f, now, |h|);
        var row := d2[|data|];
        forall i | 0 <= i < |data| ensures !keep(d2[i]) {
          UpsertOthers(h, data, c, date, group, f, read, uuid, now, i, c.date);
          UpsertOthers(h, data, c, date, group, f, read, uuid, now, i, c.group);
        }
        FirstAt(d2, keep, |data|);
    }
  }

  /** With one row per key, the first matching row is the last one. */
  lemma FirstIsLast(data: seq<Row>, c: GroupCols, date: string, group: string, m: nat)
    requires OnePerKey(data, c) && date != "" && group != ""
    requires GroupMatch(data, c, date, group) == Some(m)
    ensures Last(data, SameGroup(c, date, group)) == Some(m)
  {
    var keep := SameGroup(c, date, group);
    var l := Last(data, keep);
    SameGroupIsKey(c, date, group, data[m]);
  }

  /** Every ContactID cell holds text, as a save always writes. */
  predicate TextIds(data: seq<Row>, c: GroupCols) {
    forall i :: 0 <= i < |data| ==> Get(data[i], c.contactId).Text?
  }

  /** After a save, getContactIdForGroup_ for the same day and group finds
      the id the save returned. */
  lemma {:induction false} SaveThenLookup(h: Row, data: seq<Row>, date: string, group: string, f: Fields, read: IdRead,
                                          uuid: string, now: Instant)
    requires forall i :: 0 <= i < |data| ==> |data[i]| == |h|
    requires Fits(Standard, |h|) && OnePerKey(data, Standard) && TextIds(data, Standard)
    requires date != "" && group != "" && |date| <= 10 && NoEdgeSpace(date) && NoEdgeSpace(group)
    requires uuid != "" && NoEdgeSpace(uuid)
    ensures var d2 := Upserted(h, data, Standard, date, group, f, read, uuid, now).1;
            LastContactId(d2, Standard, date, group) == Some(SavedAs(data, Standard, date, group, read, uuid).contactId)
  {
    var c := Standard;
    var d2 := Upserted(h, data, c, date, group, f, read, uuid, now).1;
    var m := GroupMatch(data, c, date, group).GetOr(|data|);
    var s := SavedAs(data, c, date, group, read, uuid);
    UpsertKeepsOnePerKey(h, data, date, group, f, read, uuid, now);
    UpsertSameId(h, data, date, group, f, read, uuid, now, f, uuid, now);
    FirstIsLast(d2, c, date, group, m);
    StoredIdNotBlank(h, data, date, group, f, read, uuid, now);
    StoredIdText(h, data, date, group, f, read, uuid, now);
  }

  /** The id a save returns is never blank. */
  lemma StoredIdNotBlank(h: Row, data: seq<Row>, date: string, group: string, f: Fields, read: IdRead,
                         uuid: string, now: Instant)
    requires uuid != ""
    ensures SavedAs(data, Standard, date, group, read, uuid).contactId != ""
  {
  }

  /** The row a save leaves for the key holds its ContactID as text, so
      both readings of the id agree on it. */
  lemma StoredIdText(h: Row, data: seq<Row>, date: string, group: string, f: Fields, read: IdRead,
                     uuid: string, now: Instant)
    requires forall i :: 0 <= i < |data| ==> |data[i]| == |h|
    requires Fits(Standard, |h|) && TextIds(data, Standard)
    ensures var d2 := Upserted(h, data, Standard, date, group, f, read, uuid, now).1;
            var m := GroupMatch(data, Standard, date, group).GetOr(|data|);
            m < |d2| && FieldText(d2[m], Standard.contactId) == StoredId(d2[m], Standard, read)
  {
    var c := Standard;
    var d2 := Upserted(h, data, c, date, group, f, read, uuid, now).1;
    var m := GroupMatch(data, c, date, group).GetOr(|data|);
    StandardApart();
    match GroupMatch(data, c, date, group) {
      case Some(k) =>
        UpdateReads(data[k], c, Minted(data[k], c, read, uuid), f, now);
      case None =>
        PadGet(NewSessionRow(uuid, date, group, f, now), |h|, c.contactId);
    }
    var v := Get(d2[m], c.contactId);
    assert v.Text?;
    if v.s == "" {
      assert StrOr(v) == "";
    }
  }
}
