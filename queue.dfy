// The sign-in queue kept on the `sign_in_log` sheet: one row per student
// sign-in, whose effective status (Pending, Claimed, Processed) is derived
// from its Status, ProcessedAt and ContactID cells. Mentors list a day's
// queue, claim rows, and mark them processed once a contact note exists.
module Queue {
  import opened Wrappers
  import opened Strings
  import opened Cells
  import opened Utils
  import opened Columns
  import opened Scan

  datatype Status = Pending | Claimed | Processed

  function StatusLabel(s: Status): string {
    match s
    case Pending => "Pending"
    case Claimed => "Claimed"
    case Processed => "Processed"
  }

  // ------------------------------------------------------------- columns

  /** The header written on a blank sheet. */
  const BaseHeader: seq<string> := ["Timestamp", "ID number", "First Name + Last Name", "School", "Mentor",
                                    "Status", "ClaimedBy", "ClaimedAt", "ProcessedAt", "ContactID"]

  /** The admin columns appended when missing, and their keys. */
  const AdminNames: seq<string> := ["Status", "ClaimedBy", "ClaimedAt", "ProcessedAt", "ContactID"]
  const AdminKeys: seq<string> := ["status", "claimedby", "claimedat", "processedat", "contactid"]

  const TimestampAliases: seq<string> := ["timestamp", "date", "signindate"]
  const IdAliases: seq<string> := ["idnumber", "id", "studentid", "cpsid"]
  const NameAliases: seq<string> := ["firstnamelastname", "name", "fullname", "studentname", "firstlast", "fullnamestudent"]
  const SchoolAliases: seq<string> := ["school", "site"]
  const MentorAliases: seq<string> := ["mentor", "mentorid", "staff", "advisor"]

  /** The column map C once the admin columns are guaranteed to exist. */
  datatype QueueCols = QueueCols(
    timestamp: Option<nat>, id: Option<nat>, name: Option<nat>, school: Option<nat>, mentor: Option<nat>,
    status: nat, claimedBy: nat, claimedAt: nat, processedAt: nat, contactId: nat)

  predicate OptKeyed(keys: seq<string>, col: Option<nat>, aliases: seq<string>) {
    col.Some? ==> col.value < |keys| && keys[col.value] in aliases
  }

  /** Every column points at a header cell whose key names it. */
  predicate Keyed(c: QueueCols, keys: seq<string>) {
    c.status < |keys| && keys[c.status] == "status"
    && c.claimedBy < |keys| && keys[c.claimedBy] == "claimedby"
    && c.claimedAt < |keys| && keys[c.claimedAt] == "claimedat"
    && c.processedAt < |keys| && keys[c.processedAt] == "processedat"
    && c.contactId < |keys| && keys[c.contactId] == "contactid"
    && OptKeyed(keys, c.timestamp, TimestampAliases) && OptKeyed(keys, c.id, IdAliases)
    && OptKeyed(keys, c.name, NameAliases) && OptKeyed(keys, c.school, SchoolAliases)
    && OptKeyed(keys, c.mentor, MentorAliases)
  }

  predicate OptAvoids(col: Option<nat>, k: nat) { col.Some? ==> col.value != k }

  /** No two columns share an index, so writing one never changes another. */
  predicate Distinct(c: QueueCols) {
    var admin := [c.status, c.claimedBy, c.claimedAt, c.processedAt, c.contactId];
    (forall i, j :: 0 <= i < j < 5 ==> admin[i] != admin[j])
    && (forall i :: 0 <= i < 5 ==> OptAvoids(c.timestamp, admin[i]) && OptAvoids(c.id, admin[i]))
    && (c.timestamp.Some? && c.id.Some? ==> c.timestamp.value != c.id.value)
  }

  /** Aliases of different columns never coincide. */
  lemma AliasesDisjoint()
    ensures forall a :: a in TimestampAliases ==> a !in AdminKeys && a !in IdAliases
    ensures forall a :: a in IdAliases ==> a !in AdminKeys
    ensures forall a :: a in NameAliases + SchoolAliases + MentorAliases ==> a !in AdminKeys
  {
  }

  lemma KeyedDistinct(c: QueueCols, keys: seq<string>)
    requires Keyed(c, keys)
    ensures Distinct(c)
  {
    AliasesDisjoint();
  }

  /** The header after the base columns are written over a blank one. */
  function Seeded(h: Row): (r: Row)
    ensures !BlankHeader(h) ==> r == h
    ensures BlankHeader(h) ==> |r| == if |h| < 10 then 10 else |h|
  {
    if !BlankHeader(h) then h
    else if |h| <= |BaseHeader| then TextCells(BaseHeader)
    else TextCells(BaseHeader) + h[|BaseHeader|..]
  }

  /** idx.get(...) of each admin key. */
  function AdminFound(keys: seq<string>): (r: seq<Option<nat>>)
    ensures |r| == 5 && forall i :: 0 <= i < 5 ==> r[i] == Find(keys, AdminKeys[i])
  {
    seq(5, i requires 0 <= i < 5 => Find(keys, AdminKeys[i]))
  }

  /** Each admin header name normalises to its key. */
  lemma AdminKeyOfName(i: nat)
    requires i < 5
    ensures NormKey(Trim(AdminNames[i])) == AdminKeys[i]
  {
    var w := AdminNames[i];
    var k := AdminKeys[i];
    var t := ToLower(w);
    forall j | 0 <= j < |w| ensures t[j] == k[j] { }
    NormKeyOfName(w, k);
  }

  lemma AdminKeysOfNames()
    ensures forall i :: 0 <= i < 5 ==> NormKey(Trim(AdminNames[i])) == AdminKeys[i]
  {
    forall i | 0 <= i < 5 ensures NormKey(Trim(AdminNames[i])) == AdminKeys[i] {
      AdminKeyOfName(i);
    }
  }

  /** The sign_in_log header after queue_ensureSignInLogSheet_. */
  function EnsuredHeader(h: Row): Row {
    var s := Seeded(h);
    s + TextCells(Missing(AdminFound(HeaderKeys(s)), AdminNames))
  }

  /** The admin columns after the missing ones are appended. */
  function AdminCols(h: Row): (r: seq<Option<nat>>)
    ensures |r| == 5
  {
    var s := Seeded(h);
    var found := AdminFound(HeaderKeys(s));
    Refill(found, HeaderKeys(s + TextCells(Missing(found, AdminNames))), AdminKeys)
  }

  /** Each admin column resolves, at a header cell with its key. */
  lemma AdminColsKeyed(h: Row)
    ensures var r := AdminCols(h);
            var keys2 := HeaderKeys(EnsuredHeader(h));
            forall i :: 0 <= i < 5 ==> r[i].Some? && r[i].value < |keys2| && keys2[r[i].value] == AdminKeys[i]
  {
    var s := Seeded(h);
    var found := AdminFound(HeaderKeys(s));
    var miss := Missing(found, AdminNames);
    var keys2 := HeaderKeys(s + TextCells(miss));
    AdminKeysOfNames();
    RefillResolvesAll(s, found, AdminNames, AdminKeys);
    HeaderKeysAppend(s, miss);
    var r := AdminCols(h);
    forall i | 0 <= i < 5 ensures r[i].Some? && r[i].value < |keys2| && keys2[r[i].value] == AdminKeys[i] {
      if found[i].Some? {
        assert keys2[found[i].value] == HeaderKeys(s)[found[i].value];
      }
    }
  }

  /** A column resolved on a header still points at the same key once
      cells are appended to that header. */
  lemma OptKeyedAppend(h: Row, extra: Row, col: Option<nat>, aliases: seq<string>)
    requires OptKeyed(HeaderKeys(h), col, aliases)
    ensures OptKeyed(HeaderKeys(h + extra), col, aliases)
  {
  }

  /** The column map queue_ensureSignInLogSheet_ returns: the data columns
      resolved on the (seeded) header, the admin columns refilled after
      the missing ones are appended. */
  function EnsuredCols(h: Row): (c: QueueCols)
  {
    var keys := HeaderKeys(Seeded(h));
    var r := AdminCols(h);
    AdminColsKeyed(h);
    QueueCols(Resolve(keys, TimestampAliases), Resolve(keys, IdAliases), Resolve(keys, NameAliases),
              Resolve(keys, SchoolAliases), Resolve(keys, MentorAliases),
              r[0].value, r[1].value, r[2].value, r[3].value, r[4].value)
  }

  /** Every column of the map points at a header cell of the ensured
      header whose key names it. */
  lemma EnsuredColsKeyed(h: Row)
    ensures Keyed(EnsuredCols(h), HeaderKeys(EnsuredHeader(h)))
  {
    var s := Seeded(h);
    var extra := TextCells(Missing(AdminFound(HeaderKeys(s)), AdminNames));
    var c := EnsuredCols(h);
    AdminColsKeyed(h);
    OptKeyedAppend(s, extra, c.timestamp, TimestampAliases);
    OptKeyedAppend(s, extra, c.id, IdAliases);
    OptKeyedAppend(s, extra, c.name, NameAliases);
    OptKeyedAppend(s, extra, c.school, SchoolAliases);
    OptKeyedAppend(s, extra, c.mentor, MentorAliases);
  }

  /** A column keyed "status" holds a non-blank cell, so once ensured a
      header is never reseeded. */
  lemma EnsuredNotBlank(h: Row)
    ensures !BlankHeader(EnsuredHeader(h))
  {
    var h2 := EnsuredHeader(h);
    var c := EnsuredCols(h);
    EnsuredColsKeyed(h);
    assert NormKey("") == "";
    assert HeaderKeys(h2)[c.status] == "status";
    assert CellText(h2[c.status]) != "";
  }

  /** The keys of the appended admin cells are keys of unresolved admin
      columns. */
  lemma ExtraKeys(s: Row, x: string)
    requires x in HeaderKeys(TextCells(Missing(AdminFound(HeaderKeys(s)), AdminNames)))
    ensures exists j :: 0 <= j < 5 && Find(HeaderKeys(s), AdminKeys[j]).None? && x == AdminKeys[j]
  {
    var found := AdminFound(HeaderKeys(s));
    var miss := Missing(found, AdminNames);
    var m :| 0 <= m < |miss| && HeaderKeys(TextCells(miss))[m] == x;
    MissingFrom(found, AdminNames, miss[m]);
    var j :| 0 <= j < 5 && found[j].None? && AdminNames[j] == miss[m];
    CellTextOfText(miss[m]);
    AdminKeyOfName(j);
  }

  /** On an ensured header every admin key is found. */
  lemma EnsuredFindsAdmin(h: Row)
    ensures forall i :: 0 <= i < 5 ==> AdminFound(HeaderKeys(EnsuredHeader(h)))[i].Some?
    ensures Missing(AdminFound(HeaderKeys(EnsuredHeader(h))), AdminNames) == []
  {
    var keys2 := HeaderKeys(EnsuredHeader(h));
    var r := AdminCols(h);
    AdminColsKeyed(h);
    forall i | 0 <= i < 5 ensures AdminFound(keys2)[i].Some? {
      assert keys2[r[i].value] == AdminKeys[i];
    }
  }

  /** queue_ensureSignInLogSheet_ writes nothing on an ensured sheet. */
  lemma EnsureHeaderIdempotent(h: Row)
    ensures EnsuredHeader(EnsuredHeader(h)) == EnsuredHeader(h)
  {
    var h2 := EnsuredHeader(h);
    EnsuredNotBlank(h);
    assert Seeded(h2) == h2;
    EnsuredFindsAdmin(h);
    assert h2 + TextCells([]) == h2;
  }

  /** The keys appended by the ensure are none of the data columns'
      aliases, and none of the admin keys found before. */
  lemma ExtraKeysAvoid(s: Row, x: string)
    requires x in HeaderKeys(TextCells(Missing(AdminFound(HeaderKeys(s)), AdminNames)))
    ensures x !in TimestampAliases && x !in IdAliases && x !in NameAliases
    ensures x !in SchoolAliases && x !in MentorAliases
    ensures forall i :: 0 <= i < 5 && Find(HeaderKeys(s), AdminKeys[i]).Some? ==> x != AdminKeys[i]
  {
    ExtraKeys(s, x);
    AliasesDisjoint();
  }

  /** ...and returns the same column map. */
  lemma EnsureColsIdempotent(h: Row)
    ensures EnsuredCols(EnsuredHeader(h)) == EnsuredCols(h)
  {
    var s := Seeded(h);
    var keys := HeaderKeys(s);
    var found := AdminFound(keys);
    var miss := Missing(found, AdminNames);
    var ek := HeaderKeys(TextCells(miss));
    var h2 := EnsuredHeader(h);
    var keys2 := HeaderKeys(h2);
    HeaderKeysAppend(s, miss);
    assert keys2 == keys + ek;
    EnsuredNotBlank(h);
    assert Seeded(h2) == h2;
    EnsuredFindsAdmin(h);
    forall x | x in ek
      ensures x !in TimestampAliases && x !in IdAliases && x !in NameAliases
      ensures x !in SchoolAliases && x !in MentorAliases
      ensures forall i :: 0 <= i < 5 && found[i].Some? ==> x != AdminKeys[i]
    {
      ExtraKeysAvoid(s, x);
    }
    ResolveAppendOther(keys, ek, TimestampAliases);
    ResolveAppendOther(keys, ek, IdAliases);
    ResolveAppendOther(keys, ek, NameAliases);
    ResolveAppendOther(keys, ek, SchoolAliases);
    ResolveAppendOther(keys, ek, MentorAliases);
    var r := AdminCols(h);
    var r2 := AdminCols(h2);
    AdminColsKeyed(h);
    AdminColsKeyed(h2);
    forall i | 0 <= i < 5 ensures r2[i] == r[i] {
      if found[i].Some? {
        FindAppendOther(keys, ek, AdminKeys[i]);
      }
    }
  }

  /** A header that is not blank is kept as it is: new columns only go to
      its right, and admin columns it already has keep their index. */
  lemma EnsureKeepsHeader(h: Row)
    requires !BlankHeader(h)
    ensures |EnsuredHeader(h)| >= |h| && EnsuredHeader(h)[..|h|] == h
    ensures Find(HeaderKeys(h), "status").Some? ==> EnsuredCols(h).status == Find(HeaderKeys(h), "status").value
    ensures Find(HeaderKeys(h), "contactid").Some? ==> EnsuredCols(h).contactId == Find(HeaderKeys(h), "contactid").value
    ensures Find(HeaderKeys(h), "processedat").Some? ==> EnsuredCols(h).processedAt == Find(HeaderKeys(h), "processedat").value
  {
    var found := AdminFound(HeaderKeys(h));
    assert found[0] == Find(HeaderKeys(h), "status");
    assert found[3] == Find(HeaderKeys(h), "processedat");
    assert found[4] == Find(HeaderKeys(h), "contactid");
  }

  /** queue_ensureSignInLogSheet_: seed a blank header, append the missing
      admin columns, and return the resolved column map. */
  method EnsureSignInLog(sh: Sheet) returns (c: QueueCols)
    requires sh.Valid()
    modifies sh
    ensures sh.Valid()
    ensures sh.header == EnsuredHeader(old(sh.header))
    ensures sh.data == PadAll(old(sh.data), |sh.header|)
    ensures c == EnsuredCols(old(sh.header))
  {
    ghost var h0 := sh.header;
    ghost var d0 := sh.data;
    if BlankHeader(sh.header) {
      sh.SetHeader(TextCells(BaseHeader));
    } else {
      PadAllFit(sh.data, |sh.header|);
    }
    assert sh.header == Seeded(h0);
    var keys := HeaderKeys(sh.header);
    var miss := Missing(AdminFound(keys), AdminNames);
    if miss != [] {
      var w := |sh.header|;
      sh.AppendHeaderCells(TextCells(miss));
      PadAllTwice(d0, w, |sh.header|);
    } else {
      assert sh.header + TextCells(miss) == sh.header;
    }
    var r := Refill(AdminFound(keys), HeaderKeys(sh.header), AdminKeys);
    assert r == AdminCols(h0);
    AdminColsKeyed(h0);
    c := QueueCols(Resolve(keys, TimestampAliases), Resolve(keys, IdAliases), Resolve(keys, NameAliases),
                   Resolve(keys, SchoolAliases), Resolve(keys, MentorAliases),
                   r[0].value, r[1].value, r[2].value, r[3].value, r[4].value);
  }

  // ---------------------------------------------------- effective status

  /** The status listQueue shows for a row: a set ProcessedAt means
      Processed, whatever else the row holds; otherwise a ContactID means
      Claimed; otherwise the Status text, read case-insensitively, decides,
      and anything but "claimed" or "processed" is Pending. */
  function EffectiveStatus(processedAt: Cell, contactId: Cell, status: Cell): (s: Status)
    ensures Truthy(processedAt) ==> s == Processed
    ensures !Truthy(processedAt) && CellText(contactId) != "" ==> s == Claimed
    ensures !Truthy(processedAt) && CellText(contactId) == "" ==>
              (s == Claimed <==> ToLower(Trim(StrOf(status))) == "claimed")
              && (s == Processed <==> ToLower(Trim(StrOf(status))) == "processed")
  {
    if Truthy(processedAt) then Processed
    else if CellText(contactId) != "" then Claimed
    else
      var lowered := ToLower(Trim(StrOf(status)));
      if lowered == "claimed" then Claimed
      else if lowered == "processed" then Processed
      else Pending
  }

  function RowStatus(row: Row, c: QueueCols): Status {
    EffectiveStatus(At(row, c.processedAt), At(row, c.contactId), At(row, c.status))
  }

  lemma LowerLabel(w: string, k: string)
    requires |w| == |k| && forall j :: 0 <= j < |w| ==> Lower(w[j]) == k[j]
    requires NoEdgeSpace(w)
    ensures ToLower(Trim(StrOf(Text(w)))) == k
  {
    TrimOfTrimmed(w);
  }

  /** A canonical label written to the Status cell reads back as that
      status. */
  lemma StatusLabelRoundTrip(s: Status)
    ensures EffectiveStatus(Empty, Empty, Text(StatusLabel(s))) == s
  {
    assert CellText(Empty) == "" by {
      TrimOfTrimmed("");
    }
    match s
    case Pending =>
      LowerLabel("Pending", "pending");
    case Claimed =>
      LowerLabel("Claimed", "claimed");
    case Processed =>
      LowerLabel("Processed", "processed");
  }

  /** The Status text is read ignoring case and surrounding white space. */
  lemma StatusIgnoresCase(p: Cell, ci: Cell, w: string, pre: string, post: string)
    requires AllSpace(pre) && AllSpace(post)
    ensures EffectiveStatus(p, ci, Text(pre + ToUpper(w) + post)) == EffectiveStatus(p, ci, Text(w))
  {
    LowerTrimIgnoresCaseAndSpace(w, pre, post);
  }

  // ------------------------------------------------------------ listQueue

  /** Number of leading characters of s that are ASCII letters. */
  function LetterRun(s: string): (k: nat)
    ensures k <= |s| && forall i :: 0 <= i < k ==> IsLetter(s[i])
    ensures k < |s| ==> !IsLetter(s[k])
  {
    if s != [] && IsLetter(s[0]) then 1 + LetterRun(s[1..]) else 0
  }

  /** Number of leading white-space characters of s. */
  function SpaceRun(s: string): (k: nat)
    ensures k <= |s| && forall i :: 0 <= i < k ==> IsSpace(s[i])
    ensures k < |s| ==> !IsSpace(s[k])
  {
    if s != [] && IsSpace(s[0]) then 1 + SpaceRun(s[1..]) else 0
  }

  /** /^[A-Za-z]+\s+[A-Za-z]/: the mentor cell holds a name, not an id. */
  predicate NameLike(s: string) {
    var k := LetterRun(s);
    var m := SpaceRun(s[k..]);
    k >= 1 && m >= 1 && k + m < |s| && IsLetter(s[k + m])
  }

  lemma {:induction false} LetterRunOf(a: string, rest: string)
    requires forall i :: 0 <= i < |a| ==> IsLetter(a[i])
    requires rest == [] || !IsLetter(rest[0])
    ensures LetterRun(a + rest) == |a|
    decreases |a|
  {
    if a == [] {
      assert a + rest == rest;
    } else {
      assert (a + rest)[1..] == a[1..] + rest;
      LetterRunOf(a[1..], rest);
    }
  }

  /** "First Last" style text is recognised as a mentor name. */
  lemma NameLikeOf(first: string, last: string)
    requires first != [] && forall i :: 0 <= i < |first| ==> IsLetter(first[i])
    requires last != [] && IsLetter(last[0])
    ensures NameLike(first + " " + last)
  {
    var t := " " + last;
    var s := first + t;
    assert first + " " + last == s;
    LetterRunOf(first, t);
    assert s[|first|..] == t;
    OneSpaceRun(last);
    assert s[|first| + 1] == last[0];
  }

  lemma OneSpaceRun(last: string)
    requires last != [] && IsLetter(last[0])
    ensures SpaceRun(" " + last) == 1
  {
    assert (" " + last)[1..] == last;
    assert !IsSpace(last[0]);
  }

  /** A listQueue item. */
  datatype QueueItem = QueueItem(
    rowIndex: nat, id: string, displayName: string, school: string,
    mentorId: string, mentorName: string, status: Status,
    claimedBy: string, contactId: string, mine: bool)

  /** The row's timestamp falls on the requested day and its ID is
      non-blank. */
  predicate Listed(row: Row, c: QueueCols, want: string) {
    DayKey(Get(row, c.timestamp)) == want && Str(row, c.id) != ""
  }

  /** The item for data row i (sheet row i + 2), before names are filled
      in. A mentor cell that looks like a name is the mentor's name; any
      other non-blank text is an id, upper-cased. */
  function RawItem(row: Row, i: nat, c: QueueCols, me: string): (it: QueueItem)
    ensures it.rowIndex == i + 2
  {
    var mentorRaw := Str(row, c.mentor);
    var named := mentorRaw != "" && NameLike(mentorRaw);
    var claimedBy := Str(row, Some(c.claimedBy));
    QueueItem(i + 2, Str(row, c.id), Str(row, c.name), Str(row, c.school),
              if mentorRaw != "" && !named then ToUpper(mentorRaw) else "",
              if named then mentorRaw else "",
              RowStatus(row, c), claimedBy, CellText(At(row, c.contactId)),
              me != "" && claimedBy != "" && ToLower(claimedBy) == ToLower(me))
  }

  /** it.displayName = it.displayName || nameMap.get(it.id) || it.id. */
  function Named(it: QueueItem, names: map<string, string>): (r: QueueItem)
    ensures r.rowIndex == it.rowIndex
  {
    if it.displayName != "" then it
    else it.(displayName := if it.id in names && names[it.id] != "" then names[it.id] else it.id)
  }

  function ListedTest(c: QueueCols, want: string): Row -> bool {
    (r: Row) => Listed(r, c, want)
  }

  function ItemMaker(c: QueueCols, me: string): (Row, nat) -> QueueItem {
    (r: Row, i: nat) => RawItem(r, i, c, me)
  }

  /** The items of the listed rows of data, before names are filled in,
      in sheet order. */
  function RawItems(data: seq<Row>, c: QueueCols, want: string, me: string): seq<QueueItem> {
    PickMap(data, ListedTest(c, want), ItemMaker(c, me))
  }

  function FillNames(items: seq<QueueItem>, names: map<string, string>): (r: seq<QueueItem>)
    ensures |r| == |items|
  {
    seq(|items|, k requires 0 <= k < |items| => Named(items[k], names))
  }

  /** The items listQueue returns for a requested day; names is the map
      getNamesForIds_ gives for the ids still lacking a name. */
  function QueueItems(data: seq<Row>, c: QueueCols, want: string, me: string, names: map<string, string>): seq<QueueItem> {
    FillNames(RawItems(data, c, want, me), names)
  }

  predicate ItemOfRow(it: QueueItem, row: Row, c: QueueCols, want: string, names: map<string, string>) {
    Listed(row, c, want) && it.id == Str(row, c.id) && it.status == RowStatus(row, c)
    && it.displayName != ""
    && it.displayName == (if Str(row, c.name) != "" then Str(row, c.name)
                          else if it.id in names && names[it.id] != "" then names[it.id]
                          else it.id)
  }

  /** The item of one listed row. */
  lemma RowItem(row: Row, i: nat, c: QueueCols, want: string, me: string, names: map<string, string>)
    requires Listed(row, c, want)
    ensures Named(RawItem(row, i, c, me), names).rowIndex == i + 2
    ensures ItemOfRow(Named(RawItem(row, i, c, me), names), row, c, want, names)
  {
    var it := RawItem(row, i, c, me);
    var nm := Str(row, c.name);
    var id := Str(row, c.id);
    assert it.displayName == nm && it.id == id && it.status == RowStatus(row, c);
    if nm == "" {
      assert Named(it, names).displayName == if id in names && names[id] != "" then names[id] else id;
    }
  }

  /** Items sit at sheet rows 2 .. n + 1. */
  predicate RowsWithin(items: seq<QueueItem>, n: nat) {
    forall k :: 0 <= k < |items| ==> 2 <= items[k].rowIndex < n + 2
  }

  /** Items follow the sheet order, so no row appears twice. */
  predicate InSheetOrder(items: seq<QueueItem>) {
    forall k, l :: 0 <= k < l < |items| ==> items[k].rowIndex < items[l].rowIndex
  }

  /** it is the named item of the listed row of data it points at. */
  predicate ItemAtRow(it: QueueItem, data: seq<Row>, c: QueueCols, want: string, me: string, names: map<string, string>) {
    2 <= it.rowIndex < |data| + 2
    && Listed(data[it.rowIndex - 2], c, want)
    && it == Named(RawItem(data[it.rowIndex - 2], it.rowIndex - 2, c, me), names)
  }

  predicate NamedOfRows(items: seq<QueueItem>, data: seq<Row>, c: QueueCols, want: string, me: string, names: map<string, string>) {
    forall k :: 0 <= k < |items| ==> ItemAtRow(items[k], data, c, want, me, names)
  }

  /** Every listed row of data has an item. */
  predicate CoversListed(items: seq<QueueItem>, data: seq<Row>, c: QueueCols, want: string) {
    forall i :: 0 <= i < |data| && Listed(data[i], c, want) ==>
      exists k :: 0 <= k < |items| && items[k].rowIndex == i + 2
  }

  /** Item k of listQueue is the named item of the k-th listed row. */
  lemma QueueItemAt(data: seq<Row>, c: QueueCols, want: string, me: string, names: map<string, string>, k: nat)
    requires k < |QueueItems(data, c, want, me, names)|
    ensures ItemAtRow(QueueItems(data, c, want, me, names)[k], data, c, want, me, names)
    ensures QueueItems(data, c, want, me, names)[k].rowIndex == Where(data, ListedTest(c, want))[k] + 2
  {
    QueueItemIs(data, c, want, me, names, k);
    QueueItemRow(data, c, want, me, names, k);
    RawItemsAt(data, c, want, me, k);
  }

  /** Item k is made from the k-th listed row. */
  lemma QueueItemIs(data: seq<Row>, c: QueueCols, want: string, me: string, names: map<string, string>, k: nat)
    requires k < |QueueItems(data, c, want, me, names)|
    ensures QueueItems(data, c, want, me, names)[k]
            == Named(RawItem(data[Where(data, ListedTest(c, want))[k]], Where(data, ListedTest(c, want))[k], c, me), names)
  {
    RawItemsAt(data, c, want, me, k);
    FillNamesAt(RawItems(data, c, want, me), names, k);
  }

  lemma QueueItemRow(data: seq<Row>, c: QueueCols, want: string, me: string, names: map<string, string>, k: nat)
    requires k < |QueueItems(data, c, want, me, names)|
    ensures QueueItems(data, c, want, me, names)[k].rowIndex == Where(data, ListedTest(c, want))[k] + 2
  {
    QueueItemIs(data, c, want, me, names, k);
  }

  lemma FillNamesAt(items: seq<QueueItem>, names: map<string, string>, k: nat)
    requires k < |items|
    ensures FillNames(items, names)[k] == Named(items[k], names)
  {
  }

  lemma RawItemsAt(data: seq<Row>, c: QueueCols, want: string, me: string, k: nat)
    requires k < |Where(data, ListedTest(c, want))|
    ensures Listed(data[Where(data, ListedTest(c, want))[k]], c, want)
    ensures RawItems(data, c, want, me)[k]
            == RawItem(data[Where(data, ListedTest(c, want))[k]], Where(data, ListedTest(c, want))[k], c, me)
  {
    var j := Where(data, ListedTest(c, want))[k];
    assert ListedTest(c, want)(data[j]);
    assert RawItems(data, c, want, me)[k] == ItemMaker(c, me)(data[j], j);
  }

  /** Each listQueue item is the item of a listed row, at rowIndex =
      data position + 2; what such an item holds is stated by RowItem. */
  lemma QueueItemsDescribe(data: seq<Row>, c: QueueCols, want: string, me: string, names: map<string, string>)
    ensures NamedOfRows(QueueItems(data, c, want, me, names), data, c, want, me, names)
  {
    var items := QueueItems(data, c, want, me, names);
    forall k | 0 <= k < |items|
      ensures ItemAtRow(items[k], data, c, want, me, names)
    {
      QueueItemAt(data, c, want, me, names, k);
    }
  }

  /** listQueue lists rows in sheet order, each at most once. */
  lemma QueueItemsOrdered(data: seq<Row>, c: QueueCols, want: string, me: string, names: map<string, string>)
    ensures InSheetOrder(QueueItems(data, c, want, me, names))
  {
    var idx := Where(data, ListedTest(c, want));
    var raw := RawItems(data, c, want, me);
    var items := QueueItems(data, c, want, me, names);
    forall k | 0 <= k < |items|
      ensures items[k].rowIndex == idx[k] + 2
    {
      assert raw[k] == RawItem(data[idx[k]], idx[k], c, me);
      assert items[k] == Named(raw[k], names);
    }
  }

  /** Every row of the requested day with a non-blank ID is listed. */
  lemma QueueItemsComplete(data: seq<Row>, c: QueueCols, want: string, me: string, names: map<string, string>)
    ensures CoversListed(QueueItems(data, c, want, me, names), data, c, want)
  {
    var idx := Where(data, ListedTest(c, want));
    var raw := RawItems(data, c, want, me);
    var items := QueueItems(data, c, want, me, names);
    forall i | 0 <= i < |data| && Listed(data[i], c, want)
      ensures exists k :: 0 <= k < |items| && items[k].rowIndex == i + 2
    {
      WhereMember(data, ListedTest(c, want), i);
      var k :| 0 <= k < |idx| && idx[k] == i;
      assert raw[k] == RawItem(data[i], i, c, me);
      assert items[k] == Named(raw[k], names);
    }
  }

  /** The listing loop of listQueue: one item per row of the day. */
  method CollectQueue(data: seq<Row>, c: QueueCols, want: string, me: string) returns (items: seq<QueueItem>)
    ensures items == RawItems(data, c, want, me)
  {
    items := Collect(data, ListedTest(c, want), ItemMaker(c, me));
  }

  /** The fill-in pass: a blank display name becomes the roster name, or
      else the id. */
  method FillInNames(raw: seq<QueueItem>, names: map<string, string>) returns (items: seq<QueueItem>)
    ensures items == FillNames(raw, names)
  {
    items := raw;
    var j := 0;
    while j < |items|
      invariant |items| == |raw| && 0 <= j <= |items|
      invariant forall k :: 0 <= k < j ==> items[k] == Named(raw[k], names)
      invariant forall k :: j <= k < |items| ==> items[k] == raw[k]
    {
      var it := items[j];
      if it.displayName == "" {
        var fill := if it.id in names && names[it.id] != "" then names[it.id] else it.id;
        items := items[j := it.(displayName := fill)];
      }
      j := j + 1;
    }
  }

  /** listQueue(dateStr): the requested day is the parsed date, or today. */
  method ListQueue(sh: Sheet, dateCell: Cell, today: Day, me: string, names: map<string, string>)
    returns (items: seq<QueueItem>)
    requires sh.Valid()
    modifies sh
    ensures sh.Valid()
    ensures sh.header == EnsuredHeader(old(sh.header)) && sh.data == PadAll(old(sh.data), |sh.header|)
    ensures items == QueueItems(sh.data, EnsuredCols(old(sh.header)), RequestDay(dateCell, today), me, names)
  {
    var want := RequestDay(dateCell, today);
    var c := EnsureSignInLog(sh);
    if sh.LastRow() < 2 {
      return [];
    }
    items := CollectQueue(sh.data, c, want, me);
    items := FillInNames(items, names);
  }

  /** An entry of getSignInsByDate. */
  datatype SignIn = SignIn(id: string, name: string, school: string, mentor: string, rowIndex: nat, status: Status)

  /** getSignInsByDate: listQueue's items with the mentor's name, else id. */
  function SignIns(items: seq<QueueItem>): (r: seq<SignIn>)
    ensures |r| == |items|
    ensures forall k :: 0 <= k < |items| ==>
              r[k].id == items[k].id && r[k].name == items[k].displayName && r[k].rowIndex == items[k].rowIndex
              && r[k].status == items[k].status
              && r[k].mentor == (if items[k].mentorName != "" then items[k].mentorName else items[k].mentorId)
  {
    seq(|items|, k requires 0 <= k < |items| =>
      var it := items[k];
      SignIn(it.id, it.displayName, it.school, if it.mentorName != "" then it.mentorName else it.mentorId,
             it.rowIndex, it.status))
  }

  method GetSignInsByDate(sh: Sheet, dateCell: Cell, today: Day, me: string, names: map<string, string>)
    returns (r: seq<SignIn>)
    requires sh.Valid()
    modifies sh
    ensures sh.Valid()
    ensures sh.header == EnsuredHeader(old(sh.header)) && sh.data == PadAll(old(sh.data), |sh.header|)
    ensures r == SignIns(QueueItems(sh.data, EnsuredCols(old(sh.header)), RequestDay(dateCell, today), me, names))
  {
    var items := ListQueue(sh, dateCell, today, me, names);
    r := SignIns(items);
  }
}
