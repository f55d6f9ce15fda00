// Attendance.js: the roster of one day's sign-ins per group, and the two
// single-row corrections the roster page offers (moving a member to
// another group, replacing a mistyped id).
module Attendance {
  import opened Wrappers
  import opened Strings
  import opened Cells
  import opened Utils
  import opened Scan
  import Mentors
  import SignIn

  // The attendance columns beyond those the sign-in writes.
  const AttInDb: nat := 8
  const AttConsent: nat := 9
  const AttPre: nat := 10
  const AttPost: nat := 11
  const AttShirtSize: nat := 12

  const SheetMissing: string := "Attendance sheet \"" + SignIn.AttendanceSheet + "\" not found"
  const MissingMove: string := "Missing id/from/to."
  const MissingUpdate: string := "Missing id/group."
  const NoRows: string := "No attendance rows."
  const NoMatch: string := "Matching row not found for that date/id/group."

  /** String(r[col] == null ? '' : r[col]).trim(). */
  function Read(r: Row, col: nat): string {
    Str(r, Some(col))
  }

  function RowDay(r: Row): string {
    Ymd(At(r, SignIn.AttTimestamp))
  }

  function RowId(r: Row): string {
    Read(r, SignIn.AttIdNumber)
  }

  function RowGroup(r: Row): string {
    Read(r, SignIn.AttGroup)
  }

  /** A cell past the end of a row reads as blank. */
  lemma ReadPastEnd(r: Row, col: nat)
    ensures |r| <= col ==> Read(r, col) == ""
  {
    if |r| <= col {
      assert StrOf(At(r, col)) == "";
    }
  }

  // ------------------------------------------------------------ roster

  /** One roster entry. */
  datatype Member = Member(id: string, name: string, school: string, grade: string,
                           inDb: Option<bool>, consent: Option<bool>, pre: Option<bool>, post: Option<bool>,
                           shirt: string)

  /** The entry a roster row produces: the name is first and last joined,
      or the id when both are blank; the four checkboxes go through
      toBool_, and the shirt size is read with || ''. */
  function MemberOf(r: Row): (m: Member)
    ensures m.id == RowId(r)
    ensures m.id != "" ==> m.name != ""
    ensures Read(r, SignIn.AttFirstName) == "" && Read(r, SignIn.AttLastName) == "" ==> m.name == m.id
  {
    var first := Read(r, SignIn.AttFirstName);
    var last := Read(r, SignIn.AttLastName);
    var id := RowId(r);
    NameNotBlank(first, last, id);
    Member(id, Mentors.DisplayName(first, last, id), Read(r, SignIn.AttSchool), Read(r, SignIn.AttSchoolYear),
           ToBool(At(r, AttInDb)), ToBool(At(r, AttConsent)), ToBool(At(r, AttPre)), ToBool(At(r, AttPost)),
           FieldText(r, Some(AttShirtSize)))
  }

  lemma NameNotBlank(first: string, last: string, id: string)
    ensures NoEdgeSpace(first) && NoEdgeSpace(last) && id != "" ==> Mentors.DisplayName(first, last, id) != ""
  {
    if NoEdgeSpace(first) && NoEdgeSpace(last) && id != "" {
      Mentors.DisplayNameNotBlank(first, last, id);
    }
  }

  /** The de-duplication key: id + '|' + group + '|' + day. */
  function SeenKey(id: string, group: string, day: string): string {
    id + "|" + group + "|" + day
  }

  function RowKey(r: Row): string {
    SeenKey(RowId(r), RowGroup(r), RowDay(r))
  }

  /** A row that belongs to the day's roster: signed in on that day, with
      a non-blank group and id. */
  predicate OnRoster(r: Row, day: string) {
    RowDay(r) == day && RowGroup(r) != "" && RowId(r) != ""
  }

  /** The state of the scan: the keys seen so far and the lists built. */
  datatype Tally<M> = Tally(seen: set<string>, roster: map<string, seq<M>>)

  /** What the scan does with a row: whether it is kept, its
      de-duplication key, the group it is filed under and its entry. */
  datatype Fold<-R, M> = Fold(keep: R -> bool, key: R -> string, group: R -> string, entry: R -> M)

  function ListOf<M>(m: map<string, seq<M>>, g: string): seq<M> {
    if g in m then m[g] else []
  }

  /** One iteration: a kept row whose key is new is appended to its
      group's list. */
  function StepBy<R, M>(t: Tally<M>, r: R, f: Fold<R, M>): Tally<M> {
    if !f.keep(r) || f.key(r) in t.seen then t
    else Tally(t.seen + {f.key(r)}, t.roster[f.group(r) := ListOf(t.roster, f.group(r)) + [f.entry(r)]])
  }

  function TallyBy<R, M>(rows: seq<R>, f: Fold<R, M>): Tally<M>
    decreases |rows|
  {
    if rows == [] then Tally({}, map[])
    else StepBy(TallyBy(rows[..|rows| - 1], f), rows[|rows| - 1], f)
  }

  lemma TallySnoc<R, M>(rows: seq<R>, r: R, f: Fold<R, M>)
    ensures TallyBy(rows + [r], f) == StepBy(TallyBy(rows, f), r, f)
  {
    assert (rows + [r])[..|rows|] == rows;
  }

  lemma TallyPrefix<R, M>(rows: seq<R>, i: nat, f: Fold<R, M>)
    requires i < |rows|
    ensures TallyBy(rows[..i + 1], f) == StepBy(TallyBy(rows[..i], f), rows[i], f)
  {
    assert rows[..i + 1][..i] == rows[..i];
  }

  /** Of two kept rows with one key, only the first is listed. */
  lemma TallySameKey<R, M>(r1: R, r2: R, f: Fold<R, M>)
    requires f.keep(r1) && f.keep(r2) && f.key(r1) == f.key(r2)
    ensures TallyBy([r1, r2], f).roster == map[f.group(r1) := [f.entry(r1)]]
  {
    TallySnoc([], r1, f);
    TallySnoc([r1], r2, f);
    assert [] + [r1] == [r1] && [r1] + [r2] == [r1, r2];
    assert ListOf(map[], f.group(r1)) + [f.entry(r1)] == [f.entry(r1)];
  }

  /** A step keeps every list it does not extend, and extends one by
      appending. */
  lemma StepKeeps<R, M>(t: Tally<M>, r: R, f: Fold<R, M>, g: string)
    requires g in t.roster
    ensures g in StepBy(t, r, f).roster
    ensures |t.roster[g]| <= |StepBy(t, r, f).roster[g]|
    ensures forall k :: 0 <= k < |t.roster[g]| ==> StepBy(t, r, f).roster[g][k] == t.roster[g][k]
  {
  }

  /** Every entry is the entry of a kept row filed under that group. */
  lemma {:induction false} TallySound<R, M>(rows: seq<R>, f: Fold<R, M>, g: string, k: nat) returns (i: nat)
    requires g in TallyBy(rows, f).roster && k < |TallyBy(rows, f).roster[g]|
    ensures i < |rows| && f.keep(rows[i]) && f.group(rows[i]) == g
    ensures TallyBy(rows, f).roster[g][k] == f.entry(rows[i])
    decreases |rows|
  {
    var n := |rows| - 1;
    var t0 := TallyBy(rows[..n], f);
    if f.keep(rows[n]) && f.key(rows[n]) !in t0.seen && g == f.group(rows[n]) && k == |ListOf(t0.roster, g)| {
      i := n;
    } else {
      i := TallySound(rows[..n], f, g, k);
      assert rows[..n][i] == rows[i];
    }
  }

  /** Every seen key is the key of a kept row. */
  lemma {:induction false} TallySeen<R, M>(rows: seq<R>, f: Fold<R, M>, key: string) returns (i: nat)
    requires key in TallyBy(rows, f).seen
    ensures i < |rows| && f.keep(rows[i]) && f.key(rows[i]) == key
    decreases |rows|
  {
    var n := |rows| - 1;
    if f.keep(rows[n]) && f.key(rows[n]) == key {
      i := n;
    } else {
      i := TallySeen(rows[..n], f, key);
      assert rows[..n][i] == rows[i];
    }
  }

  /** Every kept row shares its key with a kept row whose entry is listed
      in its group: the row itself, or the earlier one that took the key. */
  lemma {:induction false} TallyComplete<R, M>(rows: seq<R>, f: Fold<R, M>, i: nat) returns (j: nat, k: nat)
    requires i < |rows| && f.keep(rows[i])
    ensures j < |rows| && f.keep(rows[j]) && f.key(rows[j]) == f.key(rows[i])
    ensures f.group(rows[j]) in TallyBy(rows, f).roster
    ensures k < |TallyBy(rows, f).roster[f.group(rows[j])]|
    ensures TallyBy(rows, f).roster[f.group(rows[j])][k] == f.entry(rows[j])
    decreases |rows|
  {
    var n := |rows| - 1;
    var pre := rows[..n];
    var t0 := TallyBy(pre, f);
    if i < n {
      assert pre[i] == rows[i];
      j, k := TallyComplete(pre, f, i);
      assert pre[j] == rows[j];
      StepKeeps(t0, rows[n], f, f.group(rows[j]));
    } else if f.key(rows[n]) !in t0.seen {
      j, k := n, |ListOf(t0.roster, f.group(rows[n]))|;
    } else {
      var j0 := TallySeen(pre, f, f.key(rows[n]));
      j, k := TallyComplete(pre, f, j0);
      assert pre[j0] == rows[j0] && pre[j] == rows[j];
    }
  }

  /** When the key of a kept row can be read back from its group and
      entry, the lists are non-empty, every entry's key has been seen,
      and no two entries of one group share a key. */
  lemma {:induction false} TallyShape<R, M>(rows: seq<R>, f: Fold<R, M>, ekey: (string, M) -> string)
    requires forall j :: 0 <= j < |rows| && f.keep(rows[j]) ==> ekey(f.group(rows[j]), f.entry(rows[j])) == f.key(rows[j])
    ensures forall g :: g in TallyBy(rows, f).roster ==> TallyBy(rows, f).roster[g] != []
    ensures forall g, k :: g in TallyBy(rows, f).roster && 0 <= k < |TallyBy(rows, f).roster[g]| ==>
              ekey(g, TallyBy(rows, f).roster[g][k]) in TallyBy(rows, f).seen
    ensures forall g, k, l :: g in TallyBy(rows, f).roster && 0 <= k < l < |TallyBy(rows, f).roster[g]| ==>
              ekey(g, TallyBy(rows, f).roster[g][k]) != ekey(g, TallyBy(rows, f).roster[g][l])
    decreases |rows|
  {
    if rows != [] {
      var n := |rows| - 1;
      var r := rows[n];
      assert forall j :: 0 <= j < n ==> rows[..n][j] == rows[j];
      TallyShape(rows[..n], f, ekey);
      var t0 := TallyBy(rows[..n], f);
      if f.keep(r) && f.key(r) !in t0.seen {
        var g := f.group(r);
        var list := ListOf(t0.roster, g) + [f.entry(r)];
        assert TallyBy(rows, f).roster == t0.roster[g := list];
        forall k, l | 0 <= k < l < |list|
          ensures ekey(g, list[k]) != ekey(g, list[l])
        {
          if l == |list| - 1 {
            assert ekey(g, list[k]) in t0.seen;
          }
        }
      }
    }
  }

  /** The roster scan of Attendance.js: rows of the day with a group and
      an id, keyed by id|group|day, filed by group. */
  function RowFold(day: string): Fold<Row, Member> {
    Fold((r: Row) => OnRoster(r, day), RowKey, RowGroup, MemberOf)
  }

  /** The key of an entry filed under group g. */
  function EntryKey(day: string): (string, Member) -> string {
    (g: string, m: Member) => SeenKey(m.id, g, day)
  }

  function Tallied(rows: seq<Row>, day: string): Tally<Member> {
    TallyBy(rows, RowFold(day))
  }

  /** The groups whose list is non-empty. */
  function NonEmptyGroups<K, V>(m: map<K, seq<V>>): map<K, seq<V>> {
    map k | k in m && m[k] != [] :: m[k]
  }

  /** getRosterByDate(dateStr) on the data rows, for the day it resolves to. */
  function RosterByDate(data: seq<Row>, day: string): map<string, seq<Member>> {
    NonEmptyGroups(Tallied(data, day).roster)
  }

  /** Splitting at the first occurrence of a separator is unique. */
  lemma SplitAtSeparator(a: string, x: string, b: string, y: string, c: char)
    requires c !in a && c !in b && a + [c] + x == b + [c] + y
    ensures a == b && x == y
  {
    var s := a + [c] + x;
    var t := b + [c] + y;
    assert forall i :: 0 <= i < |a| ==> s[i] == a[i];
    assert forall i :: 0 <= i < |b| ==> t[i] == b[i];
    assert s[|a|] == c && t[|b|] == c;
    assert |a| == |b|;
    assert a == s[..|a|] && b == t[..|b|];
    assert x == s[|a| + 1..] && y == t[|b| + 1..];
  }

  /** Ids and groups without '|' never share a key. */
  lemma SeenKeyInjective(id1: string, g1: string, id2: string, g2: string, day: string)
    requires '|' !in id1 && '|' !in g1 && '|' !in id2 && '|' !in g2
    requires SeenKey(id1, g1, day) == SeenKey(id2, g2, day)
    ensures id1 == id2 && g1 == g2
  {
    assert SeenKey(id1, g1, day) == id1 + ['|'] + (g1 + "|" + day);
    assert SeenKey(id2, g2, day) == id2 + ['|'] + (g2 + "|" + day);
    SplitAtSeparator(id1, g1 + "|" + day, id2, g2 + "|" + day, '|');
    assert g1 + "|" + day == g1 + ['|'] + day;
    assert g2 + "|" + day == g2 + ['|'] + day;
    SplitAtSeparator(g1, day, g2, day, '|');
  }

  predicate NoBar(r: Row) {
    '|' !in RowId(r) && '|' !in RowGroup(r)
  }

  /** No roster row of the day has '|' in its id or group. */
  predicate NoBars(rows: seq<Row>, day: string) {
    forall j :: 0 <= j < |rows| && OnRoster(rows[j], day) ==> NoBar(rows[j])
  }

  /** An entry's key is its row's key. */
  lemma EntryKeys(rows: seq<Row>, day: string)
    ensures forall j :: 0 <= j < |rows| && RowFold(day).keep(rows[j]) ==>
              EntryKey(day)(RowFold(day).group(rows[j]), RowFold(day).entry(rows[j])) == RowFold(day).key(rows[j])
  {
  }

  /** The final filter drops nothing: every group built has an entry. */
  lemma RosterByDateIsTally(data: seq<Row>, day: string)
    ensures RosterByDate(data, day) == Tallied(data, day).roster
  {
    EntryKeys(data, day);
    TallyShape(data, RowFold(day), EntryKey(day));
  }

  /** Each listed entry is the entry of a roster row of that day and group. */
  lemma RosterSound(data: seq<Row>, day: string, g: string, k: nat) returns (i: nat)
    requires g in RosterByDate(data, day) && k < |RosterByDate(data, day)[g]|
    ensures i < |data| && RowDay(data[i]) == day && RowGroup(data[i]) == g && RowId(data[i]) != ""
    ensures RosterByDate(data, day)[g][k] == MemberOf(data[i])
  {
    RosterByDateIsTally(data, day);
    i := TallySound(data, RowFold(day), g, k);
  }

  /** A group is listed only with entries, and never with one id twice. */
  lemma RosterDistinct(data: seq<Row>, day: string, g: string)
    requires g in RosterByDate(data, day)
    ensures RosterByDate(data, day)[g] != []
    ensures forall k, l :: 0 <= k < l < |RosterByDate(data, day)[g]| ==>
              RosterByDate(data, day)[g][k].id != RosterByDate(data, day)[g][l].id
  {
    RosterByDateIsTally(data, day);
    EntryKeys(data, day);
    TallyShape(data, RowFold(day), EntryKey(day));
    var list := Tallied(data, day).roster[g];
    forall k, l | 0 <= k < l < |list| ensures list[k].id != list[l].id {
      assert EntryKey(day)(g, list[k]) != EntryKey(day)(g, list[l]);
    }
  }

  /** Every roster row of the day is listed in its group under its id,
      provided no id or group holds a '|'. */
  lemma RosterComplete(data: seq<Row>, day: string, i: nat) returns (k: nat)
    requires i < |data| && OnRoster(data[i], day) && NoBars(data, day)
    ensures RowGroup(data[i]) in RosterByDate(data, day)
    ensures k < |RosterByDate(data, day)[RowGroup(data[i])]|
    ensures RosterByDate(data, day)[RowGroup(data[i])][k].id == RowId(data[i])
  {
    RosterByDateIsTally(data, day);
    var j;
    j, k := TallyComplete(data, RowFold(day), i);
    assert NoBar(data[i]) && NoBar(data[j]);
    SeenKeyInjective(RowId(data[j]), RowGroup(data[j]), RowId(data[i]), RowGroup(data[i]), day);
  }

  /** A row of day d with only an id and a group filled in. */
  function SignedRow(d: Day, id: string, group: string): Row {
    [When(d, 0), Empty, Empty, Empty, Empty, Empty, Text(id), Text(group)]
  }

  lemma SignedRowReads(d: Day, id: string, group: string)
    requires NoEdgeSpace(id) && NoEdgeSpace(group)
    ensures RowDay(SignedRow(d, id, group)) == FormatYmd(d)
    ensures RowId(SignedRow(d, id, group)) == id && RowGroup(SignedRow(d, id, group)) == group
    ensures RowKey(SignedRow(d, id, group)) == SeenKey(id, group, FormatYmd(d))
  {
    TrimOfTrimmed(id);
    TrimOfTrimmed(group);
  }

  lemma CollidingKeys(day: string)
    ensures SeenKey("1|A", "B", day) == SeenKey("1", "A|B", day)
  {
    assert "1|A" + "|" + "B" == "1" + "|" + "A|B";
  }

  /** The joined key can collide: a row with id "1|A" in group "B" hides a
      later row with id "1" in group "A|B" from the roster. */
  lemma KeyCollisionDropsRow(d: Day)
    ensures OnRoster(SignedRow(d, "1", "A|B"), FormatYmd(d))
    ensures RosterByDate([SignedRow(d, "1|A", "B"), SignedRow(d, "1", "A|B")], FormatYmd(d)).Keys == {"B"}
  {
    var r1 := SignedRow(d, "1|A", "B");
    var r2 := SignedRow(d, "1", "A|B");
    var day := FormatYmd(d);
    SignedRowReads(d, "1|A", "B");
    SignedRowReads(d, "1", "A|B");
    CollidingKeys(day);
    var f := RowFold(day);
    assert f.keep(r1) && f.keep(r2) && f.key(r1) == f.key(r2) && f.group(r1) == "B";
    TallySameKey(r1, r2, f);
    RosterByDateIsTally([r1, r2], day);
  }

  /** Keeps the non-empty lists, one key at a time (Object.keys(roster).forEach). */
  method KeepNonEmpty<K, V>(m: map<K, seq<V>>) returns (r: map<K, seq<V>>)
    ensures r == NonEmptyGroups(m)
  {
    r := map[];
    var keys := m.Keys;
    while keys != {}
      invariant keys <= m.Keys
      invariant forall k :: k in r <==> k in m && k !in keys && m[k] != []
      invariant forall k :: k in r ==> r[k] == m[k]
      decreases keys
    {
      var k :| k in keys;
      if m[k] != [] {
        r := r[k := m[k]];
      }
      keys := keys - {k};
    }
    assert r.Keys == NonEmptyGroups(m).Keys;
  }

  lemma RosterByDateEmpty(day: string)
    ensures RosterByDate([], day) == map[]
  {
  }

  /** One pass of the roster loop: skip rows of other days, rows without a
      group or id, and repeated keys; file the rest under their group. */
  method AddRow(seen: set<string>, roster: map<string, seq<Member>>, row: Row, day: string)
    returns (seen': set<string>, roster': map<string, seq<Member>>)
    ensures Tally(seen', roster') == StepBy(Tally(seen, roster), row, RowFold(day))
  {
    seen', roster' := seen, roster;
    var rowDate := RowDay(row);
    if rowDate != day {
      return;
    }
    var group := RowGroup(row);
    var id := RowId(row);
    if group == "" || id == "" {
      return;
    }
    var key := SeenKey(id, group, rowDate);
    if key in seen {
      return;
    }
    seen' := seen + {key};
    var list := if group in roster then roster[group] else [];
    roster' := roster[group := list + [MemberOf(row)]];
  }

  /** getRosterByDate(dateStr), with the sheet (null when missing) and
      today's date as parameters. */
  method GetRosterByDate(sh: Sheet?, dateRaw: Cell, today: Day) returns (r: Result<map<string, seq<Member>>>)
    ensures sh == null ==> r == Err(SheetMissing)
    ensures sh != null ==> r == Ok(RosterByDate(sh.data, Mentors.SaveDay(dateRaw, today)))
  {
    var day := Mentors.SaveDay(dateRaw, today);
    if sh == null {
      return Err(SheetMissing);
    }
    var data := sh.data;
    if |data| == 0 {
      RosterByDateEmpty(day);
      return Ok(map[]);
    }
    var seen: set<string> := {};
    var roster: map<string, seq<Member>> := map[];
    var i := 0;
    while i < |data|
      invariant 0 <= i <= |data|
      invariant Tally(seen, roster) == Tallied(data[..i], day)
    {
      TallyPrefix(data, i, RowFold(day));
      seen, roster := AddRow(seen, roster, data[i], day);
      i := i + 1;
    }
    assert data[..i] == data;
    assert roster == Tallied(data, day).roster;
    var result := KeepNonEmpty(roster);
    r := Ok(result);
  }

  // ------------------------------------------------------- corrections

  /** (v == null ? '' : String(v)).trim(). */
  function Arg(v: Cell): string {
    Trim(StrOf(v))
  }

  /** Every data row as wide as the sheet. */
  predicate Rect(data: seq<Row>, w: nat) {
    forall k :: 0 <= k < |data| ==> |data[k]| == w
  }

  /** The row both corrections look for: that day, that id, that group. */
  function Matches(day: string, id: string, group: string): Row -> bool {
    (r: Row) => RowDay(r) == day && RowId(r) == id && RowGroup(r) == group
  }

  /** The two columns a correction writes. */
  predicate Editable(col: nat) {
    col == SignIn.AttGroup || col == SignIn.AttIdNumber
  }

  /** A matching row (non-blank id and group) reaches both columns a
      correction writes. */
  lemma MatchReaches(r: Row, day: string, id: string, group: string, col: nat)
    requires id != "" && group != "" && Matches(day, id, group)(r) && Editable(col)
    ensures col < |r|
  {
    ReadPastEnd(r, SignIn.AttGroup);
    ReadPastEnd(r, SignIn.AttIdNumber);
  }

  /** The first data row of that day, id and group, and the rows after
      v is written into its column col. */
  function Rewritten(data: seq<Row>, w: nat, day: string, id: string, group: string, col: nat, v: Cell)
    : (Option<nat>, seq<Row>)
    requires Rect(data, w) && id != "" && group != "" && Editable(col)
  {
    match First(data, Matches(day, id, group))
    case None => (None, data)
    case Some(i) =>
      MatchReaches(data[i], day, id, group, col);
      (Some(i), PutCell(data, i, col, v, w))
  }

  /** The rewrite touches the first matching row and nothing else: only
      its column col changes, to v; without a match nothing changes. */
  lemma RewrittenMeaning(data: seq<Row>, w: nat, day: string, id: string, group: string, col: nat, v: Cell)
    requires Rect(data, w) && id != "" && group != "" && Editable(col)
    ensures var (m, d) := Rewritten(data, w, day, id, group, col, v);
            m.None? ==> d == data && forall j :: 0 <= j < |data| ==> !Matches(day, id, group)(data[j])
    ensures var (m, d) := Rewritten(data, w, day, id, group, col, v);
            m.Some? ==>
              m.value < |data| && Matches(day, id, group)(data[m.value])
              && (forall j :: 0 <= j < m.value ==> !Matches(day, id, group)(data[j]))
              && |d| == |data| && (forall j :: 0 <= j < |d| && j != m.value ==> d[j] == data[j])
              && d[m.value] == data[m.value][col := v]
  {
    var (m, d) := Rewritten(data, w, day, id, group, col, v);
    if m.Some? {
      MatchReaches(data[m.value], day, id, group, col);
      PutCellInRow(data, m.value, col, v, w);
    }
  }

  /** The loop both corrections run under the document lock. */
  method RewriteFirst(sh: Sheet, day: string, id: string, group: string, col: nat, v: Cell) returns (m: Option<nat>)
    requires sh.Valid() && id != "" && group != "" && Editable(col)
    modifies sh
    ensures sh.Valid() && sh.header == old(sh.header)
    ensures (m, sh.data) == Rewritten(old(sh.data), old(sh.Width()), day, id, group, col, v)
  {
    m := FindFirst(sh.data, Matches(day, id, group));
    if m.Some? {
      MatchReaches(sh.data[m.value], day, id, group, col);
      sh.SetCell(m.value + 2, col, v);
    }
  }

  datatype Moved = Noop | Moved(row: nat, id: string, fromGroup: string, toGroup: string, date: string)

  /** moveMember once the sheet is found: the group cell of the first
      matching row is set to the new group. */
  function MovePlan(data: seq<Row>, w: nat, id: string, from: string, to: string, day: string): (Result<Moved>, seq<Row>)
    requires Rect(data, w) && id != "" && from != ""
  {
    if data == [] then (Err(NoRows), data)
    else
      match Rewritten(data, w, day, id, from, SignIn.AttGroup, Text(to))
      case (None, d) => (Err(NoMatch), d)
      case (Some(i), d) => (Ok(Moved(i + 2, id, from, to, day)), d)
  }

  /** A move finds the first row of that day, id and group, changes only
      its group cell, and leaves that row in the new group; it fails
      without a change when there are no rows or no such row. */
  lemma MovePlanMeaning(data: seq<Row>, w: nat, id: string, from: string, to: string, day: string)
    requires Rect(data, w) && id != "" && from != "" && NoEdgeSpace(to)
    ensures var (r, d) := MovePlan(data, w, id, from, to, day);
            r.Ok? ==>
              r.value.Moved? && r.value.row >= 2 && r.value.row - 2 < |data| && |d| == |data|
              && Matches(day, id, from)(data[r.value.row - 2])
              && (forall j :: 0 <= j < r.value.row - 2 ==> !Matches(day, id, from)(data[j]))
              && (forall j :: 0 <= j < |d| && j != r.value.row - 2 ==> d[j] == data[j])
              && d[r.value.row - 2] == data[r.value.row - 2][SignIn.AttGroup := Text(to)]
              && Matches(day, id, to)(d[r.value.row - 2])
    ensures var (r, d) := MovePlan(data, w, id, from, to, day);
            r.Err? ==>
              d == data && (r.error == NoRows <==> data == [])
              && (r.error == NoMatch ==> forall j :: 0 <= j < |data| ==> !Matches(day, id, from)(data[j]))
  {
    var (r, d) := MovePlan(data, w, id, from, to, day);
    if data != [] {
      RewrittenMeaning(data, w, day, id, from, SignIn.AttGroup, Text(to));
    }
    if r.Ok? {
      var i := r.value.row - 2;
      TrimOfTrimmed(to);
      assert RowGroup(d[i]) == to;
      assert RowId(d[i]) == RowId(data[i]) && RowDay(d[i]) == RowDay(data[i]);
    } else if r.error == NoRows {
      assert NoRows != NoMatch;
    }
  }

  /** moveMember(idRaw, fromGroupRaw, toGroupRaw, dateStr), with the sheet
      (null when missing) and today's date as parameters. */
  method MoveMember(sh: Sheet?, idRaw: Cell, fromRaw: Cell, toRaw: Cell, dateRaw: Cell, today: Day)
    returns (r: Result<Moved>)
    requires sh != null ==> sh.Valid()
    modifies sh
    ensures sh != null ==> sh.Valid() && sh.header == old(sh.header)
    ensures Arg(idRaw) == "" || Arg(fromRaw) == "" || Arg(toRaw) == "" ==>
              r == Err(MissingMove) && (sh != null ==> sh.data == old(sh.data))
    ensures Arg(idRaw) != "" && Arg(fromRaw) != "" && Arg(toRaw) != "" && Arg(fromRaw) == Arg(toRaw) ==>
              r == Ok(Noop) && (sh != null ==> sh.data == old(sh.data))
    ensures Arg(idRaw) != "" && Arg(fromRaw) != "" && Arg(toRaw) != "" && Arg(fromRaw) != Arg(toRaw) ==>
              if sh == null then r == Err(SheetMissing)
              else (r, sh.data) == MovePlan(old(sh.data), old(sh.Width()), Arg(idRaw), Arg(fromRaw), Arg(toRaw),
                                            Mentors.SaveDay(dateRaw, today))
  {
    var id := Arg(idRaw);
    var from := Arg(fromRaw);
    var to := Arg(toRaw);
    if id == "" || from == "" || to == "" {
      return Err(MissingMove);
    }
    if from == to {
      return Ok(Noop);
    }
    var day := Mentors.SaveDay(dateRaw, today);
    r := MoveOnSheet(sh, id, from, to, day);
  }

  /** The part of moveMember after the arguments are checked. */
  method MoveOnSheet(sh: Sheet?, id: string, from: string, to: string, day: string) returns (r: Result<Moved>)
    requires id != "" && from != "" && (sh != null ==> sh.Valid())
    modifies sh
    ensures sh == null ==> r == Err(SheetMissing)
    ensures sh != null ==>
              sh.Valid() && sh.header == old(sh.header)
              && (r, sh.data) == MovePlan(old(sh.data), old(sh.Width()), id, from, to, day)
  {
    if sh == null {
      return Err(SheetMissing);
    }
    if sh.LastRow() < 2 {
      return Err(NoRows);
    }
    ghost var d0, w0 := sh.data, sh.Width();
    var m := RewriteFirst(sh, day, id, from, SignIn.AttGroup, Text(to));
    ghost var d1 := sh.data;
    assert MovePlan(d0, w0, id, from, to, day) == (if m.Some? then Ok(Moved(m.value + 2, id, from, to, day)) else Err(NoMatch), d1);
    r := if m.Some? then Ok(Moved(m.value + 2, id, from, to, day)) else Err(NoMatch);
  }

  datatype IdChange = IdChange(row: nat, oldId: string, newId: string, group: string, date: string)

  /** updateMemberId once the sheet is found: the id cell of the first
      matching row is set to the new id. */
  function IdPlan(data: seq<Row>, w: nat, id0: string, group: string, id1: string, day: string): (Result<IdChange>, seq<Row>)
    requires Rect(data, w) && id0 != "" && group != ""
  {
    if data == [] then (Err(NoRows), data)
    else
      match Rewritten(data, w, day, id0, group, SignIn.AttIdNumber, Text(id1))
      case (None, d) => (Err(NoMatch), d)
      case (Some(i), d) => (Ok(IdChange(i + 2, id0, id1, group, day)), d)
  }

  /** An id update finds the first row of that day, id and group, changes
      only its id cell, and leaves that row under the new id; it fails
      without a change when there are no rows or no such row. */
  lemma IdPlanMeaning(data: seq<Row>, w: nat, id0: string, group: string, id1: string, day: string)
    requires Rect(data, w) && id0 != "" && group != "" && NoEdgeSpace(id1)
    ensures var (r, d) := IdPlan(data, w, id0, group, id1, day);
            r.Ok? ==>
              r.value.row >= 2 && r.value.row - 2 < |data| && |d| == |data|
              && Matches(day, id0, group)(data[r.value.row - 2])
              && (forall j :: 0 <= j < r.value.row - 2 ==> !Matches(day, id0, group)(data[j]))
              && (forall j :: 0 <= j < |d| && j != r.value.row - 2 ==> d[j] == data[j])
              && d[r.value.row - 2] == data[r.value.row - 2][SignIn.AttIdNumber := Text(id1)]
              && Matches(day, id1, group)(d[r.value.row - 2])
    ensures var (r, d) := IdPlan(data, w, id0, group, id1, day);
            r.Err? ==>
              d == data && (r.error == NoRows <==> data == [])
              && (r.error == NoMatch ==> forall j :: 0 <= j < |data| ==> !Matches(day, id0, group)(data[j]))
  {
    var (r, d) := IdPlan(data, w, id0, group, id1, day);
    if data != [] {
      RewrittenMeaning(data, w, day, id0, group, SignIn.AttIdNumber, Text(id1));
    }
    if r.Ok? {
      var i := r.value.row - 2;
      TrimOfTrimmed(id1);
      assert RowId(d[i]) == id1;
      assert RowGroup(d[i]) == RowGroup(data[i]) && RowDay(d[i]) == RowDay(data[i]);
    } else if r.error == NoRows {
      assert NoRows != NoMatch;
    }
  }

  /** updateMemberId(originalIdRaw, groupRaw, dateStr, newIdRaw), with the
      sheet (null when missing) and today's date as parameters; the
      arguments are read with String(v || '').trim(). */
  method UpdateMemberId(sh: Sheet?, idRaw: Cell, groupRaw: Cell, dateRaw: Cell, newIdRaw: Cell, today: Day)
    returns (r: Result<IdChange>)
    requires sh != null ==> sh.Valid()
    modifies sh
    ensures sh != null ==> sh.Valid() && sh.header == old(sh.header)
    ensures CellText(idRaw) == "" || CellText(groupRaw) == "" || CellText(newIdRaw) == "" ==>
              r == Err(MissingUpdate) && (sh != null ==> sh.data == old(sh.data))
    ensures CellText(idRaw) != "" && CellText(groupRaw) != "" && CellText(newIdRaw) != "" ==>
              if sh == null then r == Err(SheetMissing)
              else (r, sh.data) == IdPlan(old(sh.data), old(sh.Width()), CellText(idRaw), CellText(groupRaw),
                                          CellText(newIdRaw), Mentors.SaveDay(dateRaw, today))
  {
    var id0 := CellText(idRaw);
    var grp := CellText(groupRaw);
    var id1 := CellText(newIdRaw);
    if id0 == "" || grp == "" || id1 == "" {
      return Err(MissingUpdate);
    }
    var day := Mentors.SaveDay(dateRaw, today);
    r := UpdateOnSheet(sh, id0, grp, id1, day);
  }

  /** The part of updateMemberId after the arguments are checked. */
  method UpdateOnSheet(sh: Sheet?, id0: string, grp: string, id1: string, day: string) returns (r: Result<IdChange>)
    requires id0 != "" && grp != "" && (sh != null ==> sh.Valid())
    modifies sh
    ensures sh == null ==> r == Err(SheetMissing)
    ensures sh != null ==>
              sh.Valid() && sh.header == old(sh.header)
              && (r, sh.data) == IdPlan(old(sh.data), old(sh.Width()), id0, grp, id1, day)
  {
    if sh == null {
      return Err(SheetMissing);
    }
    if sh.LastRow() < 2 {
      return Err(NoRows);
    }
    ghost var d0, w0 := sh.data, sh.Width();
    var m := RewriteFirst(sh, day, id0, grp, SignIn.AttIdNumber, Text(id1));
    ghost var d1 := sh.data;
    assert IdPlan(d0, w0, id0, grp, id1, day) == (if m.Some? then Ok(IdChange(m.value + 2, id0, id1, grp, day)) else Err(NoMatch), d1);
    r := if m.Some? then Ok(IdChange(m.value + 2, id0, id1, grp, day)) else Err(NoMatch);
  }
}
